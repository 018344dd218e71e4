/**
 What the WKT text of a geometry looks like and what it determines: the
 keyword and header-suppression rules, the separator discipline of a group,
 the error cases of the entry point, balanced parentheses, and that distinct
 geometries never share a text when coordinates format unambiguously.
 */
module WktProperties {
  import opened Geometries
  import opened WktText
  import opened StringFacts
  import WktTypes

  // ---------------------------------------------------------------------------
  // Keyword and body
  // ---------------------------------------------------------------------------

  /** The keyword of each supported geometry kind. */
  function Keyword(g: Geometry): string
    requires !g.OtherGeometry?
  {
    match g
    case PointGeometry(_) => WktTypes.POINT
    case MultiPointGeometry(_) => WktTypes.MULTI_POINT
    case LineStringGeometry(_) => WktTypes.LINE_STRING
    case PolygonGeometry(_) => WktTypes.POLYGON
    case MultiPolygonGeometry(_) => WktTypes.MULTI_POLYGON
  }

  /** The parenthesised part of a supported geometry's text, after keyword and space. */
  function Body(fmt: Formatter, g: Geometry): string
    requires !g.OtherGeometry?
  {
    match g
    case PointGeometry(p) => "(" + PointText(fmt, p) + ")"
    case MultiPointGeometry(mp) => CoordinateGroup(fmt, mp.points)
    case LineStringGeometry(ls) => LineStringBody(fmt, ls)
    case PolygonGeometry(pg) => PolygonBody(fmt, pg)
    case MultiPolygonGeometry(mpg) => "(" + Join(PolygonBodies(fmt, mpg.polygons)) + ")"
  }

  /**
   Exactly the five known kinds are written; any other kind is refused with
   its type name and no text.
   */
  lemma RenderRefusesUnknownKinds(fmt: Formatter, g: Geometry)
    ensures Render(fmt, g).Ok? <==> !g.OtherGeometry?
    ensures g.OtherGeometry? ==> Render(fmt, g) == Err(NotSupportedGeometryType(g.typeName))
  {
  }

  /**
   Every text of a supported geometry is its keyword, one space and a body
   that opens with a parenthesis and closes with one.
   */
  lemma RenderIsKeywordSpaceBody(fmt: Formatter, g: Geometry)
    requires !g.OtherGeometry?
    ensures Render(fmt, g) == Ok(Keyword(g) + " " + Body(fmt, g))
    ensures |Body(fmt, g)| >= 2 && Body(fmt, g)[0] == '(' && Body(fmt, g)[|Body(fmt, g)| - 1] == ')'
  {
    assert " (" == " " + "(";
    match g
    case PointGeometry(p) =>
      var k, t := Keyword(g), PointText(fmt, p);
      Assoc(k, " ", "(");
      Assoc(k + " ", "(", t);
      Assoc(k + " ", "(" + t, ")");
    case MultiPointGeometry(mp) =>
      var k, t := Keyword(g), Join(PointTexts(fmt, mp.points));
      Assoc(k, " ", "(");
      Assoc(k + " ", "(", t);
      Assoc(k + " ", "(" + t, ")");
    case LineStringGeometry(_) =>
    case PolygonGeometry(_) =>
    case MultiPolygonGeometry(mpg) =>
      var k, t := Keyword(g), Join(PolygonBodies(fmt, mpg.polygons));
      Assoc(k, " ", "(");
      Assoc(k + " ", "(", t);
      Assoc(k + " ", "(" + t, ")");
  }

  // ---------------------------------------------------------------------------
  // The entry point
  // ---------------------------------------------------------------------------

  /**
   A null geometry, or one that reports itself invalid, is refused with the
   invalid-geometry error and no text; an unknown kind is refused with its
   type name; text is produced exactly for a valid geometry of a known kind,
   and it is the geometry's rendering.
   */
  lemma WrittenErrors(fmt: Formatter, isValid: Geometry -> bool, geometry: Option<Geometry>)
    ensures (geometry.None? || !isValid(geometry.value)) ==> Written(fmt, isValid, geometry) == Err(InvalidGeometry)
    ensures Written(fmt, isValid, geometry) == Err(InvalidGeometry) ==> geometry.None? || !isValid(geometry.value)
    ensures Written(fmt, isValid, geometry).Ok? <==>
      geometry.Some? && isValid(geometry.value) && !geometry.value.OtherGeometry?
    ensures Written(fmt, isValid, geometry).Ok? ==> Written(fmt, isValid, geometry) == Render(fmt, geometry.value)
  {
  }

  // ---------------------------------------------------------------------------
  // The five forms
  // ---------------------------------------------------------------------------

  /** A point is its keyword and its coordinate pair in one pair of parentheses. */
  lemma PointForm(fmt: Formatter, p: Point)
    ensures Render(fmt, PointGeometry(p)) ==
      Ok("POINT (" + fmt(p.longitude) + " " + fmt(p.latitude) + ")")
  {
    var a, b := fmt(p.longitude), fmt(p.latitude);
    assert WktTypes.POINT + " (" == "POINT (";
    Assoc("POINT (", a, " ");
    Assoc("POINT (", a + " ", b);
  }

  /**
   A line string written at top level is its keyword and a space followed by
   exactly the keyword-less text used for a ring, which opens with a parenthesis.
   */
  lemma LineStringHeader(fmt: Formatter, ls: LineString)
    ensures Render(fmt, LineStringGeometry(ls)) == Ok("LINESTRING " + LineStringBody(fmt, ls))
    ensures LineStringBody(fmt, ls)[0] == '('
  {
    assert WktTypes.LINE_STRING + " " == "LINESTRING ";
    Assoc(WktTypes.LINE_STRING, " ", LineStringBody(fmt, ls));
  }

  /** The same for a polygon and the keyword-less text used inside a multipolygon. */
  lemma PolygonHeader(fmt: Formatter, pg: Polygon)
    ensures Render(fmt, PolygonGeometry(pg)) == Ok("POLYGON " + PolygonBody(fmt, pg))
    ensures PolygonBody(fmt, pg)[0] == '('
  {
    assert WktTypes.POLYGON + " " == "POLYGON ";
    Assoc(WktTypes.POLYGON, " ", PolygonBody(fmt, pg));
  }

  /**
   A polygon is its keyword and the comma-separated list of its rings, each
   ring being the ring's own top-level text with "LINESTRING " taken off.
   */
  lemma PolygonNesting(fmt: Formatter, pg: Polygon)
    ensures Render(fmt, PolygonGeometry(pg)) ==
      Ok("POLYGON (" + Join(RingBodies(fmt, pg.rings)) + ")")
    ensures forall k :: 0 <= k < |pg.rings| ==>
      Render(fmt, LineStringGeometry(pg.rings[k])) == Ok("LINESTRING " + RingBodies(fmt, pg.rings)[k])
  {
    var t := Join(RingBodies(fmt, pg.rings));
    assert "POLYGON " + "(" == "POLYGON (";
    PolygonHeader(fmt, pg);
    Assoc("POLYGON ", "(", t);
    Assoc("POLYGON ", "(" + t, ")");
    forall k | 0 <= k < |pg.rings|
      ensures Render(fmt, LineStringGeometry(pg.rings[k])) == Ok("LINESTRING " + RingBodies(fmt, pg.rings)[k])
    {
      LineStringHeader(fmt, pg.rings[k]);
    }
  }

  /**
   A multipolygon is its keyword and the comma-separated list of its polygons,
   each being the polygon's own top-level text with "POLYGON " taken off.
   */
  lemma MultiPolygonNesting(fmt: Formatter, mpg: MultiPolygon)
    ensures Render(fmt, MultiPolygonGeometry(mpg)) ==
      Ok("MULTIPOLYGON (" + Join(PolygonBodies(fmt, mpg.polygons)) + ")")
    ensures forall k :: 0 <= k < |mpg.polygons| ==>
      Render(fmt, PolygonGeometry(mpg.polygons[k])) == Ok("POLYGON " + PolygonBodies(fmt, mpg.polygons)[k])
  {
    assert WktTypes.MULTI_POLYGON + " (" == "MULTIPOLYGON (";
    forall k | 0 <= k < |mpg.polygons|
      ensures Render(fmt, PolygonGeometry(mpg.polygons[k])) == Ok("POLYGON " + PolygonBodies(fmt, mpg.polygons)[k])
    {
      PolygonHeader(fmt, mpg.polygons[k]);
    }
  }

  /** A polygon with two rings shows both ring texts, separated once. */
  lemma TwoRingPolygon(fmt: Formatter, r0: LineString, r1: LineString)
    ensures Render(fmt, PolygonGeometry(Polygon([r0, r1]))) ==
      Ok("POLYGON (" + LineStringBody(fmt, r0) + ", " + LineStringBody(fmt, r1) + ")")
  {
    var b0, b1 := LineStringBody(fmt, r0), LineStringBody(fmt, r1);
    var bodies := RingBodies(fmt, [r0, r1]);
    assert bodies[1..] == [b1];
    assert Join(bodies) == b0 + ", " + b1;
    PolygonNesting(fmt, Polygon([r0, r1]));
    Assoc("POLYGON (", b0, ", ");
    Assoc("POLYGON (", b0 + ", ", b1);
  }

  /** A composite with no elements is its keyword followed by " ()". */
  lemma EmptyComposites(fmt: Formatter)
    ensures Render(fmt, MultiPointGeometry(MultiPoint([]))) == Ok("MULTIPOINT ()")
    ensures Render(fmt, LineStringGeometry(LineString([]))) == Ok("LINESTRING ()")
    ensures Render(fmt, PolygonGeometry(Polygon([]))) == Ok("POLYGON ()")
    ensures Render(fmt, MultiPolygonGeometry(MultiPolygon([]))) == Ok("MULTIPOLYGON ()")
  {
    assert Join(PointTexts(fmt, [])) == "";
    assert Join(RingBodies(fmt, [])) == "";
    assert Join(PolygonBodies(fmt, [])) == "";
    assert WktTypes.MULTI_POINT + " (" + "" + ")" == "MULTIPOINT ()";
    assert WktTypes.LINE_STRING + " " + ("(" + "" + ")") == "LINESTRING ()";
    assert WktTypes.POLYGON + " " + ("(" + "" + ")") == "POLYGON ()";
    assert WktTypes.MULTI_POLYGON + " (" + "" + ")" == "MULTIPOLYGON ()";
  }

  // ---------------------------------------------------------------------------
  // Separators
  // ---------------------------------------------------------------------------

  /** The number of occurrences of `c` in `s`. */
  function Count(c: char, s: string): nat {
    multiset(s)[c]
  }

  /**
   A joined list starts with its first element and ends with its last: no
   separator leads or trails.
   */
  lemma {:induction false} JoinEnds(items: seq<string>)
    requires |items| > 0
    ensures |Join(items)| >= |items[0]| && Join(items)[..|items[0]|] == items[0]
    ensures |Join(items)| >= |items[|items| - 1]|
    ensures Join(items)[|Join(items)| - |items[|items| - 1]|..] == items[|items| - 1]
    decreases |items|
  {
    if |items| > 1 {
      var rest := Join(items[1..]);
      JoinEnds(items[1..]);
      assert items[1..][|items[1..]| - 1] == items[|items| - 1];
      var whole := items[0] + SEPARATOR + rest;
      assert whole[..|items[0]|] == items[0];
      assert whole[|whole| - |items[|items| - 1]|..] == rest[|rest| - |items[|items| - 1]|..];
    }
  }

  /** Between n comma-free elements a join puts exactly n - 1 commas. */
  lemma {:induction false} JoinCommaCount(items: seq<string>)
    requires forall k :: 0 <= k < |items| ==> ',' !in items[k]
    ensures Count(',', Join(items)) == if |items| == 0 then 0 else |items| - 1
    decreases |items|
  {
    if |items| > 1 {
      JoinCommaCount(items[1..]);
      assert multiset(SEPARATOR)[','] == 1;
    } else if |items| == 1 {
      assert ',' !in multiset(items[0]);
    }
  }

  /** A character that delimits the parts of a WKT text. */
  predicate IsDelimiter(c: char) {
    c == ',' || c == '(' || c == ')' || c == ' '
  }

  /**
   The number formatter never produces a delimiter: no comma, parenthesis or
   space (invariant-culture number text has none).
   */
  ghost predicate DelimiterFree(fmt: Formatter) {
    forall x: real, k :: 0 <= k < |fmt(x)| ==> !IsDelimiter(fmt(x)[k])
  }

  /**
   Distinct numbers of `xs` get distinct texts. (No formatter is one-to-one on
   all reals, since there are only countably many strings; the coordinates of
   the geometries at hand are all the injectivity lemmas need.)
   */
  ghost predicate InjectiveOn(fmt: Formatter, xs: set<real>) {
    forall x, y :: x in xs && y in xs && fmt(x) == fmt(y) ==> x == y
  }

  lemma InjectiveOnSubset(fmt: Formatter, xs: set<real>, ys: set<real>)
    requires xs <= ys && InjectiveOn(fmt, ys)
    ensures InjectiveOn(fmt, xs)
  {
  }

  /** The two numbers of a point. */
  function PointCoordinates(p: Point): set<real> {
    {p.longitude, p.latitude}
  }

  /** Every number occurring in `points`. */
  function PointsCoordinates(points: seq<Point>): set<real>
    decreases |points|
  {
    if |points| == 0 then {} else PointCoordinates(points[0]) + PointsCoordinates(points[1..])
  }

  /** Every number occurring in `rings`. */
  function RingsCoordinates(rings: seq<LineString>): set<real>
    decreases |rings|
  {
    if |rings| == 0 then {} else PointsCoordinates(rings[0].points) + RingsCoordinates(rings[1..])
  }

  /** Every number occurring in `polygons`. */
  function PolygonsCoordinates(polygons: seq<Polygon>): set<real>
    decreases |polygons|
  {
    if |polygons| == 0 then {} else RingsCoordinates(polygons[0].rings) + PolygonsCoordinates(polygons[1..])
  }

  /** Every number occurring in a geometry; none in one of an unknown kind. */
  function Coordinates(g: Geometry): set<real> {
    match g
    case PointGeometry(p) => PointCoordinates(p)
    case MultiPointGeometry(mp) => PointsCoordinates(mp.points)
    case LineStringGeometry(ls) => PointsCoordinates(ls.points)
    case PolygonGeometry(pg) => RingsCoordinates(pg.rings)
    case MultiPolygonGeometry(mpg) => PolygonsCoordinates(mpg.polygons)
    case OtherGeometry(_) => {}
  }

  lemma {:induction false} PointsCoordinatesHas(points: seq<Point>, k: nat)
    requires k < |points|
    ensures PointCoordinates(points[k]) <= PointsCoordinates(points)
    decreases |points|
  {
    if k > 0 {
      PointsCoordinatesHas(points[1..], k - 1);
      assert points[1..][k - 1] == points[k];
    }
  }

  lemma {:induction false} RingsCoordinatesHas(rings: seq<LineString>, k: nat)
    requires k < |rings|
    ensures PointsCoordinates(rings[k].points) <= RingsCoordinates(rings)
    decreases |rings|
  {
    if k > 0 {
      RingsCoordinatesHas(rings[1..], k - 1);
      assert rings[1..][k - 1] == rings[k];
    }
  }

  lemma {:induction false} PolygonsCoordinatesHas(polygons: seq<Polygon>, k: nat)
    requires k < |polygons|
    ensures RingsCoordinates(polygons[k].rings) <= PolygonsCoordinates(polygons)
    decreases |polygons|
  {
    if k > 0 {
      PolygonsCoordinatesHas(polygons[1..], k - 1);
      assert polygons[1..][k - 1] == polygons[k];
    }
  }

  /**
   A coordinate group of n points is one pair of parentheses around n pairs
   with n - 1 commas between them.
   */
  lemma CoordinateGroupCounts(fmt: Formatter, points: seq<Point>)
    requires DelimiterFree(fmt)
    ensures var g := CoordinateGroup(fmt, points);
      && Count(',', g) == (if |points| == 0 then 0 else |points| - 1)
      && Count('(', g) == 1 && Count(')', g) == 1
      && g[0] == '(' && g[|g| - 1] == ')'
  {
    var texts := PointTexts(fmt, points);
    forall k | 0 <= k < |texts| ensures ',' !in texts[k] && Flat(texts[k]) {
      PointTextFlat(fmt, points[k]);
    }
    JoinCommaCount(texts);
    JoinFlatParens(texts);
  }

  // ---------------------------------------------------------------------------
  // Parenthesis depth
  // ---------------------------------------------------------------------------

  /** Opening minus closing parentheses. */
  function Depth(s: string): int {
    Count('(', s) - Count(')', s)
  }

  /** As many closing as opening parentheses, and never a closing one too many. */
  ghost predicate Balanced(s: string) {
    Depth(s) == 0 && forall i :: 0 <= i <= |s| ==> Depth(s[..i]) >= 0
  }

  /** A balanced text whose commas all lie inside parentheses: a list element. */
  ghost predicate IsItem(s: string) {
    Balanced(s) && forall i :: 0 <= i < |s| && s[i] == ',' ==> Depth(s[..i]) > 0
  }

  /** No parenthesis. */
  ghost predicate ParenFree(s: string) {
    forall k :: 0 <= k < |s| ==> s[k] != '(' && s[k] != ')'
  }

  /** No parenthesis and no comma. */
  ghost predicate Flat(s: string) {
    ParenFree(s) && ',' !in s
  }

  lemma ParenFreeBalanced(s: string)
    requires ParenFree(s)
    ensures Balanced(s) && Count('(', s) == 0 && Count(')', s) == 0
  {
    forall i | 0 <= i <= |s| ensures Count('(', s[..i]) == 0 && Count(')', s[..i]) == 0 {
      assert '(' !in s[..i] && ')' !in s[..i];
    }
    assert s[..|s|] == s;
  }

  lemma FlatIsItem(s: string)
    requires Flat(s)
    ensures IsItem(s) && Count('(', s) == 0 && Count(')', s) == 0
  {
    ParenFreeBalanced(s);
  }

  lemma SeparatorParenFree()
    ensures ParenFree(SEPARATOR) && Count('(', SEPARATOR) == 0 && Count(')', SEPARATOR) == 0
  {
    assert SEPARATOR[0] == ',' && SEPARATOR[1] == ' ';
    ParenFreeBalanced(SEPARATOR);
  }

  lemma PointTextFlat(fmt: Formatter, p: Point)
    requires DelimiterFree(fmt)
    ensures Flat(PointText(fmt, p)) && ',' !in PointText(fmt, p) && |PointText(fmt, p)| > 0
  {
    var a, b := fmt(p.longitude), fmt(p.latitude);
    var t := a + " " + b;
    forall k | 0 <= k < |t| ensures t[k] != '(' && t[k] != ')' && t[k] != ',' && t[k] == PointText(fmt, p)[k] {
      if k < |a| {
        assert t[k] == a[k];
      } else if k > |a| {
        assert t[k] == b[k - |a| - 1];
      }
    }
  }

  /** Joining flat texts adds no parenthesis. */
  lemma {:induction false} JoinFlatParens(items: seq<string>)
    requires forall k :: 0 <= k < |items| ==> Flat(items[k])
    ensures Count('(', Join(items)) == 0 && Count(')', Join(items)) == 0
    decreases |items|
  {
    if |items| == 1 {
      FlatIsItem(items[0]);
    } else if |items| > 1 {
      FlatIsItem(items[0]);
      SeparatorParenFree();
      JoinFlatParens(items[1..]);
    }
  }

  lemma BalancedAppend(a: string, b: string)
    requires Balanced(a) && Balanced(b)
    ensures Balanced(a + b)
  {
    forall i | 0 <= i <= |a + b| ensures Depth((a + b)[..i]) >= 0 {
      if i <= |a| {
        assert (a + b)[..i] == a[..i];
      } else {
        assert (a + b)[..i] == a + b[..i - |a|];
      }
    }
  }

  /** Joining balanced texts gives a balanced text. */
  lemma {:induction false} JoinBalanced(items: seq<string>)
    requires forall k :: 0 <= k < |items| ==> Balanced(items[k])
    ensures Balanced(Join(items))
    decreases |items|
  {
    if |items| == 0 {
      ParenFreeBalanced("");
    } else if |items| > 1 {
      JoinBalanced(items[1..]);
      SeparatorParenFree();
      ParenFreeBalanced(SEPARATOR);
      BalancedAppend(SEPARATOR, Join(items[1..]));
      BalancedAppend(items[0], SEPARATOR + Join(items[1..]));
      Assoc(items[0], SEPARATOR, Join(items[1..]));
    }
  }

  /** A balanced text in parentheses is a list element: its commas are inside. */
  lemma GroupIsItem(s: string)
    requires Balanced(s)
    ensures IsItem("(" + s + ")")
  {
    var g := "(" + s + ")";
    assert Count('(', g) == Count('(', s) + 1;
    assert Count(')', g) == Count(')', s) + 1;
    forall i | 0 <= i <= |g| ensures Depth(g[..i]) >= 0 {
      if 0 < i <= |s| + 1 {
        assert g[..i] == "(" + s[..i - 1];
      } else if i == |g| {
        assert g[..i] == g;
      }
    }
    forall i | 0 <= i < |g| && g[i] == ',' ensures Depth(g[..i]) > 0 {
      assert g[..i] == "(" + s[..i - 1];
    }
  }

  lemma LineStringBodyIsItem(fmt: Formatter, ls: LineString)
    requires DelimiterFree(fmt)
    ensures IsItem(LineStringBody(fmt, ls)) && |LineStringBody(fmt, ls)| > 0
  {
    var texts := PointTexts(fmt, ls.points);
    forall k | 0 <= k < |texts| ensures Balanced(texts[k]) {
      PointTextFlat(fmt, ls.points[k]);
      FlatIsItem(texts[k]);
    }
    JoinBalanced(texts);
    GroupIsItem(Join(texts));
  }

  lemma PolygonBodyIsItem(fmt: Formatter, pg: Polygon)
    requires DelimiterFree(fmt)
    ensures IsItem(PolygonBody(fmt, pg)) && |PolygonBody(fmt, pg)| > 0
  {
    var texts := RingBodies(fmt, pg.rings);
    forall k | 0 <= k < |texts| ensures Balanced(texts[k]) {
      LineStringBodyIsItem(fmt, pg.rings[k]);
    }
    JoinBalanced(texts);
    GroupIsItem(Join(texts));
  }

  lemma PointBodyIsItem(fmt: Formatter, p: Point)
    requires DelimiterFree(fmt)
    ensures IsItem("(" + PointText(fmt, p) + ")")
  {
    PointTextFlat(fmt, p);
    FlatIsItem(PointText(fmt, p));
    GroupIsItem(PointText(fmt, p));
  }

  lemma MultiPolygonBodyIsItem(fmt: Formatter, mpg: MultiPolygon)
    requires DelimiterFree(fmt)
    ensures IsItem("(" + Join(PolygonBodies(fmt, mpg.polygons)) + ")")
  {
    var texts := PolygonBodies(fmt, mpg.polygons);
    forall i | 0 <= i < |texts| ensures Balanced(texts[i]) {
      PolygonBodyIsItem(fmt, mpg.polygons[i]);
    }
    JoinBalanced(texts);
    GroupIsItem(Join(texts));
  }

  /** The body of every supported geometry is a list element. */
  lemma BodyIsItem(fmt: Formatter, g: Geometry)
    requires DelimiterFree(fmt)
    requires !g.OtherGeometry?
    ensures IsItem(Body(fmt, g))
  {
    match g {
      case PointGeometry(p) => PointBodyIsItem(fmt, p);
      case MultiPointGeometry(mp) => LineStringBodyIsItem(fmt, LineString(mp.points));
      case LineStringGeometry(ls) => LineStringBodyIsItem(fmt, ls);
      case PolygonGeometry(pg) => PolygonBodyIsItem(fmt, pg);
      case MultiPolygonGeometry(mpg) => MultiPolygonBodyIsItem(fmt, mpg);
    }
  }

  /** No keyword contains a space or a parenthesis. */
  lemma KeywordPlain(g: Geometry)
    requires !g.OtherGeometry?
    ensures ParenFree(Keyword(g) + " ")
    ensures forall k :: 0 <= k < |Keyword(g)| ==> Keyword(g)[k] != ' '
  {
  }

  /** Every text the writer produces has balanced parentheses. */
  lemma RenderBalanced(fmt: Formatter, g: Geometry)
    requires DelimiterFree(fmt)
    requires !g.OtherGeometry?
    ensures Balanced(Render(fmt, g).value)
  {
    RenderIsKeywordSpaceBody(fmt, g);
    BodyIsItem(fmt, g);
    KeywordPlain(g);
    ParenFreeBalanced(Keyword(g) + " ");
    BalancedAppend(Keyword(g) + " ", Body(fmt, g));
  }

  // ---------------------------------------------------------------------------
  // The text determines the geometry
  // ---------------------------------------------------------------------------

  /** The index of the first space in `s`, or |s| when there is none. */
  function SpaceIndex(s: string): (r: nat)
    ensures r <= |s|
  {
    if |s| == 0 || s[0] == ' ' then 0 else 1 + SpaceIndex(s[1..])
  }

  lemma {:induction false} SpaceIndexAfter(x: string, y: string)
    requires forall k :: 0 <= k < |x| ==> x[k] != ' '
    ensures SpaceIndex(x + " " + y) == |x|
    decreases |x|
  {
    if |x| > 0 {
      assert (x + " " + y)[1..] == x[1..] + " " + y;
      SpaceIndexAfter(x[1..], y);
    }
  }

  /** Two texts without a space, each followed by a space, split one way only. */
  lemma SpaceSplit(x1: string, y1: string, x2: string, y2: string)
    requires forall k :: 0 <= k < |x1| ==> x1[k] != ' '
    requires forall k :: 0 <= k < |x2| ==> x2[k] != ' '
    requires x1 + " " + y1 == x2 + " " + y2
    ensures x1 == x2 && y1 == y2
  {
    var s := x1 + " " + y1;
    SpaceIndexAfter(x1, y1);
    SpaceIndexAfter(x2, y2);
    assert x1 == s[..|x1|] == x2;
    assert y1 == s[|x1| + 1..] == y2;
  }

  /** The change of depth a character makes. */
  function Step(c: char): int {
    if c == '(' then 1 else if c == ')' then -1 else 0
  }

  /**
   The index of the first comma of `s` that lies outside all parentheses,
   given that the text before `s` left `depth` parentheses open; |s| when
   there is none.
   */
  function TopComma(s: string, depth: int): (r: nat)
    ensures r <= |s|
  {
    if |s| == 0 then 0
    else if s[0] == ',' && depth == 0 then 0
    else 1 + TopComma(s[1..], depth + Step(s[0]))
  }

  lemma DepthStep(x: string, i: nat)
    requires i < |x|
    ensures Depth(x[..i + 1]) == Depth(x[..i]) + Step(x[i])
  {
    assert x[..i + 1] == x[..i] + [x[i]];
  }

  /**
   After the first i characters of a list element, the first top-level comma
   of the rest of the element followed by `rest` is where the element ends,
   when `rest` is empty or starts with a comma.
   */
  lemma {:induction false} TopCommaAfterItem(x: string, rest: string, i: nat)
    requires i <= |x| && Depth(x) == 0
    requires forall j :: i <= j < |x| && x[j] == ',' ==> Depth(x[..j]) > 0
    requires rest == [] || rest[0] == ','
    ensures TopComma(x[i..] + rest, Depth(x[..i])) == |x| - i
    decreases |x| - i
  {
    var s := x[i..] + rest;
    if i == |x| {
      assert s == rest;
      assert x[..i] == x;
    } else {
      assert s[0] == x[i];
      assert s[1..] == x[i + 1..] + rest;
      DepthStep(x, i);
      TopCommaAfterItem(x, rest, i + 1);
    }
  }

  /**
   In a join of list elements the first top-level comma ends the first element,
   and the first element is the whole text exactly when it is the only one.
   */
  lemma JoinHead(items: seq<string>)
    requires |items| > 0
    requires forall k :: 0 <= k < |items| ==> IsItem(items[k])
    ensures TopComma(Join(items), 0) == |items[0]|
    ensures |items| == 1 <==> |items[0]| == |Join(items)|
  {
    var x := items[0];
    assert x[0..] == x;
    assert Depth(x[..0]) == 0 by {
      assert x[..0] == [];
    }
    if |items| == 1 {
      TopCommaAfterItem(x, [], 0);
      assert x + [] == x;
    } else {
      var rest := SEPARATOR + Join(items[1..]);
      assert rest[0] == ',';
      TopCommaAfterItem(x, rest, 0);
      Assoc(x, SEPARATOR, Join(items[1..]));
    }
  }

  /** Only the empty list joins to the empty text, when no element is empty. */
  lemma JoinEmpty(items: seq<string>)
    requires forall k :: 0 <= k < |items| ==> |items[k]| > 0
    ensures Join(items) == [] <==> |items| == 0
  {
  }

  /**
   Two joins of list elements that are equal have the same first element, and
   the rest of them, when there is one, is equal too.
   */
  lemma JoinSameHead(xs: seq<string>, ys: seq<string>)
    requires |xs| > 0 && |ys| > 0
    requires forall k :: 0 <= k < |xs| ==> IsItem(xs[k])
    requires forall k :: 0 <= k < |ys| ==> IsItem(ys[k])
    requires Join(xs) == Join(ys)
    ensures xs[0] == ys[0]
    ensures |xs| == 1 <==> |ys| == 1
    ensures |xs| > 1 ==> Join(xs[1..]) == Join(ys[1..])
  {
    var s := Join(xs);
    JoinHead(xs);
    JoinHead(ys);
    JoinEnds(xs);
    JoinEnds(ys);
    assert xs[0] == s[..|xs[0]|] == ys[0];
    if |xs| > 1 {
      var n := |xs[0]| + |SEPARATOR|;
      assert Join(xs[1..]) == s[n..] == Join(ys[1..]);
    }
  }

  /** Nonempty list elements are recovered from their join: Join is one-to-one on them. */
  lemma {:induction false} JoinInjective(xs: seq<string>, ys: seq<string>)
    requires forall k :: 0 <= k < |xs| ==> IsItem(xs[k]) && |xs[k]| > 0
    requires forall k :: 0 <= k < |ys| ==> IsItem(ys[k]) && |ys[k]| > 0
    requires Join(xs) == Join(ys)
    ensures xs == ys
    decreases |xs|
  {
    JoinEmpty(xs);
    JoinEmpty(ys);
    if |xs| > 0 {
      JoinSameHead(xs, ys);
      if |xs| > 1 {
        JoinInjective(xs[1..], ys[1..]);
        assert xs == [xs[0]] + xs[1..];
        assert ys == [ys[0]] + ys[1..];
      }
    }
  }

  /** The text inside one pair of parentheses is recovered. */
  lemma GroupInner(a: string, b: string)
    requires "(" + a + ")" == "(" + b + ")"
    ensures a == b
  {
    var s := "(" + a + ")";
    assert a == s[1..|s| - 1] == b;
  }

  /** Distinct points have distinct coordinate pairs. */
  lemma PointTextInjective(fmt: Formatter, p: Point, q: Point)
    requires DelimiterFree(fmt) && InjectiveOn(fmt, PointCoordinates(p) + PointCoordinates(q))
    requires PointText(fmt, p) == PointText(fmt, q)
    ensures p == q
  {
    var a, b := fmt(p.longitude), fmt(q.longitude);
    assert forall k :: 0 <= k < |a| ==> a[k] != ' ' by {
      forall k | 0 <= k < |a| ensures a[k] != ' ' {
        assert !IsDelimiter(fmt(p.longitude)[k]);
      }
    }
    assert forall k :: 0 <= k < |b| ==> b[k] != ' ' by {
      forall k | 0 <= k < |b| ensures b[k] != ' ' {
        assert !IsDelimiter(fmt(q.longitude)[k]);
      }
    }
    SpaceSplit(a, fmt(p.latitude), b, fmt(q.latitude));
    assert p.longitude in PointCoordinates(p) && q.longitude in PointCoordinates(q);
    assert p.latitude in PointCoordinates(p) && q.latitude in PointCoordinates(q);
  }

  /** Distinct point sequences have distinct coordinate groups. */
  lemma CoordinateGroupInjective(fmt: Formatter, ps: seq<Point>, qs: seq<Point>)
    requires DelimiterFree(fmt) && InjectiveOn(fmt, PointsCoordinates(ps) + PointsCoordinates(qs))
    requires CoordinateGroup(fmt, ps) == CoordinateGroup(fmt, qs)
    ensures ps == qs
  {
    var a, b := PointTexts(fmt, ps), PointTexts(fmt, qs);
    GroupInner(Join(a), Join(b));
    forall k | 0 <= k < |a| ensures IsItem(a[k]) && |a[k]| > 0 {
      PointTextFlat(fmt, ps[k]);
      FlatIsItem(a[k]);
    }
    forall k | 0 <= k < |b| ensures IsItem(b[k]) && |b[k]| > 0 {
      PointTextFlat(fmt, qs[k]);
      FlatIsItem(b[k]);
    }
    JoinInjective(a, b);
    forall k | 0 <= k < |ps| ensures ps[k] == qs[k] {
      PointsCoordinatesHas(ps, k);
      PointsCoordinatesHas(qs, k);
      InjectiveOnSubset(fmt, PointCoordinates(ps[k]) + PointCoordinates(qs[k]), PointsCoordinates(ps) + PointsCoordinates(qs));
      PointTextInjective(fmt, ps[k], qs[k]);
    }
  }

  /** Distinct polygons have distinct keyword-less texts. */
  lemma PolygonBodyInjective(fmt: Formatter, p: Polygon, q: Polygon)
    requires DelimiterFree(fmt) && InjectiveOn(fmt, RingsCoordinates(p.rings) + RingsCoordinates(q.rings))
    requires PolygonBody(fmt, p) == PolygonBody(fmt, q)
    ensures p == q
  {
    var a, b := RingBodies(fmt, p.rings), RingBodies(fmt, q.rings);
    GroupInner(Join(a), Join(b));
    forall k | 0 <= k < |a| ensures IsItem(a[k]) && |a[k]| > 0 {
      LineStringBodyIsItem(fmt, p.rings[k]);
    }
    forall k | 0 <= k < |b| ensures IsItem(b[k]) && |b[k]| > 0 {
      LineStringBodyIsItem(fmt, q.rings[k]);
    }
    JoinInjective(a, b);
    forall k | 0 <= k < |p.rings| ensures p.rings[k] == q.rings[k] {
      RingsCoordinatesHas(p.rings, k);
      RingsCoordinatesHas(q.rings, k);
      InjectiveOnSubset(fmt, PointsCoordinates(p.rings[k].points) + PointsCoordinates(q.rings[k].points),
        RingsCoordinates(p.rings) + RingsCoordinates(q.rings));
      CoordinateGroupInjective(fmt, p.rings[k].points, q.rings[k].points);
    }
  }

  /** Distinct polygon sequences have distinct multipolygon bodies. */
  lemma PolygonListInjective(fmt: Formatter, ps: seq<Polygon>, qs: seq<Polygon>)
    requires DelimiterFree(fmt) && InjectiveOn(fmt, PolygonsCoordinates(ps) + PolygonsCoordinates(qs))
    requires "(" + Join(PolygonBodies(fmt, ps)) + ")" == "(" + Join(PolygonBodies(fmt, qs)) + ")"
    ensures ps == qs
  {
    var a, b := PolygonBodies(fmt, ps), PolygonBodies(fmt, qs);
    GroupInner(Join(a), Join(b));
    forall k | 0 <= k < |a| ensures IsItem(a[k]) && |a[k]| > 0 {
      PolygonBodyIsItem(fmt, ps[k]);
    }
    forall k | 0 <= k < |b| ensures IsItem(b[k]) && |b[k]| > 0 {
      PolygonBodyIsItem(fmt, qs[k]);
    }
    JoinInjective(a, b);
    forall k | 0 <= k < |ps| ensures ps[k] == qs[k] {
      PolygonsCoordinatesHas(ps, k);
      PolygonsCoordinatesHas(qs, k);
      InjectiveOnSubset(fmt, RingsCoordinates(ps[k].rings) + RingsCoordinates(qs[k].rings),
        PolygonsCoordinates(ps) + PolygonsCoordinates(qs));
      PolygonBodyInjective(fmt, ps[k], qs[k]);
    }
  }

  /** The keyword tells the kind. */
  lemma KeywordInjective(g1: Geometry, g2: Geometry)
    requires !g1.OtherGeometry? && !g2.OtherGeometry?
    requires Keyword(g1) == Keyword(g2)
    ensures g1.PointGeometry? == g2.PointGeometry?
    ensures g1.MultiPointGeometry? == g2.MultiPointGeometry?
    ensures g1.LineStringGeometry? == g2.LineStringGeometry?
    ensures g1.PolygonGeometry? == g2.PolygonGeometry?
    ensures g1.MultiPolygonGeometry? == g2.MultiPolygonGeometry?
  {
  }

  /**
   When numbers format without delimiters and the distinct numbers occurring
   in two geometries format differently, distinct geometries are written
   differently: the WKT text, or the error, determines the geometry.
   */
  lemma RenderInjective(fmt: Formatter, g1: Geometry, g2: Geometry)
    requires DelimiterFree(fmt) && InjectiveOn(fmt, Coordinates(g1) + Coordinates(g2))
    requires Render(fmt, g1) == Render(fmt, g2)
    ensures g1 == g2
  {
    RenderRefusesUnknownKinds(fmt, g1);
    RenderRefusesUnknownKinds(fmt, g2);
    if !g1.OtherGeometry? {
      RenderIsKeywordSpaceBody(fmt, g1);
      RenderIsKeywordSpaceBody(fmt, g2);
      KeywordPlain(g1);
      KeywordPlain(g2);
      SpaceSplit(Keyword(g1), Body(fmt, g1), Keyword(g2), Body(fmt, g2));
      KeywordInjective(g1, g2);
      match g1 {
        case PointGeometry(p) =>
          GroupInner(PointText(fmt, p), PointText(fmt, g2.point));
          PointTextInjective(fmt, p, g2.point);
        case MultiPointGeometry(mp) =>
          CoordinateGroupInjective(fmt, mp.points, g2.multiPoint.points);
        case LineStringGeometry(ls) =>
          CoordinateGroupInjective(fmt, ls.points, g2.lineString.points);
        case PolygonGeometry(pg) =>
          PolygonBodyInjective(fmt, pg, g2.polygon);
        case MultiPolygonGeometry(mpg) =>
          PolygonListInjective(fmt, mpg.polygons, g2.multiPolygon.polygons);
      }
    }
  }
}
