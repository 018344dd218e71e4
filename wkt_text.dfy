/**
 The WKT text of a geometry, as pure functions. This is the specification the
 imperative writer in module WktWriter is proved against: each builder method
 appends exactly the text a function here computes.

 Numbers are formatted by the runtime's invariant-culture double-to-string
 conversion, which is outside the model; every function takes it as the
 parameter `fmt`.
 */
module WktText {
  import opened Geometries
  import WktTypes

  /** The invariant-culture conversion of one coordinate to text. */
  type Formatter = real -> string

  /** What the writer raises; both are argument errors in the library. */
  datatype WriteError =
    | InvalidGeometry                            // a null or invalid geometry
    | NotSupportedGeometryType(typeName: string) // a geometry kind the switch does not know

  datatype Result<+T> = Ok(value: T) | Err(error: WriteError)

  /** The separator put between the elements of a parenthesised group. */
  const SEPARATOR: string := ", "

  /** The elements of `items`, with SEPARATOR between consecutive ones. */
  function Join(items: seq<string>): string
    decreases |items|
  {
    if |items| == 0 then ""
    else if |items| == 1 then items[0]
    else items[0] + SEPARATOR + Join(items[1..])
  }

  /**
   Joining one more element appends a separator and the element, the separator
   only when something came before: the step the writer's loops take.
   */
  lemma {:induction false} JoinSnoc(items: seq<string>, x: string)
    ensures Join(items + [x]) == if |items| == 0 then x else Join(items) + SEPARATOR + x
    decreases |items|
  {
    if |items| == 0 {
      assert items + [x] == [x];
    } else if |items| == 1 {
      assert items + [x] == [items[0], x];
      assert [items[0], x][1..] == [x];
    } else {
      assert (items + [x])[1..] == items[1..] + [x];
      JoinSnoc(items[1..], x);
    }
  }

  /** The prefix of `items` one element longer, joined: one loop iteration of a builder. */
  lemma JoinPrefix(items: seq<string>, i: nat)
    requires i < |items|
    ensures i == 0 ==> Join(items[..i + 1]) == items[i]
    ensures i > 0 ==> Join(items[..i + 1]) == Join(items[..i]) + SEPARATOR + items[i]
  {
    assert items[..i + 1] == items[..i] + [items[i]];
    JoinSnoc(items[..i], items[i]);
  }

  /** A coordinate pair: longitude, one space, latitude. */
  function PointText(fmt: Formatter, p: Point): string {
    fmt(p.longitude) + " " + fmt(p.latitude)
  }

  /** The coordinate pairs of `points`, in order. */
  function PointTexts(fmt: Formatter, points: seq<Point>): (r: seq<string>)
    ensures |r| == |points|
    ensures forall k :: 0 <= k < |points| ==> r[k] == PointText(fmt, points[k])
  {
    seq(|points|, k requires 0 <= k < |points| => PointText(fmt, points[k]))
  }

  /** A parenthesised, comma-separated list of coordinate pairs. */
  function CoordinateGroup(fmt: Formatter, points: seq<Point>): string {
    "(" + Join(PointTexts(fmt, points)) + ")"
  }

  /** A line string without its keyword, as it appears as a polygon ring. */
  function LineStringBody(fmt: Formatter, lineString: LineString): string {
    CoordinateGroup(fmt, lineString.points)
  }

  /** The keyword-less texts of `rings`, in order. */
  function RingBodies(fmt: Formatter, rings: seq<LineString>): (r: seq<string>)
    ensures |r| == |rings|
    ensures forall k :: 0 <= k < |rings| ==> r[k] == LineStringBody(fmt, rings[k])
  {
    seq(|rings|, k requires 0 <= k < |rings| => LineStringBody(fmt, rings[k]))
  }

  /** A polygon without its keyword, as it appears inside a multipolygon. */
  function PolygonBody(fmt: Formatter, polygon: Polygon): string {
    "(" + Join(RingBodies(fmt, polygon.rings)) + ")"
  }

  /** The keyword-less texts of `polygons`, in order. */
  function PolygonBodies(fmt: Formatter, polygons: seq<Polygon>): (r: seq<string>)
    ensures |r| == |polygons|
    ensures forall k :: 0 <= k < |polygons| ==> r[k] == PolygonBody(fmt, polygons[k])
  {
    seq(|polygons|, k requires 0 <= k < |polygons| => PolygonBody(fmt, polygons[k]))
  }

  /**
   The WKT text of a geometry written at top level: its keyword, then its
   parenthesised content; the rings of a polygon and the polygons of a
   multipolygon appear without their own keyword. A geometry of a kind the
   writer does not know is refused with its type name.
   */
  function Render(fmt: Formatter, g: Geometry): Result<string> {
    match g
    case PointGeometry(p) =>
      Ok(WktTypes.POINT + " (" + PointText(fmt, p) + ")")
    case MultiPointGeometry(mp) =>
      Ok(WktTypes.MULTI_POINT + " (" + Join(PointTexts(fmt, mp.points)) + ")")
    case LineStringGeometry(ls) =>
      Ok(WktTypes.LINE_STRING + " " + LineStringBody(fmt, ls))
    case PolygonGeometry(pg) =>
      Ok(WktTypes.POLYGON + " " + PolygonBody(fmt, pg))
    case MultiPolygonGeometry(mpg) =>
      Ok(WktTypes.MULTI_POLYGON + " (" + Join(PolygonBodies(fmt, mpg.polygons)) + ")")
    case OtherGeometry(typeName) =>
      Err(NotSupportedGeometryType(typeName))
  }

  /**
   What the writer's entry point returns for a possibly null geometry whose
   validity is reported by `isValid`: a null or invalid geometry is refused
   before anything is built.
   */
  function Written(fmt: Formatter, isValid: Geometry -> bool, geometry: Option<Geometry>): Result<string> {
    if geometry.None? || !isValid(geometry.value) then Err(InvalidGeometry)
    else Render(fmt, geometry.value)
  }
}
