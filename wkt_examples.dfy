/**
 The writer on concrete geometries, for a number formatter that writes the
 integers used here without a fractional part, as the invariant-culture
 conversion does.
 */
module WktExamples {
  import opened Geometries
  import opened WktText
  import opened StringFacts
  import WktTypes
  import WktProperties

  /** The formatter writes 5, 10, ..., 45 as their plain digits. */
  predicate WritesIntegers(fmt: Formatter) {
    fmt(5.0) == "5" && fmt(10.0) == "10" && fmt(15.0) == "15" && fmt(20.0) == "20" &&
    fmt(30.0) == "30" && fmt(40.0) == "40" && fmt(45.0) == "45"
  }

  lemma PointExample(fmt: Formatter)
    requires WritesIntegers(fmt)
    ensures Render(fmt, PointGeometry(Point(30.0, 10.0))) == Ok("POINT (30 10)")
  {
    assert "30" + " " + "10" == "30 10";
    assert PointText(fmt, Point(30.0, 10.0)) == "30 10";
    assert WktTypes.POINT + " (" + "30 10" + ")" == "POINT (30 10)";
  }

  // ---------------------------------------------------------------------------
  // Groups of a fixed number of points
  // ---------------------------------------------------------------------------

  /** A join of two or more elements: the first one, a separator, the join of the rest. */
  lemma JoinCons(a: string, rest: seq<string>)
    requires |rest| > 0
    ensures Join([a] + rest) == a + ", " + Join(rest)
  {
    assert ([a] + rest)[1..] == rest;
  }

  lemma Group3(fmt: Formatter, p: Point, q: Point, r: Point)
    ensures CoordinateGroup(fmt, [p, q, r]) ==
      "(" + PointText(fmt, p) + ", " + PointText(fmt, q) + ", " + PointText(fmt, r) + ")"
  {
    var a, b, c := PointText(fmt, p), PointText(fmt, q), PointText(fmt, r);
    assert PointTexts(fmt, [p, q, r]) == [a] + ([b] + [c]);
    JoinCons(b, [c]);
    JoinCons(a, [b] + [c]);
  }

  lemma Group4(fmt: Formatter, p: Point, q: Point, r: Point, s: Point)
    ensures CoordinateGroup(fmt, [p, q, r, s]) ==
      "(" + PointText(fmt, p) + ", " + PointText(fmt, q) + ", " + PointText(fmt, r) + ", " + PointText(fmt, s) + ")"
  {
    var a, b, c, d := PointText(fmt, p), PointText(fmt, q), PointText(fmt, r), PointText(fmt, s);
    assert PointTexts(fmt, [p, q, r, s]) == [a] + ([b] + ([c] + [d]));
    JoinCons(c, [d]);
    JoinCons(b, [c] + [d]);
    JoinCons(a, [b] + ([c] + [d]));
  }

  lemma Group5(fmt: Formatter, p: Point, q: Point, r: Point, s: Point, t: Point)
    ensures CoordinateGroup(fmt, [p, q, r, s, t]) ==
      "(" + PointText(fmt, p) + ", " + PointText(fmt, q) + ", " + PointText(fmt, r) + ", " + PointText(fmt, s) + ", " + PointText(fmt, t) + ")"
  {
    var a, b, c, d, e := PointText(fmt, p), PointText(fmt, q), PointText(fmt, r), PointText(fmt, s), PointText(fmt, t);
    assert PointTexts(fmt, [p, q, r, s, t]) == [a] + ([b] + ([c] + ([d] + [e])));
    JoinCons(d, [e]);
    JoinCons(c, [d] + [e]);
    JoinCons(b, [c] + ([d] + [e]));
    JoinCons(a, [b] + ([c] + ([d] + [e])));
  }

  /** A polygon of one ring: the ring's group in one more pair of parentheses. */
  lemma OneRingPolygon(fmt: Formatter, ring: LineString)
    ensures PolygonBody(fmt, Polygon([ring])) == "(" + LineStringBody(fmt, ring) + ")"
  {
    assert RingBodies(fmt, [ring]) == [LineStringBody(fmt, ring)];
  }

  // ---------------------------------------------------------------------------
  // The texts of the examples, assembled from their pieces
  // ---------------------------------------------------------------------------

  lemma LineStringLiteral()
    ensures "(" + "30 10" + ", " + "10 30" + ", " + "40 40" + ")" == "(30 10, 10 30, 40 40)"
    ensures WktTypes.LINE_STRING + " " + "(30 10, 10 30, 40 40)" == "LINESTRING (30 10, 10 30, 40 40)"
  {
  }

  lemma PolygonRingLiteral()
    ensures "(" + "30 10" + ", " + "40 40" + ", " + "20 40" + ", " + "10 20" + ", " + "30 10" + ")"
         == "(30 10, 40 40, 20 40, 10 20, 30 10)"
  {
  }

  lemma PolygonGroupLiteral()
    ensures "(" + "(30 10, 40 40, 20 40, 10 20, 30 10)" + ")" == "((30 10, 40 40, 20 40, 10 20, 30 10))"
  {
  }

  lemma PolygonLiteral()
    ensures "POLYGON " + "((30 10, 40 40, 20 40, 10 20, 30 10))" == "POLYGON ((30 10, 40 40, 20 40, 10 20, 30 10))"
  {
  }

  lemma FirstPolygonLiteral()
    ensures "(" + ("(" + "30 20" + ", " + "45 40" + ", " + "10 40" + ", " + "30 20" + ")") + ")"
         == "((30 20, 45 40, 10 40, 30 20))"
  {
  }

  lemma SecondPolygonLiteral()
    ensures "(" + ("(" + "15 5" + ", " + "40 10" + ", " + "10 20" + ", " + "5 10" + ", " + "15 5" + ")") + ")"
         == "((15 5, 40 10, 10 20, 5 10, 15 5))"
  {
  }

  // ---------------------------------------------------------------------------
  // The examples
  // ---------------------------------------------------------------------------

  /** Three points, two separators, none leading or trailing. */
  lemma LineStringExample(fmt: Formatter)
    requires WritesIntegers(fmt)
    ensures Render(fmt, LineStringGeometry(LineString([Point(30.0, 10.0), Point(10.0, 30.0), Point(40.0, 40.0)])))
         == Ok("LINESTRING (30 10, 10 30, 40 40)")
  {
    Group3(fmt, Point(30.0, 10.0), Point(10.0, 30.0), Point(40.0, 40.0));
    assert PointText(fmt, Point(30.0, 10.0)) == "30 10" by { assert "30" + " " + "10" == "30 10"; }
    assert PointText(fmt, Point(10.0, 30.0)) == "10 30" by { assert "10" + " " + "30" == "10 30"; }
    assert PointText(fmt, Point(40.0, 40.0)) == "40 40" by { assert "40" + " " + "40" == "40 40"; }
    LineStringLiteral();
  }

  /** The exterior ring of the polygon example: five points, the first repeated last. */
  lemma PolygonRing(fmt: Formatter)
    requires WritesIntegers(fmt)
    ensures LineStringBody(fmt, LineString([Point(30.0, 10.0), Point(40.0, 40.0), Point(20.0, 40.0), Point(10.0, 20.0), Point(30.0, 10.0)]))
         == "(30 10, 40 40, 20 40, 10 20, 30 10)"
  {
    Group5(fmt, Point(30.0, 10.0), Point(40.0, 40.0), Point(20.0, 40.0), Point(10.0, 20.0), Point(30.0, 10.0));
    assert PointText(fmt, Point(30.0, 10.0)) == "30 10" by { assert "30" + " " + "10" == "30 10"; }
    assert PointText(fmt, Point(40.0, 40.0)) == "40 40" by { assert "40" + " " + "40" == "40 40"; }
    assert PointText(fmt, Point(20.0, 40.0)) == "20 40" by { assert "20" + " " + "40" == "20 40"; }
    assert PointText(fmt, Point(10.0, 20.0)) == "10 20" by { assert "10" + " " + "20" == "10 20"; }
    PolygonRingLiteral();
  }

  /** A polygon with one closed ring: the ring in a second pair of parentheses. */
  lemma PolygonExample(fmt: Formatter)
    requires WritesIntegers(fmt)
    ensures Render(fmt, PolygonGeometry(Polygon([LineString([
        Point(30.0, 10.0), Point(40.0, 40.0), Point(20.0, 40.0), Point(10.0, 20.0), Point(30.0, 10.0)])])))
      == Ok("POLYGON ((30 10, 40 40, 20 40, 10 20, 30 10))")
  {
    PolygonRing(fmt);
    OneRingPolygon(fmt, LineString([Point(30.0, 10.0), Point(40.0, 40.0), Point(20.0, 40.0), Point(10.0, 20.0), Point(30.0, 10.0)]));
    PolygonGroupLiteral();
    assert WktTypes.POLYGON + " " == "POLYGON ";
    PolygonLiteral();
  }

  /** The first polygon of the multipolygon example, without its keyword. */
  lemma FirstPolygon(fmt: Formatter)
    requires WritesIntegers(fmt)
    ensures PolygonBody(fmt, Polygon([LineString([Point(30.0, 20.0), Point(45.0, 40.0), Point(10.0, 40.0), Point(30.0, 20.0)])]))
         == "((30 20, 45 40, 10 40, 30 20))"
  {
    var ring := LineString([Point(30.0, 20.0), Point(45.0, 40.0), Point(10.0, 40.0), Point(30.0, 20.0)]);
    Group4(fmt, Point(30.0, 20.0), Point(45.0, 40.0), Point(10.0, 40.0), Point(30.0, 20.0));
    assert PointText(fmt, Point(30.0, 20.0)) == "30 20" by { assert "30" + " " + "20" == "30 20"; }
    assert PointText(fmt, Point(45.0, 40.0)) == "45 40" by { assert "45" + " " + "40" == "45 40"; }
    assert PointText(fmt, Point(10.0, 40.0)) == "10 40" by { assert "10" + " " + "40" == "10 40"; }
    OneRingPolygon(fmt, ring);
    FirstPolygonLiteral();
  }

  /** The second polygon of the multipolygon example, without its keyword. */
  lemma SecondPolygon(fmt: Formatter)
    requires WritesIntegers(fmt)
    ensures PolygonBody(fmt, Polygon([LineString([Point(15.0, 5.0), Point(40.0, 10.0), Point(10.0, 20.0), Point(5.0, 10.0), Point(15.0, 5.0)])]))
         == "((15 5, 40 10, 10 20, 5 10, 15 5))"
  {
    var ring := LineString([Point(15.0, 5.0), Point(40.0, 10.0), Point(10.0, 20.0), Point(5.0, 10.0), Point(15.0, 5.0)]);
    Group5(fmt, Point(15.0, 5.0), Point(40.0, 10.0), Point(10.0, 20.0), Point(5.0, 10.0), Point(15.0, 5.0));
    assert PointText(fmt, Point(15.0, 5.0)) == "15 5" by { assert "15" + " " + "5" == "15 5"; }
    assert PointText(fmt, Point(40.0, 10.0)) == "40 10" by { assert "40" + " " + "10" == "40 10"; }
    assert PointText(fmt, Point(10.0, 20.0)) == "10 20" by { assert "10" + " " + "20" == "10 20"; }
    assert PointText(fmt, Point(5.0, 10.0)) == "5 10" by { assert "5" + " " + "10" == "5 10"; }
    OneRingPolygon(fmt, ring);
    SecondPolygonLiteral();
  }

  /**
   Two single-ring polygons: rings in the third level of parentheses. The
   expected text is spelled in pieces, the two polygon texts and the
   separator between them.
   */
  lemma MultiPolygonExample(fmt: Formatter)
    requires WritesIntegers(fmt)
    ensures Render(fmt, MultiPolygonGeometry(MultiPolygon([
        Polygon([LineString([Point(30.0, 20.0), Point(45.0, 40.0), Point(10.0, 40.0), Point(30.0, 20.0)])]),
        Polygon([LineString([Point(15.0, 5.0), Point(40.0, 10.0), Point(10.0, 20.0), Point(5.0, 10.0), Point(15.0, 5.0)])])])))
      == Ok("MULTIPOLYGON (" + "((30 20, 45 40, 10 40, 30 20))" + ", " + "((15 5, 40 10, 10 20, 5 10, 15 5))" + ")")
  {
    var p0 := Polygon([LineString([Point(30.0, 20.0), Point(45.0, 40.0), Point(10.0, 40.0), Point(30.0, 20.0)])]);
    var p1 := Polygon([LineString([Point(15.0, 5.0), Point(40.0, 10.0), Point(10.0, 20.0), Point(5.0, 10.0), Point(15.0, 5.0)])]);
    FirstPolygon(fmt);
    SecondPolygon(fmt);
    var a, b := "((30 20, 45 40, 10 40, 30 20))", "((15 5, 40 10, 10 20, 5 10, 15 5))";
    assert PolygonBodies(fmt, [p0, p1]) == [a] + [b];
    JoinCons(a, [b]);
    assert WktTypes.MULTI_POLYGON + " (" == "MULTIPOLYGON (";
    Assoc("MULTIPOLYGON (", a + ", ", b);
    Assoc("MULTIPOLYGON (", a, ", ");
  }

  /** A valid point goes through the entry point unchanged; a null one is refused. */
  lemma WrittenExample(fmt: Formatter, isValid: Geometry -> bool)
    requires WritesIntegers(fmt)
    requires isValid(PointGeometry(Point(30.0, 10.0)))
    ensures Written(fmt, isValid, Some(PointGeometry(Point(30.0, 10.0)))) == Ok("POINT (30 10)")
    ensures Written(fmt, isValid, None) == Err(InvalidGeometry)
  {
    PointExample(fmt);
  }

  /**
   The hypotheses of WktProperties.RenderInjective can be met: a formatter
   that writes 1 as "1" and every other number as "2" has no delimiter and is
   one-to-one on the coordinates of the points (1, 2) and (2, 1).
   */
  lemma InjectivityHypothesesMet()
    ensures var fmt: Formatter := x => if x == 1.0 then "1" else "2";
      && WktProperties.DelimiterFree(fmt)
      && WktProperties.InjectiveOn(fmt,
           WktProperties.Coordinates(PointGeometry(Point(1.0, 2.0))) +
           WktProperties.Coordinates(PointGeometry(Point(2.0, 1.0))))
  {
  }
}
