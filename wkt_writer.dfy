/**
 The WKT writer: a type switch over the geometry and one builder per kind,
 each appending to a shared text builder. Every builder is proved to append
 exactly the text that module WktText specifies.
 */
module WktWriter {
  import opened Geometries
  import opened WktText
  import opened StringFacts
  import WktTypes

  /** A text builder that is only ever appended to. */
  class TextBuilder {
    var text: string

    constructor ()
      ensures text == []
    {
      text := [];
    }

    method Append(s: string)
      modifies this
      ensures text == old(text) + s
    {
      text := text + s;
    }
  }

  /**
   Refuses a null or invalid geometry; otherwise builds its text into a fresh
   builder and returns it. No text is returned when the switch refuses the kind.
   */
  method Write(fmt: Formatter, isValid: Geometry -> bool, geometry: Option<Geometry>)
    returns (r: Result<string>)
    ensures r == Written(fmt, isValid, geometry)
  {
    if geometry.None? || !isValid(geometry.value) {
      return Err(InvalidGeometry);
    }
    var builder := new TextBuilder();
    var failure := Build(builder, fmt, geometry.value);
    if failure.Some? {
      return Err(failure.value);
    }
    assert builder.text == Render(fmt, geometry.value).value;
    return Ok(builder.text);
  }

  /** The extension-method spelling of Write. */
  method ToWkt(fmt: Formatter, isValid: Geometry -> bool, geometry: Option<Geometry>)
    returns (r: Result<string>)
    ensures r == Written(fmt, isValid, geometry)
  {
    r := Write(fmt, isValid, geometry);
  }

  /**
   Dispatches on the kind of `geometry`. A kind the switch does not know is
   refused before anything is appended.
   */
  method Build(builder: TextBuilder, fmt: Formatter, geometry: Geometry)
    returns (failure: Option<WriteError>)
    modifies builder
    ensures Render(fmt, geometry).Ok? ==>
      failure == None && builder.text == old(builder.text) + Render(fmt, geometry).value
    ensures Render(fmt, geometry).Err? ==>
      failure == Some(Render(fmt, geometry).error) && builder.text == old(builder.text)
  {
    failure := None;
    match geometry {
      case PointGeometry(point) =>
        BuildPoint(builder, fmt, point);
      case MultiPointGeometry(multiPoint) =>
        BuildMultiPoint(builder, fmt, multiPoint);
      case LineStringGeometry(lineString) =>
        BuildLineString(builder, fmt, lineString, false);
      case PolygonGeometry(polygon) =>
        BuildPolygon(builder, fmt, polygon, false);
      case MultiPolygonGeometry(multiPolygon) =>
        BuildMultiPolygon(builder, fmt, multiPolygon);
      case OtherGeometry(typeName) =>
        failure := Some(NotSupportedGeometryType(typeName));
    }
  }

  method BuildPoint(builder: TextBuilder, fmt: Formatter, point: Point)
    modifies builder
    ensures builder.text == old(builder.text) + Render(fmt, PointGeometry(point)).value
  {
    builder.Append(WktTypes.POINT);
    builder.Append(" (");
    BuildPointInner(builder, fmt, point);
    builder.Append(")");
  }

  method BuildPointInner(builder: TextBuilder, fmt: Formatter, point: Point)
    modifies builder
    ensures builder.text == old(builder.text) + PointText(fmt, point)
  {
    builder.Append(fmt(point.longitude));
    builder.Append(" ");
    builder.Append(fmt(point.latitude));
  }

  method BuildMultiPoint(builder: TextBuilder, fmt: Formatter, multiPoint: MultiPoint)
    modifies builder
    ensures builder.text == old(builder.text) + Render(fmt, MultiPointGeometry(multiPoint)).value
  {
    builder.Append(WktTypes.MULTI_POINT);
    builder.Append(" (");
    Assoc(old(builder.text), WktTypes.MULTI_POINT, " (");
    ghost var start := builder.text;
    ghost var texts := PointTexts(fmt, multiPoint.points);
    for i := 0 to |multiPoint.points|
      invariant builder.text == start + Join(texts[..i])
    {
      if i > 0 {
        builder.Append(SEPARATOR);
      }
      BuildPointInner(builder, fmt, multiPoint.points[i]);
      JoinPrefix(texts, i);
      if i > 0 {
        Assoc(start, Join(texts[..i]), SEPARATOR);
        Assoc(start, Join(texts[..i]) + SEPARATOR, texts[i]);
      }
    }
    assert texts[..|multiPoint.points|] == texts;
    builder.Append(")");
    Assoc(old(builder.text), WktTypes.MULTI_POINT + " (", Join(texts));
    Assoc(old(builder.text), WktTypes.MULTI_POINT + " (" + Join(texts), ")");
  }

  /** With `skipHeader` the keyword and its space are left out (a polygon ring). */
  method BuildLineString(builder: TextBuilder, fmt: Formatter, lineString: LineString, skipHeader: bool)
    modifies builder
    ensures builder.text == old(builder.text) +
      (if skipHeader then LineStringBody(fmt, lineString) else WktTypes.LINE_STRING + " " + LineStringBody(fmt, lineString))
  {
    if !skipHeader {
      builder.Append(WktTypes.LINE_STRING);
      builder.Append(" ");
      Assoc(old(builder.text), WktTypes.LINE_STRING, " ");
    }
    ghost var headed := builder.text;
    builder.Append("(");
    ghost var start := builder.text;
    ghost var texts := PointTexts(fmt, lineString.points);
    for i := 0 to |lineString.points|
      invariant builder.text == start + Join(texts[..i])
    {
      if i > 0 {
        builder.Append(SEPARATOR);
      }
      BuildPointInner(builder, fmt, lineString.points[i]);
      JoinPrefix(texts, i);
      if i > 0 {
        Assoc(start, Join(texts[..i]), SEPARATOR);
        Assoc(start, Join(texts[..i]) + SEPARATOR, texts[i]);
      }
    }
    assert texts[..|lineString.points|] == texts;
    builder.Append(")");
    Assoc(headed, "(", Join(texts));
    Assoc(headed, "(" + Join(texts), ")");
    if !skipHeader {
      Assoc(old(builder.text), WktTypes.LINE_STRING + " ", LineStringBody(fmt, lineString));
    }
  }

  /** With `skipHeader` the keyword and its space are left out (a multipolygon member). */
  method BuildPolygon(builder: TextBuilder, fmt: Formatter, polygon: Polygon, skipHeader: bool)
    modifies builder
    ensures builder.text == old(builder.text) +
      (if skipHeader then PolygonBody(fmt, polygon) else WktTypes.POLYGON + " " + PolygonBody(fmt, polygon))
  {
    if !skipHeader {
      builder.Append(WktTypes.POLYGON);
      builder.Append(" ");
      Assoc(old(builder.text), WktTypes.POLYGON, " ");
    }
    ghost var headed := builder.text;
    builder.Append("(");
    ghost var start := builder.text;
    ghost var texts := RingBodies(fmt, polygon.rings);
    for i := 0 to |polygon.rings|
      invariant builder.text == start + Join(texts[..i])
    {
      if i > 0 {
        builder.Append(SEPARATOR);
      }
      BuildLineString(builder, fmt, polygon.rings[i], true);
      JoinPrefix(texts, i);
      if i > 0 {
        Assoc(start, Join(texts[..i]), SEPARATOR);
        Assoc(start, Join(texts[..i]) + SEPARATOR, texts[i]);
      }
    }
    assert texts[..|polygon.rings|] == texts;
    builder.Append(")");
    Assoc(headed, "(", Join(texts));
    Assoc(headed, "(" + Join(texts), ")");
    if !skipHeader {
      Assoc(old(builder.text), WktTypes.POLYGON + " ", PolygonBody(fmt, polygon));
    }
  }

  method BuildMultiPolygon(builder: TextBuilder, fmt: Formatter, multiPolygon: MultiPolygon)
    modifies builder
    ensures builder.text == old(builder.text) + Render(fmt, MultiPolygonGeometry(multiPolygon)).value
  {
    builder.Append(WktTypes.MULTI_POLYGON);
    builder.Append(" (");
    Assoc(old(builder.text), WktTypes.MULTI_POLYGON, " (");
    ghost var start := builder.text;
    ghost var texts := PolygonBodies(fmt, multiPolygon.polygons);
    for i := 0 to |multiPolygon.polygons|
      invariant builder.text == start + Join(texts[..i])
    {
      if i > 0 {
        builder.Append(SEPARATOR);
      }
      BuildPolygon(builder, fmt, multiPolygon.polygons[i], true);
      JoinPrefix(texts, i);
      if i > 0 {
        Assoc(start, Join(texts[..i]), SEPARATOR);
        Assoc(start, Join(texts[..i]) + SEPARATOR, texts[i]);
      }
    }
    assert texts[..|multiPolygon.polygons|] == texts;
    builder.Append(")");
    Assoc(old(builder.text), WktTypes.MULTI_POLYGON + " (", Join(texts));
    Assoc(old(builder.text), WktTypes.MULTI_POLYGON + " (" + Join(texts), ")");
  }
}
