/**
 The geometry values the WKT writer reads. They stand for the classes of the
 library's geometry model: a point with a longitude and a latitude, and the
 four ordered collections built from points. Every collection is an ordered
 sequence, read by index in the writer's loops.
 */
module Geometries {

  /** A nullable reference: `None` is a null geometry handed to the writer. */
  datatype Option<+T> = None | Some(value: T)

  /** A coordinate pair. The library stores doubles; the model uses reals. */
  datatype Point = Point(longitude: real, latitude: real)

  /** An ordered sequence of points. */
  datatype MultiPoint = MultiPoint(points: seq<Point>)

  /** An ordered sequence of points (two or more when valid). */
  datatype LineString = LineString(points: seq<Point>)

  /** An ordered sequence of rings: the exterior ring first, then the holes. */
  datatype Polygon = Polygon(rings: seq<LineString>)

  /** An ordered sequence of polygons. */
  datatype MultiPolygon = MultiPolygon(polygons: seq<Polygon>)

  /**
   A geometry as seen by the writer's type switch. The geometry class hierarchy
   is open, so besides the five kinds the writer knows there is a sixth case:
   a geometry of any other runtime type, identified by its type name.
   */
  datatype Geometry =
    | PointGeometry(point: Point)
    | MultiPointGeometry(multiPoint: MultiPoint)
    | LineStringGeometry(lineString: LineString)
    | PolygonGeometry(polygon: Polygon)
    | MultiPolygonGeometry(multiPolygon: MultiPolygon)
    | OtherGeometry(typeName: string)
}

/** The WKT keywords, one per supported geometry kind. */
module WktTypes {
  const POINT: string := "POINT"
  const MULTI_POINT: string := "MULTIPOINT"
  const LINE_STRING: string := "LINESTRING"
  const POLYGON: string := "POLYGON"
  const MULTI_POLYGON: string := "MULTIPOLYGON"
}
