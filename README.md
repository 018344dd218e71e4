# WKT writer

A Dafny model of GeoLibrary's Well-Known-Text serialiser (`WktWriter`). The
writer turns a geometry into its WKT text form in the style of OGC Simple
Features Access, Part 1 (ISO 19125-1, clause 7, "Well-known Text
Representation for Geometry"). It handles five kinds: POINT, MULTIPOINT,
LINESTRING, POLYGON and MULTIPOLYGON.

`Write` refuses a null geometry and a geometry that reports itself invalid.
Any other geometry goes to a type switch (`Build`), which hands it to the
builder for its kind. Every builder appends to one shared text builder:

- a keyword;
- a space;
- a parenthesised list whose elements are separated by `", "`.

Loops emit the separator only before elements after the first. A polygon's
rings are written by the line-string builder with its keyword suppressed
(`skipHeader`). A multipolygon's polygons are written the same way by the
polygon builder. A geometry of any other runtime type is refused with its
type name.

The project has six modules:

- `Geometries` (geometries.dfy) holds the geometry values. `Option` stands
  for a nullable reference, and `OtherGeometry` stands for any geometry class
  the switch does not know.
- `WktTypes` (geometries.dfy) holds the five keywords.
- `WktText` (wkt_text.dfy) is the pure specification:
  - `Join` puts `", "` between the elements of a list;
  - `Render` gives the text of a geometry written at top level;
  - `LineStringBody` and `PolygonBody` give the keyword-less forms;
  - `Written` is what the entry point returns.
- `WktWriter` (wkt_writer.dfy) is the imperative writer:
  - a `TextBuilder` class stands for the `StringBuilder`, and is only ever
    appended to;
  - one method corresponds to each method of the C# class;
  - each loop carries the invariant `builder.text == start + Join(texts[..i])`;
  - every method is proved to append exactly what `WktText` specifies.
- `WktProperties` (wkt_properties.dfy) proves what those texts look like and
  what they determine:
  - the exact forms, header suppression, nesting and empty groups;
  - the separator and parenthesis counts;
  - the error cases;
  - balanced parentheses;
  - that the text determines the geometry, when coordinates format
    without delimiters and the distinct numbers occurring in the two
    geometries format differently.
- `WktExamples` (wkt_examples.dfy) writes concrete geometries out in full.
- `StringFacts` (string_facts.dfy) holds a proof helper that regroups string
  concatenations.

Coordinates are formatted by a parameter `fmt: real -> string`, which stands
for the runtime's invariant-culture double-to-string conversion. The
geometry's own validity check is a parameter `isValid`. Writing is
deterministic and `ToWkt` returns what `Write` returns, because both are
proved equal to the function `Written` of the same inputs.

## Model

| member | source | states |
|---|---|---|
| WktWriter.Write | GeoLibrary/IO/Wkt/WktWriter.cs:10-21 | It returns `Written`: the invalid-geometry error for a null or invalid geometry. Otherwise it returns the rendering built into a fresh builder, or the switch's error with no text. |
| WktWriter.ToWkt | GeoLibrary/IO/Wkt/WktWriter.cs:23-26 | It returns exactly what `Write` returns for the same geometry. |
| WktWriter.Build | GeoLibrary/IO/Wkt/WktWriter.cs:28-50 | For a supported kind it reports no failure and appends that kind's rendering. For any other kind it reports the not-supported error naming the type and leaves the builder's text unchanged. |
| WktWriter.BuildPoint | GeoLibrary/IO/Wkt/WktWriter.cs:52-58 | It appends the point's rendering, `POINT (` + coordinate pair + `)`. |
| WktWriter.BuildPointInner | GeoLibrary/IO/Wkt/WktWriter.cs:60-65 | It appends the longitude's text, one space, then the latitude's text. |
| WktWriter.BuildMultiPoint | GeoLibrary/IO/Wkt/WktWriter.cs:67-78 | It appends `MULTIPOINT (`, the points' pairs joined by `", "`, and `)`. The loop invariant is that the text is the opening plus the join of the pairs written so far. |
| WktWriter.BuildLineString | GeoLibrary/IO/Wkt/WktWriter.cs:80-96 | It appends the coordinate group, preceded by `LINESTRING ` exactly when `skipHeader` is false. |
| WktWriter.BuildPolygon | GeoLibrary/IO/Wkt/WktWriter.cs:98-114 | It appends the parenthesised join of the rings' keyword-less groups, preceded by `POLYGON ` exactly when `skipHeader` is false. |
| WktWriter.BuildMultiPolygon | GeoLibrary/IO/Wkt/WktWriter.cs:116-127 | It appends `MULTIPOLYGON (`, the polygons' keyword-less texts joined by `", "`, and `)`. |
| WktText.JoinSnoc | GeoLibrary/IO/Wkt/WktWriter.cs:71-76 | One more element extends a join by a separator and the element. The separator is added only when an element came before. |
| WktText.JoinPrefix | GeoLibrary/IO/Wkt/WktWriter.cs:88-93 | The join of the first i+1 elements is the first element alone when i = 0. Otherwise it is the join of the first i elements, `", "`, then element i. |
| WktProperties.RenderRefusesUnknownKinds | GeoLibrary/IO/Wkt/WktWriter.cs:30-49 | A geometry renders to text if and only if it is one of the five kinds. Any other kind gives the not-supported error carrying its type name. |
| WktProperties.RenderIsKeywordSpaceBody | GeoLibrary/IO/Wkt/WktWriter.cs:52-127 | Every supported text is its kind's keyword, one space, and a body. The body runs from a `(` to a `)`. |
| WktProperties.KeywordInjective | GeoLibrary/IO/Wkt/WktWriter.cs:54-118 | Two supported geometries with the same keyword are of the same kind. |
| WktProperties.WrittenErrors | GeoLibrary/IO/Wkt/WktWriter.cs:12-15 | A null or invalid geometry gives the invalid-geometry error, and that error arises only then. Text is produced exactly for a valid geometry of a supported kind, and the text is its rendering. |
| WktProperties.PointForm | GeoLibrary/IO/Wkt/WktWriter.cs:52-65 | A point renders as `"POINT (" + fmt(lon) + " " + fmt(lat) + ")"`. |
| WktProperties.LineStringHeader | GeoLibrary/IO/Wkt/WktWriter.cs:80-87 | A top-level line string is `"LINESTRING "` followed by exactly its keyword-less form, and that form starts with `(`. |
| WktProperties.PolygonHeader | GeoLibrary/IO/Wkt/WktWriter.cs:98-105 | A top-level polygon is `"POLYGON "` followed by exactly its keyword-less form, and that form starts with `(`. |
| WktProperties.PolygonNesting | GeoLibrary/IO/Wkt/WktWriter.cs:105-113 | A polygon is `"POLYGON ("`, then its rings' keyword-less forms joined by `", "`, then `")"`. Each of those forms is the ring's own top-level text minus `"LINESTRING "`. |
| WktProperties.TwoRingPolygon | GeoLibrary/IO/Wkt/WktWriter.cs:105-113 | A two-ring polygon is `"POLYGON (" + body(r0) + ", " + body(r1) + ")"`. |
| WktProperties.MultiPolygonNesting | GeoLibrary/IO/Wkt/WktWriter.cs:116-127 | A multipolygon is `"MULTIPOLYGON ("`, then its polygons' keyword-less forms joined by `", "`, then `")"`. Each of those forms is the polygon's own top-level text minus `"POLYGON "`. |
| WktProperties.EmptyComposites | GeoLibrary/IO/Wkt/WktWriter.cs:67-127 | A composite with no elements renders as its keyword followed by `" ()"`. |
| WktProperties.JoinEnds | GeoLibrary/IO/Wkt/WktWriter.cs:71-76 | A join starts with its first element and ends with its last, so no separator leads or trails. |
| WktProperties.JoinCommaCount | GeoLibrary/IO/Wkt/WktWriter.cs:88-93 | Joining n comma-free elements yields exactly n−1 commas, or none for an empty list. |
| WktProperties.CoordinateGroupCounts | GeoLibrary/IO/Wkt/WktWriter.cs:87-95 | A group of n points, when numbers format without delimiters, has n−1 commas, or none when empty. It has exactly one `(`, first, and one `)`, last. |
| WktProperties.JoinBalanced | GeoLibrary/IO/Wkt/WktWriter.cs:105-113 | Joining texts with balanced parentheses gives balanced parentheses. |
| WktProperties.BodyIsItem | GeoLibrary/IO/Wkt/WktWriter.cs:52-127 | When numbers format without delimiters, every body is balanced and has all of its commas inside parentheses, so it can be a list element. |
| WktProperties.RenderBalanced | GeoLibrary/IO/Wkt/WktWriter.cs:28-127 | Every text the writer produces has balanced parentheses, when numbers format without delimiters. |
| WktProperties.SpaceSplit | GeoLibrary/IO/Wkt/WktWriter.cs:62-64 | Two space-free texts, each followed by a space and more text, compare equal only if both parts are equal. |
| WktProperties.JoinInjective | GeoLibrary/IO/Wkt/WktWriter.cs:88-93 | Nonempty elements with their commas inside parentheses are recovered from their join. Equal joins mean equal lists. |
| WktProperties.PointTextInjective | GeoLibrary/IO/Wkt/WktWriter.cs:60-65 | Equal coordinate texts mean equal points, when the formatter is delimiter-free and one-to-one on the four coordinates of the two points. |
| WktProperties.CoordinateGroupInjective | GeoLibrary/IO/Wkt/WktWriter.cs:87-95 | Equal coordinate groups mean equal point sequences, when the formatter is delimiter-free and one-to-one on the numbers occurring in them. |
| WktProperties.PolygonBodyInjective | GeoLibrary/IO/Wkt/WktWriter.cs:105-113 | Equal keyword-less polygon texts mean equal polygons, when the formatter is delimiter-free and one-to-one on the numbers occurring in their rings. |
| WktProperties.PolygonListInjective | GeoLibrary/IO/Wkt/WktWriter.cs:118-126 | Equal multipolygon bodies mean equal polygon sequences, when the formatter is delimiter-free and one-to-one on the numbers occurring in them. |
| WktProperties.RenderInjective | GeoLibrary/IO/Wkt/WktWriter.cs:28-127 | Equal results, text or error, mean equal geometries, when the formatter is delimiter-free and one-to-one on the numbers occurring in the two geometries (`InjectiveOn(fmt, Coordinates(g1) + Coordinates(g2))`). |
| WktExamples.PointExample | GeoLibrary/IO/Wkt/WktWriter.cs:52-65 | Point (30, 10) is written `POINT (30 10)`. |
| WktExamples.LineStringExample | GeoLibrary/IO/Wkt/WktWriter.cs:80-96 | The line string (30,10), (10,30), (40,40) is written `LINESTRING (30 10, 10 30, 40 40)`. |
| WktExamples.PolygonExample | GeoLibrary/IO/Wkt/WktWriter.cs:98-114 | The one-ring polygon (30,10), (40,40), (20,40), (10,20), (30,10) is written `POLYGON ((30 10, 40 40, 20 40, 10 20, 30 10))`. |
| WktExamples.MultiPolygonExample | GeoLibrary/IO/Wkt/WktWriter.cs:116-127 | Two single-ring polygons are written `MULTIPOLYGON (((30 20, 45 40, 10 40, 30 20)), ((15 5, 40 10, 10 20, 5 10, 15 5)))`. |
| WktExamples.WrittenExample | GeoLibrary/IO/Wkt/WktWriter.cs:10-21 | A valid point goes through the entry point as its rendering, and a null geometry is refused. |

## Left out

- The double-to-string conversion `ToString(CultureInfo.InvariantCulture)` (lines 62 and 64) is the parameter `fmt` and is not modelled. Properties that need facts about it assume them: `DelimiterFree` (no comma, parenthesis or space), and `InjectiveOn` the coordinates of the geometries at hand. No formatter is one-to-one on all reals, so injectivity is never assumed beyond those coordinates. `WktExamples.InjectivityHypothesesMet` exhibits a formatter that meets both hypotheses. The examples assume `fmt` writes the integers they use as plain digits.
- Coordinates are reals, not doubles. NaN, the infinities and rounding are not modelled.
- The geometry model and its `IsValid` property are not part of this model. Validity is the parameter `isValid`, and a null geometry is `None`.
- The `WktTypes` constants are not part of this model. They are taken as the literal keywords POINT, MULTIPOINT, LINESTRING, POLYGON and MULTIPOLYGON.
- `StringBuilder` is modelled as a class holding a string that is only ever appended to. Its capacity and chunking are not modelled.
- The casts `multiPoint[i] as Point` and `multiPolygon[i] as Polygon` (lines 75 and 123) could yield null in C#. Here the element types are closed by the datatypes, so that null case does not arise.
- A null element of a collection cannot arise in the model. In C# a null point, ring or polygon taken at lines 75, 92, 110 or 123 makes the next member access (`point.Longitude` at line 62, `lineString.Count` at line 88, `polygon.Count` at line 106) throw a NullReferenceException. That exception path is not modelled, and `isValid` is not assumed to exclude it.
- Exceptions become a `Result`. Both failures are `ArgumentException` in the source, distinguished here as `InvalidGeometry` and `NotSupportedGeometryType(typeName)`. The exception message text is not modelled. The type name stands for `geometry.GetType()`.
- The builder that a failed `Build` leaves behind is never observed, because `Write` returns no text on failure.
- WKT parsing, coordinate reference systems, and 3D or measured coordinates are not in the writer and are not modelled.
- An empty composite is not rejected by the writer. Whether it is valid is decided by `isValid`. The writer renders it as `KEYWORD ()`, and `EmptyComposites` proves that.
- The separator between a multipolygon's polygons, and between a polygon's rings, is `", "` with a space, as the code emits it.
- WktExamples.MultiPolygonExample states the expected text as `"MULTIPOLYGON ("`, the two polygon texts with `", "` between them, and `")"`, written as one concatenation of those literal pieces rather than one literal.
