# Shoreline uncertainty and transect intersections, modelled in Dafny

This project models three pieces of sequential logic from the coastal-hazards
shoreline tools and proves properties of them.

- **The paired shapefile reader** (`shapefile_reader.dfy`, module `Shapefile`).
  It walks a shoreline shapefile and yields each geometry record with the
  attribute row at the same position. The `.shp` geometry reader and the
  `.dbf` record reader are modelled as the decoded file content plus one
  cursor each. A `used` flag makes `iterator()` a full reset. The
  measure-slot handler is either ARCM (measure read from the M slot) or ARCZ
  (measure read from the Z slot).
- **The explode pipeline** (`uncy_encoder.dfy`, module `UncyZEncoding`). It:
  - looks up columns by name, ignoring case;
  - builds the uncertainty join map, keyed by (point id, survey id), where
    the last row wins;
  - rewrites every vertex of every shape so that its Z carries the joined
    uncertainty, or the shape's default;
  - hands each rewritten feature to the writer, with the uncertainty column
    set to -1 and the record number appended.

  The feature writer is modelled as the sequence of features handed to it
  (`written`) and whether its transaction was committed.
- **The transect intersection engine** (`intersection.dfy`, module
  `IntersectionEngine`). For one transect it:
  - keeps one intersection per survey date, the closest or the farthest by
    absolute distance;
  - merges sub-transect tables into a running per-date table;
  - resolves an intersection's uncertainty from the two segment endpoints
    (distance-weighted mean, the smaller value on a zero-length segment,
    an error on a negative value) or from the feature's `uncy` attribute;
  - builds the output schema and the values of the output feature.

`common.dfy` (module `Common`) holds what the three share: `Result`/`Option`,
the error taxonomy (one variant per exception the code throws), NaN-able
measures, attribute values and classes, Java `int` wrap-around and the
truncating `(int)` cast, ASCII case folding, and strings seen as Java stores
them: sequences of UTF-16 code units, which is what `String.hashCode` and
`String.compareTo` work on.

Geometry is an input. A candidate segment carries the point where it crosses
the transect (or none). Distances come from a `Metric` parameter, a function
from two points to a non-negative real. Doubles are `real`, and NaN is the
`Absent` case of `Measure`.

On equal absolute distance, `compare(new, stored, closest)` returns its
first argument when `closest` and its second when farthest. So a
later candidate of equal distance replaces the stored one under "closest"
and does not replace it under "farthest". The sub-transect merge does the
same (`Compare`, `Winner`, `Merged`).

## Model

| member | source | states |
|---|---|---|
| Common.Wrap32 | coastal-hazards-uncy-reader/src/main/java/gov/usgs/cida/coastalhazards/uncy/UncyZEncoder.java:128-133 | the result is a 32-bit int congruent to the input modulo 2^32, and equal to it when it already fits |
| Common.WrapCongruent | coastal-hazards-uncy-reader/src/main/java/gov/usgs/cida/coastalhazards/uncy/UncyZEncoder.java:128-133 | inputs congruent modulo 2^32 wrap to the same int |
| Common.WrapStep | coastal-hazards-uncy-reader/src/main/java/gov/usgs/cida/coastalhazards/uncy/UncyZEncoder.java:130-132 | one `31 * h + c` step gives the same int whether `h` was wrapped before it or not, so wrapping at every step equals wrapping once |
| Common.TruncateToInt | coastal-hazards-uncy-reader/src/main/java/gov/usgs/cida/coastalhazards/uncy/UncyZEncoder.java:235 | `(int) d` rounds toward zero: never past `d` and less than one away from it inside the int range, saturating at the bounds |
| Common.LowerCase | coastal-hazards-commons/src/main/java/gov/usgs/cida/utilities/shapefile/MyShapefileReader.java:48 | same length, each character folded to lower case, ASCII letters folded and every other character kept |
| Common.EqualsIgnoreCase | coastal-hazards-uncy-reader/src/main/java/gov/usgs/cida/coastalhazards/uncy/UncyZEncoder.java:71 | (predicate, no ensures) same length and equal after folding ASCII letters, position by position; `IgnoreCaseIsLowerEquality` ties it to `LowerCase` |
| Common.IgnoreCaseIsLowerEquality | coastal-hazards-uncy-reader/src/main/java/gov/usgs/cida/coastalhazards/uncy/UncyZEncoder.java:71 | two names match ignoring case iff their lower-cased forms are equal, in both directions |
| Common.AssignableFrom | coastal-hazards-uncy-reader/src/main/java/gov/usgs/cida/coastalhazards/uncy/UncyZEncoder.java:80 | (predicate, no ensures) `expected.isAssignableFrom(actual)`: the same class, `Object`, or `Number` over `Double`, `Integer` and `Long`; `AssignableFromPreorder` states its laws |
| Common.AssignableFromPreorder | coastal-hazards-uncy-reader/src/main/java/gov/usgs/cida/coastalhazards/uncy/UncyZEncoder.java:80 | assignability is reflexive and transitive |
| Common.Utf16Units | coastal-hazards-uncy-reader/src/main/java/gov/usgs/cida/coastalhazards/uncy/UncyZEncoder.java:131-132 | a character is one code unit, itself and not a surrogate, iff it is below U+10000; otherwise two units, a high surrogate then a low surrogate |
| Common.Utf16Injective | coastal-hazards-uncy-reader/src/main/java/gov/usgs/cida/coastalhazards/uncy/UncyZEncoder.java:168 | different strings have different UTF-16 encodings, so hashing and comparing code units loses nothing |
| Common.AsDouble | coastal-hazards-uncy-reader/src/main/java/gov/usgs/cida/coastalhazards/uncy/UncyZEncoder.java:194 | a `(Double)` cast succeeds exactly on a double or null, and a non-null result is the cell's value |
| Common.AsString | coastal-hazards-uncy-reader/src/main/java/gov/usgs/cida/coastalhazards/uncy/UncyZEncoder.java:195 | a `(String)` cast succeeds exactly on a string or null, and a non-null result is the cell's value |
| Common.NumberIntValue | coastal-hazards-uncy-reader/src/main/java/gov/usgs/cida/coastalhazards/uncy/UncyZEncoder.java:193 | `((Number) v).intValue()` succeeds exactly on numbers and gives a 32-bit int: an Integer that fits is kept, a Long is its value modulo 2^32, a Double is truncated toward zero by `TruncateToInt`; a null cell fails with a null dereference and any other class with a class-cast error |
| Shapefile.NormaliseShpName | coastal-hazards-commons/src/main/java/gov/usgs/cida/utilities/shapefile/MyShapefileReader.java:47-50 | `.shp` is appended iff the lower-cased name does not already end with it |
| Shapefile.NormalisedEndsWithShp | coastal-hazards-commons/src/main/java/gov/usgs/cida/utilities/shapefile/MyShapefileReader.java:48-50 | every normalised name ends with `.shp` ignoring case |
| Shapefile.NormaliseIdempotent | coastal-hazards-commons/src/main/java/gov/usgs/cida/utilities/shapefile/MyShapefileReader.java:48-50 | normalising twice gives the same name as normalising once |
| Shapefile.MeasureSlot | coastal-hazards-commons/src/main/java/gov/usgs/cida/utilities/shapefile/MyShapefileReader.java:106-110 | the ARCZ handler is installed iff the Z slot is asked for, otherwise ARCM |
| Shapefile.DecodeVertex | coastal-hazards-commons/src/main/java/gov/usgs/cida/utilities/shapefile/MyShapefileReader.java:106-110 | a decoded vertex keeps x and y and takes its measure from the Z slot under ARCZ and from the M slot under ARCM |
| Shapefile.DecodeKeepsShape | coastal-hazards-commons/src/main/java/gov/usgs/cida/utilities/shapefile/MyShapefileReader.java:141 | a decoded record keeps its number, its line strings and their lengths, and each vertex is decoded in place |
| Shapefile.MyShapefileReader.FromName | coastal-hazards-commons/src/main/java/gov/usgs/cida/utilities/shapefile/MyShapefileReader.java:44-53 | the file is the normalised base name, the handler is ARCM, both cursors are at the start and the reader is unused |
| Shapefile.MyShapefileReader.FromFile | coastal-hazards-commons/src/main/java/gov/usgs/cida/utilities/shapefile/MyShapefileReader.java:60-64 | the file is taken as given, the handler is ARCM, the reader is at the start and unused |
| Shapefile.MyShapefileReader.FromFileArcZ | coastal-hazards-commons/src/main/java/gov/usgs/cida/utilities/shapefile/MyShapefileReader.java:75-79 | the handler is ARCZ iff `useArcZ`, the reader is at the start and unused |
| Shapefile.MyShapefileReader.Init | coastal-hazards-commons/src/main/java/gov/usgs/cida/utilities/shapefile/MyShapefileReader.java:94-118 | `used` is cleared, both cursors restart at 0, and the handler matches the measure choice |
| Shapefile.MyShapefileReader.Iterator | coastal-hazards-commons/src/main/java/gov/usgs/cida/utilities/shapefile/MyShapefileReader.java:120-126 | a used reader is reset to its first record; an unused one is left exactly as it is |
| Shapefile.MyShapefileReader.HasNext | coastal-hazards-commons/src/main/java/gov/usgs/cida/utilities/shapefile/MyShapefileReader.java:128-135 | true iff the geometry reader has a record left; the attribute reader is not consulted and nothing changes |
| Shapefile.MyShapefileReader.Next | coastal-hazards-commons/src/main/java/gov/usgs/cida/utilities/shapefile/MyShapefileReader.java:137-147 | marks the reader used; on success both cursors advance by one and it returns the decoded record and the row at the same position; reading past the end of either file fails and leaves that file's cursor unmoved |
| Shapefile.MyShapefileReader.Remove | coastal-hazards-commons/src/main/java/gov/usgs/cida/utilities/shapefile/MyShapefileReader.java:149-152 | always fails with an unsupported-operation error |
| UncyZEncoding.LastMatch | coastal-hazards-uncy-reader/src/main/java/gov/usgs/cida/coastalhazards/uncy/UncyZEncoder.java:67-74 | the index of a field matching the name ignoring case with no matching field after it, or -1 |
| UncyZEncoding.FieldIndex | coastal-hazards-uncy-reader/src/main/java/gov/usgs/cida/coastalhazards/uncy/UncyZEncoder.java:66-85 | succeeds with the last field matching the name ignoring case when its class is assignable; not-found iff no field matches; class mismatch iff the last match has the wrong class |
| UncyZEncoding.LocateField | coastal-hazards-uncy-reader/src/main/java/gov/usgs/cida/coastalhazards/uncy/UncyZEncoder.java:66-85 | the full header scan returns what `FieldIndex` specifies |
| UncyZEncoding.KeyEquals | coastal-hazards-uncy-reader/src/main/java/gov/usgs/cida/coastalhazards/uncy/UncyZEncoder.java:136-153 | `equals` holds iff id and (possibly null) survey id are the same |
| UncyZEncoding.Pow31 | coastal-hazards-uncy-reader/src/main/java/gov/usgs/cida/coastalhazards/uncy/UncyZEncoder.java:128-132 | only a positivity bound: a power of 31 is at least 1, which the polynomial helper needs |
| UncyZEncoding.HashPolynomialAppend | coastal-hazards-uncy-reader/src/main/java/gov/usgs/cida/coastalhazards/uncy/UncyZEncoder.java:128-132 | appending a code unit multiplies the exact polynomial `u[0]*31^(n-1) + ... + u[n-1]` by 31 and adds the unit |
| UncyZEncoding.UnitsHash | coastal-hazards-uncy-reader/src/main/java/gov/usgs/cida/coastalhazards/uncy/UncyZEncoder.java:131-132 | the 32-bit hash loop `h = 31*h + unit` over code units gives a 32-bit int |
| UncyZEncoding.UnitsHashIsPolynomial | coastal-hazards-uncy-reader/src/main/java/gov/usgs/cida/coastalhazards/uncy/UncyZEncoder.java:131-132 | the hash loop with wrap-around at every step equals the exact polynomial wrapped once to 32 bits |
| UncyZEncoding.StringHashCode | coastal-hazards-uncy-reader/src/main/java/gov/usgs/cida/coastalhazards/uncy/UncyZEncoder.java:131-132 | `String.hashCode` is a 32-bit int and equals `s[0]*31^(n-1) + ... + s[n-1]` over the string's UTF-16 code units, wrapped to 32 bits |
| UncyZEncoding.KeyHashCode | coastal-hazards-uncy-reader/src/main/java/gov/usgs/cida/coastalhazards/uncy/UncyZEncoder.java:126-134 | the key hash is a 32-bit int |
| UncyZEncoding.HashAgreesWithEquals | coastal-hazards-uncy-reader/src/main/java/gov/usgs/cida/coastalhazards/uncy/UncyZEncoder.java:126-153 | equal keys have equal hash codes |
| UncyZEncoding.IntegerCompare | coastal-hazards-uncy-reader/src/main/java/gov/usgs/cida/coastalhazards/uncy/UncyZEncoder.java:159 | -1, 0 or 1; negative iff less, zero iff equal |
| UncyZEncoding.UnitsCompare | coastal-hazards-uncy-reader/src/main/java/gov/usgs/cida/coastalhazards/uncy/UncyZEncoder.java:168 | (no ensures) the difference of the first differing code units, or else of the lengths; its laws are the three `UnitsCompare` lemmas |
| UncyZEncoding.UnitsCompareZeroIffEqual | coastal-hazards-uncy-reader/src/main/java/gov/usgs/cida/coastalhazards/uncy/UncyZEncoder.java:168 | code-unit comparison is zero exactly on equal sequences |
| UncyZEncoding.UnitsCompareAntisymmetric | coastal-hazards-uncy-reader/src/main/java/gov/usgs/cida/coastalhazards/uncy/UncyZEncoder.java:168 | swapping the code-unit sequences negates the comparison |
| UncyZEncoding.UnitsCompareTransitive | coastal-hazards-uncy-reader/src/main/java/gov/usgs/cida/coastalhazards/uncy/UncyZEncoder.java:168 | code-unit order is transitive |
| UncyZEncoding.StringCompareTo | coastal-hazards-uncy-reader/src/main/java/gov/usgs/cida/coastalhazards/uncy/UncyZEncoder.java:168 | (no ensures) `String.compareTo` is `UnitsCompare` over the two strings' UTF-16 code units; the lemmas below state its laws |
| UncyZEncoding.StringCompareZeroIffEqual | coastal-hazards-uncy-reader/src/main/java/gov/usgs/cida/coastalhazards/uncy/UncyZEncoder.java:168 | string comparison is zero exactly on equal strings |
| UncyZEncoding.StringCompareAntisymmetric | coastal-hazards-uncy-reader/src/main/java/gov/usgs/cida/coastalhazards/uncy/UncyZEncoder.java:168 | swapping the strings negates the comparison |
| UncyZEncoding.StringCompareTransitive | coastal-hazards-uncy-reader/src/main/java/gov/usgs/cida/coastalhazards/uncy/UncyZEncoder.java:168 | string order is transitive |
| UncyZEncoding.SupplementarySortsBelowHighBmp | coastal-hazards-uncy-reader/src/main/java/gov/usgs/cida/coastalhazards/uncy/UncyZEncoder.java:168 | the order is by code unit, not by character: U+10000, a surrogate pair from 0xD800, sorts before U+FF61 |
| UncyZEncoding.KeyCompareTo | coastal-hazards-uncy-reader/src/main/java/gov/usgs/cida/coastalhazards/uncy/UncyZEncoder.java:155-170 | orders by id first; on equal ids two null survey ids compare 0, a null against a non-null one fails with a null dereference, and two non-null ones compare by `StringCompareTo`; a successful comparison is zero exactly when the keys are equal |
| UncyZEncoding.KeyCompareAntisymmetric | coastal-hazards-uncy-reader/src/main/java/gov/usgs/cida/coastalhazards/uncy/UncyZEncoder.java:155-170 | the comparison fails both ways or neither way, and swapping the keys negates it |
| UncyZEncoding.KeyCompareTransitive | coastal-hazards-uncy-reader/src/main/java/gov/usgs/cida/coastalhazards/uncy/UncyZEncoder.java:155-170 | the key order is transitive |
| UncyZEncoding.UncyColumnsOf | coastal-hazards-uncy-reader/src/main/java/gov/usgs/cida/coastalhazards/uncy/UncyZEncoder.java:184-186 | the three located columns lie inside the header |
| UncyZEncoding.RowEntry | coastal-hazards-uncy-reader/src/main/java/gov/usgs/cida/coastalhazards/uncy/UncyZEncoder.java:193-197 | (no ensures) one row's key `(intValue of id, survey id)` and uncertainty, or the first failing cast in the order id, uncertainty, survey id; `UncyMapOkIff` and `UncyMapKeys` state what it contributes |
| UncyZEncoding.UncyMapOf | coastal-hazards-uncy-reader/src/main/java/gov/usgs/cida/coastalhazards/uncy/UncyZEncoder.java:188-199 | (no ensures) the rows put into the map in order, the first failing row stopping the read; the four `UncyMap` lemmas below state its properties |
| UncyZEncoding.UncyMapOkIff | coastal-hazards-uncy-reader/src/main/java/gov/usgs/cida/coastalhazards/uncy/UncyZEncoder.java:190-199 | building the map succeeds iff every row's id, uncertainty and survey id cast |
| UncyZEncoding.UncyMapKeys | coastal-hazards-uncy-reader/src/main/java/gov/usgs/cida/coastalhazards/uncy/UncyZEncoder.java:188-199 | the map's keys are exactly the (truncated id, survey id) pairs of the rows |
| UncyZEncoding.UncyMapLastRowWins | coastal-hazards-uncy-reader/src/main/java/gov/usgs/cida/coastalhazards/uncy/UncyZEncoder.java:197-198 | a key maps to the uncertainty of the last row that has it |
| UncyZEncoding.UncyMapErrorPersists | coastal-hazards-uncy-reader/src/main/java/gov/usgs/cida/coastalhazards/uncy/UncyZEncoder.java:190-199 | the first failing row decides the error of the whole read |
| UncyZEncoding.ReadUncySpec | coastal-hazards-uncy-reader/src/main/java/gov/usgs/cida/coastalhazards/uncy/UncyZEncoder.java:184-206 | (no ensures) the three column lookups, then `UncyMapOf` over the rows; `ReadUncyFromDBF` is proved to compute it |
| UncyZEncoding.ReadUncyFromDBF | coastal-hazards-uncy-reader/src/main/java/gov/usgs/cida/coastalhazards/uncy/UncyZEncoder.java:174-206 | the column lookups and the row loop give the map, or the error, that `ReadUncySpec` defines |
| UncyZEncoding.SameShapeSameCount | coastal-hazards-uncy-reader/src/main/java/gov/usgs/cida/coastalhazards/uncy/UncyZEncoder.java:220-249 | multi-lines with the same line-string lengths have the same vertex count |
| UncyZEncoding.LineWithinCount | coastal-hazards-uncy-reader/src/main/java/gov/usgs/cida/coastalhazards/uncy/UncyZEncoder.java:226-247 | one line string's vertices are part of the shape's count |
| UncyZEncoding.ResolveZ | coastal-hazards-uncy-reader/src/main/java/gov/usgs/cida/coastalhazards/uncy/UncyZEncoder.java:231-242 | (no ensures) a vertex's uncertainty: the joined value when the measure is defined and its key `((int) m, surveyID)` holds a non-null value, else the shape's default; `MeasureIsTruncated` and `RereadWithArcZ` state it |
| UncyZEncoding.MeasureIsTruncated | coastal-hazards-uncy-reader/src/main/java/gov/usgs/cida/coastalhazards/uncy/UncyZEncoder.java:233-241 | a measure of 5.9 joins the entry of point 5: truncation toward zero, not rounding |
| UncyZEncoding.RewriteVertex | coastal-hazards-uncy-reader/src/main/java/gov/usgs/cida/coastalhazards/uncy/UncyZEncoder.java:231-244 | (no ensures) the vertex with its x and y kept and `ResolveZ` as its Z; `RewriteKeepsTopology` states it for whole shapes |
| UncyZEncoding.RewriteLine | coastal-hazards-uncy-reader/src/main/java/gov/usgs/cida/coastalhazards/uncy/UncyZEncoder.java:223-251 | one output vertex per input vertex |
| UncyZEncoding.RewriteShape | coastal-hazards-uncy-reader/src/main/java/gov/usgs/cida/coastalhazards/uncy/UncyZEncoder.java:218-255 | one output line string per input line string |
| UncyZEncoding.RewriteKeepsTopology | coastal-hazards-uncy-reader/src/main/java/gov/usgs/cida/coastalhazards/uncy/UncyZEncoder.java:218-255 | the rewrite keeps the number of line strings, each one's vertex count and every vertex's x and y, so the vertex count is unchanged |
| UncyZEncoding.RereadWithArcZ | coastal-hazards-uncy-reader/src/main/java/gov/usgs/cida/coastalhazards/uncy/UncyZEncoder.java:231-255 | reading a written shape back with the ARCZ handler gives the input's vertices in order, with the resolved uncertainty as their measure: the default unless the measure is defined and its key holds a value |
| UncyZEncoding.OutputRow | coastal-hazards-uncy-reader/src/main/java/gov/usgs/cida/coastalhazards/uncy/UncyZEncoder.java:263-280 | (no ensures) the feature built from a geometry and an input row; `OutputRowLayout` states where each value comes from |
| UncyZEncoding.OutputRowLayout | coastal-hazards-uncy-reader/src/main/java/gov/usgs/cida/coastalhazards/uncy/UncyZEncoder.java:261-283 | the written feature has the geometry first, every other column copied in place, -1 in the default-uncertainty column and the record number last |
| UncyZEncoding.ExplodeShape | coastal-hazards-uncy-reader/src/main/java/gov/usgs/cida/coastalhazards/uncy/UncyZEncoder.java:208-259 | (no ensures) one shape's output feature and vertex count, or its failure; `ExplodeShapeOutcome` states it |
| UncyZEncoding.ExplodeShapeOutcome | coastal-hazards-uncy-reader/src/main/java/gov/usgs/cida/coastalhazards/uncy/UncyZEncoder.java:208-259 | a shape fails iff a cast fails or the default is null while the shape has a vertex; otherwise the feature's geometry is `RewriteShape` of the shape's lines with the cell's default and survey id (so `RewriteKeepsTopology` and `RereadWithArcZ` apply), its row has the layout above, and the count is the shape's vertex count |
| UncyZEncoding.LastGeometryIndex | coastal-hazards-uncy-reader/src/main/java/gov/usgs/cida/coastalhazards/uncy/UncyZEncoder.java:294-306 | the index of a geometry attribute with none after it, or -1 |
| UncyZEncoding.ReaderSetup | coastal-hazards-uncy-reader/src/main/java/gov/usgs/cida/coastalhazards/uncy/UncyZEncoder.java:409-418 | the located default-uncertainty and survey-id columns lie inside the header |
| UncyZEncoding.RecordOutcomes | coastal-hazards-uncy-reader/src/main/java/gov/usgs/cida/coastalhazards/uncy/UncyZEncoder.java:377-383 | one outcome per geometry record |
| UncyZEncoding.RunRecordsCharacterised | coastal-hazards-uncy-reader/src/main/java/gov/usgs/cida/coastalhazards/uncy/UncyZEncoder.java:377-383 | the record loop succeeds iff every step does, and then writes step j's feature at position j |
| UncyZEncoding.RunRecordsExtend | coastal-hazards-uncy-reader/src/main/java/gov/usgs/cida/coastalhazards/uncy/UncyZEncoder.java:378-382 | a successful step appends its feature and adds its count to the total |
| UncyZEncoding.RunRecordsErrorPersists | coastal-hazards-uncy-reader/src/main/java/gov/usgs/cida/coastalhazards/uncy/UncyZEncoder.java:377-383 | the loop stops at the first failing record, with its error |
| UncyZEncoding.RunRecordsPoints | coastal-hazards-uncy-reader/src/main/java/gov/usgs/cida/coastalhazards/uncy/UncyZEncoder.java:378-381 | a successful run's point total is the number of vertices in the records it read |
| UncyZEncoding.RunPoints | coastal-hazards-uncy-reader/src/main/java/gov/usgs/cida/coastalhazards/uncy/UncyZEncoder.java:378-381 | the same point-total statement, for any outcome list that agrees with the records |
| UncyZEncoding.UncyZEncoder.constructor | coastal-hazards-uncy-reader/src/main/java/gov/usgs/cida/coastalhazards/uncy/UncyZEncoder.java:56-64 | the field defaults: no geometry index, no default-uncertainty column, empty map and header, nothing written |
| UncyZEncoding.UncyZEncoder.InitReader | coastal-hazards-uncy-reader/src/main/java/gov/usgs/cida/coastalhazards/uncy/UncyZEncoder.java:409-418 | opens an ARCM reader at the start on the normalised name, takes its header, and succeeds iff both columns are found and the uncertainty table reads, storing exactly those results |
| UncyZEncoding.UncyZEncoder.InitWriter | coastal-hazards-uncy-reader/src/main/java/gov/usgs/cida/coastalhazards/uncy/UncyZEncoder.java:285-308 | the output schema keeps names and order, retypes geometry as multi-line and appends a string `inShape`; the geometry index is that of the last geometry attribute; nothing is written yet |
| UncyZEncoding.UncyZEncoder.WriteMultiLine | coastal-hazards-uncy-reader/src/main/java/gov/usgs/cida/coastalhazards/uncy/UncyZEncoder.java:261-283 | appends exactly one feature, laid out as `OutputRowLayout` states |
| UncyZEncoding.UncyZEncoder.ProcessShape | coastal-hazards-uncy-reader/src/main/java/gov/usgs/cida/coastalhazards/uncy/UncyZEncoder.java:208-259 | succeeds iff `ExplodeShape` does; then it writes that feature and returns the vertex count; on failure it writes nothing |
| UncyZEncoding.UncyZEncoder.Explode | coastal-hazards-uncy-reader/src/main/java/gov/usgs/cida/coastalhazards/uncy/UncyZEncoder.java:361-390 | fails before writing if setup fails or the geometry is not attribute 0; otherwise the written features and the point total are those of the record loop, the shape count is the number of records, the output is `<base>_zencode.shp`, and it commits only on success |
| UncyZEncoding.UncyZEncoder.ProcessAll | coastal-hazards-uncy-reader/src/main/java/gov/usgs/cida/coastalhazards/uncy/UncyZEncoder.java:377-383 | the `for` loop over the reader writes and counts what `RunRecords` gives over all records; on failure it stops at a failing record with that record's error, having written exactly the features of the records before it |
| UncyZEncoding.UncyZEncoder.ProcessNextRecord | coastal-hazards-uncy-reader/src/main/java/gov/usgs/cida/coastalhazards/uncy/UncyZEncoder.java:377-378 | one loop pass: the reader advances, the step's outcome is that record's outcome, one feature is appended on success and nothing is written on failure |
| IntersectionEngine.Compare | coastal-hazards-wps/src/main/java/gov/usgs/cida/coastalhazards/wps/geom/Intersection.java:336-343 | returns one of its arguments, with the minimal absolute distance when `closest` and the maximal otherwise; on a tie it returns `a` when closest and `b` when farthest |
| IntersectionEngine.AbsoluteFarthest | coastal-hazards-wps/src/main/java/gov/usgs/cida/coastalhazards/wps/geom/Intersection.java:345-354 | at least `min` and every absolute distance, and equal to `min` or to one of them |
| IntersectionEngine.MakeIntersection | coastal-hazards-wps/src/main/java/gov/usgs/cida/coastalhazards/wps/geom/Intersection.java:361-370 | the intersection of a crossing candidate: its point, feature, segment and transect id, with the absolute distance from the origin carrying the transect's sign |
| IntersectionEngine.GetDate | coastal-hazards-wps/src/main/java/gov/usgs/cida/coastalhazards/wps/geom/Intersection.java:283-293 | a `Date` attribute gives that date; a string gives what the month/day/year parser gives, and a malformed-date error when it does not parse; anything else fails with an unsupported-feature-type error. `Feature.date` is an input standing for this outcome; the model does not call `GetDate` itself |
| IntersectionEngine.Step | coastal-hazards-wps/src/main/java/gov/usgs/cida/coastalhazards/wps/geom/Intersection.java:371-378 | (no ensures) one pass of the candidate loop: a non-crossing candidate changes nothing, a crossing one is inserted for a new date or competes through `Compare`; `WinnerStep` states what it keeps |
| IntersectionEngine.Selected | coastal-hazards-wps/src/main/java/gov/usgs/cida/coastalhazards/wps/geom/Intersection.java:360-380 | (no ensures) the table the candidates give, taken in order; the `Selected` lemmas below state its keys, winners and errors |
| IntersectionEngine.SelectedErrorPersists | coastal-hazards-wps/src/main/java/gov/usgs/cida/coastalhazards/wps/geom/Intersection.java:360-380 | a date that cannot be read stops the selection with its error |
| IntersectionEngine.SelectedOkIff | coastal-hazards-wps/src/main/java/gov/usgs/cida/coastalhazards/wps/geom/Intersection.java:360-380 | the selection succeeds iff every crossing candidate's date can be read; otherwise it fails with the first failing candidate's error |
| IntersectionEngine.SelectedKeys | coastal-hazards-wps/src/main/java/gov/usgs/cida/coastalhazards/wps/geom/Intersection.java:360-380 | the table's keys are exactly the dates of the candidates that cross the transect |
| IntersectionEngine.SelectedWinner | coastal-hazards-wps/src/main/java/gov/usgs/cida/coastalhazards/wps/geom/Intersection.java:371-378 | each entry is its date's winning candidate: the last of the closest, or the first of the farthest |
| IntersectionEngine.WinnerBound | coastal-hazards-wps/src/main/java/gov/usgs/cida/coastalhazards/wps/geom/Intersection.java:372-375 | no crossing of the winner's date is closer (closest) or farther (farthest) than the winner |
| IntersectionEngine.WinnerKept | coastal-hazards-wps/src/main/java/gov/usgs/cida/coastalhazards/wps/geom/Intersection.java:372-375 | a winner stays when the next candidate does not displace it |
| IntersectionEngine.WinnerLast | coastal-hazards-wps/src/main/java/gov/usgs/cida/coastalhazards/wps/geom/Intersection.java:372-377 | the newest candidate wins when it beats every earlier crossing of its date under the comparator's tie rule |
| IntersectionEngine.WinnerStep | coastal-hazards-wps/src/main/java/gov/usgs/cida/coastalhazards/wps/geom/Intersection.java:372-377 | one insert-or-compare step keeps a winner for every date of the table |
| IntersectionEngine.SelectedBest | coastal-hazards-wps/src/main/java/gov/usgs/cida/coastalhazards/wps/geom/Intersection.java:356-382 | each entry is the intersection of one of its date's crossing candidates, and its absolute distance is the minimum (closest) or the maximum (farthest) over them |
| IntersectionEngine.CalculateIntersections | coastal-hazards-wps/src/main/java/gov/usgs/cida/coastalhazards/wps/geom/Intersection.java:356-382 | the candidate loop computes `Selected`, the table whose properties the lemmas above state |
| IntersectionEngine.IntersectionTable.constructor | coastal-hazards-wps/src/main/java/gov/usgs/cida/coastalhazards/wps/geom/Intersection.java:357 | a new table is empty |
| IntersectionEngine.Resign | coastal-hazards-wps/src/main/java/gov/usgs/cida/coastalhazards/wps/geom/Intersection.java:399 | only the distance changes; its absolute value is the distance from the point to the shared origin, and it is non-negative for sign 1 and non-positive for sign -1 |
| IntersectionEngine.MergeEntry | coastal-hazards-wps/src/main/java/gov/usgs/cida/coastalhazards/wps/geom/Intersection.java:400-410 | a new date takes the offered entry; a stored date is replaced iff `useFarthest` equals "offered is strictly farther" (or the two are the same); the result is always the offered or the stored entry |
| IntersectionEngine.Merged | coastal-hazards-wps/src/main/java/gov/usgs/cida/coastalhazards/wps/geom/Intersection.java:397-411 | the keys are the union; dates absent from the subset are unchanged; new dates get the re-signed entry; a date both have keeps what `Compare(resigned, stored, !useFarthest)` picks, so it is replaced iff `useFarthest` equals "strictly farther" |
| IntersectionEngine.MergedExtensional | coastal-hazards-wps/src/main/java/gov/usgs/cida/coastalhazards/wps/geom/Intersection.java:397-411 | a table with the merge's keys and entries is the merge |
| IntersectionEngine.UpdateIntersectionsWithSubTransect | coastal-hazards-wps/src/main/java/gov/usgs/cida/coastalhazards/wps/geom/Intersection.java:394-412 | succeeds iff the sub-transect's selection does; the table then becomes `Merged` of its old value, and on failure it is unchanged |
| IntersectionEngine.MergeSubset | coastal-hazards-wps/src/main/java/gov/usgs/cida/coastalhazards/wps/geom/Intersection.java:397-411 | the loop over the subset's dates, in any order, leaves the table equal to `Merged` |
| IntersectionEngine.HasPointUncertainty | coastal-hazards-wps/src/main/java/gov/usgs/cida/coastalhazards/wps/geom/Intersection.java:242-246 | (predicate, no ensures) the intersection has a segment and both its endpoints carry a Z uncertainty; `PointBasedUncertainty` gives none exactly when it fails |
| IntersectionEngine.PointBasedUncertainty | coastal-hazards-wps/src/main/java/gov/usgs/cida/coastalhazards/wps/geom/Intersection.java:238-281 | none iff there is no segment or an endpoint lacks an uncertainty; an error iff one is negative; otherwise a non-negative value between the two, and their minimum on a zero-length segment |
| IntersectionEngine.WeightedMean | coastal-hazards-wps/src/main/java/gov/usgs/cida/coastalhazards/wps/geom/Intersection.java:263-269 | the distance-weighted mean lies between the two uncertainties |
| IntersectionEngine.WeightedMeanBetween | coastal-hazards-wps/src/main/java/gov/usgs/cida/coastalhazards/wps/geom/Intersection.java:269 | `(d2*u1 + d1*u2)/(d1 + d2)` lies between `u1` and `u2` |
| IntersectionEngine.InterpolationIsLinear | coastal-hazards-wps/src/main/java/gov/usgs/cida/coastalhazards/wps/geom/Intersection.java:263-269 | at fraction `f` along the segment the uncertainty is `u1 + f*(u2 - u1)`: `u1` at the first endpoint and `u2` at the second |
| IntersectionEngine.MeanAtFraction | coastal-hazards-wps/src/main/java/gov/usgs/cida/coastalhazards/wps/geom/Intersection.java:269 | the weighted mean at fraction `f` is the linear interpolation |
| IntersectionEngine.UncertaintySymmetric | coastal-hazards-wps/src/main/java/gov/usgs/cida/coastalhazards/wps/geom/Intersection.java:238-281 | swapping the segment's endpoints does not change the uncertainty, including the zero-length minimum |
| IntersectionEngine.GetUncertainty | coastal-hazards-wps/src/main/java/gov/usgs/cida/coastalhazards/wps/geom/Intersection.java:305-318 | without point uncertainties it is the feature's `uncy` attribute, and fails with an unsupported-feature-type error iff that is not a double; with them it is exactly `PointBasedUncertainty`'s value, failing iff one is negative and otherwise lying between them |
| IntersectionEngine.Kept | coastal-hazards-wps/src/main/java/gov/usgs/cida/coastalhazards/wps/geom/Intersection.java:181-187 | (predicate, no ensures) an attribute is copied iff it is not a geometry and its name is not `uncy` ignoring case; `KeptAttributes` states the copy |
| IntersectionEngine.KeptAttributes | coastal-hazards-wps/src/main/java/gov/usgs/cida/coastalhazards/wps/geom/Intersection.java:180-189 | exactly the non-geometry attributes not named `uncy` (ignoring case) are copied; the lemmas below make it an order-preserving filter |
| IntersectionEngine.KeptAttributesSingle | coastal-hazards-wps/src/main/java/gov/usgs/cida/coastalhazards/wps/geom/Intersection.java:181-187 | one attribute is copied iff it is kept |
| IntersectionEngine.KeptAttributesSnoc | coastal-hazards-wps/src/main/java/gov/usgs/cida/coastalhazards/wps/geom/Intersection.java:180-188 | one more attribute extends the copy by itself when kept and leaves it otherwise |
| IntersectionEngine.KeptAttributesAppend | coastal-hazards-wps/src/main/java/gov/usgs/cida/coastalhazards/wps/geom/Intersection.java:180-188 | the copy of a concatenation is the concatenation of the copies, so the copied attributes keep their schema order and multiplicity |
| IntersectionEngine.BuildSimpleFeatureType | coastal-hazards-wps/src/main/java/gov/usgs/cida/coastalhazards/wps/geom/Intersection.java:170-191 | the schema is the point geometry, transect id, distance and uncertainty header followed by the copied attributes, and only the header carries the geometry and the uncertainty |
| IntersectionEngine.SlotOf | coastal-hazards-wps/src/main/java/gov/usgs/cida/coastalhazards/wps/geom/Intersection.java:213-223 | (no ensures) which value an output attribute receives, tried in the code's order: geometry, transect id, distance, uncertainty (names ignoring case), else a copy; `BuildSimpleFeatureType` and `CreateFeature` state it |
| IntersectionEngine.CreateFeature | coastal-hazards-wps/src/main/java/gov/usgs/cida/coastalhazards/wps/geom/Intersection.java:208-226 | one value per schema attribute: the point for geometry, the transect id, the distance, the resolved uncertainty, or the feature's attribute of that name; it fails iff the schema has an uncertainty attribute and resolving it fails |

## Left out

- Geometry (JTS) is not part of this model. The spatial-index query becomes the candidate sequence. `segment.intersects`/`intersection` become each candidate's `crossing`. `Coordinate.distance` becomes the `Metric` parameter. The "must be a point" cast of the crossing is assumed to hold.
- Date handling (Joda) is not part of this model. The month/day/year text parser `inputFormat` is a parameter of `GetDate`: a function from text to a date or nothing. A text date it rejects gives the malformed-date error, which stands for the `IllegalArgumentException` Joda throws. A feature carries the outcome of `getDate` as `Result<Date>`.
- IEEE floating point is not modelled. Doubles are reals and NaN is `Absent`, so rounding and infinities are not captured.
- `AttributeGetter` and `Constants` are not part of this model. Attribute matching is ASCII case-insensitive name equality. `getValue` is an exact-name lookup in which a missing attribute is null. The constant names `TransectID`, `Distance` and `uncy` are stand-ins for the values defined there.
- Shapefile and record-table byte decoding (`ShapefileReader`, `DbaseFileReader`, `MultiLineZHandler`) is not modelled. The reader sees decoded content. The handler is modelled only by which slot (M or Z) supplies the measure.
- I/O exceptions from opening or reading files are not modelled; only reading past the end of a file is.
- The feature writer, the transaction and the output data store are modelled only as the list of written features and a committed flag. The output file is modelled only by its name.
- `setAttribute` conversion of values to the output schema's bindings is not modelled.
- `readSourceSchema`, `shapefileNames`, `getDbfHeader`, `getShpFiles`, `toString`, logging and both `main` methods are not modelled. The source schema and the uncertainty table's header and rows are inputs to `Explode`.
- `synchronized` on the reader's methods is not modelled.
- Overflow of the `shpCt`/`ptTotal` counters is not modelled (they are unbounded naturals).
- The second `Intersection` constructor (from an intersection feature) is not modelled. `getTransectId`/`getDistance` are field reads.
- UpdateIntersectionsWithSubTransect: the Java loop overwrites `distance` on the subset's own intersection objects. Those objects are created by the nested `calculateIntersections` call and are not shared, so the model re-signs values instead of updating them in place.
- UncyZEncoding.UncyZEncoder.ProcessAll and UncyZEncoding.UncyZEncoder.ProcessNextRecord are the body of the `for` loop in `explode`, split into methods. UncyZEncoding.UncyZEncoder.Explode's contract is stated through them.
- IntersectionEngine.MergeSubset is the body of the merge loop in `updateIntersectionsWithSubTransect`, split into a method.
- The feature type builder's name, CRS and handling of duplicate attribute names are not modelled.
- The M slot of the written PolyLineZ records is not modelled (`WrittenRecord` leaves it absent).
- Common.EqualsIgnoreCase: folds only the ASCII letters A-Z. Java's `equalsIgnoreCase` also matches other cased characters, for example dotless `ı` with `i` and long `ſ` with `s`, so such names match in Java and not in the model.
- Common.LowerCase: folds only the ASCII letters A-Z, where `toLowerCase` folds every cased character.
- UncyZEncoding.LastMatch: column names are matched with ASCII-only case folding (see `Common.EqualsIgnoreCase`); a header name such as `ſurveyID` matches `surveyID` in Java but not here.
- UncyZEncoding.FieldIndex: the same ASCII-only name matching as `LastMatch`.
- UncyZEncoding.LocateField: the same ASCII-only name matching as `LastMatch`.
- IntersectionEngine.Kept: the `uncy` name test uses ASCII-only case folding. No non-ASCII character folds to a letter of the stand-in name `uncy`, so the two tests agree for it; they may differ for another value of the constant.
- IntersectionEngine.SlotOf: the transect id, distance and `uncy` name tests use ASCII-only case folding, so an attribute named `DıSTANCE` (dotless ı) or `Diſtance` (long ſ) matches the distance slot in Java and is copied in the model.
- IntersectionEngine.BuildSimpleFeatureType: inherits the ASCII-only name test of `Kept`.
- IntersectionEngine.CreateFeature: inherits the ASCII-only name tests of `SlotOf`.
- UncyZEncoding.StringHashCode: code units are those of the `string` after UTF-16 encoding; an unpaired surrogate, which a Java string can hold, is not a Dafny character and cannot appear.
- UncyZEncoding.StringCompareTo: the same restriction to well-formed UTF-16 as `StringHashCode`.
