/**
 * The explode pipeline: joins per-point uncertainty onto the vertices of a
 * shoreline shapefile and writes a copy whose vertices carry the resolved
 * uncertainty in the Z slot.
 *
 * The uncertainty table is keyed by (point id, survey id); a vertex's point
 * id is its measure truncated toward zero. The output feature writer is
 * modelled as the sequence of attribute rows handed to it (`written`) and
 * whether its transaction was committed.
 */
module UncyZEncoding {
  import opened Common
  import opened Shapefile

  const EncodedZSuffix: string := "_zencode"
  const UncyField: string := "uncy"
  const IdField: string := "id"
  const SurveyIdField: string := "surveyID"
  const InShapeField: string := "inShape"

  /** Every row has one value per header field. */
  ghost predicate RowsFit(rows: seq<Row>, width: nat) {
    forall j :: 0 <= j < |rows| ==> |rows[j]| == width
  }

  // ---------------------------------------------------------------------
  // Field lookup

  /** Index of the last header field named `nm` (ignoring case), or -1. */
  function LastMatch(hdr: seq<Field>, nm: string): (i: int)
    ensures -1 <= i < |hdr|
    ensures 0 <= i ==> EqualsIgnoreCase(nm, hdr[i].name)
    ensures forall j :: i < j < |hdr| ==> !EqualsIgnoreCase(nm, hdr[j].name)
  {
    if |hdr| == 0 then -1
    else if EqualsIgnoreCase(nm, hdr[|hdr| - 1].name) then |hdr| - 1
    else LastMatch(hdr[..|hdr| - 1], nm)
  }

  /** The column a lookup resolves to, or why it fails. */
  function FieldIndex(hdr: seq<Field>, nm: string, expected: JClass): (r: Result<nat>)
    ensures r.Ok? ==> r.value < |hdr| && EqualsIgnoreCase(nm, hdr[r.value].name)
    ensures r.Ok? ==> AssignableFrom(expected, hdr[r.value].cls)
    ensures r.Ok? ==> forall j :: r.value < j < |hdr| ==> !EqualsIgnoreCase(nm, hdr[j].name)
    ensures r == Err(FieldNotFound(nm)) <==> forall j :: 0 <= j < |hdr| ==> !EqualsIgnoreCase(nm, hdr[j].name)
    ensures r.Err? ==> r.error == FieldNotFound(nm) || r.error == FieldClassMismatch(nm)
    ensures r == Err(FieldClassMismatch(nm)) <==>
      0 <= LastMatch(hdr, nm) && !AssignableFrom(expected, hdr[LastMatch(hdr, nm)].cls)
  {
    var i := LastMatch(hdr, nm);
    if i < 0 then Err(FieldNotFound(nm))
    else if AssignableFrom(expected, hdr[i].cls) then Ok(i)
    else Err(FieldClassMismatch(nm))
  }

  /**
   * Scans the whole header (the scan never stops early, so the last match
   * wins) and checks the matched column's class.
   */
  method LocateField(hdr: seq<Field>, nm: string, expected: JClass) returns (r: Result<nat>)
    ensures r == FieldIndex(hdr, nm, expected)
  {
    var idx := -1;
    var x := 0;
    while x < |hdr|
      invariant 0 <= x <= |hdr|
      invariant idx == LastMatch(hdr[..x], nm)
    {
      assert hdr[..x + 1][..x] == hdr[..x];
      if EqualsIgnoreCase(nm, hdr[x].name) {
        idx := x;
      }
      x := x + 1;
    }
    assert hdr[..|hdr|] == hdr;
    if idx < 0 {
      return Err(FieldNotFound(nm));
    }
    if !AssignableFrom(expected, hdr[idx].cls) {
      return Err(FieldClassMismatch(nm));
    }
    r := Ok(idx);
  }

  // ---------------------------------------------------------------------
  // The composite key

  /** (point id, survey id); the survey id may be null. */
  datatype UncyKey = UncyKey(idx: int, surveyID: Option<string>)

  /** `UncyKey.equals`: same id and same (possibly null) survey id. */
  function KeyEquals(a: UncyKey, b: UncyKey): (r: bool)
    ensures r <==> a == b
  {
    if a.idx != b.idx then false
    else if a.surveyID.None? then b.surveyID.None?
    else b.surveyID.Some? && a.surveyID.value == b.surveyID.value
  }

  /** 31 to the power `n`; its contract is only the positivity bound the polynomial needs. */
  function Pow31(n: nat): (p: int)
    ensures p >= 1
  {
    if n == 0 then 1 else 31 * Pow31(n - 1)
  }

  /** The hash polynomial `u[0]*31^(n-1) + ... + u[n-1]`, in unbounded arithmetic. */
  function HashPolynomial(u: seq<int>): int
  {
    if |u| == 0 then 0 else u[0] * Pow31(|u| - 1) + HashPolynomial(u[1..])
  }

  /** Appending a unit multiplies the polynomial by 31 and adds the unit. */
  lemma {:induction false} HashPolynomialAppend(u: seq<int>, c: int)
    ensures HashPolynomial(u + [c]) == 31 * HashPolynomial(u) + c
  {
    if |u| != 0 {
      var w := u + [c];
      assert w[0] == u[0] && w[1..] == u[1..] + [c];
      HashPolynomialAppend(u[1..], c);
      var p := Pow31(|u| - 1);
      assert Pow31(|w| - 1) == 31 * p;
      assert u[0] * (31 * p) == 31 * (u[0] * p);
    }
  }

  /** The hash loop `h = 31 * h + unit` over the code units, in 32-bit arithmetic. */
  function UnitsHash(u: seq<int>): (h: int)
    ensures IsInt32(h)
  {
    if |u| == 0 then 0 else Wrap32(31 * UnitsHash(u[..|u| - 1]) + u[|u| - 1])
  }

  /** Wrapping at every step gives the polynomial wrapped once. */
  lemma {:induction false} UnitsHashIsPolynomial(u: seq<int>)
    ensures UnitsHash(u) == Wrap32(HashPolynomial(u))
  {
    if |u| != 0 {
      var p, c := u[..|u| - 1], u[|u| - 1];
      UnitsHashIsPolynomial(p);
      WrapStep(HashPolynomial(p), c);
      assert u == p + [c];
      HashPolynomialAppend(p, c);
    }
  }

  /**
   * `String.hashCode`: `s[0]*31^(n-1) + ... + s[n-1]` over the UTF-16 code
   * units, in 32-bit arithmetic.
   */
  function StringHashCode(s: string): (h: int)
    ensures IsInt32(h)
    ensures h == Wrap32(HashPolynomial(Utf16(s)))
  {
    UnitsHashIsPolynomial(Utf16(s));
    UnitsHash(Utf16(s))
  }

  /** `UncyKey.hashCode`. */
  function KeyHashCode(k: UncyKey): (h: int)
    ensures IsInt32(h)
  {
    var result := Wrap32(31 * 1 + k.idx);
    Wrap32(31 * result + (match k.surveyID case None => 0 case Some(s) => StringHashCode(s)))
  }

  /** Keys that are equal hash alike. */
  lemma HashAgreesWithEquals(a: UncyKey, b: UncyKey)
    requires KeyEquals(a, b)
    ensures KeyHashCode(a) == KeyHashCode(b)
  {
  }

  /** `Integer.compare`. */
  function IntegerCompare(x: int, y: int): (r: int)
    ensures -1 <= r <= 1
    ensures r < 0 <==> x < y
    ensures r == 0 <==> x == y
  {
    if x < y then -1 else if x == y then 0 else 1
  }

  /**
   * Lexicographic comparison of code-unit sequences: the difference of the
   * first differing units, or else the difference of the lengths.
   */
  function UnitsCompare(u: seq<int>, v: seq<int>): int
  {
    if |u| == 0 || |v| == 0 then |u| - |v|
    else if u[0] != v[0] then u[0] - v[0]
    else UnitsCompare(u[1..], v[1..])
  }

  lemma {:induction false} UnitsCompareZeroIffEqual(u: seq<int>, v: seq<int>)
    ensures UnitsCompare(u, v) == 0 <==> u == v
  {
    if |u| != 0 && |v| != 0 && u[0] == v[0] {
      UnitsCompareZeroIffEqual(u[1..], v[1..]);
      assert u == [u[0]] + u[1..] && v == [v[0]] + v[1..];
    }
  }

  lemma {:induction false} UnitsCompareAntisymmetric(u: seq<int>, v: seq<int>)
    ensures UnitsCompare(u, v) == -UnitsCompare(v, u)
  {
    if |u| != 0 && |v| != 0 && u[0] == v[0] {
      UnitsCompareAntisymmetric(u[1..], v[1..]);
    }
  }

  lemma {:induction false} UnitsCompareTransitive(a: seq<int>, b: seq<int>, c: seq<int>)
    requires UnitsCompare(a, b) < 0 && UnitsCompare(b, c) < 0
    ensures UnitsCompare(a, c) < 0
  {
    if |a| != 0 && |b| != 0 && |c| != 0 && a[0] == b[0] && b[0] == c[0] {
      UnitsCompareTransitive(a[1..], b[1..], c[1..]);
    }
  }

  /** `String.compareTo`: lexicographic over the UTF-16 code units. */
  function StringCompareTo(s: string, t: string): int
  {
    UnitsCompare(Utf16(s), Utf16(t))
  }

  lemma StringCompareZeroIffEqual(s: string, t: string)
    ensures StringCompareTo(s, t) == 0 <==> s == t
  {
    UnitsCompareZeroIffEqual(Utf16(s), Utf16(t));
    if Utf16(s) == Utf16(t) {
      Utf16Injective(s, t);
    }
  }

  lemma StringCompareAntisymmetric(s: string, t: string)
    ensures StringCompareTo(s, t) == -StringCompareTo(t, s)
  {
    UnitsCompareAntisymmetric(Utf16(s), Utf16(t));
  }

  lemma StringCompareTransitive(a: string, b: string, c: string)
    requires StringCompareTo(a, b) < 0 && StringCompareTo(b, c) < 0
    ensures StringCompareTo(a, c) < 0
  {
    UnitsCompareTransitive(Utf16(a), Utf16(b), Utf16(c));
  }

  /**
   * The order is that of the code units, not of the characters: U+10000 is
   * stored as a surrogate pair starting with 0xD800, so it sorts before
   * U+FF61 although its code point is larger.
   */
  lemma SupplementarySortsBelowHighBmp()
    ensures StringCompareTo("\U{10000}", "\U{FF61}") < 0
  {
    assert Utf16("\U{10000}") == [0xD800, 0xDC00];
    assert Utf16("\U{FF61}") == [0xFF61];
  }

  /**
   * `UncyKey.compareTo`: by id, then by survey id. Two null survey ids
   * compare equal; a null against a non-null one fails.
   */
  function KeyCompareTo(a: UncyKey, b: UncyKey): (r: Result<int>)
    ensures a.idx != b.idx ==> r.Ok? && (r.value < 0 <==> a.idx < b.idx) && r.value != 0
    ensures a.idx == b.idx && a.surveyID.None? && b.surveyID.None? ==> r == Ok(0)
    ensures a.idx == b.idx && a.surveyID.None? != b.surveyID.None? ==> r == Err(NullDereference)
    ensures a.idx == b.idx && a.surveyID.Some? && b.surveyID.Some? ==>
      r == Ok(StringCompareTo(a.surveyID.value, b.surveyID.value))
    ensures r.Err? ==> r.error == NullDereference
    ensures r.Ok? ==> (r.value == 0 <==> a == b)
  {
    var v := IntegerCompare(a.idx, b.idx);
    if v != 0 then Ok(v)
    else if a.surveyID.None? && b.surveyID.None? then Ok(0)
    else if a.surveyID.None? || b.surveyID.None? then Err(NullDereference)
    else
      StringCompareZeroIffEqual(a.surveyID.value, b.surveyID.value);
      Ok(StringCompareTo(a.surveyID.value, b.surveyID.value))
  }

  /** Swapping the operands negates the comparison (or fails both ways). */
  lemma KeyCompareAntisymmetric(a: UncyKey, b: UncyKey)
    ensures KeyCompareTo(a, b).Ok? <==> KeyCompareTo(b, a).Ok?
    ensures KeyCompareTo(a, b).Ok? ==> KeyCompareTo(a, b).value == -KeyCompareTo(b, a).value
  {
    if a.idx == b.idx && a.surveyID.Some? && b.surveyID.Some? {
      StringCompareAntisymmetric(a.surveyID.value, b.surveyID.value);
    }
  }

  /** The key order is transitive. */
  lemma KeyCompareTransitive(a: UncyKey, b: UncyKey, c: UncyKey)
    requires KeyCompareTo(a, b).Ok? && KeyCompareTo(a, b).value < 0
    requires KeyCompareTo(b, c).Ok? && KeyCompareTo(b, c).value < 0
    ensures KeyCompareTo(a, c).Ok? && KeyCompareTo(a, c).value < 0
  {
    if a.idx == b.idx == c.idx {
      StringCompareTransitive(a.surveyID.value, b.surveyID.value, c.surveyID.value);
    }
  }

  // ---------------------------------------------------------------------
  // The uncertainty map

  /** Uncertainty by key; a null `uncy` cell is stored as `None`. */
  type UncyMap = map<UncyKey, Option<real>>

  /** Where the uncertainty table keeps its three columns. */
  datatype UncyColumns = UncyColumns(uncyIdx: nat, idIdx: nat, surveyIdx: nat)

  ghost predicate ColumnsFit(cols: UncyColumns, width: nat) {
    cols.uncyIdx < width && cols.idIdx < width && cols.surveyIdx < width
  }

  /** The three columns of the uncertainty table, looked up in this order. */
  function UncyColumnsOf(hdr: seq<Field>): (r: Result<UncyColumns>)
    ensures r.Ok? ==> ColumnsFit(r.value, |hdr|)
  {
    var uncyIdx :- FieldIndex(hdr, UncyField, DoubleClass);
    var idIdx :- FieldIndex(hdr, IdField, NumberClass);
    var surveyIdx :- FieldIndex(hdr, SurveyIdField, StringClass);
    Ok(UncyColumns(uncyIdx, idIdx, surveyIdx))
  }

  /** The key and value one row contributes; the id is truncated to an int. */
  function RowEntry(row: Row, cols: UncyColumns): Result<(UncyKey, Option<real>)>
    requires ColumnsFit(cols, |row|)
  {
    var i :- NumberIntValue(row[cols.idIdx]);
    var d :- AsDouble(row[cols.uncyIdx]);
    var s :- AsString(row[cols.surveyIdx]);
    Ok((UncyKey(i, s), d))
  }

  /** The map after putting the rows in order; the first bad row fails. */
  function UncyMapOf(rows: seq<Row>, cols: UncyColumns, width: nat): Result<UncyMap>
    requires RowsFit(rows, width) && ColumnsFit(cols, width)
  {
    if |rows| == 0 then Ok(map[])
    else
      var m :- UncyMapOf(rows[..|rows| - 1], cols, width);
      var e :- RowEntry(rows[|rows| - 1], cols);
      Ok(m[e.0 := e.1])
  }

  /** What reading the uncertainty table gives. */
  function ReadUncySpec(hdr: seq<Field>, rows: seq<Row>): Result<UncyMap>
    requires RowsFit(rows, |hdr|)
  {
    var cols :- UncyColumnsOf(hdr);
    UncyMapOf(rows, cols, |hdr|)
  }

  /** Reading the rows succeeds iff every row yields an entry. */
  lemma {:induction false} UncyMapOkIff(rows: seq<Row>, cols: UncyColumns, width: nat)
    requires RowsFit(rows, width) && ColumnsFit(cols, width)
    ensures UncyMapOf(rows, cols, width).Ok? <==> forall j :: 0 <= j < |rows| ==> RowEntry(rows[j], cols).Ok?
  {
    if |rows| != 0 {
      var pre := rows[..|rows| - 1];
      UncyMapOkIff(pre, cols, width);
      assert forall j :: 0 <= j < |pre| ==> pre[j] == rows[j];
    }
  }

  /** The map holds exactly the keys of the rows. */
  lemma {:induction false} UncyMapKeys(rows: seq<Row>, cols: UncyColumns, width: nat)
    requires RowsFit(rows, width) && ColumnsFit(cols, width)
    requires UncyMapOf(rows, cols, width).Ok?
    ensures forall k :: k in UncyMapOf(rows, cols, width).value <==>
      exists j :: 0 <= j < |rows| && RowEntry(rows[j], cols).Ok? && RowEntry(rows[j], cols).value.0 == k
  {
    if |rows| != 0 {
      var n := |rows| - 1;
      var pre := rows[..n];
      UncyMapKeys(pre, cols, width);
      assert forall j :: 0 <= j < n ==> pre[j] == rows[j];
      var m := UncyMapOf(rows, cols, width).value;
      var e := RowEntry(rows[n], cols).value;
      assert m == UncyMapOf(pre, cols, width).value[e.0 := e.1];
    }
  }

  /** A key maps to the value of the last row that has it: later rows overwrite earlier ones. */
  lemma {:induction false} UncyMapLastRowWins(rows: seq<Row>, cols: UncyColumns, width: nat, j: nat)
    requires RowsFit(rows, width) && ColumnsFit(cols, width)
    requires forall i :: 0 <= i < |rows| ==> RowEntry(rows[i], cols).Ok?
    requires j < |rows|
    requires forall i :: j < i < |rows| ==> RowEntry(rows[i], cols).value.0 != RowEntry(rows[j], cols).value.0
    ensures UncyMapOf(rows, cols, width).Ok?
    ensures RowEntry(rows[j], cols).value.0 in UncyMapOf(rows, cols, width).value
    ensures UncyMapOf(rows, cols, width).value[RowEntry(rows[j], cols).value.0] == RowEntry(rows[j], cols).value.1
  {
    var n := |rows| - 1;
    var pre := rows[..n];
    assert forall i :: 0 <= i < n ==> pre[i] == rows[i];
    UncyMapOkIff(rows, cols, width);
    if j < n {
      UncyMapLastRowWins(pre, cols, width, j);
    }
  }

  /** Once a prefix fails, every longer prefix fails the same way. */
  lemma {:induction false} UncyMapErrorPersists(rows: seq<Row>, cols: UncyColumns, width: nat, j: nat)
    requires RowsFit(rows, width) && ColumnsFit(cols, width)
    requires j <= |rows| && UncyMapOf(rows[..j], cols, width).Err?
    ensures UncyMapOf(rows, cols, width) == UncyMapOf(rows[..j], cols, width)
    decreases |rows| - j
  {
    if j < |rows| {
      assert rows[..j + 1][..j] == rows[..j];
      UncyMapErrorPersists(rows, cols, width, j + 1);
    } else {
      assert rows[..j] == rows;
    }
  }

  /** Reads the uncertainty table into the join map, row by row; a later row overwrites an earlier one. */
  method ReadUncyFromDBF(hdr: seq<Field>, rows: seq<Row>) returns (r: Result<UncyMap>)
    requires RowsFit(rows, |hdr|)
    ensures r == ReadUncySpec(hdr, rows)
  {
    var uncyIdx :- LocateField(hdr, UncyField, DoubleClass);
    var idIdx :- LocateField(hdr, IdField, NumberClass);
    var surveyIdx :- LocateField(hdr, SurveyIdField, StringClass);
    var cols := UncyColumns(uncyIdx, idIdx, surveyIdx);
    var value: UncyMap := map[];
    var j := 0;
    while j < |rows|
      invariant 0 <= j <= |rows|
      invariant UncyMapOf(rows[..j], cols, |hdr|) == Ok(value)
    {
      assert rows[..j + 1][..j] == rows[..j];
      var e := RowEntry(rows[j], cols);
      if e.Err? {
        UncyMapErrorPersists(rows, cols, |hdr|, j + 1);
        return Err(e.error);
      }
      value := value[e.value.0 := e.value.1];
      j := j + 1;
    }
    assert rows[..|rows|] == rows;
    r := Ok(value);
  }

  // ---------------------------------------------------------------------
  // Rewriting one shape

  /** An output vertex: the resolved uncertainty sits in the Z slot. */
  datatype ZVertex = ZVertex(x: real, y: real, z: real)

  /**
   * A feature handed to the writer: the geometry (output attribute 0) and
   * the values of output attributes 1, 2, ... in order.
   */
  datatype OutFeature = OutFeature(geom: seq<seq<ZVertex>>, attrs: seq<Value>)

  /** Number of vertices over all line strings. */
  function VertexCount<V>(lines: seq<seq<V>>): nat
  {
    if |lines| == 0 then 0 else VertexCount(lines[..|lines| - 1]) + |lines[|lines| - 1]|
  }

  /** Two multi-lines with the same number of line strings and the same length per line string have the same vertex count. */
  lemma {:induction false} SameShapeSameCount<A, B>(xs: seq<seq<A>>, ys: seq<seq<B>>)
    requires |xs| == |ys| && forall i :: 0 <= i < |xs| ==> |xs[i]| == |ys[i]|
    ensures VertexCount(xs) == VertexCount(ys)
  {
    if |xs| != 0 {
      SameShapeSameCount(xs[..|xs| - 1], ys[..|ys| - 1]);
    }
  }

  /** A single line string's vertices are part of the count. */
  lemma {:induction false} LineWithinCount<V>(lines: seq<seq<V>>, i: nat)
    requires i < |lines|
    ensures |lines[i]| <= VertexCount(lines)
  {
    if i < |lines| - 1 {
      LineWithinCount(lines[..|lines| - 1], i);
    }
  }

  /** The uncertainty a vertex gets: the joined value for a defined measure whose key holds one, else the feature's default. */
  function ResolveZ(uncyMap: UncyMap, dflt: real, surveyID: Option<string>, m: Measure): real
  {
    if m.Defined? then
      var key := UncyKey(TruncateToInt(m.v), surveyID);
      if key in uncyMap && uncyMap[key].Some? then uncyMap[key].value else dflt
    else dflt
  }

  /** A measure of 5.9 joins the entry of point 5, not 6: truncation, not rounding. */
  lemma MeasureIsTruncated(uncyMap: UncyMap, dflt: real, surveyID: Option<string>, u: real)
    requires UncyKey(5, surveyID) in uncyMap && uncyMap[UncyKey(5, surveyID)] == Some(u)
    ensures ResolveZ(uncyMap, dflt, surveyID, Defined(5.9)) == u
  {
  }

  /** A vertex with its x and y and the resolved uncertainty as Z. */
  function RewriteVertex(v: MVertex, uncyMap: UncyMap, dflt: real, surveyID: Option<string>): ZVertex
  {
    ZVertex(v.x, v.y, ResolveZ(uncyMap, dflt, surveyID, v.m))
  }

  /** A rewritten line string: one output vertex per input vertex, in order. */
  function RewriteLine(line: seq<MVertex>, uncyMap: UncyMap, dflt: real, surveyID: Option<string>): (r: seq<ZVertex>)
    ensures |r| == |line|
  {
    seq(|line|, j requires 0 <= j < |line| => RewriteVertex(line[j], uncyMap, dflt, surveyID))
  }

  /** The rewritten multi-line: same line strings, same vertices in order, Z = resolved uncertainty. */
  function RewriteShape(lines: seq<seq<MVertex>>, uncyMap: UncyMap, dflt: real, surveyID: Option<string>): (r: seq<seq<ZVertex>>)
    ensures |r| == |lines|
  {
    seq(|lines|, i requires 0 <= i < |lines| => RewriteLine(lines[i], uncyMap, dflt, surveyID))
  }

  /**
   * The rewrite keeps the topology: the same number of line strings, the
   * same vertex count in each, and every vertex keeps its x and y; only Z
   * changes.
   */
  lemma RewriteKeepsTopology(lines: seq<seq<MVertex>>, uncyMap: UncyMap, dflt: real, surveyID: Option<string>)
    ensures var r := RewriteShape(lines, uncyMap, dflt, surveyID);
      && |r| == |lines|
      && (forall i :: 0 <= i < |lines| ==> |r[i]| == |lines[i]|)
      && (forall i, j :: 0 <= i < |lines| && 0 <= j < |lines[i]| ==>
            r[i][j].x == lines[i][j].x && r[i][j].y == lines[i][j].y)
      && VertexCount(r) == VertexCount(lines)
  {
    var r := RewriteShape(lines, uncyMap, dflt, surveyID);
    SameShapeSameCount(r, lines);
  }

  /** The record a PolyLineZ writer stores for a rewritten shape (the M slot is not read back). */
  function WrittenRecord(number: int, geom: seq<seq<ZVertex>>): RawRecord
  {
    RawRecord(number, seq(|geom|, i requires 0 <= i < |geom| =>
      seq(|geom[i]|, j requires 0 <= j < |geom[i]| => RawVertex(geom[i][j].x, geom[i][j].y, Defined(geom[i][j].z), Absent))))
  }

  /**
   * Reading an exploded shape back with the Z-slot handler gives the input's
   * vertices, in order, with the resolved uncertainty as their measure.
   */
  lemma RereadWithArcZ(number: int, lines: seq<seq<MVertex>>, uncyMap: UncyMap, dflt: real, surveyID: Option<string>)
    ensures var back := Decode(WrittenRecord(number, RewriteShape(lines, uncyMap, dflt, surveyID)), ArcZ);
      && back.number == number
      && |back.lines| == |lines|
      && (forall i :: 0 <= i < |lines| ==> |back.lines[i]| == |lines[i]|)
      && (forall i, j :: 0 <= i < |lines| && 0 <= j < |lines[i]| ==>
            back.lines[i][j] == MVertex(lines[i][j].x, lines[i][j].y, Defined(ResolveZ(uncyMap, dflt, surveyID, lines[i][j].m))))
      && VertexCount(back.lines) == VertexCount(lines)
  {
    var back := Decode(WrittenRecord(number, RewriteShape(lines, uncyMap, dflt, surveyID)), ArcZ);
    SameShapeSameCount(back.lines, lines);
  }

  /**
   * The feature written for a shape: the geometry, then every input column
   * with the default-uncertainty column set to -1, then the record number.
   */
  function OutputRow(geom: seq<seq<ZVertex>>, row: Row, recordNum: int, dfltUncyIdx: nat): OutFeature
    requires dfltUncyIdx < |row|
  {
    OutFeature(geom, row[dfltUncyIdx := IntV(-1)] + [IntV(recordNum)])
  }

  /** Where each value of an output feature comes from. */
  lemma OutputRowLayout(geom: seq<seq<ZVertex>>, row: Row, recordNum: int, dfltUncyIdx: nat)
    requires dfltUncyIdx < |row|
    ensures var f := OutputRow(geom, row, recordNum, dfltUncyIdx);
      && f.geom == geom
      && |f.attrs| == |row| + 1
      && (forall i :: 0 <= i < |row| && i != dfltUncyIdx ==> f.attrs[i] == row[i])
      && f.attrs[dfltUncyIdx] == IntV(-1)
      && f.attrs[|row|] == IntV(recordNum)
  {
  }

  /**
   * What exploding one shape produces: its output row and vertex count, or
   * the failure. The default uncertainty is unboxed once per vertex, so a
   * null default fails only when the shape has a vertex.
   */
  function ExplodeShape(sap: ShapeAndAttributes, uncyMap: UncyMap, dfltUncyIdx: nat, surveyIDIdx: nat): Result<(OutFeature, nat)>
    requires dfltUncyIdx < |sap.row| && surveyIDIdx < |sap.row|
  {
    var dflt :- AsDouble(sap.row[dfltUncyIdx]);
    var surveyID :- AsString(sap.row[surveyIDIdx]);
    if dflt.None? && VertexCount(sap.record.lines) > 0 then Err(NullDereference)
    else
      // with no vertex the default is never read
      var geom := RewriteShape(sap.record.lines, uncyMap, dflt.GetOr(0.0), surveyID);
      Ok((OutputRow(geom, sap.row, sap.record.number, dfltUncyIdx), VertexCount(sap.record.lines)))
  }

  /**
   * Exploding a shape fails iff a cast fails or the default is null while
   * the shape has a vertex. Otherwise the written row carries a geometry of
   * the same topology, -1 in the uncertainty column and the record number
   * last, and the count is the shape's vertex count.
   */
  lemma ExplodeShapeOutcome(sap: ShapeAndAttributes, uncyMap: UncyMap, dfltUncyIdx: nat, surveyIDIdx: nat)
    requires dfltUncyIdx < |sap.row| && surveyIDIdx < |sap.row|
    ensures var r := ExplodeShape(sap, uncyMap, dfltUncyIdx, surveyIDIdx);
      r.Ok? <==>
        && AsDouble(sap.row[dfltUncyIdx]).Ok?
        && AsString(sap.row[surveyIDIdx]).Ok?
        && (sap.row[dfltUncyIdx].NullV? ==> VertexCount(sap.record.lines) == 0)
    ensures var r := ExplodeShape(sap, uncyMap, dfltUncyIdx, surveyIDIdx);
      r.Err? ==> r.error == ClassCast || (r.error == NullDereference && sap.row[dfltUncyIdx].NullV?)
    ensures var r := ExplodeShape(sap, uncyMap, dfltUncyIdx, surveyIDIdx);
      r.Ok? ==>
        && r.value.1 == VertexCount(sap.record.lines)
        && |r.value.0.geom| == |sap.record.lines|
        && (forall i :: 0 <= i < |sap.record.lines| ==> |r.value.0.geom[i]| == |sap.record.lines[i]|)
        && VertexCount(r.value.0.geom) == r.value.1
        && |r.value.0.attrs| == |sap.row| + 1
        && (forall i :: 0 <= i < |sap.row| && i != dfltUncyIdx ==> r.value.0.attrs[i] == sap.row[i])
        && r.value.0.attrs[dfltUncyIdx] == IntV(-1)
        && r.value.0.attrs[|sap.row|] == IntV(sap.record.number)
    ensures var r := ExplodeShape(sap, uncyMap, dfltUncyIdx, surveyIDIdx);
      r.Ok? ==> r.value.0.geom == RewriteShape(sap.record.lines, uncyMap,
                  AsDouble(sap.row[dfltUncyIdx]).value.GetOr(0.0), AsString(sap.row[surveyIDIdx]).value)
  {
    var r := ExplodeShape(sap, uncyMap, dfltUncyIdx, surveyIDIdx);
    if r.Ok? {
      var dflt := AsDouble(sap.row[dfltUncyIdx]).value;
      var surveyID := AsString(sap.row[surveyIDIdx]).value;
      RewriteKeepsTopology(sap.record.lines, uncyMap, dflt.GetOr(0.0), surveyID);
    }
  }

  /** Output attributes keep their binding, except that geometry becomes a multi-line. */
  function OutputBinding(b: Binding): Binding {
    if b.GeometryBinding? then GeometryBinding(MultiLineStringGeom) else b
  }

  /** The outcome of an explode run: the output file and what was logged. */
  datatype ExplodeResult = ExplodeResult(outputFile: string, points: nat, shapes: nat)

  /** Index of the last geometry attribute of a schema, or -1. */
  function LastGeometryIndex(schema: seq<AttrDesc>): (i: int)
    ensures -1 <= i < |schema|
    ensures 0 <= i ==> schema[i].binding.GeometryBinding?
    ensures forall j :: i < j < |schema| ==> !schema[j].binding.GeometryBinding?
  {
    if |schema| == 0 then -1
    else if schema[|schema| - 1].binding.GeometryBinding? then |schema| - 1
    else LastGeometryIndex(schema[..|schema| - 1])
  }

  /** The point total over the records of a shapefile. */
  function TotalVertices(recs: seq<RawRecord>): nat
  {
    if |recs| == 0 then 0 else TotalVertices(recs[..|recs| - 1]) + VertexCount(recs[|recs| - 1].parts)
  }

  /** The reader set-up: the default-uncertainty and survey-id columns and the join map. */
  function ReaderSetup(header: seq<Field>, uncyHdr: seq<Field>, uncyRows: seq<Row>): (r: Result<(nat, nat, UncyMap)>)
    requires RowsFit(uncyRows, |uncyHdr|)
    ensures r.Ok? ==> r.value.0 < |header| && r.value.1 < |header|
  {
    var dfltUncyIdx :- FieldIndex(header, UncyField, DoubleClass);
    var surveyIDIdx :- FieldIndex(header, SurveyIdField, StringClass);
    var uncyMap :- ReadUncySpec(uncyHdr, uncyRows);
    Ok((dfltUncyIdx, surveyIDIdx, uncyMap))
  }

  /** Record j of a shapefile with its row, as the M-slot reader yields them. */
  function PairAt(content: ShapefileContent, j: nat): ShapeAndAttributes
    requires j < |content.shp| && j < |content.dbf|
  {
    ShapeAndAttributes(Decode(content.shp[j], ArcM), content.dbf[j])
  }

  /** The record table fits its header and both columns exist. */
  ghost predicate Fits(content: ShapefileContent, dfltUncyIdx: nat, surveyIDIdx: nat) {
    RowsFit(content.dbf, |content.header|) && dfltUncyIdx < |content.header| && surveyIDIdx < |content.header|
  }

  /** What one step of the record loop yields: a feature and its vertex count, or the error. */
  type StepOutcome = Result<(OutFeature, nat)>

  /** Record j's outcome: its rewrite, or end of file when the record table has no row j. */
  function RecordOutcome(content: ShapefileContent, uncyMap: UncyMap, dfltUncyIdx: nat, surveyIDIdx: nat, j: nat): StepOutcome
    requires j < |content.shp| && Fits(content, dfltUncyIdx, surveyIDIdx)
  {
    if j < |content.dbf| then ExplodeShape(PairAt(content, j), uncyMap, dfltUncyIdx, surveyIDIdx) else Err(EndOfFile)
  }

  /** The outcome of every geometry record, in file order. */
  function RecordOutcomes(content: ShapefileContent, uncyMap: UncyMap, dfltUncyIdx: nat, surveyIDIdx: nat): (outs: seq<StepOutcome>)
    requires Fits(content, dfltUncyIdx, surveyIDIdx)
    ensures |outs| == |content.shp|
  {
    seq(|content.shp|, j requires 0 <= j < |content.shp| => RecordOutcome(content, uncyMap, dfltUncyIdx, surveyIDIdx, j))
  }

  /**
   * `outs` lists the outcome of every record of `content`. Each entry is
   * tied to its record only where that record's outcome is asked for.
   */
  ghost predicate OutcomesAgree(outs: seq<StepOutcome>, content: ShapefileContent, uncyMap: UncyMap, dfltUncyIdx: nat, surveyIDIdx: nat) {
    && Fits(content, dfltUncyIdx, surveyIDIdx)
    && |outs| == |content.shp|
    && forall j {:trigger RecordOutcome(content, uncyMap, dfltUncyIdx, surveyIDIdx, j)} ::
         0 <= j < |outs| ==> outs[j] == RecordOutcome(content, uncyMap, dfltUncyIdx, surveyIDIdx, j)
  }

  /**
   * The features written and points counted by the first `n` steps, in
   * order; the first failing step stops the run with its error.
   */
  function RunRecords(outs: seq<StepOutcome>, n: nat): Result<(seq<OutFeature>, nat)>
    requires n <= |outs|
  {
    if n == 0 then Ok(([], 0))
    else
      var done :- RunRecords(outs, n - 1);
      var shape :- outs[n - 1];
      Ok((done.0 + [shape.0], done.1 + shape.1))
  }

  /** A run succeeds iff every step does; it then writes step j's feature at position j. */
  lemma {:induction false} RunRecordsCharacterised(outs: seq<StepOutcome>, n: nat)
    requires n <= |outs|
    ensures RunRecords(outs, n).Ok? <==> forall j :: 0 <= j < n ==> outs[j].Ok?
    ensures RunRecords(outs, n).Ok? ==> |RunRecords(outs, n).value.0| == n
    ensures RunRecords(outs, n).Ok? ==> forall j :: 0 <= j < n ==> RunRecords(outs, n).value.0[j] == outs[j].value.0
  {
    if n != 0 {
      RunRecordsCharacterised(outs, n - 1);
    }
  }

  /** A run extends by one successful step: its feature is appended and its count added. */
  lemma RunRecordsExtend(outs: seq<StepOutcome>, n: nat, features: seq<OutFeature>, points: nat, f: OutFeature, count: nat)
    requires n < |outs| && RunRecords(outs, n) == Ok((features, points)) && outs[n] == Ok((f, count))
    ensures RunRecords(outs, n + 1) == Ok((features + [f], points + count))
  {
  }

  /** A failed run fails the same way however many more steps follow: the loop stops at the first error. */
  lemma {:induction false} RunRecordsErrorPersists(outs: seq<StepOutcome>, n: nat, m: nat)
    requires n <= m <= |outs| && RunRecords(outs, n).Err?
    ensures RunRecords(outs, m) == RunRecords(outs, n)
    decreases m - n
  {
    if n < m {
      RunRecordsErrorPersists(outs, n, m - 1);
    }
  }

  /** A successful run over the first `n` records counts exactly their vertices. */
  lemma RunRecordsPoints(content: ShapefileContent, uncyMap: UncyMap, dfltUncyIdx: nat, surveyIDIdx: nat, n: nat)
    requires Fits(content, dfltUncyIdx, surveyIDIdx) && n <= |content.shp|
    requires RunRecords(RecordOutcomes(content, uncyMap, dfltUncyIdx, surveyIDIdx), n).Ok?
    ensures RunRecords(RecordOutcomes(content, uncyMap, dfltUncyIdx, surveyIDIdx), n).value.1 == TotalVertices(content.shp[..n])
  {
    var outs := RecordOutcomes(content, uncyMap, dfltUncyIdx, surveyIDIdx);
    assert OutcomesAgree(outs, content, uncyMap, dfltUncyIdx, surveyIDIdx);
    RunPoints(outs, content, uncyMap, dfltUncyIdx, surveyIDIdx, n);
  }

  lemma {:induction false} RunPoints(outs: seq<StepOutcome>, content: ShapefileContent, uncyMap: UncyMap, dfltUncyIdx: nat, surveyIDIdx: nat, n: nat)
    requires OutcomesAgree(outs, content, uncyMap, dfltUncyIdx, surveyIDIdx) && n <= |outs|
    requires RunRecords(outs, n).Ok?
    ensures RunRecords(outs, n).value.1 == TotalVertices(content.shp[..n])
  {
    if n != 0 {
      RunPoints(outs, content, uncyMap, dfltUncyIdx, surveyIDIdx, n - 1);
      assert content.shp[..n][..n - 1] == content.shp[..n - 1];
      assert outs[n - 1] == RecordOutcome(content, uncyMap, dfltUncyIdx, surveyIDIdx, n - 1);
      var sap := PairAt(content, n - 1);
      ExplodeShapeOutcome(sap, uncyMap, dfltUncyIdx, surveyIDIdx);
      DecodeKeepsShape(content.shp[n - 1], ArcM);
      SameShapeSameCount(sap.record.lines, content.shp[n - 1].parts);
    }
  }

  /** What an explode run over these inputs writes and counts, or the error it stops with. */
  function ExplodeSpec(content: ShapefileContent, sourceSchema: seq<AttrDesc>, uncyHdr: seq<Field>, uncyRows: seq<Row>)
    : Result<(seq<OutFeature>, nat)>
    requires RowsFit(content.dbf, |content.header|) && RowsFit(uncyRows, |uncyHdr|)
  {
    var setup :- ReaderSetup(content.header, uncyHdr, uncyRows);
    if LastGeometryIndex(sourceSchema) != 0 then Err(GeometryNotFirst)
    else RunRecords(RecordOutcomes(content, setup.2, setup.0, setup.1), |content.shp|)
  }

  class UncyZEncoder {
    var geomIdx: int
    var dfltUncyIdx: int
    var surveyIDIdx: int
    var uncyMap: UncyMap
    var dbfHdr: seq<Field>
    var outputSchema: seq<AttrDesc>
    var written: seq<OutFeature>   // features handed to the writer
    var committed: bool               // whether the write transaction was committed

    /** The default-uncertainty and survey-id columns are located. */
    ghost predicate ReaderReady()
      reads this
    {
      0 <= dfltUncyIdx < |dbfHdr| && 0 <= surveyIDIdx < |dbfHdr|
    }

    constructor ()
      ensures geomIdx == -1 && dfltUncyIdx == -1 && surveyIDIdx == 0
      ensures uncyMap == map[] && dbfHdr == [] && outputSchema == []
      ensures written == [] && !committed
    {
      geomIdx := -1;
      dfltUncyIdx := -1;
      surveyIDIdx := 0;
      uncyMap := map[];
      dbfHdr := [];
      outputSchema := [];
      written := [];
      committed := false;
    }

    /**
     * Opens the shapefile (M-slot reader), takes its record-table header,
     * locates the default-uncertainty and survey-id columns and reads the
     * uncertainty table.
     */
    method InitReader(shapefileBaseName: string, content: ShapefileContent, uncyHdr: seq<Field>, uncyRows: seq<Row>)
      returns (rdr: MyShapefileReader, o: Outcome)
      requires RowsFit(uncyRows, |uncyHdr|)
      modifies this`dbfHdr, this`dfltUncyIdx, this`surveyIDIdx, this`uncyMap
      ensures fresh(rdr) && rdr.Valid() && rdr.AtStart()
      ensures rdr.file == NormaliseShpName(shapefileBaseName) && rdr.content == content && rdr.handler == ArcM
      ensures dbfHdr == content.header
      ensures o == Pass <==> ReaderSetup(content.header, uncyHdr, uncyRows).Ok?
      ensures o.Fail? ==> o.error == ReaderSetup(content.header, uncyHdr, uncyRows).error
      ensures o == Pass ==>
        ReaderReady() && (dfltUncyIdx, surveyIDIdx, uncyMap) == ReaderSetup(content.header, uncyHdr, uncyRows).value
    {
      rdr := new MyShapefileReader.FromName(shapefileBaseName, content);
      dbfHdr := content.header;
      var d := LocateField(dbfHdr, UncyField, DoubleClass);
      if d.Err? {
        return rdr, Fail(d.error);
      }
      dfltUncyIdx := d.value;
      var s := LocateField(dbfHdr, SurveyIdField, StringClass);
      if s.Err? {
        return rdr, Fail(s.error);
      }
      surveyIDIdx := s.value;
      var m := ReadUncyFromDBF(uncyHdr, uncyRows);
      if m.Err? {
        return rdr, Fail(m.error);
      }
      uncyMap := m.value;
      o := Pass;
    }

    /**
     * Derives the output schema: the input attributes in order, geometry
     * attributes re-typed as multi-line, plus a trailing `inShape` string
     * attribute; records where the (last) geometry attribute sits. Opens a
     * fresh, uncommitted writer.
     */
    method InitWriter(sourceSchema: seq<AttrDesc>)
      modifies this`geomIdx, this`outputSchema, this`written, this`committed
      ensures |outputSchema| == |sourceSchema| + 1
      ensures forall i :: 0 <= i < |sourceSchema| ==> outputSchema[i].name == sourceSchema[i].name
      ensures forall i :: 0 <= i < |sourceSchema| ==> outputSchema[i].binding == OutputBinding(sourceSchema[i].binding)
      ensures outputSchema[|sourceSchema|] == AttrDesc(InShapeField, ValueBinding(StringClass))
      ensures geomIdx == LastGeometryIndex(sourceSchema)
      ensures written == [] && !committed
    {
      var schema: seq<AttrDesc> := [];
      geomIdx := -1;
      var idx := 0;
      while idx < |sourceSchema|
        invariant 0 <= idx <= |sourceSchema|
        invariant |schema| == idx
        invariant forall i :: 0 <= i < idx ==> schema[i].name == sourceSchema[i].name
        invariant forall i :: 0 <= i < idx ==> schema[i].binding == OutputBinding(sourceSchema[i].binding)
        invariant geomIdx == LastGeometryIndex(sourceSchema[..idx])
      {
        assert sourceSchema[..idx + 1][..idx] == sourceSchema[..idx];
        var ad := sourceSchema[idx];
        if ad.binding.GeometryBinding? {
          schema := schema + [AttrDesc(ad.name, GeometryBinding(MultiLineStringGeom))];
          geomIdx := idx;
        } else {
          schema := schema + [AttrDesc(ad.name, ad.binding)];
        }
        idx := idx + 1;
      }
      assert sourceSchema[..|sourceSchema|] == sourceSchema;
      outputSchema := schema + [AttrDesc(InShapeField, ValueBinding(StringClass))];
      written := [];
      committed := false;
    }

    /** Hands one output feature to the writer: geometry, the row with the uncertainty column as -1, the record number. */
    method WriteMultiLine(mls: seq<seq<ZVertex>>, row: Row, recordNum: int)
      requires ReaderReady() && |row| == |dbfHdr|
      modifies this`written
      ensures written == old(written) + [OutputRow(mls, row, recordNum, dfltUncyIdx)]
    {
      var writeFeature := new Value[|row| + 1](_ => NullV);
      var i := 0;
      while i < |dbfHdr|
        invariant 0 <= i <= |dbfHdr|
        invariant written == old(written)
        invariant forall k :: 0 <= k < i ==> writeFeature[k] == (if k == dfltUncyIdx then IntV(-1) else row[k])
      {
        var value: Value;
        if i == dfltUncyIdx {
          value := IntV(-1);
        } else {
          value := row[i];
        }
        writeFeature[i] := value;
        i := i + 1;
      }
      writeFeature[i] := IntV(recordNum);
      assert writeFeature[..] == row[dfltUncyIdx := IntV(-1)] + [IntV(recordNum)];
      written := written + [OutFeature(mls, writeFeature[..])];
    }

    /**
     * Rewrites one shape: every vertex of every line string gets the
     * uncertainty joined on (truncated measure, survey id), or the shape's
     * default; writes the feature and returns the vertex count.
     */
    method ProcessShape(sap: ShapeAndAttributes) returns (r: Result<nat>)
      requires ReaderReady() && |sap.row| == |dbfHdr|
      modifies this`written
      ensures var spec := ExplodeShape(sap, uncyMap, dfltUncyIdx, surveyIDIdx);
        && (r.Ok? <==> spec.Ok?)
        && (r.Ok? ==> r.value == spec.value.1 && written == old(written) + [spec.value.0])
        && (r.Err? ==> r.error == spec.error && written == old(written))
    {
      var dflt :- AsDouble(sap.row[dfltUncyIdx]);
      var surveyID :- AsString(sap.row[surveyIDIdx]);
      var lines: seq<seq<MVertex>> := sap.record.lines;
      var recordNum := sap.record.number;
      var numGeom := |lines|;
      var ptCt := 0;
      var destLineStr := new seq<ZVertex>[numGeom];
      var lineStringIdx := 0;
      while lineStringIdx < numGeom
        invariant 0 <= lineStringIdx <= numGeom
        invariant ptCt == VertexCount(lines[..lineStringIdx])
        invariant dflt.None? ==> ptCt == 0
        invariant forall i :: 0 <= i < lineStringIdx ==>
          destLineStr[i] == RewriteLine(lines[i], uncyMap, dflt.GetOr(0.0), surveyID)
        invariant written == old(written)
      {
        assert lines[..lineStringIdx + 1][..lineStringIdx] == lines[..lineStringIdx];
        var sourceLine: seq<MVertex> := lines[lineStringIdx];
        var destCoord: seq<ZVertex> := [];
        var k := 0;
        while k < |sourceLine|
          invariant 0 <= k <= |sourceLine|
          invariant dflt.None? ==> k == 0
          invariant |destCoord| == k
          invariant forall j :: 0 <= j < k ==> destCoord[j] == RewriteVertex(sourceLine[j], uncyMap, dflt.GetOr(0.0), surveyID)
        {
          if dflt.None? {
            // unboxing the null default
            LineWithinCount(lines, lineStringIdx);
            return Err(NullDereference);
          }
          var p := sourceLine[k];
          var uncy := dflt.value;
          if p.m.Defined? {
            var mi := TruncateToInt(p.m.v);
            var key := UncyKey(mi, surveyID);
            if key in uncyMap && uncyMap[key].Some? {
              uncy := uncyMap[key].value;
            }
          }
          destCoord := destCoord + [ZVertex(p.x, p.y, uncy)];
          k := k + 1;
        }
        ptCt := ptCt + |sourceLine|;
        assert destCoord == RewriteLine(sourceLine, uncyMap, dflt.GetOr(0.0), surveyID);
        destLineStr[lineStringIdx] := destCoord;
        lineStringIdx := lineStringIdx + 1;
      }
      assert lines[..numGeom] == lines;
      var destMultiLine := destLineStr[..];
      assert destMultiLine == RewriteShape(lines, uncyMap, dflt.GetOr(0.0), surveyID);
      WriteMultiLine(destMultiLine, sap.row, recordNum);
      r := Ok(ptCt);
    }

    /**
     * Explodes a shapefile: sets up reader and writer, refuses input whose
     * geometry is not attribute 0, rewrites every record in order and
     * commits. Succeeds iff every step does; the point total is the sum of
     * the per-shape vertex counts and the shape count the number of records.
     */
    method Explode(shapefileBaseName: string, content: ShapefileContent, sourceSchema: seq<AttrDesc>,
                   uncyHdr: seq<Field>, uncyRows: seq<Row>)
      returns (r: Result<ExplodeResult>)
      requires RowsFit(content.dbf, |content.header|) && RowsFit(uncyRows, |uncyHdr|)
      modifies this
      ensures var spec := ExplodeSpec(content, sourceSchema, uncyHdr, uncyRows);
        && (r.Ok? <==> spec.Ok?)
        && (r.Err? ==> r.error == spec.error)
        && (r.Ok? ==> written == spec.value.0 && r.value.points == spec.value.1)
      ensures ReaderSetup(content.header, uncyHdr, uncyRows).Err? ==>
        written == old(written) && committed == old(committed)
      ensures ReaderSetup(content.header, uncyHdr, uncyRows).Ok? && r.Err? ==> !committed
      ensures ReaderSetup(content.header, uncyHdr, uncyRows).Ok? && LastGeometryIndex(sourceSchema) != 0 ==> written == []
      ensures r.Ok? ==> committed && r.value.outputFile == shapefileBaseName + EncodedZSuffix + ShpSuffix
      ensures r.Ok? ==> r.value.shapes == |content.shp|
      ensures r.Ok? ==> ReaderReady() && dbfHdr == content.header
      ensures r.Ok? ==> (dfltUncyIdx, surveyIDIdx, uncyMap) == ReaderSetup(content.header, uncyHdr, uncyRows).value
    {
      var rdr, o := InitReader(shapefileBaseName, content, uncyHdr, uncyRows);
      if o.Fail? {
        return Err(o.error);
      }
      InitWriter(sourceSchema);
      var zEncodedFile := shapefileBaseName + EncodedZSuffix + ShpSuffix;
      if geomIdx != 0 {
        return Err(GeometryNotFirst);
      }
      ghost var outs := RecordOutcomes(content, uncyMap, dfltUncyIdx, surveyIDIdx);
      assert OutcomesAgree(outs, content, uncyMap, dfltUncyIdx, surveyIDIdx);
      var counts := ProcessAll(rdr, outs);
      if counts.Err? {
        return Err(counts.error);
      }
      committed := true;
      r := Ok(ExplodeResult(zEncodedFile, counts.value.1, counts.value.0));
    }

    /**
     * The record loop of an explode run: restarts the reader and rewrites
     * every record it yields, in order; returns the shape and point counts.
     */
    method ProcessAll(rdr: MyShapefileReader, ghost outs: seq<StepOutcome>) returns (r: Result<(nat, nat)>)
      requires rdr.Valid() && !rdr.useArcZForMeasure
      requires ReaderReady() && dbfHdr == rdr.content.header
      requires OutcomesAgree(outs, rdr.content, uncyMap, dfltUncyIdx, surveyIDIdx)
      requires written == []
      modifies rdr, this`written
      ensures var spec := RunRecords(outs, |outs|);
        && (r.Ok? <==> spec.Ok?)
        && (r.Err? ==> r.error == spec.error)
        && (r.Ok? ==> written == spec.value.0 && r.value == (|rdr.content.shp|, spec.value.1))
      ensures r.Err? ==> exists k :: (0 <= k < |outs| && outs[k].Err? && r.error == outs[k].error
                                      && RunRecords(outs, k).Ok? && written == RunRecords(outs, k).value.0)
    {
      var content := rdr.content;
      rdr.Iterator();
      var shpCt := 0;
      var ptTotal := 0;
      var more := rdr.HasNext();
      while more
        invariant rdr.Valid() && rdr.handler == ArcM
        invariant rdr.shpPos == rdr.dbfPos == shpCt <= |content.shp|
        invariant more <==> shpCt < |content.shp|
        invariant RunRecords(outs, shpCt) == Ok((written, ptTotal))
        modifies rdr, this`written
        decreases |content.shp| - shpCt
      {
        ghost var before := written;
        var ptCt := ProcessNextRecord(rdr, outs);
        if ptCt.Err? {
          RunRecordsErrorPersists(outs, shpCt + 1, |outs|);
          assert outs[shpCt].Err? && RunRecords(outs, shpCt).Ok? && written == RunRecords(outs, shpCt).value.0;
          return Err(ptCt.error);
        }
        assert written == before + [written[|written| - 1]];
        RunRecordsExtend(outs, shpCt, before, ptTotal, written[|written| - 1], ptCt.value);
        ptTotal := ptTotal + ptCt.value;
        shpCt := shpCt + 1;
        more := rdr.HasNext();
      }
      r := Ok((shpCt, ptTotal));
    }

    /** One pass of the record loop: reads the next record with its row and rewrites it; `outs` names the outcome of every record. */
    method ProcessNextRecord(rdr: MyShapefileReader, ghost outs: seq<StepOutcome>) returns (r: Result<nat>)
      requires rdr.Valid() && rdr.handler == ArcM
      requires rdr.shpPos == rdr.dbfPos < |rdr.content.shp|
      requires ReaderReady() && dbfHdr == rdr.content.header
      requires OutcomesAgree(outs, rdr.content, uncyMap, dfltUncyIdx, surveyIDIdx)
      modifies rdr, this`written
      ensures rdr.Valid() && rdr.shpPos == old(rdr.shpPos) + 1
      ensures r.Ok? ==> rdr.dbfPos == old(rdr.dbfPos) + 1
      ensures r.Ok? <==> outs[old(rdr.shpPos)].Ok?
      ensures r.Err? ==> r.error == outs[old(rdr.shpPos)].error
      ensures r.Err? ==> written == old(written)
      ensures r.Ok? ==> |written| == |old(written)| + 1 && written[..|old(written)|] == old(written)
      ensures r.Ok? ==> outs[old(rdr.shpPos)] == Ok((written[|written| - 1], r.value))
    {
      assert outs[rdr.shpPos] == RecordOutcome(rdr.content, uncyMap, dfltUncyIdx, surveyIDIdx, rdr.shpPos);
      var saa := rdr.Next();
      if saa.Err? {
        return Err(saa.error);
      }
      r := ProcessShape(saa.value);
    }
  }
}
