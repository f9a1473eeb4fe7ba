/**
 * Values shared by the shoreline readers, the uncertainty encoder and the
 * intersection engine: optional and failing results, the error taxonomy,
 * NaN-able measures, attribute values and schemas, and the Java primitive
 * conversions (32-bit wrap-around, double-to-int truncation, ASCII case
 * folding) that the code relies on.
 */
module Common {

  datatype Option<+T> = None | Some(value: T) {
    function GetOr(default: T): T {
      match this
      case Some(v) => v
      case None => default
    }
  }

  /** The exceptions the core throws, one variant each. */
  datatype Error =
    | UnsupportedValue          // UnsupportedValueException: negative point uncertainty
    | UnsupportedFeatureType    // UnsupportedFeatureTypeException: uncertainty attribute is not a double
    | FieldNotFound(name: string)        // locateField: no column of that name
    | FieldClassMismatch(name: string)   // locateField: column class not assignable
    | NullDereference           // a null unboxed or dereferenced
    | ClassCast                 // a value of the wrong class cast
    | GeometryNotFirst          // explode: geometry is not attribute 0
    | EndOfFile                 // a reader asked for a record past its end
    | UnsupportedOperation      // Iterator.remove
    | MalformedDate             // a text date that does not parse

  datatype Result<+T> = Ok(value: T) | Err(error: Error) {
    predicate IsFailure() { Err? }
    function PropagateFailure<U>(): Result<U> requires Err? { Err(error) }
    function Extract(): T requires Ok? { value }
  }

  datatype Outcome = Pass | Fail(error: Error)

  /** A Java double that may be NaN; NaN is `Absent`. */
  datatype Measure = Absent | Defined(v: real)

  type NonNeg = r: real | 0.0 <= r

  function Abs(x: real): real { if x < 0.0 then -x else x }
  function Min(a: real, b: real): real { if a <= b then a else b }
  function Max(a: real, b: real): real { if a <= b then b else a }

  // ---------------------------------------------------------------------
  // Java int

  const IntMin: int := -0x8000_0000
  const IntMax: int := 0x7fff_ffff
  const Modulus: int := 0x1_0000_0000

  predicate IsInt32(x: int) { IntMin <= x <= IntMax }

  /** Two's-complement wrap-around of an int expression. */
  function Wrap32(x: int): (r: int)
    ensures IsInt32(r)
    ensures (x - r) % Modulus == 0
    ensures IsInt32(x) ==> r == x
  {
    (x - IntMin) % Modulus + IntMin
  }

  /** Values congruent modulo 2^32 wrap to the same int. */
  lemma WrapCongruent(a: int, b: int)
    requires (a - b) % Modulus == 0
    ensures Wrap32(a) == Wrap32(b)
  {
    var ra, rb := Wrap32(a), Wrap32(b);
    assert (ra - rb) % Modulus == 0;
  }

  /** One step of a 32-bit hash loop: wrapping the running value first does not change the wrapped result. */
  lemma WrapStep(x: int, c: int)
    ensures Wrap32(31 * Wrap32(x) + c) == Wrap32(31 * x + c)
  {
    var d := Wrap32(x) - x;
    var q := d / Modulus;
    assert d == Modulus * q;
    assert (31 * Wrap32(x) + c) - (31 * x + c) == Modulus * (31 * q);
    WrapCongruent(31 * Wrap32(x) + c, 31 * x + c);
  }

  /** Truncation toward zero of a non-negative real. */
  function TruncNonNeg(d: real): (r: nat)
    requires 0.0 <= d
    ensures r as real <= d < r as real + 1.0
  {
    d.Floor
  }

  /**
   * The Java narrowing `(int) d` of a (non-NaN) double: rounds toward zero,
   * and saturates at the int range.
   */
  function TruncateToInt(d: real): (r: int)
    ensures IsInt32(r)
    ensures 0.0 <= d ==> 0 <= r && r as real <= d
    ensures d <= 0.0 ==> r <= 0 && d <= r as real
    ensures IntMin as real < d < IntMax as real + 1.0 ==> Abs(d) < Abs(r as real) + 1.0
    ensures IntMax as real + 1.0 <= d ==> r == IntMax
    ensures d <= IntMin as real - 1.0 ==> r == IntMin
  {
    if 0.0 <= d then
      var t := TruncNonNeg(d);
      if t > IntMax then IntMax else t
    else
      var t: int := TruncNonNeg(-d);
      if t > -IntMin then IntMin else -t
  }

  // ---------------------------------------------------------------------
  // Strings (ASCII case folding)

  function ToLower(c: char): char {
    if 'A' <= c <= 'Z' then (c as int + 32) as char else c
  }

  function LowerCase(s: string): (r: string)
    ensures |r| == |s|
    ensures forall i :: 0 <= i < |s| ==> r[i] == ToLower(s[i])
  {
    seq(|s|, i requires 0 <= i < |s| => ToLower(s[i]))
  }

  /** `String.equalsIgnoreCase`, for ASCII letters. */
  predicate EqualsIgnoreCase(a: string, b: string) {
    |a| == |b| && forall i :: 0 <= i < |a| ==> ToLower(a[i]) == ToLower(b[i])
  }

  predicate EndsWith(s: string, suffix: string) {
    |suffix| <= |s| && s[|s| - |suffix|..] == suffix
  }

  /** Concatenation is associative (stated once so that callers need not unfold it). */
  lemma ConcatAssoc<T>(a: seq<T>, b: seq<T>, c: seq<T>)
    ensures (a + b) + c == a + (b + c)
  {
  }

  /** Matching ignoring case is equality after lower-casing both sides. */
  lemma IgnoreCaseIsLowerEquality(a: string, b: string)
    ensures EqualsIgnoreCase(a, b) <==> LowerCase(a) == LowerCase(b)
  {
    if LowerCase(a) == LowerCase(b) {
      forall i | 0 <= i < |a|
        ensures ToLower(a[i]) == ToLower(b[i])
      {
        assert LowerCase(a)[i] == LowerCase(b)[i];
      }
    }
  }

  // ---------------------------------------------------------------------
  // Strings as Java stores them (UTF-16 code units)

  const SupplementaryBase: int := 0x1_0000
  const HighSurrogateBase: int := 0xD800
  const LowSurrogateBase: int := 0xDC00

  /** The one or two UTF-16 code units of a character: itself below U+10000, else a surrogate pair. */
  function Utf16Units(c: char): (u: seq<int>)
    ensures 1 <= |u| <= 2
    ensures |u| == 1 <==> (c as int) < SupplementaryBase
    ensures |u| == 1 ==> u[0] == c as int && !(HighSurrogateBase <= u[0] < LowSurrogateBase + 0x400)
    ensures |u| == 2 ==> HighSurrogateBase <= u[0] < LowSurrogateBase && LowSurrogateBase <= u[1] < LowSurrogateBase + 0x400
  {
    var v := c as int;
    if v < SupplementaryBase then [v]
    else [HighSurrogateBase + (v - SupplementaryBase) / 0x400, LowSurrogateBase + (v - SupplementaryBase) % 0x400]
  }

  /** The UTF-16 code units of a string, in order. */
  function Utf16(s: string): seq<int>
  {
    if |s| == 0 then [] else Utf16Units(s[0]) + Utf16(s[1..])
  }

  /** Different strings have different UTF-16 encodings. */
  lemma {:induction false} Utf16Injective(s: string, t: string)
    requires Utf16(s) == Utf16(t)
    ensures s == t
  {
    if |s| != 0 && |t| != 0 {
      var us, ut := Utf16Units(s[0]), Utf16Units(t[0]);
      assert Utf16(s)[0] == us[0] && Utf16(t)[0] == ut[0];
      assert |us| == |ut|;
      if |us| == 2 {
        assert Utf16(s)[1] == us[1] && Utf16(t)[1] == ut[1];
        var vs, vt := s[0] as int - SupplementaryBase, t[0] as int - SupplementaryBase;
        assert vs == 0x400 * (vs / 0x400) + vs % 0x400;
        assert vt == 0x400 * (vt / 0x400) + vt % 0x400;
      }
      assert s[0] == t[0];
      assert Utf16(s)[|us|..] == Utf16(s[1..]);
      assert Utf16(t)[|ut|..] == Utf16(t[1..]);
      Utf16Injective(s[1..], t[1..]);
      assert s == [s[0]] + s[1..] && t == [t[0]] + t[1..];
    }
  }

  // ---------------------------------------------------------------------
  // Attribute values, classes and schemas

  /** A value of a feature attribute or of a record-table cell. */
  datatype Value =
    | DoubleV(d: real)
    | IntV(i: int)
    | LongV(l: int)
    | StrV(s: string)
    | DateV(millis: int)
    | BoolV(b: bool)
    | NullV

  /** The Java classes that record-table columns and attributes are declared with. */
  datatype JClass =
    | DoubleClass | IntegerClass | LongClass | NumberClass
    | StringClass | DateClass | BooleanClass | ObjectClass

  /** `expected.isAssignableFrom(actual)` over this small hierarchy. */
  predicate AssignableFrom(expected: JClass, actual: JClass) {
    || expected == actual
    || expected == ObjectClass
    || (expected == NumberClass && actual in {DoubleClass, IntegerClass, LongClass})
  }

  /** Assignability is reflexive and transitive. */
  lemma AssignableFromPreorder(e: JClass, m: JClass, a: JClass)
    ensures AssignableFrom(a, a)
    ensures AssignableFrom(e, m) && AssignableFrom(m, a) ==> AssignableFrom(e, a)
  {
  }

  datatype GeomKind = PointGeom | LineStringGeom | MultiLineStringGeom | PolygonGeom

  /** An attribute's binding: a geometry type or a plain Java class. */
  datatype Binding = GeometryBinding(kind: GeomKind) | ValueBinding(cls: JClass)

  /** One attribute descriptor of a feature type: local name and binding. */
  datatype AttrDesc = AttrDesc(name: string, binding: Binding)

  /** `(Double) v`: null stays null, any other class fails. */
  function AsDouble(v: Value): (r: Result<Option<real>>)
    ensures r.Ok? <==> v.DoubleV? || v.NullV?
    ensures r.Ok? && r.value.Some? ==> v == DoubleV(r.value.value)
  {
    match v
    case DoubleV(d) => Ok(Some(d))
    case NullV => Ok(None)
    case _ => Err(ClassCast)
  }

  /** `(String) v`: null stays null, any other class fails. */
  function AsString(v: Value): (r: Result<Option<string>>)
    ensures r.Ok? <==> v.StrV? || v.NullV?
    ensures r.Ok? && r.value.Some? ==> v == StrV(r.value.value)
  {
    match v
    case StrV(s) => Ok(Some(s))
    case NullV => Ok(None)
    case _ => Err(ClassCast)
  }

  /**
   * `((Number) v).intValue()`: an Integer as is, a Long wrapped to 32 bits,
   * a Double truncated toward zero; null fails, as does a non-number.
   */
  function NumberIntValue(v: Value): (r: Result<int>)
    ensures r.Ok? <==> v.IntV? || v.LongV? || v.DoubleV?
    ensures r.Ok? ==> IsInt32(r.value)
    ensures v.NullV? ==> r == Err(NullDereference)
    ensures r.Err? && !v.NullV? ==> r.error == ClassCast
    ensures v.IntV? && IsInt32(v.i) ==> r == Ok(v.i)
    ensures v.LongV? ==> r.Ok? && (r.value - v.l) % Modulus == 0
    ensures v.DoubleV? ==> r == Ok(TruncateToInt(v.d))
  {
    match v
    case IntV(i) => Ok(Wrap32(i))
    case LongV(l) => Ok(Wrap32(l))
    case DoubleV(d) => Ok(TruncateToInt(d))
    case NullV => Err(NullDereference)
    case _ => Err(ClassCast)
  }
}
