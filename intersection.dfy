/**
 * The transect/shoreline intersection engine. For one transect it turns the
 * candidate shoreline segments that the spatial index returns into at most
 * one intersection per survey date, the closest or the farthest by absolute
 * distance from the transect origin; it merges the results of a
 * sub-transect into a running per-date table; it resolves the uncertainty at
 * an intersection from the two segment endpoints or from the shoreline
 * feature; and it derives the output schema and the output feature values.
 *
 * Geometry is an oracle: a candidate carries the crossing point that the
 * segment/transect intersection yields (or none when they do not cross),
 * and distances come from a `Metric` parameter.
 */
module IntersectionEngine {
  import opened Common

  datatype Point = Point(x: real, y: real)

  /** A segment endpoint: position and its point uncertainty (NaN is `Absent`). */
  datatype Coord = Coord(x: real, y: real, z: Measure)

  /** A two-coordinate shoreline segment. */
  datatype Segment = Segment(c1: Coord, c2: Coord)

  /** The planar distance the geometry library computes. */
  type Metric = (Point, Point) -> NonNeg

  /** A survey date, compared by instant. */
  datatype Date = Date(millis: int)

  /**
   * A shoreline feature: the outcome of reading its date attribute
   * (`GetDate`) and its attributes by name.
   */
  datatype Feature = Feature(date: Result<Date>, attrs: map<string, Value>)

  /** The orientation sign of a transect. */
  type Sign = s: int | s == 1 || s == -1 witness 1

  /**
   * Reading a survey date from the date attribute: a date value as it is, a
   * text date through the month/day/year parser `parse` (a text that does not
   * parse fails), anything else an unsupported feature type.
   */
  function GetDate(v: Value, parse: string -> Option<Date>): (r: Result<Date>)
    ensures r.Ok? <==> v.DateV? || (v.StrV? && parse(v.s).Some?)
    ensures v.DateV? ==> r == Ok(Date(v.millis))
    ensures r.Ok? && v.StrV? ==> r.value == parse(v.s).value
    ensures r.Err? && v.StrV? ==> r.error == MalformedDate
    ensures r.Err? && !v.StrV? ==> r.error == UnsupportedFeatureType
  {
    match v
    case DateV(millis) => Ok(Date(millis))
    case StrV(text) => (if parse(text).Some? then Ok(parse(text).value) else Err(MalformedDate))
    case _ => Err(UnsupportedFeatureType)
  }

  datatype Transect = Transect(id: int, origin: Point, sign: Sign)

  /** A shoreline segment from the spatial index, with its feature and where it crosses the transect line. */
  datatype Candidate = Candidate(segment: Segment, feature: Feature, crossing: Option<Point>)

  datatype Intersection = Intersection(point: Point, distance: real, feature: Feature, segment: Option<Segment>, transectId: int)

  const GeomAttr: string := "geom"
  const TransectIdAttr: string := "TransectID"
  const DistanceAttr: string := "Distance"
  const UncyAttr: string := "uncy"

  function PointOf(c: Coord): Point { Point(c.x, c.y) }

  /** An attribute of a feature by name; a missing attribute reads as null. */
  function FeatureAttr(f: Feature, name: string): Value {
    if name in f.attrs then f.attrs[name] else NullV
  }

  // ---------------------------------------------------------------------
  // Closest / farthest selection

  /**
   * The preferred of two intersections: the smaller absolute distance when
   * `closest`, the larger otherwise. `a` is preferred only when it is
   * strictly farther (farthest) or not farther (closest), so a tie goes to
   * `a` under closest and to `b` under farthest.
   */
  function Compare(a: Intersection, b: Intersection, closest: bool): (r: Intersection)
    ensures r == a || r == b
    ensures closest ==> Abs(r.distance) == Min(Abs(a.distance), Abs(b.distance))
    ensures !closest ==> Abs(r.distance) == Max(Abs(a.distance), Abs(b.distance))
    ensures Abs(a.distance) == Abs(b.distance) ==> r == (if closest then a else b)
  {
    var aFarther := Abs(a.distance) - Abs(b.distance) > 0.0;
    if closest then (if aFarther then b else a) else (if aFarther then a else b)
  }

  /** The largest absolute distance among `intersections`, starting from `min`. */
  method AbsoluteFarthest(min: real, intersections: seq<Intersection>) returns (maxVal: real)
    ensures min <= maxVal
    ensures forall i :: 0 <= i < |intersections| ==> Abs(intersections[i].distance) <= maxVal
    ensures maxVal == min || exists i :: 0 <= i < |intersections| && maxVal == Abs(intersections[i].distance)
  {
    maxVal := min;
    for i := 0 to |intersections|
      invariant min <= maxVal
      invariant forall j :: 0 <= j < i ==> Abs(intersections[j].distance) <= maxVal
      invariant maxVal == min || exists j :: 0 <= j < i && maxVal == Abs(intersections[j].distance)
    {
      var absDist := Abs(intersections[i].distance);
      if absDist > maxVal {
        maxVal := absDist;
      }
    }
  }

  /** The intersection a crossing candidate yields on a transect: signed distance from the transect origin. */
  function MakeIntersection(t: Transect, c: Candidate, dist: Metric): (r: Intersection)
    requires c.crossing.Some?
    ensures r.point == c.crossing.value && r.feature == c.feature
    ensures r.segment == Some(c.segment) && r.transectId == t.id
    ensures Abs(r.distance) == dist(t.origin, c.crossing.value)
    ensures t.sign == 1 ==> r.distance >= 0.0
    ensures t.sign == -1 ==> r.distance <= 0.0
  {
    Intersection(c.crossing.value, t.sign as real * dist(t.origin, c.crossing.value), c.feature, Some(c.segment), t.id)
  }

  /** The distance from the transect origin to a crossing candidate. */
  function Reach(t: Transect, c: Candidate, dist: Metric): real
    requires c.crossing.Some?
  {
    dist(t.origin, c.crossing.value)
  }

  /** Candidate `c` crosses the transect and belongs to the survey of date `d`. */
  predicate Hit(c: Candidate, d: Date) {
    c.crossing.Some? && c.feature.date == Ok(d)
  }

  /** One loop step of the selection: a crossing candidate enters or competes for its date's slot. */
  function Step(m: map<Date, Intersection>, t: Transect, c: Candidate, useFarthest: bool, dist: Metric)
    : Result<map<Date, Intersection>>
  {
    if c.crossing.None? then Ok(m)
    else
      var inter := MakeIntersection(t, c, dist);
      var date :- c.feature.date;
      Ok(if date in m then m[date := Compare(inter, m[date], !useFarthest)] else m[date := inter])
  }

  /** The per-date table the candidates `cs` yield, taken in order; a date that cannot be read stops it. */
  function Selected(t: Transect, cs: seq<Candidate>, useFarthest: bool, dist: Metric): Result<map<Date, Intersection>>
  {
    if |cs| == 0 then Ok(map[])
    else
      var m :- Selected(t, cs[..|cs| - 1], useFarthest, dist);
      Step(m, t, cs[|cs| - 1], useFarthest, dist)
  }

  /** Once a prefix of the candidates fails, the whole selection fails with the same error. */
  lemma {:induction false} SelectedErrorPersists(t: Transect, cs: seq<Candidate>, useFarthest: bool, dist: Metric, n: nat)
    requires n <= |cs| && Selected(t, cs[..n], useFarthest, dist).Err?
    ensures Selected(t, cs, useFarthest, dist) == Selected(t, cs[..n], useFarthest, dist)
    decreases |cs| - n
  {
    if n < |cs| {
      assert cs[..n + 1][..n] == cs[..n];
      SelectedErrorPersists(t, cs, useFarthest, dist, n + 1);
    } else {
      assert cs[..n] == cs;
    }
  }

  /**
   * The selection succeeds iff every crossing candidate has a readable
   * date; otherwise it fails with the error of the first one that has not.
   */
  lemma {:induction false} SelectedOkIff(t: Transect, cs: seq<Candidate>, useFarthest: bool, dist: Metric)
    ensures Selected(t, cs, useFarthest, dist).Ok? <==>
      forall i :: 0 <= i < |cs| && cs[i].crossing.Some? ==> cs[i].feature.date.Ok?
    ensures Selected(t, cs, useFarthest, dist).Err? ==>
      exists i :: 0 <= i < |cs| && cs[i].crossing.Some? && cs[i].feature.date == Err(Selected(t, cs, useFarthest, dist).error)
        && forall j :: 0 <= j < i && cs[j].crossing.Some? ==> cs[j].feature.date.Ok?
  {
    if |cs| != 0 {
      var p := cs[..|cs| - 1];
      SelectedOkIff(t, p, useFarthest, dist);
      if Selected(t, p, useFarthest, dist).Err? {
        var i :| 0 <= i < |p| && p[i].crossing.Some? && p[i].feature.date == Err(Selected(t, p, useFarthest, dist).error)
          && forall j :: 0 <= j < i && p[j].crossing.Some? ==> p[j].feature.date.Ok?;
        assert cs[i] == p[i];
      }
    }
  }

  /** A successful selection has a key for exactly the dates of the crossing candidates. */
  lemma {:induction false} SelectedKeys(t: Transect, cs: seq<Candidate>, useFarthest: bool, dist: Metric)
    requires Selected(t, cs, useFarthest, dist).Ok?
    ensures forall d :: d in Selected(t, cs, useFarthest, dist).value <==> exists i :: 0 <= i < |cs| && Hit(cs[i], d)
  {
    if |cs| != 0 {
      var p := cs[..|cs| - 1];
      SelectedKeys(t, p, useFarthest, dist);
      var m := Selected(t, cs, useFarthest, dist).value;
      forall d | d in m
        ensures exists i :: 0 <= i < |cs| && Hit(cs[i], d)
      {
        if !Hit(cs[|cs| - 1], d) {
          var i :| 0 <= i < |p| && Hit(p[i], d);
          assert cs[i] == p[i];
        }
      }
      forall d, i | 0 <= i < |cs| && Hit(cs[i], d)
        ensures d in m
      {
        if i < |p| {
          assert p[i] == cs[i];
        }
      }
    }
  }

  /**
   * Candidate `k` is the one the selection keeps for date `d`: under
   * closest, no later crossing of that date is as close and no earlier one
   * is closer (the last of the closest); under farthest, no earlier
   * crossing of that date is as far and no later one is farther (the first
   * of the farthest).
   */
  ghost predicate Winner(t: Transect, cs: seq<Candidate>, dist: Metric, closest: bool, d: Date, k: int) {
    && 0 <= k < |cs| && Hit(cs[k], d)
    && (forall i :: 0 <= i < k && Hit(cs[i], d) ==>
          if closest then Reach(t, cs[k], dist) <= Reach(t, cs[i], dist) else Reach(t, cs[i], dist) < Reach(t, cs[k], dist))
    && (forall i :: k < i < |cs| && Hit(cs[i], d) ==>
          if closest then Reach(t, cs[k], dist) < Reach(t, cs[i], dist) else Reach(t, cs[i], dist) <= Reach(t, cs[k], dist))
  }

  /** Every entry of a successful selection is the intersection of its date's winning candidate. */
  lemma {:induction false} SelectedWinner(t: Transect, cs: seq<Candidate>, useFarthest: bool, dist: Metric)
    requires Selected(t, cs, useFarthest, dist).Ok?
    ensures var m := Selected(t, cs, useFarthest, dist).value;
      forall d :: d in m ==> exists k :: Winner(t, cs, dist, !useFarthest, d, k) && m[d] == MakeIntersection(t, cs[k], dist)
  {
    if |cs| != 0 {
      var n := |cs| - 1;
      var p := cs[..n];
      var c := cs[n];
      SelectedWinner(t, p, useFarthest, dist);
      SelectedKeys(t, p, useFarthest, dist);
      var m0 := Selected(t, p, useFarthest, dist).value;
      var m := Selected(t, cs, useFarthest, dist).value;
      forall d | d in m
        ensures exists k :: Winner(t, cs, dist, !useFarthest, d, k) && m[d] == MakeIntersection(t, cs[k], dist)
      {
        if d in m0 {
          var k0 :| Winner(t, p, dist, !useFarthest, d, k0) && m0[d] == MakeIntersection(t, p[k0], dist);
          assert p[k0] == cs[k0];
          WinnerStep(t, cs, useFarthest, dist, m0, m, d, k0);
        } else {
          forall i | 0 <= i < n
            ensures !Hit(cs[i], d)
          {
            assert p[i] == cs[i];
          }
          WinnerStep(t, cs, useFarthest, dist, m0, m, d, 0);
        }
      }
    }
  }

  /** What a winner guarantees about every crossing of its date: none is closer (closest) or farther (farthest). */
  lemma WinnerBound(t: Transect, cs: seq<Candidate>, dist: Metric, closest: bool, d: Date, k: int)
    requires Winner(t, cs, dist, closest, d, k)
    ensures forall i :: 0 <= i < |cs| && Hit(cs[i], d) ==>
      if closest then Reach(t, cs[k], dist) <= Reach(t, cs[i], dist) else Reach(t, cs[i], dist) <= Reach(t, cs[k], dist)
  {
  }

  /** A winner over a prefix stays the winner when the next candidate does not displace it. */
  lemma WinnerKept(t: Transect, cs: seq<Candidate>, dist: Metric, closest: bool, d: Date, k: int)
    requires |cs| != 0 && Winner(t, cs[..|cs| - 1], dist, closest, d, k)
    requires var c := cs[|cs| - 1];
      Hit(c, d) ==> if closest then Reach(t, cs[k], dist) < Reach(t, c, dist) else Reach(t, c, dist) <= Reach(t, cs[k], dist)
    ensures Winner(t, cs, dist, closest, d, k)
  {
    var p := cs[..|cs| - 1];
    forall i | 0 <= i < |cs| - 1
      ensures cs[i] == p[i]
    {
    }
  }

  /** The last candidate wins when it beats every earlier crossing of its date. */
  lemma WinnerLast(t: Transect, cs: seq<Candidate>, dist: Metric, closest: bool, d: Date)
    requires |cs| != 0 && Hit(cs[|cs| - 1], d)
    requires forall i :: 0 <= i < |cs| - 1 && Hit(cs[i], d) ==>
      if closest then Reach(t, cs[|cs| - 1], dist) <= Reach(t, cs[i], dist) else Reach(t, cs[i], dist) < Reach(t, cs[|cs| - 1], dist)
    ensures Winner(t, cs, dist, closest, d, |cs| - 1)
  {
  }

  /**
   * The induction step of `SelectedWinner` for one date `d`: `k0` is the
   * prefix's winner when the prefix has the date.
   */
  lemma WinnerStep(t: Transect, cs: seq<Candidate>, useFarthest: bool, dist: Metric,
                   m0: map<Date, Intersection>, m: map<Date, Intersection>, d: Date, k0: int)
    requires |cs| != 0
    requires Step(m0, t, cs[|cs| - 1], useFarthest, dist) == Ok(m) && d in m
    requires d in m0 ==> Winner(t, cs[..|cs| - 1], dist, !useFarthest, d, k0) && m0[d] == MakeIntersection(t, cs[k0], dist)
    requires d !in m0 ==> forall i :: 0 <= i < |cs| - 1 ==> !Hit(cs[i], d)
    ensures exists k :: Winner(t, cs, dist, !useFarthest, d, k) && m[d] == MakeIntersection(t, cs[k], dist)
  {
    var n := |cs| - 1;
    var p := cs[..n];
    var c := cs[n];
    var closest := !useFarthest;
    if !Hit(c, d) {
      WinnerKept(t, cs, dist, closest, d, k0);
    } else if d !in m0 {
      WinnerLast(t, cs, dist, closest, d);
      assert Winner(t, cs, dist, closest, d, n);
    } else {
      var inter := MakeIntersection(t, c, dist);
      assert m[d] == Compare(inter, m0[d], closest);
      var newFarther := Abs(inter.distance) > Abs(m0[d].distance);
      if newFarther != closest {
        WinnerBound(t, p, dist, closest, d, k0);
        forall i | 0 <= i < n && Hit(cs[i], d)
          ensures if closest then Reach(t, c, dist) <= Reach(t, cs[i], dist) else Reach(t, cs[i], dist) < Reach(t, c, dist)
        {
          assert p[i] == cs[i];
        }
        WinnerLast(t, cs, dist, closest, d);
        assert Winner(t, cs, dist, closest, d, n);
      } else {
        WinnerKept(t, cs, dist, closest, d, k0);
      }
    }
  }

  /**
   * Each entry of a successful selection is the intersection of one of its
   * date's crossing candidates, and none of that date's candidates is
   * closer (closest) or farther (farthest).
   */
  lemma SelectedBest(t: Transect, cs: seq<Candidate>, useFarthest: bool, dist: Metric)
    requires Selected(t, cs, useFarthest, dist).Ok?
    ensures var m := Selected(t, cs, useFarthest, dist).value;
      forall d :: d in m ==> exists k :: 0 <= k < |cs| && Hit(cs[k], d) && m[d] == MakeIntersection(t, cs[k], dist)
    ensures var m := Selected(t, cs, useFarthest, dist).value;
      forall d, i :: d in m && 0 <= i < |cs| && Hit(cs[i], d) ==>
        if useFarthest then Reach(t, cs[i], dist) <= Abs(m[d].distance) else Abs(m[d].distance) <= Reach(t, cs[i], dist)
  {
    SelectedWinner(t, cs, useFarthest, dist);
    var m := Selected(t, cs, useFarthest, dist).value;
    forall d | d in m
      ensures exists k :: 0 <= k < |cs| && Hit(cs[k], d) && m[d] == MakeIntersection(t, cs[k], dist)
      ensures forall i :: 0 <= i < |cs| && Hit(cs[i], d) ==>
        if useFarthest then Reach(t, cs[i], dist) <= Abs(m[d].distance) else Abs(m[d].distance) <= Reach(t, cs[i], dist)
    {
      var k :| Winner(t, cs, dist, !useFarthest, d, k) && m[d] == MakeIntersection(t, cs[k], dist);
      WinnerBound(t, cs, dist, !useFarthest, d, k);
    }
  }

  /** The per-date table of one transect, candidates taken in index order. */
  method CalculateIntersections(t: Transect, cands: seq<Candidate>, useFarthest: bool, dist: Metric)
    returns (r: Result<map<Date, Intersection>>)
    ensures r == Selected(t, cands, useFarthest, dist)
  {
    var all: map<Date, Intersection> := map[];
    for i := 0 to |cands|
      invariant Selected(t, cands[..i], useFarthest, dist) == Ok(all)
    {
      var c := cands[i];
      assert cands[..i + 1][..i] == cands[..i];
      ghost var next := Step(all, t, c, useFarthest, dist);
      assert Selected(t, cands[..i + 1], useFarthest, dist) == next;
      if c.crossing.Some? {
        var crossPoint := c.crossing.value;
        var distance := t.sign as real * dist(t.origin, crossPoint);
        var intersection := Intersection(crossPoint, distance, c.feature, Some(c.segment), t.id);
        assert intersection == MakeIntersection(t, c, dist);
        if c.feature.date.Err? {
          SelectedErrorPersists(t, cands, useFarthest, dist, i + 1);
          return Err(c.feature.date.error);
        }
        var date := c.feature.date.value;
        if date in all {
          var closest := Compare(intersection, all[date], !useFarthest);
          all := all[date := closest];
        } else {
          all := all[date := intersection];
        }
      }
      assert next == Ok(all);
    }
    assert cands[..|cands|] == cands;
    r := Ok(all);
  }

  // ---------------------------------------------------------------------
  // Sub-transect merge

  /** A running per-date table that sub-transect results are merged into in place. */
  class IntersectionTable {
    var entries: map<Date, Intersection>

    constructor ()
      ensures entries == map[]
    {
      entries := map[];
    }
  }

  /** An intersection re-measured from a shared origin, signed by the sub-transect's orientation. */
  function Resign(i: Intersection, sign: Sign, origin: Point, dist: Metric): (r: Intersection)
    ensures r.point == i.point && r.feature == i.feature && r.segment == i.segment && r.transectId == i.transectId
    ensures Abs(r.distance) == dist(i.point, origin)
    ensures sign == 1 ==> r.distance >= 0.0
    ensures sign == -1 ==> r.distance <= 0.0
  {
    i.(distance := sign as real * dist(i.point, origin))
  }

  /** The table entry for `d` after offering `offered`: it replaces a stored entry only when `useFarthest` equals "strictly farther". */
  function MergeEntry(soFar: map<Date, Intersection>, d: Date, offered: Intersection, useFarthest: bool): (r: Intersection)
    ensures d !in soFar ==> r == offered
    ensures d in soFar ==> (r == offered <==> useFarthest == (Abs(offered.distance) > Abs(soFar[d].distance)) || offered == soFar[d])
    ensures r == offered || (d in soFar && r == soFar[d])
  {
    if d in soFar && useFarthest != (Abs(offered.distance) > Abs(soFar[d].distance)) then soFar[d] else offered
  }

  /**
   * The running table after merging a sub-transect's table: new dates are
   * added, dates the sub-transect does not have are kept, and a date both
   * have keeps the entry the selection comparator prefers, the re-measured
   * one on a tie under closest and the stored one on a tie under farthest.
   */
  function Merged(soFar: map<Date, Intersection>, subset: map<Date, Intersection>, sign: Sign, origin: Point,
                  useFarthest: bool, dist: Metric): (r: map<Date, Intersection>)
    ensures r.Keys == soFar.Keys + subset.Keys
    ensures forall d :: d in soFar && d !in subset ==> r[d] == soFar[d]
    ensures forall d :: d in subset && d !in soFar ==> r[d] == Resign(subset[d], sign, origin, dist)
    ensures forall d :: d in subset && d in soFar ==>
      r[d] == Compare(Resign(subset[d], sign, origin, dist), soFar[d], !useFarthest)
  {
    map d | d in soFar.Keys + subset.Keys ::
      if d in subset then MergeEntry(soFar, d, Resign(subset[d], sign, origin, dist), useFarthest) else soFar[d]
  }

  /** A table that has the merge's keys and the merge's entry at each key is the merge. */
  lemma MergedExtensional(m: map<Date, Intersection>, soFar: map<Date, Intersection>, sub: map<Date, Intersection>,
                          sign: Sign, origin: Point, useFarthest: bool, dist: Metric)
    requires m.Keys == soFar.Keys + sub.Keys
    requires forall d :: d in m ==>
      m[d] == (if d in sub then MergeEntry(soFar, d, Resign(sub[d], sign, origin, dist), useFarthest) else soFar[d])
    ensures m == Merged(soFar, sub, sign, origin, useFarthest, dist)
  {
    var r := Merged(soFar, sub, sign, origin, useFarthest, dist);
    assert m.Keys == r.Keys;
    forall d | d in m
      ensures m[d] == r[d]
    {
    }
  }

  /**
   * Computes the sub-transect's table and merges it into `table`, each
   * distance re-measured from `origin`. When a date cannot be read nothing
   * is merged.
   */
  method UpdateIntersectionsWithSubTransect(table: IntersectionTable, origin: Point, subTransect: Transect,
                                            cands: seq<Candidate>, useFarthest: bool, dist: Metric)
    returns (o: Outcome)
    modifies table
    ensures var s := Selected(subTransect, cands, useFarthest, dist);
      && (o == Pass <==> s.Ok?)
      && (s.Err? ==> o == Fail(s.error) && table.entries == old(table.entries))
      && (s.Ok? ==> table.entries == Merged(old(table.entries), s.value, subTransect.sign, origin, useFarthest, dist))
  {
    var subset := CalculateIntersections(subTransect, cands, useFarthest, dist);
    if subset.Err? {
      return Fail(subset.error);
    }
    MergeSubset(table, subset.value, origin, subTransect.sign, useFarthest, dist);
    o := Pass;
  }

  /** The merge loop: offers every date of the sub-transect's table to `table`, in any order. */
  method MergeSubset(table: IntersectionTable, sub: map<Date, Intersection>, origin: Point, sign: Sign,
                     useFarthest: bool, dist: Metric)
    modifies table
    ensures table.entries == Merged(old(table.entries), sub, sign, origin, useFarthest, dist)
  {
    ghost var soFar := table.entries;
    var pending := sub.Keys;
    while pending != {}
      invariant pending <= sub.Keys
      invariant table.entries.Keys == soFar.Keys + (sub.Keys - pending)
      invariant forall d :: d in table.entries ==>
        table.entries[d] == (if d in sub && d !in pending then MergeEntry(soFar, d, Resign(sub[d], sign, origin, dist), useFarthest) else soFar[d])
      decreases pending
    {
      var date :| date in pending;
      var intersection := Resign(sub[date], sign, origin, dist);
      if date in table.entries {
        var isFarther := Abs(intersection.distance) > Abs(table.entries[date].distance);
        if useFarthest == isFarther {
          table.entries := table.entries[date := intersection];
        }
      } else {
        table.entries := table.entries[date := intersection];
      }
      pending := pending - {date};
    }
    MergedExtensional(table.entries, soFar, sub, sign, origin, useFarthest, dist);
  }

  // ---------------------------------------------------------------------
  // Uncertainty

  /** Both endpoints of the segment carry a point uncertainty. */
  predicate HasPointUncertainty(segment: Option<Segment>) {
    segment.Some? && segment.value.c1.z.Defined? && segment.value.c2.z.Defined?
  }

  /**
   * The uncertainty interpolated from the endpoints: none without a segment
   * or with an endpoint lacking one; an error when one is negative; the
   * smaller of the two on a zero-length segment; otherwise the mean weighted
   * by the distance to the other endpoint.
   */
  function PointBasedUncertainty(segment: Option<Segment>, p: Point, dist: Metric): (r: Result<Option<real>>)
    ensures r == Ok(None) <==> !HasPointUncertainty(segment)
    ensures r.Err? <==> HasPointUncertainty(segment) && (segment.value.c1.z.v < 0.0 || segment.value.c2.z.v < 0.0)
    ensures r.Err? ==> r.error == UnsupportedValue
    ensures r.Ok? && r.value.Some? ==>
      var u1, u2 := segment.value.c1.z.v, segment.value.c2.z.v;
      0.0 <= r.value.value && Min(u1, u2) <= r.value.value <= Max(u1, u2)
    ensures r.Ok? && r.value.Some? && dist(PointOf(segment.value.c1), p) + dist(PointOf(segment.value.c2), p) == 0.0 ==>
      r.value.value == Min(segment.value.c1.z.v, segment.value.c2.z.v)
  {
    if !HasPointUncertainty(segment) then Ok(None)
    else
      var c1, c2 := segment.value.c1, segment.value.c2;
      if c1.z.v < 0.0 || c2.z.v < 0.0 then Err(UnsupportedValue)
      else
        var d1 := dist(PointOf(c1), p);
        var d2 := dist(PointOf(c2), p);
        var dt := d1 + d2;
        if dt > 0.0 then Ok(Some(WeightedMean(d1, d2, c1.z.v, c2.z.v)))
        else Ok(Some(Min(c1.z.v, c2.z.v)))
  }

  /**
   * The mean of `u1` and `u2` weighted by the distance to the other
   * endpoint, `(d2 * u1 + d1 * u2) / (d1 + d2)`: the nearer endpoint weighs
   * more, and the mean lies between the two values.
   */
  function WeightedMean(d1: real, d2: real, u1: real, u2: real): (r: real)
    requires 0.0 <= d1 && 0.0 <= d2 && 0.0 < d1 + d2
    ensures Min(u1, u2) <= r <= Max(u1, u2)
  {
    WeightedMeanBetween(d1, d2, u1, u2);
    (d2 * u1 + d1 * u2) / (d1 + d2)
  }

  lemma WeightedMeanBetween(d1: real, d2: real, u1: real, u2: real)
    requires 0.0 <= d1 && 0.0 <= d2 && 0.0 < d1 + d2
    ensures Min(u1, u2) <= (d2 * u1 + d1 * u2) / (d1 + d2) <= Max(u1, u2)
  {
    var lo, hi, dt := Min(u1, u2), Max(u1, u2), d1 + d2;
    var s := d2 * u1 + d1 * u2;
    assert d2 * lo <= d2 * u1 <= d2 * hi;
    assert d1 * lo <= d1 * u2 <= d1 * hi;
    assert dt * lo <= s <= dt * hi;
    assert s / dt * dt == s;
  }

  /**
   * At fraction `f` of the way from the first endpoint to the second the
   * uncertainty is `u1 + f * (u2 - u1)`: u1 at the first endpoint, u2 at
   * the second.
   */
  lemma InterpolationIsLinear(seg: Segment, p: Point, dist: Metric, f: real)
    requires seg.c1.z.Defined? && seg.c2.z.Defined? && 0.0 <= seg.c1.z.v && 0.0 <= seg.c2.z.v
    requires 0.0 <= f <= 1.0
    requires var len := dist(PointOf(seg.c1), p) + dist(PointOf(seg.c2), p);
      0.0 < len && dist(PointOf(seg.c1), p) == f * len
    ensures PointBasedUncertainty(Some(seg), p, dist) == Ok(Some(seg.c1.z.v + f * (seg.c2.z.v - seg.c1.z.v)))
  {
    var d1, d2 := dist(PointOf(seg.c1), p), dist(PointOf(seg.c2), p);
    MeanAtFraction(d1, d2, seg.c1.z.v, seg.c2.z.v, f);
    assert HasPointUncertainty(Some(seg));
    assert d1 + d2 > 0.0;
    assert PointBasedUncertainty(Some(seg), p, dist) == Ok(Some(WeightedMean(d1, d2, seg.c1.z.v, seg.c2.z.v)));
    assert WeightedMean(d1, d2, seg.c1.z.v, seg.c2.z.v) == seg.c1.z.v + f * (seg.c2.z.v - seg.c1.z.v);
  }

  lemma MeanAtFraction(d1: real, d2: real, u1: real, u2: real, f: real)
    requires 0.0 <= d1 && 0.0 <= d2 && 0.0 < d1 + d2 && d1 == f * (d1 + d2)
    ensures WeightedMean(d1, d2, u1, u2) == u1 + f * (u2 - u1)
  {
    var len := d1 + d2;
    var target := u1 + f * (u2 - u1);
    assert d2 == (1.0 - f) * len;
    calc {
      d2 * u1 + d1 * u2;
      (1.0 - f) * len * u1 + f * len * u2;
      len * target;
    }
    assert (len * target) / len == target;
  }

  /** Swapping the endpoints of the segment does not change the uncertainty. */
  lemma UncertaintySymmetric(c1: Coord, c2: Coord, p: Point, dist: Metric)
    ensures PointBasedUncertainty(Some(Segment(c1, c2)), p, dist) == PointBasedUncertainty(Some(Segment(c2, c1)), p, dist)
  {
    if HasPointUncertainty(Some(Segment(c1, c2))) && 0.0 <= c1.z.v && 0.0 <= c2.z.v {
      var d1, d2 := dist(PointOf(c1), p), dist(PointOf(c2), p);
      assert d2 * c1.z.v + d1 * c2.z.v == d1 * c2.z.v + d2 * c1.z.v;
    }
  }

  /**
   * The uncertainty of an intersection: the point-based value when both
   * endpoints have one, else the feature-wide `uncy` attribute, which must
   * be a double.
   */
  function GetUncertainty(inter: Intersection, dist: Metric): (r: Result<real>)
    ensures !HasPointUncertainty(inter.segment) ==>
      && (r.Ok? <==> FeatureAttr(inter.feature, UncyAttr).DoubleV?)
      && (r.Ok? ==> r.value == FeatureAttr(inter.feature, UncyAttr).d)
      && (r.Err? ==> r.error == UnsupportedFeatureType)
    ensures HasPointUncertainty(inter.segment) ==>
      var u1, u2 := inter.segment.value.c1.z.v, inter.segment.value.c2.z.v;
      && (r.Err? <==> u1 < 0.0 || u2 < 0.0)
      && (r.Err? ==> r.error == UnsupportedValue)
      && (r.Ok? ==> 0.0 <= r.value && Min(u1, u2) <= r.value <= Max(u1, u2))
    ensures HasPointUncertainty(inter.segment) && r.Ok? ==>
      PointBasedUncertainty(inter.segment, inter.point, dist) == Ok(Some(r.value))
  {
    var uncy :- PointBasedUncertainty(inter.segment, inter.point, dist);
    if uncy.Some? then Ok(uncy.value)
    else
      match FeatureAttr(inter.feature, UncyAttr)
      case DoubleV(d) => Ok(d)
      case _ => Err(UnsupportedFeatureType)
  }

  // ---------------------------------------------------------------------
  // Output schema and feature

  /** The four leading attributes of the intersection schema. */
  const IntersectionHeader: seq<AttrDesc> := [
    AttrDesc(GeomAttr, GeometryBinding(PointGeom)),
    AttrDesc(TransectIdAttr, ValueBinding(IntegerClass)),
    AttrDesc(DistanceAttr, ValueBinding(DoubleClass)),
    AttrDesc(UncyAttr, ValueBinding(DoubleClass))
  ]

  /** A shoreline attribute that is copied to the intersection schema: not a geometry and not `uncy` in any case. */
  predicate Kept(a: AttrDesc) {
    !a.binding.GeometryBinding? && !EqualsIgnoreCase(UncyAttr, a.name)
  }

  /** The shoreline attributes copied after the header, in order. */
  function KeptAttributes(types: seq<AttrDesc>): (r: seq<AttrDesc>)
    ensures |r| <= |types|
    ensures forall a :: a in r ==> a in types && Kept(a)
    ensures forall i :: 0 <= i < |types| && Kept(types[i]) ==> types[i] in r
  {
    if |types| == 0 then []
    else
      var last := types[|types| - 1];
      KeptAttributes(types[..|types| - 1]) + (if Kept(last) then [last] else [])
  }

  /** A single attribute is copied iff it is kept. */
  lemma KeptAttributesSingle(a: AttrDesc)
    ensures KeptAttributes([a]) == if Kept(a) then [a] else []
  {
    assert [a][..0] == [];
  }

  /** Copying one more attribute extends the copy by it when it is kept. */
  lemma KeptAttributesSnoc(s: seq<AttrDesc>, x: AttrDesc)
    ensures KeptAttributes(s + [x]) == KeptAttributes(s) + if Kept(x) then [x] else []
  {
    assert (s + [x])[..|s|] == s;
  }

  /** The copy of a concatenation is the concatenation of the copies: the filter keeps the order. */
  lemma {:induction false} KeptAttributesAppend(xs: seq<AttrDesc>, ys: seq<AttrDesc>)
    ensures KeptAttributes(xs + ys) == KeptAttributes(xs) + KeptAttributes(ys)
  {
    if |ys| == 0 {
      assert xs + ys == xs;
    } else {
      var init, last := ys[..|ys| - 1], ys[|ys| - 1];
      assert ys == init + [last];
      assert xs + ys == (xs + init) + [last];
      KeptAttributesAppend(xs, init);
      KeptAttributesSnoc(init, last);
      KeptAttributesSnoc(xs + init, last);
      ConcatAssoc(KeptAttributes(xs), KeptAttributes(init), if Kept(last) then [last] else []);
    }
  }

  /** Which value an attribute of the output schema receives, tried in this order. */
  datatype Slot = GeomSlot | TransectSlot | DistanceSlot | UncySlot | CopySlot

  function SlotOf(a: AttrDesc): Slot {
    if a.binding.GeometryBinding? then GeomSlot
    else if EqualsIgnoreCase(a.name, TransectIdAttr) then TransectSlot
    else if EqualsIgnoreCase(a.name, DistanceAttr) then DistanceSlot
    else if EqualsIgnoreCase(a.name, UncyAttr) then UncySlot
    else CopySlot
  }

  /**
   * The intersection schema: a point geometry, the transect id, the
   * distance and the uncertainty, then every non-geometry shoreline
   * attribute except `uncy`. Only the header carries the geometry and the
   * uncertainty.
   */
  method BuildSimpleFeatureType(types: seq<AttrDesc>) returns (schema: seq<AttrDesc>)
    ensures schema == IntersectionHeader + KeptAttributes(types)
    ensures SlotOf(schema[0]) == GeomSlot && SlotOf(schema[1]) == TransectSlot
    ensures SlotOf(schema[2]) == DistanceSlot && SlotOf(schema[3]) == UncySlot
    ensures forall i :: 4 <= i < |schema| ==> SlotOf(schema[i]) != GeomSlot && SlotOf(schema[i]) != UncySlot
  {
    schema := IntersectionHeader;
    for i := 0 to |types|
      invariant schema == IntersectionHeader + KeptAttributes(types[..i])
    {
      var t := types[i];
      assert types[..i + 1][..i] == types[..i];
      if t.binding.GeometryBinding? {
        // the shoreline geometry is not copied
      } else if EqualsIgnoreCase(UncyAttr, t.name) {
        // already in the header
      } else {
        schema := schema + [t];
      }
    }
    assert types[..|types|] == types;
    assert EqualsIgnoreCase(TransectIdAttr, TransectIdAttr) && EqualsIgnoreCase(DistanceAttr, DistanceAttr);
    assert EqualsIgnoreCase(UncyAttr, UncyAttr);
    forall i | 4 <= i < |schema|
      ensures SlotOf(schema[i]) != GeomSlot && SlotOf(schema[i]) != UncySlot
    {
      assert schema[i] in KeptAttributes(types);
    }
  }

  /** One value of an output feature: the geometry point or an attribute value. */
  datatype FeatureValue = PointValue(p: Point) | AttrValue(v: Value)

  /**
   * The values of the intersection's output feature, one per schema
   * attribute: the point, the transect id, the distance, the uncertainty,
   * or the shoreline attribute of that name. Resolving the uncertainty can
   * fail, and then no feature is built.
   */
  method CreateFeature(inter: Intersection, schema: seq<AttrDesc>, dist: Metric) returns (r: Result<seq<FeatureValue>>)
    ensures r.Err? <==> (exists i :: 0 <= i < |schema| && SlotOf(schema[i]) == UncySlot) && GetUncertainty(inter, dist).Err?
    ensures r.Err? ==> r.error == GetUncertainty(inter, dist).error
    ensures r.Ok? ==> |r.value| == |schema|
    ensures r.Ok? ==> forall i :: 0 <= i < |schema| && SlotOf(schema[i]) == GeomSlot ==> r.value[i] == PointValue(inter.point)
    ensures r.Ok? ==> forall i :: 0 <= i < |schema| && SlotOf(schema[i]) == TransectSlot ==> r.value[i] == AttrValue(IntV(inter.transectId))
    ensures r.Ok? ==> forall i :: 0 <= i < |schema| && SlotOf(schema[i]) == DistanceSlot ==> r.value[i] == AttrValue(DoubleV(inter.distance))
    ensures r.Ok? ==> forall i :: 0 <= i < |schema| && SlotOf(schema[i]) == UncySlot ==>
      GetUncertainty(inter, dist).Ok? && r.value[i] == AttrValue(DoubleV(GetUncertainty(inter, dist).value))
    ensures r.Ok? ==> forall i :: 0 <= i < |schema| && SlotOf(schema[i]) == CopySlot ==>
      r.value[i] == AttrValue(FeatureAttr(inter.feature, schema[i].name))
  {
    var featureObjectArr := new FeatureValue[|schema|](_ => AttrValue(NullV));
    for i := 0 to |schema|
      invariant forall j :: 0 <= j < i && SlotOf(schema[j]) == GeomSlot ==> featureObjectArr[j] == PointValue(inter.point)
      invariant forall j :: 0 <= j < i && SlotOf(schema[j]) == TransectSlot ==> featureObjectArr[j] == AttrValue(IntV(inter.transectId))
      invariant forall j :: 0 <= j < i && SlotOf(schema[j]) == DistanceSlot ==> featureObjectArr[j] == AttrValue(DoubleV(inter.distance))
      invariant forall j :: 0 <= j < i && SlotOf(schema[j]) == UncySlot ==>
        GetUncertainty(inter, dist).Ok? && featureObjectArr[j] == AttrValue(DoubleV(GetUncertainty(inter, dist).value))
      invariant forall j :: 0 <= j < i && SlotOf(schema[j]) == CopySlot ==>
        featureObjectArr[j] == AttrValue(FeatureAttr(inter.feature, schema[j].name))
    {
      var attrType := schema[i];
      if attrType.binding.GeometryBinding? {
        featureObjectArr[i] := PointValue(inter.point);
      } else if EqualsIgnoreCase(attrType.name, TransectIdAttr) {
        featureObjectArr[i] := AttrValue(IntV(inter.transectId));
      } else if EqualsIgnoreCase(attrType.name, DistanceAttr) {
        featureObjectArr[i] := AttrValue(DoubleV(inter.distance));
      } else if EqualsIgnoreCase(attrType.name, UncyAttr) {
        var uncy := GetUncertainty(inter, dist);
        if uncy.Err? {
          return Err(uncy.error);
        }
        featureObjectArr[i] := AttrValue(DoubleV(uncy.value));
      } else {
        featureObjectArr[i] := AttrValue(FeatureAttr(inter.feature, attrType.name));
      }
    }
    r := Ok(featureObjectArr[..]);
  }
}
