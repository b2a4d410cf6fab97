/** Interval algebra of the agenda service (src/services/agendaService.js:512-581).

    An interval is half open and its bounds are whole minutes. A list of intervals
    stands for the set of minutes it covers; the code keeps such lists in a normal
    form, and the lemmas below show that the normal form is unique, so every
    statement about covered minutes is a statement about the returned list itself. */
module Intervals {

  datatype Interval = Interval(start: int, end: int)

  predicate NonEmpty(iv: Interval) { iv.start < iv.end }

  predicate Has(iv: Interval, p: int) { iv.start <= p < iv.end }

  ghost predicate Covers(ivs: seq<Interval>, p: int) {
    exists k :: 0 <= k < |ivs| && Has(ivs[k], p)
  }

  ghost predicate SamePoints(a: seq<Interval>, b: seq<Interval>) {
    forall p :: Covers(a, p) <==> Covers(b, p)
  }

  /** Sorted, non-empty and with a strict gap between neighbours. */
  ghost predicate Separated(ivs: seq<Interval>) {
    && (forall k :: 0 <= k < |ivs| ==> NonEmpty(ivs[k]))
    && (forall i, j :: 0 <= i < j < |ivs| ==> ivs[i].end < ivs[j].start)
  }

  /** Sorted, non-empty and disjoint; neighbours may touch. */
  ghost predicate Chained(ivs: seq<Interval>) {
    && (forall k :: 0 <= k < |ivs| ==> NonEmpty(ivs[k]))
    && (forall i, j :: 0 <= i < j < |ivs| ==> ivs[i].end <= ivs[j].start)
  }

  // ---------------------------------------------------------------- covering

  lemma CoversConcat(a: seq<Interval>, b: seq<Interval>, p: int)
    ensures Covers(a + b, p) <==> Covers(a, p) || Covers(b, p)
  {
    if Covers(a, p) {
      var k :| 0 <= k < |a| && Has(a[k], p);
      assert Has((a + b)[k], p);
    }
    if Covers(b, p) {
      var k :| 0 <= k < |b| && Has(b[k], p);
      assert Has((a + b)[|a| + k], p);
    }
    if Covers(a + b, p) {
      var k :| 0 <= k < |a + b| && Has((a + b)[k], p);
      if k < |a| { assert Has(a[k], p); } else { assert Has(b[k - |a|], p); }
    }
  }

  lemma CoversCons(ivs: seq<Interval>, p: int)
    requires |ivs| > 0
    ensures Covers(ivs, p) <==> Has(ivs[0], p) || Covers(ivs[1..], p)
  {
    assert ivs == [ivs[0]] + ivs[1..];
    CoversConcat([ivs[0]], ivs[1..], p);
    assert Covers([ivs[0]], p) <==> Has(ivs[0], p) by {
      if Has(ivs[0], p) { assert Has([ivs[0]][0], p); }
    }
  }

  lemma CoversSingle(iv: Interval, p: int)
    ensures Covers([iv], p) <==> Has(iv, p)
  {
    CoversCons([iv], p);
  }

  lemma SeparatedTail(ivs: seq<Interval>)
    requires Separated(ivs) && |ivs| > 0
    ensures Separated(ivs[1..])
    ensures forall p :: Covers(ivs[1..], p) ==> ivs[0].end < p
  {
    forall p | Covers(ivs[1..], p) ensures ivs[0].end < p {
      var k :| 0 <= k < |ivs[1..]| && Has(ivs[1..][k], p);
      assert ivs[1..][k] == ivs[k + 1];
    }
  }

  /** The normal form is canonical: equal point sets have equal normal forms. */
  lemma {:induction false} NormalFormUnique(a: seq<Interval>, b: seq<Interval>)
    requires Separated(a) && Separated(b) && SamePoints(a, b)
    ensures a == b
  {
    if a == [] {
      if b != [] { FirstPoint(b); }
    } else if b == [] {
      FirstPoint(a);
    } else {
      FirstRunAgrees(a, b);
      SeparatedTail(a);
      SeparatedTail(b);
      assert SamePoints(a[1..], b[1..]) by {
        forall p ensures Covers(a[1..], p) <==> Covers(b[1..], p) {
          CoversCons(a, p);
          CoversCons(b, p);
        }
      }
      NormalFormUnique(a[1..], b[1..]);
      assert a == [a[0]] + a[1..] && b == [b[0]] + b[1..];
    }
  }

  lemma FirstPoint(ivs: seq<Interval>)
    requires Separated(ivs) && |ivs| > 0
    ensures Covers(ivs, ivs[0].start)
  {
    assert Has(ivs[0], ivs[0].start);
  }

  lemma EndUncovered(ivs: seq<Interval>, k: nat)
    requires Separated(ivs) && k < |ivs|
    ensures !Covers(ivs, ivs[k].end)
  {
    forall j | 0 <= j < |ivs| ensures !Has(ivs[j], ivs[k].end) {}
  }

  lemma FirstRunAgrees(a: seq<Interval>, b: seq<Interval>)
    requires Separated(a) && Separated(b) && SamePoints(a, b) && |a| > 0 && |b| > 0
    ensures a[0] == b[0]
  {
    FirstRunStart(a, b);
    FirstRunStart(b, a);
    FirstRunEnd(a, b);
    FirstRunEnd(b, a);
  }

  lemma FirstRunStart(a: seq<Interval>, b: seq<Interval>)
    requires Separated(a) && Separated(b) && SamePoints(a, b) && |a| > 0 && |b| > 0
    ensures b[0].start <= a[0].start
  {
    assert Has(a[0], a[0].start);
    assert Covers(b, a[0].start);
    var k :| 0 <= k < |b| && Has(b[k], a[0].start);
    assert b[0].start <= b[k].start;
  }

  lemma FirstRunEnd(a: seq<Interval>, b: seq<Interval>)
    requires Separated(a) && Separated(b) && SamePoints(a, b) && |a| > 0 && |b| > 0
    requires a[0].start == b[0].start
    ensures b[0].end <= a[0].end
  {
    EndUncovered(a, 0);
    assert !Has(b[0], a[0].end);
  }

  /** A covered stretch lies inside one interval of a normal form. */
  lemma StretchInOneRun(ivs: seq<Interval>, lo: int, hi: int) returns (k: nat)
    requires Separated(ivs) && lo < hi
    requires forall p :: lo <= p < hi ==> Covers(ivs, p)
    ensures k < |ivs| && ivs[k].start <= lo && hi <= ivs[k].end
  {
    assert Covers(ivs, lo);
    k :| 0 <= k < |ivs| && Has(ivs[k], lo);
    EndUncovered(ivs, k);
  }

  /** Two runs of a normal form that share a minute are the same run. */
  lemma SameRun(ivs: seq<Interval>, i: nat, j: nat, p: int)
    requires Separated(ivs) && i < |ivs| && j < |ivs| && Has(ivs[i], p) && Has(ivs[j], p)
    ensures i == j
  {}

  /** A maximal covered stretch is a run of the normal form. */
  lemma MaximalStretch(ivs: seq<Interval>, lo: int, hi: int) returns (k: nat)
    requires Separated(ivs) && lo < hi
    requires forall p :: lo <= p < hi ==> Covers(ivs, p)
    requires !Covers(ivs, lo - 1) && !Covers(ivs, hi)
    ensures k < |ivs| && ivs[k] == Interval(lo, hi)
  {
    k := StretchInOneRun(ivs, lo, hi);
    assert !Has(ivs[k], lo - 1) && !Has(ivs[k], hi);
  }

  lemma EdgeUncovered(ivs: seq<Interval>, k: nat)
    requires Separated(ivs) && k < |ivs|
    ensures !Covers(ivs, ivs[k].start - 1)
  {
    forall j | 0 <= j < |ivs| ensures !Has(ivs[j], ivs[k].start - 1) {}
  }

  // ------------------------------------------------------------------- merge

  /** Reference definition of the union with one more interval, on normal forms. */
  ghost function Absorb(iv: Interval, ns: seq<Interval>): seq<Interval>
    requires NonEmpty(iv)
    decreases |ns|
  {
    if ns == [] || iv.end < ns[0].start then [iv] + ns
    else if ns[0].end < iv.start then [ns[0]] + Absorb(iv, ns[1..])
    else Absorb(Interval(if iv.start < ns[0].start then iv.start else ns[0].start,
                         if iv.end < ns[0].end then ns[0].end else iv.end), ns[1..])
  }

  /** Reference definition of merging: absorb the non-empty intervals one by one. */
  ghost function Merged(ivs: seq<Interval>): seq<Interval> {
    if ivs == [] then []
    else if NonEmpty(ivs[0]) then Absorb(ivs[0], Merged(ivs[1..]))
    else Merged(ivs[1..])
  }

  /** An interval put strictly before a list in normal form. */
  lemma InFront(head: Interval, rest: seq<Interval>)
    requires NonEmpty(head) && Separated(rest) && (rest == [] || head.end < rest[0].start)
    ensures Separated([head] + rest)
    ensures forall p :: Covers([head] + rest, p) <==> Has(head, p) || Covers(rest, p)
  {
    var all := [head] + rest;
    forall j | 0 < j < |all| ensures head.end < all[j].start {
      assert all[j] == rest[j - 1];
      assert j == 1 || rest[0].end < rest[j - 1].start;
    }
    forall p ensures Covers(all, p) <==> Has(head, p) || Covers(rest, p) {
      CoversCons(all, p);
      assert all[1..] == rest;
    }
  }

  lemma {:induction false} AbsorbNormal(iv: Interval, ns: seq<Interval>)
    requires NonEmpty(iv) && Separated(ns)
    ensures Separated(Absorb(iv, ns))
    ensures forall p :: Covers(Absorb(iv, ns), p) <==> Has(iv, p) || Covers(ns, p)
    ensures |Absorb(iv, ns)| > 0
    ensures Absorb(iv, ns)[0].start == if ns == [] || iv.start < ns[0].start then iv.start else ns[0].start
    decreases |ns|
  {
    if ns == [] || iv.end < ns[0].start {
      InFront(iv, ns);
    } else {
      SeparatedTail(ns);
      var tail := ns[1..];
      if ns[0].end < iv.start {
        AbsorbNormal(iv, tail);
        InFront(ns[0], Absorb(iv, tail));
        forall p ensures Covers(ns, p) <==> Has(ns[0], p) || Covers(tail, p) { CoversCons(ns, p); }
      } else {
        var wide := Interval(if iv.start < ns[0].start then iv.start else ns[0].start,
                             if iv.end < ns[0].end then ns[0].end else iv.end);
        AbsorbNormal(wide, tail);
        forall p ensures Covers(Absorb(iv, ns), p) <==> Has(iv, p) || Covers(ns, p) {
          CoversCons(ns, p);
          assert Has(wide, p) <==> Has(iv, p) || Has(ns[0], p);
        }
      }
    }
  }

  /** Merging keeps the covered minutes and yields the normal form. */
  lemma {:induction false} MergedIsNormal(ivs: seq<Interval>)
    ensures Separated(Merged(ivs)) && SamePoints(Merged(ivs), ivs)
  {
    if ivs != [] {
      MergedIsNormal(ivs[1..]);
      if NonEmpty(ivs[0]) { AbsorbNormal(ivs[0], Merged(ivs[1..])); }
      forall p ensures Covers(Merged(ivs), p) <==> Covers(ivs, p) {
        CoversCons(ivs, p);
      }
    }
  }

  /** Two inputs that cover the same minutes merge to the same list. */
  lemma MergedCanonical(a: seq<Interval>, b: seq<Interval>)
    requires SamePoints(a, b)
    ensures Merged(a) == Merged(b)
  {
    MergedIsNormal(a);
    MergedIsNormal(b);
    NormalFormUnique(Merged(a), Merged(b));
  }

  /** normalizeInterval keeps an entry only when it ends after it starts. */
  function Normalized(ivs: seq<Interval>): (r: seq<Interval>)
    ensures forall k :: 0 <= k < |r| ==> NonEmpty(r[k])
  {
    if ivs == [] then []
    else if NonEmpty(ivs[0]) then [ivs[0]] + Normalized(ivs[1..])
    else Normalized(ivs[1..])
  }

  lemma {:induction false} NormalizedKeepsPoints(ivs: seq<Interval>)
    ensures SamePoints(Normalized(ivs), ivs)
  {
    if ivs != [] {
      NormalizedKeepsPoints(ivs[1..]);
      forall p ensures Covers(Normalized(ivs), p) <==> Covers(ivs, p) {
        CoversCons(ivs, p);
        if NonEmpty(ivs[0]) {
          CoversCons(Normalized(ivs), p);
          assert Normalized(ivs)[1..] == Normalized(ivs[1..]);
        }
      }
    }
  }

  lemma NormalizedIdentity(ivs: seq<Interval>)
    requires forall k :: 0 <= k < |ivs| ==> NonEmpty(ivs[k])
    ensures Normalized(ivs) == ivs
  {
    if ivs != [] { NormalizedIdentity(ivs[1..]); }
  }

  predicate StartOrdered(ivs: seq<Interval>) {
    forall i, j :: 0 <= i < j < |ivs| ==> ivs[i].start <= ivs[j].start
  }

  function InsertByStart(iv: Interval, ivs: seq<Interval>): (r: seq<Interval>)
    ensures multiset(r) == multiset([iv] + ivs)
  {
    if ivs == [] || iv.start < ivs[0].start then [iv] + ivs
    else
      assert ivs == [ivs[0]] + ivs[1..];
      [ivs[0]] + InsertByStart(iv, ivs[1..])
  }

  /** The stable library sort by start time. */
  function SortByStart(ivs: seq<Interval>): (r: seq<Interval>)
    ensures multiset(r) == multiset(ivs)
  {
    if ivs == [] then []
    else
      assert ivs == ivs[..|ivs| - 1] + [ivs[|ivs| - 1]];
      InsertByStart(ivs[|ivs| - 1], SortByStart(ivs[..|ivs| - 1]))
  }

  lemma {:induction false} InsertOrdered(iv: Interval, ivs: seq<Interval>)
    requires StartOrdered(ivs)
    ensures StartOrdered(InsertByStart(iv, ivs))
  {
    if ivs != [] && ivs[0].start <= iv.start {
      InsertOrdered(iv, ivs[1..]);
      var r := InsertByStart(iv, ivs[1..]);
      forall j | 0 <= j < |r| ensures ivs[0].start <= r[j].start {
        assert r[j] in multiset(r);
        assert r[j] in [iv] + ivs[1..];
      }
    }
  }

  lemma {:induction false} SortOrdered(ivs: seq<Interval>)
    ensures StartOrdered(SortByStart(ivs))
  {
    if ivs != [] {
      SortOrdered(ivs[..|ivs| - 1]);
      InsertOrdered(ivs[|ivs| - 1], SortByStart(ivs[..|ivs| - 1]));
    }
  }

  lemma CoversOfMultiset(a: seq<Interval>, b: seq<Interval>, p: int)
    requires multiset(a) == multiset(b) && Covers(a, p)
    ensures Covers(b, p)
  {
    var k :| 0 <= k < |a| && Has(a[k], p);
    assert a[k] in multiset(a);
    assert a[k] in b;
    var j :| 0 <= j < |b| && b[j] == a[k];
    assert Has(b[j], p);
  }

  lemma SamePointsOfMultiset(a: seq<Interval>, b: seq<Interval>)
    requires multiset(a) == multiset(b)
    ensures SamePoints(a, b)
  {
    forall p ensures Covers(a, p) <==> Covers(b, p) {
      if Covers(a, p) { CoversOfMultiset(a, b, p); }
      if Covers(b, p) { CoversOfMultiset(b, a, p); }
    }
  }

  /** One step of the sweep: extend the last run or open a new one. */
  lemma SweepStep(merged: seq<Interval>, current: Interval, next: seq<Interval>)
    requires Separated(merged) && |merged| > 0 && NonEmpty(current)
    requires merged[|merged| - 1].start <= current.start
    requires var last := merged[|merged| - 1];
             next == if current.start <= last.end
                     then merged[|merged| - 1 := Interval(last.start, if current.end > last.end then current.end else last.end)]
                     else merged + [current]
    ensures Separated(next)
    ensures forall p :: Covers(next, p) <==> Covers(merged, p) || Has(current, p)
  {
    var n := |merged| - 1;
    var last := merged[n];
    assert merged == merged[..n] + [last];
    forall p ensures Covers(next, p) <==> Covers(merged, p) || Has(current, p) {
      CoversConcat(merged[..n], [last], p);
      CoversSingle(last, p);
      CoversSingle(current, p);
      CoversConcat(merged, [current], p);
      if current.start <= last.end {
        var wide := Interval(last.start, if current.end > last.end then current.end else last.end);
        assert next == merged[..n] + [wide];
        CoversConcat(merged[..n], [wide], p);
        CoversSingle(wide, p);
      }
    }
  }

  lemma PreparedFacts(intervals: seq<Interval>, prepared: seq<Interval>)
    requires prepared == SortByStart(Normalized(intervals))
    ensures StartOrdered(prepared) && SamePoints(prepared, intervals)
    ensures forall k :: 0 <= k < |prepared| ==> NonEmpty(prepared[k])
  {
    SortOrdered(Normalized(intervals));
    NormalizedKeepsPoints(intervals);
    SamePointsOfMultiset(prepared, Normalized(intervals));
    forall k | 0 <= k < |prepared| ensures NonEmpty(prepared[k]) {
      assert prepared[k] in multiset(prepared);
      assert prepared[k] in Normalized(intervals);
    }
  }

  lemma PrefixStep(prepared: seq<Interval>, i: nat, before: seq<Interval>, merged: seq<Interval>)
    requires i < |prepared| && SamePoints(before, prepared[..i])
    requires forall p :: Covers(merged, p) <==> Covers(before, p) || Has(prepared[i], p)
    ensures SamePoints(merged, prepared[..i + 1])
  {
    forall p ensures Covers(merged, p) <==> Covers(prepared[..i + 1], p) {
      assert prepared[..i + 1] == prepared[..i] + [prepared[i]];
      CoversConcat(prepared[..i], [prepared[i]], p);
      CoversSingle(prepared[i], p);
    }
  }

  lemma SamePointsNormal(merged: seq<Interval>, prepared: seq<Interval>, intervals: seq<Interval>)
    requires Separated(merged) && SamePoints(merged, prepared) && SamePoints(prepared, intervals)
    ensures merged == Merged(intervals)
  {
    MergedIsNormal(intervals);
    NormalFormUnique(merged, Merged(intervals));
  }

  /** The runs found after sweeping `done`: normal, and covering exactly what was swept. */
  ghost predicate SweptTo(merged: seq<Interval>, done: seq<Interval>) {
    && Separated(merged) && SamePoints(merged, done)
    && (done != [] ==> merged != [] && merged[|merged| - 1].start <= done[|done| - 1].start)
  }

  lemma SweepAdvances(before: seq<Interval>, prepared: seq<Interval>, i: nat, merged: seq<Interval>)
    requires 0 < i < |prepared| && NonEmpty(prepared[i]) && StartOrdered(prepared)
    requires SweptTo(before, prepared[..i])
    requires merged == Extend(before, prepared[i])
    ensures SweptTo(merged, prepared[..i + 1])
  {
    assert before[|before| - 1].start <= prepared[i - 1].start <= prepared[i].start;
    SweepStep(before, prepared[i], merged);
    PrefixStep(prepared, i, before, merged);
  }

  ghost function Extend(merged: seq<Interval>, current: Interval): seq<Interval>
    requires |merged| > 0
  {
    var last := merged[|merged| - 1];
    if current.start <= last.end
      then merged[|merged| - 1 := Interval(last.start, if current.end > last.end then current.end else last.end)]
    else merged + [current]
  }

  /** The sweep over the sorted list, from the second entry on. */
  method Sweep(prepared: seq<Interval>) returns (merged: seq<Interval>)
    requires StartOrdered(prepared)
    requires forall k :: 0 <= k < |prepared| ==> NonEmpty(prepared[k])
    ensures SweptTo(merged, prepared)
  {
    if |prepared| == 0 { return []; }
    merged := [prepared[0]];
    assert prepared[..1] == merged;
    var i := 1;
    while i < |prepared|
      invariant 1 <= i <= |prepared|
      invariant SweptTo(merged, prepared[..i])
    {
      var current := prepared[i];
      var last := merged[|merged| - 1];
      ghost var before := merged;
      if current.start <= last.end {
        if current.end > last.end {
          merged := merged[|merged| - 1 := Interval(last.start, current.end)];
        }
      } else {
        merged := merged + [current];
      }
      assert merged == Extend(before, current);
      SweepAdvances(before, prepared, i, merged);
      i := i + 1;
    }
    assert prepared[..i] == prepared;
  }

  method MergeIntervals(intervals: seq<Interval>) returns (merged: seq<Interval>)
    ensures merged == Merged(intervals)
    ensures Separated(merged) && SamePoints(merged, intervals)
  {
    var prepared := SortByStart(Normalized(intervals));
    PreparedFacts(intervals, prepared);
    merged := Sweep(prepared);
    SamePointsNormal(merged, prepared, intervals);
  }

  // ---------------------------------------------------------------- subtract

  /** The free stretches of [pointer, end) once the busy runs are taken out. */
  ghost function Carve(pointer: int, end: int, busy: seq<Interval>): seq<Interval>
    decreases |busy|
  {
    if busy == [] || busy[0].start >= end then
      if pointer < end then [Interval(pointer, end)] else []
    else if busy[0].end <= pointer then Carve(pointer, end, busy[1..])
    else if busy[0].start > pointer then [Interval(pointer, busy[0].start)] + Carve(busy[0].end, end, busy[1..])
    else Carve(busy[0].end, end, busy[1..])
  }

  /** Reference definition of subtraction: carve each base interval in turn. */
  ghost function Subtracted(base: seq<Interval>, busy: seq<Interval>): seq<Interval> {
    if base == [] then []
    else Carve(base[0].start, base[0].end, Merged(busy)) + Subtracted(base[1..], busy)
  }

  lemma {:induction false} CarveNormal(pointer: int, end: int, busy: seq<Interval>)
    requires Separated(busy)
    ensures Separated(Carve(pointer, end, busy))
    ensures forall p :: Covers(Carve(pointer, end, busy), p) <==> pointer <= p < end && !Covers(busy, p)
    ensures forall k :: 0 <= k < |Carve(pointer, end, busy)| ==>
              pointer <= Carve(pointer, end, busy)[k].start && Carve(pointer, end, busy)[k].end <= end
    decreases |busy|
  {
    var r := Carve(pointer, end, busy);
    if busy == [] || busy[0].start >= end {
      forall p ensures Covers(r, p) <==> pointer <= p < end && !Covers(busy, p) {
        if busy != [] { CoversCons(busy, p); SeparatedTail(busy); }
        CoversSingle(Interval(pointer, end), p);
      }
    } else {
      SeparatedTail(busy);
      var next := if busy[0].end <= pointer then pointer else busy[0].end;
      CarveNormal(next, end, busy[1..]);
      var rest := Carve(next, end, busy[1..]);
      forall p ensures Covers(r, p) <==> pointer <= p < end && !Covers(busy, p) {
        CoversCons(busy, p);
        if busy[0].end > pointer && busy[0].start > pointer {
          var gap := Interval(pointer, busy[0].start);
          CoversConcat([gap], rest, p);
          CoversSingle(gap, p);
        }
      }
    }
  }

  /** Subtraction is pointwise set difference, for any base and any busy list. */
  lemma {:induction false} SubtractedPoints(base: seq<Interval>, busy: seq<Interval>)
    ensures forall p :: Covers(Subtracted(base, busy), p) <==> Covers(base, p) && !Covers(busy, p)
    ensures forall k :: 0 <= k < |Subtracted(base, busy)| ==> NonEmpty(Subtracted(base, busy)[k])
  {
    if base != [] {
      SubtractedPoints(base[1..], busy);
      MergedIsNormal(busy);
      CarveNormal(base[0].start, base[0].end, Merged(busy));
      forall p ensures Covers(Subtracted(base, busy), p) <==> Covers(base, p) && !Covers(busy, p) {
        CoversConcat(Carve(base[0].start, base[0].end, Merged(busy)), Subtracted(base[1..], busy), p);
        CoversCons(base, p);
      }
    }
  }

  lemma {:induction false} SubtractedBounds(base: seq<Interval>, busy: seq<Interval>, lo: int)
    requires forall k :: 0 <= k < |base| ==> lo <= base[k].start
    ensures forall k :: 0 <= k < |Subtracted(base, busy)| ==> lo <= Subtracted(base, busy)[k].start
  {
    if base != [] {
      SubtractedBounds(base[1..], busy, lo);
      MergedIsNormal(busy);
      CarveNormal(base[0].start, base[0].end, Merged(busy));
    }
  }

  /** A sorted disjoint base gives a sorted disjoint result. */
  lemma {:induction false} SubtractedChained(base: seq<Interval>, busy: seq<Interval>)
    requires Chained(base)
    ensures Chained(Subtracted(base, busy))
  {
    if base != [] {
      SubtractedChained(base[1..], busy);
      MergedIsNormal(busy);
      CarveNormal(base[0].start, base[0].end, Merged(busy));
      SubtractedBounds(base[1..], busy, base[0].end);
    }
  }

  /** A base in normal form gives a result in normal form. */
  lemma {:induction false} SubtractedNormal(base: seq<Interval>, busy: seq<Interval>)
    requires Separated(base)
    ensures Separated(Subtracted(base, busy))
  {
    if base != [] {
      SubtractedNormal(base[1..], busy);
      MergedIsNormal(busy);
      CarveNormal(base[0].start, base[0].end, Merged(busy));
      SubtractedBounds(base[1..], busy, base[0].end + 1);
    }
  }

  /** The busy entries the range listing keeps for one day. */
  function OverlappingDay(busy: seq<Interval>, dayStart: int, dayEnd: int): seq<Interval> {
    if busy == [] then []
    else if busy[0].end > dayStart && busy[0].start < dayEnd
      then [busy[0]] + OverlappingDay(busy[1..], dayStart, dayEnd)
    else OverlappingDay(busy[1..], dayStart, dayEnd)
  }

  lemma {:induction false} OverlappingDayPoints(busy: seq<Interval>, dayStart: int, dayEnd: int, p: int)
    requires dayStart <= p < dayEnd
    ensures Covers(OverlappingDay(busy, dayStart, dayEnd), p) <==> Covers(busy, p)
  {
    if busy != [] {
      OverlappingDayPoints(busy[1..], dayStart, dayEnd, p);
      CoversCons(busy, p);
      var r := OverlappingDay(busy, dayStart, dayEnd);
      if busy[0].end > dayStart && busy[0].start < dayEnd {
        CoversCons(r, p);
        assert r[1..] == OverlappingDay(busy[1..], dayStart, dayEnd);
      }
    }
  }

  /** Range form refines the day form: dropping the busy entries of other days changes
      nothing, for any base that lies inside the day. */
  lemma {:induction false} RangeFormRefinesDayForm(base: seq<Interval>, busy: seq<Interval>, dayStart: int, dayEnd: int)
    requires forall k :: 0 <= k < |base| ==> dayStart <= base[k].start && base[k].end <= dayEnd
    ensures Subtracted(base, OverlappingDay(busy, dayStart, dayEnd)) == Subtracted(base, busy)
  {
    if base != [] {
      RangeFormRefinesDayForm(base[1..], busy, dayStart, dayEnd);
      var day := OverlappingDay(busy, dayStart, dayEnd);
      MergedIsNormal(busy);
      MergedIsNormal(day);
      CarveNormal(base[0].start, base[0].end, Merged(busy));
      CarveNormal(base[0].start, base[0].end, Merged(day));
      forall p ensures Covers(Carve(base[0].start, base[0].end, Merged(day)), p)
                  <==> Covers(Carve(base[0].start, base[0].end, Merged(busy)), p) {
        if base[0].start <= p < base[0].end { OverlappingDayPoints(busy, dayStart, dayEnd, p); }
      }
      NormalFormUnique(Carve(base[0].start, base[0].end, Merged(day)),
                       Carve(base[0].start, base[0].end, Merged(busy)));
    }
  }

  lemma SubtractedSnoc(base: seq<Interval>, last: Interval, busy: seq<Interval>)
    ensures Subtracted(base + [last], busy)
         == Subtracted(base, busy) + Carve(last.start, last.end, Merged(busy))
  {
    if base == [] {
      assert [] + [last] == [last];
      assert [last][1..] == [];
      assert Subtracted([last], busy) == Carve(last.start, last.end, Merged(busy)) + [];
    } else {
      assert (base + [last])[1..] == base[1..] + [last];
      SubtractedSnoc(base[1..], last, busy);
    }
  }

  method SubtractIntervals(baseIntervals: seq<Interval>, busyIntervals: seq<Interval>) returns (free: seq<Interval>)
    ensures free == Subtracted(baseIntervals, busyIntervals)
    ensures forall p :: Covers(free, p) <==> Covers(baseIntervals, p) && !Covers(busyIntervals, p)
  {
    free := [];
    var mergedBusy := MergeIntervals(busyIntervals);
    for b := 0 to |baseIntervals|
      invariant free == Subtracted(baseIntervals[..b], busyIntervals)
    {
      var base := baseIntervals[b];
      var pointer := base.start;
      ghost var done := free;
      var i := 0;
      while i < |mergedBusy|
        invariant 0 <= i <= |mergedBusy|
        invariant free + Carve(pointer, base.end, mergedBusy[i..])
               == done + Carve(base.start, base.end, mergedBusy)
      {
        var busy := mergedBusy[i];
        assert mergedBusy[i..][0] == busy && mergedBusy[i..][1..] == mergedBusy[i + 1..];
        if busy.end <= pointer {
          // A run that ended before the pointer leaves it where it is, in or out of the base.
          CarveSkip(pointer, base.end, mergedBusy[i..]);
          i := i + 1;
          continue;
        }
        if busy.start >= base.end {
          break;
        }
        CarveTake(pointer, base.end, mergedBusy[i..], free);
        if busy.start > pointer {
          free := free + [Interval(pointer, if busy.start < base.end then busy.start else base.end)];
        }
        pointer := if pointer < busy.end then busy.end else pointer;
        i := i + 1;
      }
      assert Carve(pointer, base.end, mergedBusy[i..]) == if pointer < base.end then [Interval(pointer, base.end)] else [];
      if pointer < base.end {
        free := free + [Interval(pointer, base.end)];
      }
      assert baseIntervals[..b + 1] == baseIntervals[..b] + [base];
      SubtractedSnoc(baseIntervals[..b], base, busyIntervals);
    }
    assert baseIntervals[..|baseIntervals|] == baseIntervals;
    SubtractedPoints(baseIntervals, busyIntervals);
    NormalizedIdentity(free);
    free := Normalized(free);
  }

  /** One run inside the base, with what was free before it. */
  lemma CarveTake(pointer: int, end: int, busy: seq<Interval>, free: seq<Interval>)
    requires |busy| > 0 && busy[0].start < end && pointer < busy[0].end
    ensures free + Carve(pointer, end, busy)
         == (if busy[0].start > pointer then free + [Interval(pointer, busy[0].start)] else free) + Carve(busy[0].end, end, busy[1..])
  {
  }

  lemma CarveSkip(pointer: int, end: int, busy: seq<Interval>)
    requires Separated(busy) && |busy| > 0 && busy[0].end <= pointer
    ensures Carve(pointer, end, busy) == Carve(pointer, end, busy[1..])
  {
    if busy[0].start >= end && |busy| > 1 {
      assert busy[1..][0] == busy[1];
      assert busy[0].end < busy[1].start;
    }
  }

  // -------------------------------------------------------------------- trim

  /** Drops what ended by the floor and clips what straddles it. */
  function Trimmed(ivs: seq<Interval>, floor: int): seq<Interval> {
    if ivs == [] then []
    else if !NonEmpty(ivs[0]) || ivs[0].end <= floor then Trimmed(ivs[1..], floor)
    else [Interval(if ivs[0].start < floor then floor else ivs[0].start, ivs[0].end)] + Trimmed(ivs[1..], floor)
  }

  /** Trimming keeps exactly the minutes at or after the floor. */
  lemma {:induction false} TrimmedPoints(ivs: seq<Interval>, floor: int)
    ensures forall p :: Covers(Trimmed(ivs, floor), p) <==> Covers(ivs, p) && floor <= p
    ensures forall k :: 0 <= k < |Trimmed(ivs, floor)| ==> NonEmpty(Trimmed(ivs, floor)[k])
  {
    if ivs != [] {
      TrimmedPoints(ivs[1..], floor);
      var r := Trimmed(ivs, floor);
      forall p ensures Covers(r, p) <==> Covers(ivs, p) && floor <= p {
        CoversCons(ivs, p);
        if NonEmpty(ivs[0]) && ivs[0].end > floor {
          CoversCons(r, p);
          assert r[1..] == Trimmed(ivs[1..], floor);
        }
      }
    }
  }

  lemma {:induction false} TrimmedNormal(ivs: seq<Interval>, floor: int)
    requires Separated(ivs)
    ensures var r := Trimmed(ivs, floor); Separated(r) && (r != [] ==> ivs != [] && ivs[0].start <= r[0].start)
  {
    if ivs != [] {
      var rest := Trimmed(ivs[1..], floor);
      SeparatedTail(ivs);
      TrimmedNormal(ivs[1..], floor);
      if ivs[0].end > floor {
        var head := Trimmed(ivs, floor)[0];
        assert Trimmed(ivs, floor) == [head] + rest && head.end == ivs[0].end;
        forall j | 0 <= j < |rest| ensures head.end < rest[j].start {
          assert j == 0 || rest[0].start < rest[j].start;
          assert ivs[0].end < ivs[1..][0].start;
        }
      }
    }
  }

  lemma {:induction false} TrimmedSnoc(ivs: seq<Interval>, last: Interval, floor: int)
    ensures Trimmed(ivs + [last], floor) == Trimmed(ivs, floor) + Trimmed([last], floor)
  {
    if ivs == [] {
      assert ivs + [last] == [last];
    } else {
      assert (ivs + [last])[1..] == ivs[1..] + [last];
      TrimmedSnoc(ivs[1..], last, floor);
    }
  }

  method TrimIntervalsByMinimumStart(intervals: seq<Interval>, minimumStart: int) returns (trimmed: seq<Interval>)
    ensures trimmed == Trimmed(intervals, minimumStart)
    ensures forall p :: Covers(trimmed, p) <==> Covers(intervals, p) && minimumStart <= p
  {
    trimmed := [];
    for i := 0 to |intervals|
      invariant trimmed == Trimmed(intervals[..i], minimumStart)
    {
      var interval := intervals[i];
      assert intervals[..i + 1] == intervals[..i] + [interval];
      TrimmedSnoc(intervals[..i], interval, minimumStart);
      if !NonEmpty(interval) || interval.end <= minimumStart { continue; }
      trimmed := trimmed + [Interval(if interval.start < minimumStart then minimumStart else interval.start, interval.end)];
    }
    assert intervals[..|intervals|] == intervals;
    TrimmedPoints(intervals, minimumStart);
  }
}
