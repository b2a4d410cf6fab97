/** Opening hours of a branch on one day: base intervals from the weekly schedules,
    then the day's exceptions (src/services/agendaService.js:1705-1732, 1819-1857).
    Clock times are minutes of the operational day. */
module BranchHours {
  import opened Intervals

  datatype Mode = CierreTotal | HorarioEspecial | AperturaExtra | CierreParcial

  /** One exception row with its blocks as stored, possibly empty or reversed. */
  datatype Exception = Exception(mode: Mode, blocks: seq<Interval>)

  datatype Lunch = NoLunch | Lunch(span: Interval)
  datatype Schedule = Schedule(work: Interval, lunch: Lunch)

  predicate HasMode(exceptions: seq<Exception>, mode: Mode) {
    exists k :: 0 <= k < |exceptions| && exceptions[k].mode == mode
  }

  /** The usable blocks of the exceptions of one mode, in order. */
  function BlocksOf(exceptions: seq<Exception>, mode: Mode): seq<Interval> {
    if exceptions == [] then []
    else (if exceptions[0].mode == mode then Normalized(exceptions[0].blocks) else [])
         + BlocksOf(exceptions[1..], mode)
  }

  /** Minute p lies in a block of an exception of this mode. */
  ghost predicate InMode(exceptions: seq<Exception>, mode: Mode, p: int) {
    exists k :: 0 <= k < |exceptions| && exceptions[k].mode == mode && Covers(exceptions[k].blocks, p)
  }

  ghost predicate HasSpecialHours(exceptions: seq<Exception>) {
    exists p :: InMode(exceptions, HorarioEspecial, p)
  }

  /** The set formula: nothing on a total closure; otherwise the special hours if there
      are any, else the base, together with the extra openings, less the partial closures. */
  ghost predicate OpenAt(base: seq<Interval>, exceptions: seq<Exception>, p: int) {
    && !HasMode(exceptions, CierreTotal)
    && (|| (if HasSpecialHours(exceptions) then InMode(exceptions, HorarioEspecial, p) else Covers(base, p))
        || InMode(exceptions, AperturaExtra, p))
    && !InMode(exceptions, CierreParcial, p)
  }

  /** A list is the adjusted opening of the day: normal form of the set formula. */
  ghost predicate IsAdjusted(r: seq<Interval>, base: seq<Interval>, exceptions: seq<Exception>) {
    Separated(r) && forall p :: Covers(r, p) <==> OpenAt(base, exceptions, p)
  }

  lemma {:induction false} BlocksOfPoints(exceptions: seq<Exception>, mode: Mode, p: int)
    ensures Covers(BlocksOf(exceptions, mode), p) <==> InMode(exceptions, mode, p)
  {
    if exceptions != [] {
      var rest := exceptions[1..];
      var head := if exceptions[0].mode == mode then Normalized(exceptions[0].blocks) else [];
      BlocksOfPoints(rest, mode, p);
      NormalizedKeepsPoints(exceptions[0].blocks);
      CoversConcat(head, BlocksOf(rest, mode), p);
      if InMode(rest, mode, p) {
        var k :| 0 <= k < |rest| && rest[k].mode == mode && Covers(rest[k].blocks, p);
        assert exceptions[k + 1] == rest[k];
      }
      if InMode(exceptions, mode, p) {
        var k :| 0 <= k < |exceptions| && exceptions[k].mode == mode && Covers(exceptions[k].blocks, p);
        if k > 0 { assert rest[k - 1] == exceptions[k]; }
      }
    }
  }

  lemma {:induction false} BlocksOfNonEmpty(exceptions: seq<Exception>, mode: Mode)
    ensures forall k :: 0 <= k < |BlocksOf(exceptions, mode)| ==> NonEmpty(BlocksOf(exceptions, mode)[k])
  {
    if exceptions != [] { BlocksOfNonEmpty(exceptions[1..], mode); }
  }

  /** The code's test on the list length is the set-level question. */
  lemma SpecialHoursTest(exceptions: seq<Exception>)
    ensures BlocksOf(exceptions, HorarioEspecial) != [] <==> HasSpecialHours(exceptions)
  {
    var special := BlocksOf(exceptions, HorarioEspecial);
    BlocksOfNonEmpty(exceptions, HorarioEspecial);
    if special != [] {
      assert Has(special[0], special[0].start);
      BlocksOfPoints(exceptions, HorarioEspecial, special[0].start);
    } else {
      forall p ensures !InMode(exceptions, HorarioEspecial, p) {
        BlocksOfPoints(exceptions, HorarioEspecial, p);
      }
    }
  }

  lemma AllBlocksOfPoints(exceptions: seq<Exception>, mode: Mode)
    ensures forall p :: Covers(BlocksOf(exceptions, mode), p) <==> InMode(exceptions, mode, p)
  {
    forall p ensures Covers(BlocksOf(exceptions, mode), p) <==> InMode(exceptions, mode, p) {
      BlocksOfPoints(exceptions, mode, p);
    }
  }

  lemma UnionStep(before: seq<Interval>, extra: seq<Interval>, after: seq<Interval>)
    requires SamePoints(after, before + extra)
    ensures forall p :: Covers(after, p) <==> Covers(before, p) || Covers(extra, p)
  {
    forall p ensures Covers(after, p) <==> Covers(before, p) || Covers(extra, p) {
      CoversConcat(before, extra, p);
    }
  }

  method ApplyBranchExceptionsToIntervals(baseIntervals: seq<Interval>, exceptions: seq<Exception>)
    returns (intervals: seq<Interval>)
    ensures IsAdjusted(intervals, baseIntervals, exceptions)
  {
    intervals := MergeIntervals(baseIntervals);
    if HasMode(exceptions, CierreTotal) {
      return [];
    }
    var specialIntervals := BlocksOf(exceptions, HorarioEspecial);
    AllBlocksOfPoints(exceptions, HorarioEspecial);
    SpecialHoursTest(exceptions);
    if |specialIntervals| > 0 {
      intervals := MergeIntervals(specialIntervals);
    }
    ghost var regular := intervals;
    var extraIntervals := BlocksOf(exceptions, AperturaExtra);
    AllBlocksOfPoints(exceptions, AperturaExtra);
    if |extraIntervals| > 0 {
      intervals := MergeIntervals(intervals + extraIntervals);
      UnionStep(regular, extraIntervals, intervals);
    }
    ghost var open := intervals;
    assert forall p :: Covers(open, p) <==> Covers(regular, p) || InMode(exceptions, AperturaExtra, p);
    var closedIntervals := BlocksOf(exceptions, CierreParcial);
    AllBlocksOfPoints(exceptions, CierreParcial);
    if |closedIntervals| > 0 {
      intervals := SubtractIntervals(intervals, closedIntervals);
    }
    intervals := MergeIntervals(intervals);
  }

  /** Two results for the same day are the same list, whatever the order in which the
      exceptions were read and whatever list of base intervals covers the same minutes. */
  lemma ExceptionOrderIrrelevant(r: seq<Interval>, base: seq<Interval>, exceptions: seq<Exception>,
                                 r': seq<Interval>, base': seq<Interval>, exceptions': seq<Exception>)
    requires IsAdjusted(r, base, exceptions) && IsAdjusted(r', base', exceptions')
    requires multiset(exceptions) == multiset(exceptions') && SamePoints(base, base')
    ensures r == r'
  {
    ModesOfMultiset(exceptions, exceptions');
    ModesOfMultiset(exceptions', exceptions);
    assert forall p :: InMode(exceptions, HorarioEspecial, p) <==> InMode(exceptions', HorarioEspecial, p);
    forall p ensures Covers(r, p) <==> Covers(r', p) {
      assert OpenAt(base, exceptions, p) <==> OpenAt(base', exceptions', p);
    }
    NormalFormUnique(r, r');
  }

  /** A block of an exception of this mode holds minute p. */
  ghost predicate Block(exceptions: seq<Exception>, k: int, j: int, mode: Mode, p: int) {
    && 0 <= k < |exceptions| && exceptions[k].mode == mode && 0 <= j < |exceptions[k].blocks|
    && exceptions[k].blocks[j].start <= p < exceptions[k].blocks[j].end
  }

  lemma BlockInMode(exceptions: seq<Exception>, mode: Mode, p: int)
    ensures InMode(exceptions, mode, p) <==> exists k, j :: Block(exceptions, k, j, mode, p)
  {
    if InMode(exceptions, mode, p) {
      var k :| 0 <= k < |exceptions| && exceptions[k].mode == mode && Covers(exceptions[k].blocks, p);
      var j :| 0 <= j < |exceptions[k].blocks| && Has(exceptions[k].blocks[j], p);
      assert Block(exceptions, k, j, mode, p);
    }
    if k, j :| Block(exceptions, k, j, mode, p) {
      assert Has(exceptions[k].blocks[j], p);
    }
  }

  /** What the exceptions do to a day. A total closure leaves nothing. Else a partial closure
      always closes; outside of those an extra opening or a special-hours block always opens;
      and any other minute is open exactly when the base is and there are no special hours. */
  lemma ExceptionsDecide(r: seq<Interval>, base: seq<Interval>, exceptions: seq<Exception>, p: int)
    requires IsAdjusted(r, base, exceptions)
    ensures (exists k :: 0 <= k < |exceptions| && exceptions[k].mode == CierreTotal) ==> r == []
    ensures (forall k :: 0 <= k < |exceptions| ==> exceptions[k].mode != CierreTotal) ==>
      (Covers(r, p) <==>
        if exists k, j :: Block(exceptions, k, j, CierreParcial, p) then false
        else if exists k, j :: Block(exceptions, k, j, AperturaExtra, p) || Block(exceptions, k, j, HorarioEspecial, p) then true
        else Covers(base, p) && forall q, k, j :: !Block(exceptions, k, j, HorarioEspecial, q))
  {
    BlockInMode(exceptions, CierreParcial, p);
    BlockInMode(exceptions, AperturaExtra, p);
    BlockInMode(exceptions, HorarioEspecial, p);
    if HasSpecialHours(exceptions) {
      var q :| InMode(exceptions, HorarioEspecial, q);
      BlockInMode(exceptions, HorarioEspecial, q);
    } else {
      forall q, k, j ensures !Block(exceptions, k, j, HorarioEspecial, q) { BlockInMode(exceptions, HorarioEspecial, q); }
    }
    if HasMode(exceptions, CierreTotal) && r != [] {
      FirstPoint(r);
    }
  }

  lemma ModesOfMultiset(a: seq<Exception>, b: seq<Exception>)
    requires multiset(a) == multiset(b)
    ensures forall mode :: HasMode(a, mode) ==> HasMode(b, mode)
    ensures forall mode, p :: InMode(a, mode, p) ==> InMode(b, mode, p)
  {
    forall k | 0 <= k < |a| ensures exists j :: 0 <= j < |b| && b[j] == a[k] {
      assert a[k] in multiset(a);
      assert a[k] in b;
    }
    forall mode, p | InMode(a, mode, p) ensures InMode(b, mode, p) {
      var k :| 0 <= k < |a| && a[k].mode == mode && Covers(a[k].blocks, p);
      var j :| 0 <= j < |b| && b[j] == a[k];
    }
  }

  /** Minute p is working time: inside a shift and outside its lunch break. */
  ghost predicate WorkedAt(schedules: seq<Schedule>, p: int) {
    exists k :: 0 <= k < |schedules| && Has(schedules[k].work, p)
      && (schedules[k].lunch.Lunch? ==> !Has(schedules[k].lunch.span, p))
  }

  method BuildBaseIntervalsFromSchedules(schedules: seq<Schedule>) returns (intervals: seq<Interval>)
    ensures forall p :: Covers(intervals, p) <==> WorkedAt(schedules, p)
  {
    intervals := [];
    for i := 0 to |schedules|
      invariant forall p :: Covers(intervals, p) <==> WorkedAt(schedules[..i], p)
    {
      var row := schedules[i];
      WorkedAtPrefix(schedules, i);
      if !NonEmpty(row.work) { continue; }
      var blocks := if row.lunch.Lunch? && NonEmpty(row.lunch.span) then [row.lunch.span] else [];
      var worked := SubtractIntervals([row.work], blocks);
      forall p ensures Covers(intervals + worked, p) <==> WorkedAt(schedules[..i + 1], p) {
        CoversSingle(row.work, p);
        if blocks != [] { CoversSingle(row.lunch.span, p); }
        CoversConcat(intervals, worked, p);
      }
      intervals := intervals + worked;
    }
    assert schedules[..|schedules|] == schedules;
  }

  lemma WorkedAtPrefix(schedules: seq<Schedule>, i: nat)
    requires i < |schedules|
    ensures forall p :: WorkedAt(schedules[..i + 1], p) <==>
              WorkedAt(schedules[..i], p)
              || (Has(schedules[i].work, p) && (schedules[i].lunch.Lunch? ==> !Has(schedules[i].lunch.span, p)))
  {
    forall p ensures WorkedAt(schedules[..i + 1], p) <==>
              WorkedAt(schedules[..i], p)
              || (Has(schedules[i].work, p) && (schedules[i].lunch.Lunch? ==> !Has(schedules[i].lunch.span, p))) {
      var a, b := schedules[..i + 1], schedules[..i];
      if WorkedAt(b, p) {
        var k :| 0 <= k < |b| && Has(b[k].work, p) && (b[k].lunch.Lunch? ==> !Has(b[k].lunch.span, p));
        assert a[k] == b[k];
      }
      assert a[i] == schedules[i];
    }
  }
}
