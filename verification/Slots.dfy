/** Slot generation over the free intervals of a day and the availability pipeline
    around it (src/services/agendaService.js:1881-2047, 527-581). */
module Slots {
  import opened Intervals
  import opened BranchHours

  const MINUTES_PER_DAY: nat := 1440
  const SLOT_INTERVAL_MINUTES: nat := 5

  /** A bookable slot with the operational context the ranking reads. */
  datatype Slot = Slot(start: int, end: int, free: Interval, before: nat, after: nat)

  datatype Source = Block | Hold | Appointment
  datatype Busy = Busy(span: Interval, source: Source)

  datatype Discard =
    | DurationInsufficient(free: Interval, required: nat)
    | ResidualGap(free: Interval, start: int, end: int, before: nat, after: nat)
    | ResourceUnavailable(closedByException: bool)
    | Occupied(busy: Busy)

  function DiffMinutes(from: int, to: int): nat { if to < from then 0 else to - from }

  predicate Unsellable(residual: int, minSellable: nat) {
    minSellable > 0 && 0 < residual < minSellable
  }

  predicate LeavesUnsellableGap(free: Interval, cursor: int, duration: nat, minSellable: nat) {
    || Unsellable(DiffMinutes(free.start, cursor), minSellable)
    || Unsellable(DiffMinutes(cursor + duration, free.end), minSellable)
  }

  predicate ValidStep(step: nat) { step > 0 && MINUTES_PER_DAY % step == 0 }

  predicate Aligned(t: int, step: nat)
    requires step > 0
  { (t % MINUTES_PER_DAY) % step == 0 }

  /** alignIntervalStartToStep, on whole minutes. */
  function AlignToStep(t: int, step: nat): int
    requires step > 0
  {
    var remainder := (t % MINUTES_PER_DAY) % step;
    if remainder > 0 then t + (step - remainder) else t
  }

  /** The starts tried in one free interval from a cursor on. */
  function Cursors(cursor: int, end: int, duration: nat, step: nat): seq<int>
    requires step > 0
    decreases end - cursor
  {
    if cursor + duration <= end then [cursor] + Cursors(cursor + step, end, duration, step) else []
  }

  function SlotAt(free: Interval, cursor: int, duration: nat): Slot {
    Slot(cursor, cursor + duration, free,
         DiffMinutes(free.start, cursor), DiffMinutes(cursor + duration, free.end))
  }

  function RefusalAt(free: Interval, cursor: int, duration: nat): Discard {
    ResidualGap(free, cursor, cursor + duration,
                DiffMinutes(free.start, cursor), DiffMinutes(cursor + duration, free.end))
  }

  function Offered(free: Interval, cursors: seq<int>, duration: nat, minSellable: nat): seq<Slot> {
    if cursors == [] then []
    else (if LeavesUnsellableGap(free, cursors[0], duration, minSellable) then []
          else [SlotAt(free, cursors[0], duration)])
         + Offered(free, cursors[1..], duration, minSellable)
  }

  function Refused(free: Interval, cursors: seq<int>, duration: nat, minSellable: nat): seq<Discard> {
    if cursors == [] then []
    else (if LeavesUnsellableGap(free, cursors[0], duration, minSellable)
          then [RefusalAt(free, cursors[0], duration)] else [])
         + Refused(free, cursors[1..], duration, minSellable)
  }

  function StartsIn(free: Interval, duration: nat, step: nat): seq<int>
    requires step > 0
  {
    if DiffMinutes(free.start, free.end) < duration then []
    else Cursors(AlignToStep(free.start, step), free.end, duration, step)
  }

  function AllOffered(frees: seq<Interval>, duration: nat, step: nat, minSellable: nat): seq<Slot>
    requires step > 0
  {
    if frees == [] then []
    else
      var n := |frees| - 1;
      AllOffered(frees[..n], duration, step, minSellable)
      + Offered(frees[n], StartsIn(frees[n], duration, step), duration, minSellable)
  }

  function DiscardsIn(free: Interval, duration: nat, step: nat, minSellable: nat): seq<Discard>
    requires step > 0
  {
    if DiffMinutes(free.start, free.end) < duration then [DurationInsufficient(free, duration)]
    else Refused(free, StartsIn(free, duration, step), duration, minSellable)
  }

  function AllDiscards(frees: seq<Interval>, duration: nat, step: nat, minSellable: nat): seq<Discard>
    requires step > 0
  {
    if frees == [] then []
    else
      var n := |frees| - 1;
      AllDiscards(frees[..n], duration, step, minSellable) + DiscardsIn(frees[n], duration, step, minSellable)
  }

  // ------------------------------------------------- soundness, completeness

  ghost predicate Increasing(s: seq<int>) { forall i, j :: 0 <= i < j < |s| ==> s[i] < s[j] }

  function Starts(slots: seq<Slot>): seq<int> { seq(|slots|, i requires 0 <= i < |slots| => slots[i].start) }

  lemma SmallMultiple(d: int, step: int)
    requires step > 0 && -step < d * step < step
    ensures d == 0
  {
    if d >= 1 { MultipleGrows(d, 1, step); } else if d <= -1 { MultipleGrows(-1, d, step); }
  }

  lemma MultipleGrows(a: int, b: int, step: int)
    requires a >= b && step > 0
    ensures a * step >= b * step
  {}

  lemma DivisionUnique(x: int, q: int, r: int, step: int)
    requires step > 0 && 0 <= r < step && x == q * step + r
    ensures x % step == r
  {
    var d := q - x / step;
    assert d * step == q * step - (x / step) * step;
    assert x == (x / step) * step + x % step;
    SmallMultiple(d, step);
  }

  lemma ModuloShift(r: int, k: int, step: int)
    requires step > 0
    ensures (k * step + r) % step == r % step
  {
    assert (k + r / step) * step == k * step + (r / step) * step;
    DivisionUnique(k * step + r, k + r / step, r % step, step);
  }

  /** The step divides the day, so alignment to the clock is divisibility by the step. */
  lemma ModuloOfDayPart(t: int, step: nat)
    requires ValidStep(step)
    ensures (t % MINUTES_PER_DAY) % step == t % step
  {
    var day := MINUTES_PER_DAY / step;
    var q := t / MINUTES_PER_DAY;
    assert MINUTES_PER_DAY == day * step;
    assert q * (day * step) == (q * day) * step;
    ModuloShift(t % MINUTES_PER_DAY, q * day, step);
  }

  lemma AlignedIsMultiple(t: int, step: nat)
    requires ValidStep(step)
    ensures Aligned(t, step) <==> t % step == 0
  {
    ModuloOfDayPart(t, step);
  }

  /** Two multiples less than a step apart are equal. */
  lemma MultiplesApart(a: int, b: int, step: nat)
    requires step > 0 && a % step == 0 && b % step == 0 && a < b
    ensures a + step <= b
  {
    var d := b / step - a / step;
    assert d * step == (b / step) * step - (a / step) * step;
    if b - a < step { SmallMultiple(d, step); }
  }

  /** The first cursor is the least aligned minute not before the interval. */
  lemma AlignToStepLeast(t: int, step: nat)
    requires ValidStep(step)
    ensures t <= AlignToStep(t, step) < t + step
    ensures Aligned(AlignToStep(t, step), step)
    ensures forall c :: t <= c && Aligned(c, step) ==> AlignToStep(t, step) <= c
  {
    var first := AlignToStep(t, step);
    ModuloOfDayPart(t, step);
    AlignedIsMultiple(first, step);
    if t % step > 0 {
      assert (t / step + 1) * step == (t / step) * step + step;
      DivisionUnique(first, t / step + 1, 0, step);
    }
    assert first % step == 0;
    forall c | t <= c && Aligned(c, step) ensures first <= c {
      AlignedIsMultiple(c, step);
      if c < first { MultiplesApart(c, first, step); }
    }
  }

  lemma AlignedNext(c: int, step: nat)
    requires ValidStep(step) && Aligned(c, step)
    ensures Aligned(c + step, step)
    ensures forall d :: c < d && Aligned(d, step) ==> c + step <= d
  {
    AlignedIsMultiple(c, step);
    AlignedIsMultiple(c + step, step);
    ModuloShift(c, 1, step);
    forall d | c < d && Aligned(d, step) ensures c + step <= d {
      AlignedIsMultiple(d, step);
      MultiplesApart(c, d, step);
    }
  }

  /** Every aligned start that fits is tried, once, in increasing order. */
  lemma {:induction false} CursorsExact(cursor: int, end: int, duration: nat, step: nat)
    requires ValidStep(step) && Aligned(cursor, step)
    ensures Increasing(Cursors(cursor, end, duration, step))
    ensures forall c :: c in Cursors(cursor, end, duration, step) <==>
              cursor <= c && Aligned(c, step) && c + duration <= end
    decreases end - cursor
  {
    if cursor + duration <= end {
      AlignedNext(cursor, step);
      CursorsExact(cursor + step, end, duration, step);
      CursorsCons(cursor, Cursors(cursor + step, end, duration, step), end, duration, step);
    }
  }

  /** One more start in front of all later ones. */
  lemma CursorsCons(cursor: int, rest: seq<int>, end: int, duration: nat, step: nat)
    requires ValidStep(step) && Aligned(cursor, step) && cursor + duration <= end
    requires forall d :: cursor < d && Aligned(d, step) ==> cursor + step <= d
    requires Increasing(rest)
    requires forall c :: c in rest <==> cursor + step <= c && Aligned(c, step) && c + duration <= end
    ensures Increasing([cursor] + rest)
    ensures forall c :: c in [cursor] + rest <==> cursor <= c && Aligned(c, step) && c + duration <= end
  {
    forall k | 0 <= k < |rest| ensures cursor < rest[k] {
      assert rest[k] in rest;
    }
  }

  /** Offered slots are exactly the tried starts whose residues are sellable. */
  lemma {:induction false} OfferedExact(free: Interval, cursors: seq<int>, duration: nat, minSellable: nat)
    ensures forall slot :: slot in Offered(free, cursors, duration, minSellable) <==>
              slot.start in cursors && slot == SlotAt(free, slot.start, duration)
              && !LeavesUnsellableGap(free, slot.start, duration, minSellable)
  {
    if cursors != [] {
      OfferedExact(free, cursors[1..], duration, minSellable);
      assert forall c :: c in cursors <==> c == cursors[0] || c in cursors[1..];
    }
  }

  lemma {:induction false} OfferedIncreasing(free: Interval, cursors: seq<int>, duration: nat, minSellable: nat)
    requires Increasing(cursors)
    ensures Increasing(Starts(Offered(free, cursors, duration, minSellable)))
  {
    if cursors != [] {
      var rest := cursors[1..];
      OfferedIncreasing(free, rest, duration, minSellable);
      OfferedExact(free, rest, duration, minSellable);
      var tail := Offered(free, rest, duration, minSellable);
      forall k | 0 <= k < |tail| ensures cursors[0] < Starts(tail)[k] {
        assert tail[k] in tail;
        assert tail[k].start in rest;
      }
      var head := [SlotAt(free, cursors[0], duration)];
      assert Starts(head + tail) == [cursors[0]] + Starts(tail);
      assert [] + tail == tail;
    }
  }

  /** Refusals are exactly the tried starts that leave an unsellable residue. */
  lemma {:induction false} RefusedExact(free: Interval, cursors: seq<int>, duration: nat, minSellable: nat)
    ensures forall d :: d in Refused(free, cursors, duration, minSellable) <==>
              d.ResidualGap? && d.start in cursors && d == RefusalAt(free, d.start, duration)
              && LeavesUnsellableGap(free, d.start, duration, minSellable)
    ensures |Refused(free, cursors, duration, minSellable)| + |Offered(free, cursors, duration, minSellable)| == |cursors|
  {
    if cursors != [] {
      RefusedExact(free, cursors[1..], duration, minSellable);
      assert forall c :: c in cursors <==> c == cursors[0] || c in cursors[1..];
    }
  }

  /** Sound and complete: in a free interval every aligned start at which the service
      fits appears exactly once, as a slot when both residues are zero or sellable and as
      a residual discard otherwise; nothing else appears. */
  lemma SlotGeneration(free: Interval, duration: nat, step: nat, minSellable: nat)
    requires ValidStep(step)
    ensures var starts := StartsIn(free, duration, step);
            var slots := Offered(free, starts, duration, minSellable);
            && Increasing(starts) && Increasing(Starts(slots))
            && (forall c :: c in starts <==> free.start <= c && c + duration <= free.end && Aligned(c, step))
            && (forall slot :: slot in slots <==>
                  && slot == SlotAt(free, slot.start, duration)
                  && free.start <= slot.start && slot.start + duration <= free.end && Aligned(slot.start, step)
                  && !Unsellable(slot.start - free.start, minSellable)
                  && !Unsellable(free.end - slot.start - duration, minSellable))
            && |slots| + |Refused(free, starts, duration, minSellable)| == |starts|
            && (forall c :: c in starts ==> (SlotAt(free, c, duration) in slots
                                        <==> RefusalAt(free, c, duration) !in Refused(free, starts, duration, minSellable)))
  {
    var starts := StartsIn(free, duration, step);
    var slots := Offered(free, starts, duration, minSellable);
    StartsExact(free, duration, step);
    OfferedExact(free, starts, duration, minSellable);
    OfferedIncreasing(free, starts, duration, minSellable);
    RefusedExact(free, starts, duration, minSellable);
  }

  lemma StartsExact(free: Interval, duration: nat, step: nat)
    requires ValidStep(step)
    ensures Increasing(StartsIn(free, duration, step))
    ensures forall c :: c in StartsIn(free, duration, step) <==>
              free.start <= c && c + duration <= free.end && Aligned(c, step)
  {
    AlignToStepLeast(free.start, step);
    CursorsExact(AlignToStep(free.start, step), free.end, duration, step);
  }

  predicate OfferedBy(free: Interval, duration: nat, step: nat, minSellable: nat, slot: Slot)
    requires step > 0
  {
    slot in Offered(free, StartsIn(free, duration, step), duration, minSellable)
  }

  /** The whole list: a slot is offered iff some free interval offers it. */
  lemma {:induction false} AllOfferedMember(frees: seq<Interval>, duration: nat, step: nat, minSellable: nat, slot: Slot)
    requires step > 0
    ensures slot in AllOffered(frees, duration, step, minSellable) <==>
      exists k :: 0 <= k < |frees| && OfferedBy(frees[k], duration, step, minSellable, slot)
  {
    if frees != [] {
      var n := |frees| - 1;
      var init := frees[..n];
      AllOfferedMember(init, duration, step, minSellable, slot);
      assert slot in AllOffered(frees, duration, step, minSellable) <==>
        slot in AllOffered(init, duration, step, minSellable) || OfferedBy(frees[n], duration, step, minSellable, slot);
      if k :| 0 <= k < n && OfferedBy(init[k], duration, step, minSellable, slot) {
        assert frees[k] == init[k];
      }
      if k :| 0 <= k < |frees| && OfferedBy(frees[k], duration, step, minSellable, slot) {
        assert k == n || frees[k] == init[k];
      }
    }
  }

  // -------------------------------------------------------------- the methods

  /** The cursor loop over one free interval. */
  method FillInterval(free: Interval, duration: nat, step: nat, minSellable: nat)
    returns (slots: seq<Slot>, refusals: seq<Discard>)
    requires step > 0
    ensures slots == Offered(free, Cursors(AlignToStep(free.start, step), free.end, duration, step), duration, minSellable)
    ensures refusals == Refused(free, Cursors(AlignToStep(free.start, step), free.end, duration, step), duration, minSellable)
  {
    slots, refusals := [], [];
    var cursor := AlignToStep(free.start, step);
    ghost var allSlots := OfferedFrom(free, cursor, duration, step, minSellable);
    ghost var allRefusals := RefusedFrom(free, cursor, duration, step, minSellable);
    while cursor + duration <= free.end
      invariant slots + OfferedFrom(free, cursor, duration, step, minSellable) == allSlots
      invariant refusals + RefusedFrom(free, cursor, duration, step, minSellable) == allRefusals
      decreases free.end - cursor
    {
      NextCursor(free, cursor, duration, step, minSellable);
      ghost var slotsLater := OfferedFrom(free, cursor + step, duration, step, minSellable);
      ghost var refusalsLater := RefusedFrom(free, cursor + step, duration, step, minSellable);
      var before := DiffMinutes(free.start, cursor);
      var after := DiffMinutes(cursor + duration, free.end);
      if Unsellable(before, minSellable) || Unsellable(after, minSellable) {
        var refusal := ResidualGap(free, cursor, cursor + duration, before, after);
        assert refusals + ([refusal] + refusalsLater) == (refusals + [refusal]) + refusalsLater;
        refusals := refusals + [refusal];
      } else {
        var slot := Slot(cursor, cursor + duration, free, before, after);
        assert slots + ([slot] + slotsLater) == (slots + [slot]) + slotsLater;
        slots := slots + [slot];
      }
      cursor := cursor + step;
    }
  }

  ghost function OfferedFrom(free: Interval, cursor: int, duration: nat, step: nat, minSellable: nat): seq<Slot>
    requires step > 0
  {
    Offered(free, Cursors(cursor, free.end, duration, step), duration, minSellable)
  }

  ghost function RefusedFrom(free: Interval, cursor: int, duration: nat, step: nat, minSellable: nat): seq<Discard>
    requires step > 0
  {
    Refused(free, Cursors(cursor, free.end, duration, step), duration, minSellable)
  }

  lemma NextCursor(free: Interval, cursor: int, duration: nat, step: nat, minSellable: nat)
    requires step > 0 && cursor + duration <= free.end
    ensures var gap := LeavesUnsellableGap(free, cursor, duration, minSellable);
      && OfferedFrom(free, cursor, duration, step, minSellable)
           == (if gap then [] else [SlotAt(free, cursor, duration)]) + OfferedFrom(free, cursor + step, duration, step, minSellable)
      && RefusedFrom(free, cursor, duration, step, minSellable)
           == (if gap then [RefusalAt(free, cursor, duration)] else []) + RefusedFrom(free, cursor + step, duration, step, minSellable)
  {
    var now, next := Cursors(cursor, free.end, duration, step), Cursors(cursor + step, free.end, duration, step);
    assert now == [cursor] + next && now[1..] == next;
  }

  lemma OneMoreInterval(frees: seq<Interval>, i: nat, duration: nat, step: nat, minSellable: nat)
    requires step > 0 && i < |frees|
    ensures AllOffered(frees[..i + 1], duration, step, minSellable)
         == AllOffered(frees[..i], duration, step, minSellable)
            + Offered(frees[i], StartsIn(frees[i], duration, step), duration, minSellable)
    ensures AllDiscards(frees[..i + 1], duration, step, minSellable)
         == AllDiscards(frees[..i], duration, step, minSellable) + DiscardsIn(frees[i], duration, step, minSellable)
  {
    assert frees[..i + 1][..i] == frees[..i];
  }

  method BuildSlotsFromIntervals(intervals: seq<Interval>, duration: nat, step: nat,
                                 minSellable: nat, includeDiscarded: bool)
    returns (slots: seq<Slot>, discarded: seq<Discard>)
    requires step > 0
    ensures slots == AllOffered(intervals, duration, step, minSellable)
    ensures discarded == if includeDiscarded then AllDiscards(intervals, duration, step, minSellable) else []
  {
    slots, discarded := [], [];
    for i := 0 to |intervals|
      invariant slots == AllOffered(intervals[..i], duration, step, minSellable)
      invariant discarded == if includeDiscarded then AllDiscards(intervals[..i], duration, step, minSellable) else []
    {
      var free := intervals[i];
      OneMoreInterval(intervals, i, duration, step, minSellable);
      if DiffMinutes(free.start, free.end) < duration {
        if includeDiscarded { discarded := discarded + [DurationInsufficient(free, duration)]; }
        continue;
      }
      var found, refusals := FillInterval(free, duration, step, minSellable);
      slots := slots + found;
      if includeDiscarded { discarded := discarded + refusals; }
    }
    assert intervals[..|intervals|] == intervals;
  }

  function Spans(busy: seq<Busy>): seq<Interval> { seq(|busy|, i requires 0 <= i < |busy| => busy[i].span) }

  function OccupiedBy(busy: seq<Busy>): seq<Discard> { seq(|busy|, i requires 0 <= i < |busy| => Occupied(busy[i])) }

  datatype Floor = NoFloor | Floor(at: int)

  ghost function Sellable(free: seq<Interval>, floor: Floor): seq<Interval> {
    if floor.NoFloor? then free else Trimmed(free, floor.at)
  }

  ghost function DayDiscards(opening: seq<Interval>, sellable: seq<Interval>, schedules: seq<Schedule>,
                             busy: seq<Busy>, duration: nat, minSellable: nat): seq<Discard> {
    if opening == [] then [ResourceUnavailable(schedules != [])]
    else if sellable == [] then OccupiedBy(busy)
    else AllDiscards(sellable, duration, SLOT_INTERVAL_MINUTES, minSellable)
  }

  // ------------------------------------------- what must be offered on a day

  /** Open, outside every busy span whatever its source, and not before the floor. */
  ghost predicate FreeMinute(opening: seq<Interval>, busy: seq<Busy>, floor: Floor, p: int) {
    && Covers(opening, p) && (forall k :: 0 <= k < |busy| ==> !(busy[k].span.start <= p < busy[k].span.end))
    && (floor.Floor? ==> floor.at <= p)
  }

  /** A maximal stretch of free minutes. */
  ghost predicate FreeGap(opening: seq<Interval>, busy: seq<Busy>, floor: Floor, gap: Interval) {
    && gap.start < gap.end && (forall p :: gap.start <= p < gap.end ==> FreeMinute(opening, busy, floor, p))
    && !FreeMinute(opening, busy, floor, gap.start - 1) && !FreeMinute(opening, busy, floor, gap.end)
  }

  predicate Fits(gap: Interval, start: int, duration: nat) {
    gap.start <= start && start + duration <= gap.end && start % 5 == 0
  }

  /** Nothing left over, or enough to sell. */
  predicate KeepsSellable(residue: int, minSellable: nat) { residue == 0 || residue >= minSellable }

  ghost predicate MustOffer(opening: seq<Interval>, busy: seq<Busy>, floor: Floor, duration: nat, minSellable: nat, slot: Slot) {
    && FreeGap(opening, busy, floor, slot.free) && Fits(slot.free, slot.start, duration) && slot.end == slot.start + duration
    && slot.before == slot.start - slot.free.start && slot.after == slot.free.end - slot.end
    && KeepsSellable(slot.before, minSellable) && KeepsSellable(slot.after, minSellable)
  }

  /** A free gap shorter than the service, or a start in one that would strand a short rest. */
  ghost predicate MustDiscard(opening: seq<Interval>, busy: seq<Busy>, floor: Floor, duration: nat, minSellable: nat, d: Discard) {
    match d
    case DurationInsufficient(free, required) =>
      FreeGap(opening, busy, floor, free) && free.end - free.start < duration && required == duration
    case ResidualGap(free, start, end, before, after) =>
      && FreeGap(opening, busy, floor, free) && Fits(free, start, duration) && end == start + duration
      && before == start - free.start && after == free.end - end
      && !(KeepsSellable(before, minSellable) && KeepsSellable(after, minSellable))
    case _ => false
  }

  lemma SellableFacts(opening: seq<Interval>, busy: seq<Busy>, floor: Floor)
    requires Separated(opening)
    ensures var frees := Sellable(Subtracted(opening, Spans(busy)), floor);
      Separated(frees) && forall p :: Covers(frees, p) <==> FreeMinute(opening, busy, floor, p)
  {
    var free := Subtracted(opening, Spans(busy));
    SubtractedPoints(opening, Spans(busy));
    SubtractedNormal(opening, Spans(busy));
    if floor.Floor? {
      TrimmedPoints(free, floor.at);
      TrimmedNormal(free, floor.at);
    }
    forall p ensures Covers(Spans(busy), p) <==> exists k :: 0 <= k < |busy| && busy[k].span.start <= p < busy[k].span.end {
      if k :| 0 <= k < |busy| && busy[k].span.start <= p < busy[k].span.end { assert Has(Spans(busy)[k], p); }
    }
  }

  /** The free intervals of the pipeline are the free gaps. */
  lemma GapsExact(opening: seq<Interval>, busy: seq<Busy>, floor: Floor, frees: seq<Interval>, gap: Interval)
    requires Separated(frees) && forall p :: Covers(frees, p) <==> FreeMinute(opening, busy, floor, p)
    ensures FreeGap(opening, busy, floor, gap) <==> gap in frees
  {
    if FreeGap(opening, busy, floor, gap) {
      var k := MaximalStretch(frees, gap.start, gap.end);
    }
    if gap in frees {
      var k :| 0 <= k < |frees| && frees[k] == gap;
      EdgeUncovered(frees, k);
      EndUncovered(frees, k);
      forall p | gap.start <= p < gap.end ensures FreeMinute(opening, busy, floor, p) { assert Has(frees[k], p); }
    }
  }

  lemma FitsIsAligned(start: int)
    ensures Aligned(start, SLOT_INTERVAL_MINUTES) <==> start % 5 == 0
  {
    AlignedIsMultiple(start, SLOT_INTERVAL_MINUTES);
  }

  /** The offers of one free gap. */
  lemma GapOffers(free: Interval, duration: nat, minSellable: nat, slot: Slot)
    ensures OfferedBy(free, duration, SLOT_INTERVAL_MINUTES, minSellable, slot) <==>
      && slot.free == free && Fits(free, slot.start, duration) && slot.end == slot.start + duration
      && slot.before == slot.start - free.start && slot.after == free.end - slot.end
      && KeepsSellable(slot.before, minSellable) && KeepsSellable(slot.after, minSellable)
  {
    SlotGeneration(free, duration, SLOT_INTERVAL_MINUTES, minSellable);
    FitsIsAligned(slot.start);
  }

  lemma OffersExact(opening: seq<Interval>, busy: seq<Busy>, floor: Floor, duration: nat, minSellable: nat, slot: Slot)
    requires Separated(opening)
    ensures slot in AllOffered(Sellable(Subtracted(opening, Spans(busy)), floor), duration, SLOT_INTERVAL_MINUTES, minSellable)
       <==> MustOffer(opening, busy, floor, duration, minSellable, slot)
  {
    var frees := Sellable(Subtracted(opening, Spans(busy)), floor);
    SellableFacts(opening, busy, floor);
    GapsExact(opening, busy, floor, frees, slot.free);
    AllOfferedMember(frees, duration, SLOT_INTERVAL_MINUTES, minSellable, slot);
    forall k | 0 <= k < |frees|
      ensures OfferedBy(frees[k], duration, SLOT_INTERVAL_MINUTES, minSellable, slot) ==> slot.free == frees[k]
    {
      GapOffers(frees[k], duration, minSellable, slot);
    }
    GapOffers(slot.free, duration, minSellable, slot);
    if slot.free in frees {
      var k :| 0 <= k < |frees| && frees[k] == slot.free;
    }
  }

  ghost predicate Chronological(slots: seq<Slot>) {
    forall i, j :: 0 <= i < j < |slots| ==> slots[i].start < slots[j].start
  }

  lemma GapChronological(free: Interval, duration: nat, minSellable: nat)
    ensures Chronological(Offered(free, StartsIn(free, duration, SLOT_INTERVAL_MINUTES), duration, minSellable))
  {
    SlotGeneration(free, duration, SLOT_INTERVAL_MINUTES, minSellable);
    var slots := Offered(free, StartsIn(free, duration, SLOT_INTERVAL_MINUTES), duration, minSellable);
    forall i, j | 0 <= i < j < |slots| ensures slots[i].start < slots[j].start {
      assert Starts(slots)[i] < Starts(slots)[j];
    }
  }

  lemma JoinChronological(a: seq<Slot>, b: seq<Slot>, cut: int)
    requires Chronological(a) && Chronological(b)
    requires (forall i :: 0 <= i < |a| ==> a[i].start <= cut) && forall j :: 0 <= j < |b| ==> cut < b[j].start
    ensures Chronological(a + b)
  {
  }

  /** The whole list runs through the day. */
  lemma {:induction false} OffersChronological(frees: seq<Interval>, duration: nat, minSellable: nat)
    requires Separated(frees)
    ensures var all := AllOffered(frees, duration, SLOT_INTERVAL_MINUTES, minSellable);
      Chronological(all) && forall i :: 0 <= i < |all| ==> all[i].start <= frees[|frees| - 1].end
  {
    if frees != [] {
      var n := |frees| - 1;
      var init, last := frees[..n], frees[n];
      var before := AllOffered(init, duration, SLOT_INTERVAL_MINUTES, minSellable);
      var own := Offered(last, StartsIn(last, duration, SLOT_INTERVAL_MINUTES), duration, minSellable);
      OffersChronological(init, duration, minSellable);
      GapChronological(last, duration, minSellable);
      forall j | 0 <= j < |own| ensures last.start <= own[j].start <= last.end {
        GapOffers(last, duration, minSellable, own[j]);
        assert own[j] in own;
      }
      JoinChronological(before, own, if n > 0 then frees[n - 1].end else last.start - 1);
    }
  }

  lemma GapDiscards(free: Interval, duration: nat, minSellable: nat, d: Discard)
    requires free.start < free.end
    ensures d in DiscardsIn(free, duration, SLOT_INTERVAL_MINUTES, minSellable) <==>
      match d
      case DurationInsufficient(own, required) => own == free && free.end - free.start < duration && required == duration
      case ResidualGap(own, start, end, before, after) =>
        && own == free && Fits(free, start, duration) && end == start + duration
        && before == start - free.start && after == free.end - end
        && !(KeepsSellable(before, minSellable) && KeepsSellable(after, minSellable))
      case _ => false
  {
    var starts := StartsIn(free, duration, SLOT_INTERVAL_MINUTES);
    StartsExact(free, duration, SLOT_INTERVAL_MINUTES);
    RefusedExact(free, starts, duration, minSellable);
    if d.ResidualGap? { FitsIsAligned(d.start); }
  }

  predicate DiscardedBy(free: Interval, duration: nat, minSellable: nat, d: Discard) {
    d in DiscardsIn(free, duration, SLOT_INTERVAL_MINUTES, minSellable)
  }

  lemma {:induction false} AllDiscardsMember(frees: seq<Interval>, duration: nat, minSellable: nat, d: Discard)
    ensures d in AllDiscards(frees, duration, SLOT_INTERVAL_MINUTES, minSellable) <==>
      exists k :: 0 <= k < |frees| && DiscardedBy(frees[k], duration, minSellable, d)
  {
    if frees != [] {
      var n := |frees| - 1;
      var init := frees[..n];
      AllDiscardsMember(init, duration, minSellable, d);
      assert d in AllDiscards(frees, duration, SLOT_INTERVAL_MINUTES, minSellable) <==>
        d in AllDiscards(init, duration, SLOT_INTERVAL_MINUTES, minSellable) || DiscardedBy(frees[n], duration, minSellable, d);
      if k :| 0 <= k < n && DiscardedBy(init[k], duration, minSellable, d) {
        assert frees[k] == init[k];
      }
      if k :| 0 <= k < |frees| && DiscardedBy(frees[k], duration, minSellable, d) {
        assert k == n || frees[k] == init[k];
      }
    }
  }

  lemma DiscardsExact(opening: seq<Interval>, busy: seq<Busy>, floor: Floor, duration: nat, minSellable: nat, d: Discard)
    requires Separated(opening)
    ensures d in AllDiscards(Sellable(Subtracted(opening, Spans(busy)), floor), duration, SLOT_INTERVAL_MINUTES, minSellable)
       <==> MustDiscard(opening, busy, floor, duration, minSellable, d)
  {
    var frees := Sellable(Subtracted(opening, Spans(busy)), floor);
    SellableFacts(opening, busy, floor);
    AllDiscardsMember(frees, duration, minSellable, d);
    forall k | 0 <= k < |frees|
      ensures DiscardedBy(frees[k], duration, minSellable, d) ==> (d.DurationInsufficient? || d.ResidualGap?) && d.free == frees[k]
    {
      GapDiscards(frees[k], duration, minSellable, d);
    }
    if d.DurationInsufficient? || d.ResidualGap? {
      GapsExact(opening, busy, floor, frees, d.free);
      if d.free.start < d.free.end { GapDiscards(d.free, duration, minSellable, d); }
      if d.free in frees {
        var k :| 0 <= k < |frees| && frees[k] == d.free;
      }
    }
  }

  /** What the list of discards must be. */
  ghost predicate DiscardsRight(
    opening: seq<Interval>, schedules: seq<Schedule>, busy: seq<Busy>, floor: Floor, duration: nat, minSellable: nat,
    discarded: seq<Discard>)
  {
    if opening == [] then discarded == [ResourceUnavailable(schedules != [])]
    else if forall p :: !FreeMinute(opening, busy, floor, p) then
      |discarded| == |busy| && forall k :: 0 <= k < |busy| ==> discarded[k] == Occupied(busy[k])
    else forall d :: d in discarded <==> MustDiscard(opening, busy, floor, duration, minSellable, d)
  }

  lemma DayDiscardsRight(
    opening: seq<Interval>, schedules: seq<Schedule>, busy: seq<Busy>, floor: Floor, duration: nat, minSellable: nat)
    requires Separated(opening)
    ensures DiscardsRight(opening, schedules, busy, floor, duration, minSellable,
              DayDiscards(opening, Sellable(Subtracted(opening, Spans(busy)), floor), schedules, busy, duration, minSellable))
  {
    var frees := Sellable(Subtracted(opening, Spans(busy)), floor);
    SellableFacts(opening, busy, floor);
    if frees != [] {
      assert Has(frees[0], frees[0].start);
      assert Covers(frees, frees[0].start);
      assert FreeMinute(opening, busy, floor, frees[0].start);
    }
    forall d ensures d in AllDiscards(frees, duration, SLOT_INTERVAL_MINUTES, minSellable)
                <==> MustDiscard(opening, busy, floor, duration, minSellable, d) {
      DiscardsExact(opening, busy, floor, duration, minSellable, d);
    }
  }

  /** getAvailableSlotsForBarber once its rows are loaded; the floor is present only for today. */
  method GetAvailableSlots(schedules: seq<Schedule>, exceptions: seq<Exception>, busy: seq<Busy>,
                           floor: Floor, duration: nat, minSellable: nat, includeDiscardReasons: bool)
    returns (slots: seq<Slot>, discarded: seq<Discard>, ghost opening: seq<Interval>)
    ensures Separated(opening)
    ensures forall base: seq<Interval> ::
              (forall p :: Covers(base, p) <==> WorkedAt(schedules, p)) ==> IsAdjusted(opening, base, exceptions)
    ensures slots == AllOffered(Sellable(Subtracted(opening, Spans(busy)), floor), duration, SLOT_INTERVAL_MINUTES, minSellable)
    ensures !includeDiscardReasons ==> discarded == []
    ensures includeDiscardReasons ==>
              discarded == DayDiscards(opening, Sellable(Subtracted(opening, Spans(busy)), floor),
                                       schedules, busy, duration, minSellable)
    ensures Chronological(slots) && forall slot :: slot in slots <==> MustOffer(opening, busy, floor, duration, minSellable, slot)
    ensures includeDiscardReasons ==> DiscardsRight(opening, schedules, busy, floor, duration, minSellable, discarded)
  {
    var baseIntervals := BuildBaseIntervalsFromSchedules(schedules);
    var adjusted := ApplyBranchExceptionsToIntervals(baseIntervals, exceptions);
    opening := adjusted;
    forall base: seq<Interval> | forall p :: Covers(base, p) <==> WorkedAt(schedules, p)
      ensures IsAdjusted(adjusted, base, exceptions)
    {
      assert SamePoints(base, baseIntervals);
      assert forall p :: OpenAt(base, exceptions, p) <==> OpenAt(baseIntervals, exceptions, p);
    }
    DayIsRight(adjusted, schedules, busy, floor, duration, minSellable);
    if |adjusted| == 0 {
      SubtractedNothing(Spans(busy), floor);
      return [], if includeDiscardReasons then [ResourceUnavailable(|schedules| > 0)] else [], opening;
    }
    var free := SubtractIntervals(adjusted, Spans(busy));
    var sellable := free;
    if floor.Floor? { sellable := TrimIntervalsByMinimumStart(free, floor.at); }
    if |sellable| == 0 {
      return [], if includeDiscardReasons then OccupiedBy(busy) else [], opening;
    }
    slots, discarded := BuildSlotsFromIntervals(sellable, duration, SLOT_INTERVAL_MINUTES, minSellable, includeDiscardReasons);
  }

  lemma DayIsRight(
    opening: seq<Interval>, schedules: seq<Schedule>, busy: seq<Busy>, floor: Floor, duration: nat, minSellable: nat)
    requires Separated(opening)
    ensures var frees := Sellable(Subtracted(opening, Spans(busy)), floor);
      var all := AllOffered(frees, duration, SLOT_INTERVAL_MINUTES, minSellable);
      && Chronological(all) && (forall slot :: slot in all <==> MustOffer(opening, busy, floor, duration, minSellable, slot))
      && DiscardsRight(opening, schedules, busy, floor, duration, minSellable,
           DayDiscards(opening, frees, schedules, busy, duration, minSellable))
  {
    var frees := Sellable(Subtracted(opening, Spans(busy)), floor);
    SellableFacts(opening, busy, floor);
    OffersChronological(frees, duration, minSellable);
    forall slot ensures slot in AllOffered(frees, duration, SLOT_INTERVAL_MINUTES, minSellable)
                   <==> MustOffer(opening, busy, floor, duration, minSellable, slot) {
      OffersExact(opening, busy, floor, duration, minSellable, slot);
    }
    DayDiscardsRight(opening, schedules, busy, floor, duration, minSellable);
  }

  lemma SubtractedNothing(busy: seq<Interval>, floor: Floor)
    ensures Sellable(Subtracted([], busy), floor) == []
  {}
}
