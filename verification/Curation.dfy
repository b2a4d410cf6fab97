/** Ranking of offered slots and their curated exposure
    (src/services/agendaService.js:2767-3040). Scores are exact rationals. */
module Curation {
  import opened Intervals
  import opened Slots

  datatype Period = Manana | Tarde | Noche
  datatype Segment = Segment(period: Period, startMin: int, endMin: int)

  const SEGMENTS: seq<Segment> :=
    [Segment(Manana, 360, 720), Segment(Tarde, 720, 1080), Segment(Noche, 0, 360), Segment(Noche, 1080, 1440)]

  datatype DayStart = UnknownDayStart | DayStart(at: int)

  /** A slot as exposed, with the operational context attached when the slot has one. */
  datatype Candidate =
    | Bare(start: int, end: int)
    | InContext(start: int, end: int, free: Interval, before: int, after: int, dayStart: DayStart)

  datatype Membership = NoPeriod | Within(segment: Segment, startMin: int, endMin: int)

  datatype Entry = Entry(slot: Candidate, score: real, before: nat, after: nat)

  function FromSlot(slot: Slot, dayStart: DayStart): Candidate {
    InContext(slot.start, slot.end, slot.free, slot.before, slot.after, dayStart)
  }

  // ----------------------------------------------------------------- periods

  predicate Fits(segment: Segment, startMin: int, endMin: int) {
    segment.startMin <= startMin && endMin <= segment.endMin
  }

  /** resolveOperationalPeriodMembership: the end is unwrapped past midnight. */
  function MembershipOf(slot: Candidate): Membership {
    if slot.end <= slot.start then NoPeriod
    else
      var startMin := slot.start % MINUTES_PER_DAY;
      var dayOffset := slot.end / MINUTES_PER_DAY - slot.start / MINUTES_PER_DAY;
      var endMin := slot.end % MINUTES_PER_DAY + dayOffset * MINUTES_PER_DAY;
      if Fits(SEGMENTS[0], startMin, endMin) then Within(SEGMENTS[0], startMin, endMin)
      else if Fits(SEGMENTS[1], startMin, endMin) then Within(SEGMENTS[1], startMin, endMin)
      else if Fits(SEGMENTS[2], startMin, endMin) then Within(SEGMENTS[2], startMin, endMin)
      else if Fits(SEGMENTS[3], startMin, endMin) then Within(SEGMENTS[3], startMin, endMin)
      else NoPeriod
  }

  /** A slot belongs to a period iff one of the period's segments contains it whole, and
      to at most one period. */
  lemma MembershipExact(slot: Candidate)
    ensures forall i :: 0 <= i < |SEGMENTS| ==>
              ((MembershipOf(slot).Within? && MembershipOf(slot).segment == SEGMENTS[i])
               <==> slot.start < slot.end
                    && SEGMENTS[i].startMin <= slot.start % MINUTES_PER_DAY
                    && slot.start % MINUTES_PER_DAY + (slot.end - slot.start) <= SEGMENTS[i].endMin)
    ensures MembershipOf(slot).Within? ==>
              MembershipOf(slot).endMin == MembershipOf(slot).startMin + (slot.end - slot.start)
  {
    var day := MINUTES_PER_DAY;
    assert slot.start == (slot.start / day) * day + slot.start % day;
    assert slot.end == (slot.end / day) * day + slot.end % day;
  }

  // ------------------------------------------------------------------- score

  function BeforeOf(slot: Candidate, m: Membership): nat
    requires m.Within?
  {
    if slot.InContext? && slot.before >= 0 then slot.before else DiffMinutes(m.segment.startMin, m.startMin)
  }

  function AfterOf(slot: Candidate, m: Membership): nat
    requires m.Within?
  {
    if slot.InContext? && slot.after >= 0 then slot.after else DiffMinutes(m.endMin, m.segment.endMin)
  }

  /** The closing term: a clean close, else a capped bonus for a sellable leftover. */
  function ClosingBonus(after: nat, minSellable: nat): real {
    if after == 0 then 30.0
    else if after < minSellable then 0.0
    else if after >= 200 then 20.0
    else after as real / 10.0
  }

  function Penalty(applies: bool, amount: real): real { if applies then amount else 0.0 }

  /** Position of the gap in the day and of the slot in the gap. */
  function PlacePenalty(slot: Candidate): real {
    if slot.Bare? then 0.0
    else (if slot.dayStart.DayStart? then DiffMinutes(slot.dayStart.at, slot.free.start) as real else 0.0)
         + DiffMinutes(slot.free.start, slot.start) as real * 3.0
  }

  function Score(slot: Candidate, m: Membership, minSellable: nat): real
    requires m.Within?
  {
    var before, after := BeforeOf(slot, m), AfterOf(slot, m);
    (if before == 0 then 500.0 else 0.0) - before as real * 6.0
      + ClosingBonus(after, minSellable)
      - Penalty(Unsellable(before, minSellable), 400.0)
      - Penalty(Unsellable(after, minSellable), 400.0)
      - Penalty(before > 0 && after > 0, 12.0)
      - PlacePenalty(slot)
  }

  function Scored(slot: Candidate, m: Membership, minSellable: nat): Entry
    requires m.Within?
  {
    Entry(slot, Score(slot, m, minSellable), BeforeOf(slot, m), AfterOf(slot, m))
  }

  method ScoreSlotForCuratedPeriod(slot: Candidate, m: Membership, minSellable: nat) returns (entry: Entry)
    requires m.Within?
    ensures entry == Scored(slot, m, minSellable)
  {
    var before, after := BeforeOf(slot, m), AfterOf(slot, m);
    var score := 0.0;
    if Unsellable(before, minSellable) { score := score - 400.0; }
    if Unsellable(after, minSellable) { score := score - 400.0; }
    if before == 0 { score := score + 500.0; }
    score := score - before as real * 6.0;
    if after == 0 { score := score + 30.0; }
    if after >= minSellable && after > 0 {
      var tenth := after as real / 10.0;
      score := score + if tenth < 20.0 then tenth else 20.0;
    }
    if before > 0 && after > 0 { score := score - 12.0; }
    if slot.InContext? && slot.dayStart.DayStart? {
      score := score - DiffMinutes(slot.dayStart.at, slot.free.start) as real;
    }
    if slot.InContext? { score := score - DiffMinutes(slot.free.start, slot.start) as real * 3.0; }
    entry := Entry(slot, score, before, after);
  }

  /** Inside one free gap an earlier offered slot scores strictly higher. */
  lemma EarlierScoresHigher(free: Interval, duration: nat, minSellable: nat, dayStart: DayStart, a: Slot, b: Slot)
    requires var offers := Offered(free, StartsIn(free, duration, SLOT_INTERVAL_MINUTES), duration, minSellable);
             a in offers && b in offers
    requires a.start < b.start
    requires MembershipOf(FromSlot(a, dayStart)).Within? && MembershipOf(FromSlot(b, dayStart)).Within?
    ensures var x, y := FromSlot(a, dayStart), FromSlot(b, dayStart);
            Score(x, MembershipOf(x), minSellable) > Score(y, MembershipOf(y), minSellable)
  {
    SlotGeneration(free, duration, SLOT_INTERVAL_MINUTES, minSellable);
    AlignedIsMultiple(a.start, SLOT_INTERVAL_MINUTES);
    AlignedIsMultiple(b.start, SLOT_INTERVAL_MINUTES);
    MultiplesApart(a.start, b.start, SLOT_INTERVAL_MINUTES);
    var gap := b.start - a.start;
    assert b.before == a.before + gap && a.after == b.after + gap && gap >= 5;
    ClosingTrade(a.after, b.after, a.before, minSellable);
  }

  /** What a later slot can gain by closing the gap better is less than nine per minute. */
  lemma ClosingTrade(afterA: nat, afterB: nat, beforeA: nat, minSellable: nat)
    requires afterA >= afterB + 5
    requires !Unsellable(afterA, minSellable) && !Unsellable(afterB, minSellable)
    ensures ClosingBonus(afterB, minSellable) - Penalty(afterB > 0, 12.0) - 45.0
          < ClosingBonus(afterA, minSellable) - Penalty(afterA > 0, 12.0)
    ensures ClosingBonus(afterB, minSellable) - 45.0 < ClosingBonus(afterA, minSellable)
  {
    assert afterA as real >= 5.0;
  }

  /** What closing its gap well is worth to an offer: 30 for a clean close, else a tenth of the
      minutes left, at most 20. */
  function CloseWorth(left: int): real {
    if left == 0 then 30.0 else if left < 200 then left as real / 10.0 else 20.0
  }

  predicate OfferIn(free: Interval, duration: nat, minSellable: nat, s: Slot) {
    s in Offered(free, StartsIn(free, duration, SLOT_INTERVAL_MINUTES), duration, minSellable)
  }

  /** The score of an offer on a day that starts at `day`: nine per minute into its gap and one
      per minute the gap opens after the day, both lost; 500 for the left edge; the worth of the
      close; and twelve lost in the middle of the gap. No offer carries a residue penalty. */
  lemma OfferScore(free: Interval, duration: nat, minSellable: nat, day: int, s: Slot)
    requires OfferIn(free, duration, minSellable, s) && free.start >= day
    requires MembershipOf(FromSlot(s, DayStart(day))).Within?
    ensures var x := FromSlot(s, DayStart(day));
      Score(x, MembershipOf(x), minSellable)
        == (if s.start == free.start then 500.0 else 0.0) - 9.0 * (s.start - free.start) as real - (free.start - day) as real
           + CloseWorth(free.end - s.end) - (if s.start > free.start && s.end < free.end then 12.0 else 0.0)
  {
    SlotGeneration(free, duration, SLOT_INTERVAL_MINUTES, minSellable);
  }

  /** Between offers at the left edges of two gaps the earlier gap wins exactly when it opens
      earlier by more than the later one gains at its close. */
  lemma EarlierGapFirstIff(
    first: Interval, second: Interval, duration: nat, minSellable: nat, day: int, a: Slot, b: Slot)
    requires OfferIn(first, duration, minSellable, a) && OfferIn(second, duration, minSellable, b)
    requires day <= first.start == a.start < second.start == b.start
    requires MembershipOf(FromSlot(a, DayStart(day))).Within? && MembershipOf(FromSlot(b, DayStart(day))).Within?
    ensures var x, y := FromSlot(a, DayStart(day)), FromSlot(b, DayStart(day));
      && (Score(x, MembershipOf(x), minSellable) > Score(y, MembershipOf(y), minSellable)
          <==> (second.start - first.start) as real > CloseWorth(second.end - b.end) - CloseWorth(first.end - a.end))
      && (second.start - first.start > 30 ==> Score(x, MembershipOf(x), minSellable) > Score(y, MembershipOf(y), minSellable))
  {
    OfferScore(first, duration, minSellable, day, a);
    OfferScore(second, duration, minSellable, day, b);
    SlotGeneration(first, duration, SLOT_INTERVAL_MINUTES, minSellable);
    SlotGeneration(second, duration, SLOT_INTERVAL_MINUTES, minSellable);
    assert 0.0 <= CloseWorth(first.end - a.end) <= 30.0 && 0.0 <= CloseWorth(second.end - b.end) <= 30.0;
  }

  lemma MorningEdgeOffer(free: Interval, duration: nat, minSellable: nat, day: int)
    requires 360 <= free.start && 0 < duration && free.start + duration <= 720 && free.start % 5 == 0
    requires free.start + duration <= free.end && !Unsellable(free.end - free.start - duration, minSellable)
    ensures OfferIn(free, duration, minSellable, SlotAt(free, free.start, duration))
    ensures MembershipOf(FromSlot(SlotAt(free, free.start, duration), DayStart(day))).Within?
  {
    AlignedIsMultiple(free.start, SLOT_INTERVAL_MINUTES);
    SlotGeneration(free, duration, SLOT_INTERVAL_MINUTES, minSellable);
  }

  /** So the gap that opens earlier is not always first: a visit of fifteen minutes at 9:00 that
      leaves five behind it ranks below one that fills its gap at 9:25. */
  lemma EarlierGapLoses(first: Interval, second: Interval)
    requires first == Interval(540, 560) && second == Interval(565, 580)
    ensures var a, b := SlotAt(first, 540, 15), SlotAt(second, 565, 15);
      && OfferIn(first, 15, 5, a) && OfferIn(second, 15, 5, b)
      && var x, y := FromSlot(a, DayStart(540)), FromSlot(b, DayStart(540));
         MembershipOf(x).Within? && MembershipOf(y).Within? && Score(x, MembershipOf(x), 5) < Score(y, MembershipOf(y), 5)
  {
    MorningEdgeOffer(first, 15, 5, 540);
    MorningEdgeOffer(second, 15, 5, 540);
    OfferScore(first, 15, 5, 540, SlotAt(first, 540, 15));
    OfferScore(second, 15, 5, 540, SlotAt(second, 565, 15));
  }

  // ----------------------------------------------------------------- ranking

  /** Higher score first; equal scores by clock time of the start. */
  predicate RanksBefore(a: Entry, b: Entry) {
    a.score > b.score
    || (a.score == b.score && a.slot.start % MINUTES_PER_DAY <= b.slot.start % MINUTES_PER_DAY)
  }

  predicate Ranked(entries: seq<Entry>) {
    forall i, j :: 0 <= i < j < |entries| ==> RanksBefore(entries[i], entries[j])
  }

  function InsertRanked(e: Entry, entries: seq<Entry>): (r: seq<Entry>)
    ensures multiset(r) == multiset([e] + entries)
  {
    if entries == [] || !RanksBefore(entries[0], e) then [e] + entries
    else
      assert entries == [entries[0]] + entries[1..];
      [entries[0]] + InsertRanked(e, entries[1..])
  }

  /** The stable library sort with the ranking comparator. */
  function SortRanked(entries: seq<Entry>): (r: seq<Entry>)
    ensures multiset(r) == multiset(entries)
  {
    if entries == [] then []
    else
      assert entries == entries[..|entries| - 1] + [entries[|entries| - 1]];
      InsertRanked(entries[|entries| - 1], SortRanked(entries[..|entries| - 1]))
  }

  lemma {:induction false} InsertRankedOrdered(e: Entry, entries: seq<Entry>)
    requires Ranked(entries)
    ensures Ranked(InsertRanked(e, entries))
  {
    if entries != [] && RanksBefore(entries[0], e) {
      InsertRankedOrdered(e, entries[1..]);
      var r := InsertRanked(e, entries[1..]);
      forall j | 0 <= j < |r| ensures RanksBefore(entries[0], r[j]) {
        InsertedOrOld(e, entries[1..], r[j]);
      }
      RankedCons(entries[0], r);
    }
  }

  lemma InsertedOrOld(e: Entry, entries: seq<Entry>, x: Entry)
    requires x in InsertRanked(e, entries)
    ensures x == e || x in entries
  {
    assert x in multiset(InsertRanked(e, entries));
    assert x in [e] + entries;
  }

  lemma RankedCons(e: Entry, entries: seq<Entry>)
    requires Ranked(entries) && forall j :: 0 <= j < |entries| ==> RanksBefore(e, entries[j])
    ensures Ranked([e] + entries)
  {
  }

  lemma {:induction false} SortRankedOrdered(entries: seq<Entry>)
    ensures Ranked(SortRanked(entries))
  {
    if entries != [] {
      SortRankedOrdered(entries[..|entries| - 1]);
      InsertRankedOrdered(entries[|entries| - 1], SortRanked(entries[..|entries| - 1]));
    }
  }

  /** The slot scored for the period, when it belongs to it. */
  function Member(slot: Candidate, period: Period, minSellable: nat): seq<Entry> {
    var m := MembershipOf(slot);
    if m.Within? && m.segment.period == period then [Scored(slot, m, minSellable)] else []
  }

  /** The scored slots of one period, in input order. */
  function Members(slots: seq<Candidate>, period: Period, minSellable: nat): seq<Entry> {
    if slots == [] then []
    else
      Members(slots[..|slots| - 1], period, minSellable) + Member(slots[|slots| - 1], period, minSellable)
  }

  datatype ByPeriod<T> = ByPeriod(manana: T, tarde: T, noche: T)

  function Ranking(slots: seq<Candidate>, period: Period, minSellable: nat): seq<Entry> {
    SortRanked(Members(slots, period, minSellable))
  }

  lemma MembersSnoc(slots: seq<Candidate>, i: nat, period: Period, minSellable: nat)
    requires i < |slots|
    ensures Members(slots[..i + 1], period, minSellable)
         == Members(slots[..i], period, minSellable) + Member(slots[i], period, minSellable)
  {
    assert slots[..i + 1][..i] == slots[..i];
  }

  /** The grouping loop: each slot goes to the list of its own period. */
  method GroupByPeriod(slots: seq<Candidate>, minSellable: nat)
    returns (manana: seq<Entry>, tarde: seq<Entry>, noche: seq<Entry>)
    ensures manana == Members(slots, Manana, minSellable)
    ensures tarde == Members(slots, Tarde, minSellable)
    ensures noche == Members(slots, Noche, minSellable)
  {
    manana, tarde, noche := [], [], [];
    for i := 0 to |slots|
      invariant manana == Members(slots[..i], Manana, minSellable)
      invariant tarde == Members(slots[..i], Tarde, minSellable)
      invariant noche == Members(slots[..i], Noche, minSellable)
    {
      MembersSnoc(slots, i, Manana, minSellable);
      MembersSnoc(slots, i, Tarde, minSellable);
      MembersSnoc(slots, i, Noche, minSellable);
      var m := MembershipOf(slots[i]);
      if m.NoPeriod? { continue; }
      var entry := ScoreSlotForCuratedPeriod(slots[i], m, minSellable);
      match m.segment.period
      case Manana => manana := manana + [entry];
      case Tarde => tarde := tarde + [entry];
      case Noche => noche := noche + [entry];
    }
    assert slots[..|slots|] == slots;
  }

  method BuildCuratedRankingByPeriod(slots: seq<Candidate>, minSellable: nat) returns (grouped: ByPeriod<seq<Entry>>)
    ensures grouped.manana == Ranking(slots, Manana, minSellable)
    ensures grouped.tarde == Ranking(slots, Tarde, minSellable)
    ensures grouped.noche == Ranking(slots, Noche, minSellable)
    ensures Ranked(grouped.manana) && Ranked(grouped.tarde) && Ranked(grouped.noche)
  {
    var manana, tarde, noche := GroupByPeriod(slots, minSellable);
    SortRankedOrdered(manana);
    SortRankedOrdered(tarde);
    SortRankedOrdered(noche);
    grouped := ByPeriod(SortRanked(manana), SortRanked(tarde), SortRanked(noche));
  }

  lemma {:induction false} MembersOrigin(slots: seq<Candidate>, period: Period, minSellable: nat, e: Entry)
    requires e in Members(slots, period, minSellable)
    ensures e.slot in slots && MembershipOf(e.slot).Within? && e == Scored(e.slot, MembershipOf(e.slot), minSellable)
    ensures MembershipOf(e.slot).segment.period == period
  {
    if slots != [] && e in Members(slots[..|slots| - 1], period, minSellable) {
      MembersOrigin(slots[..|slots| - 1], period, minSellable, e);
    }
  }

  /** All the candidates are offers of one free gap. */
  ghost predicate OneGap(slots: seq<Candidate>, free: Interval, duration: nat, minSellable: nat, dayStart: DayStart) {
    forall c :: c in slots ==>
      exists s :: s in Offered(free, StartsIn(free, duration, SLOT_INTERVAL_MINUTES), duration, minSellable) && c == FromSlot(s, dayStart)
  }

  /** The ranking of a single gap is chronological: nothing ranked later starts earlier,
      so the head of each period is the earliest offer of the gap in that period. */
  lemma SingleGapChronological(slots: seq<Candidate>, free: Interval, duration: nat, minSellable: nat,
                               dayStart: DayStart, period: Period)
    requires OneGap(slots, free, duration, minSellable, dayStart)
    ensures var ranked := SortRanked(Members(slots, period, minSellable));
            forall i, j :: 0 <= i < j < |ranked| ==> ranked[i].slot.start <= ranked[j].slot.start
  {
    var members := Members(slots, period, minSellable);
    var ranked := SortRanked(members);
    SortRankedOrdered(members);
    forall i, j | 0 <= i < j < |ranked| ensures ranked[i].slot.start <= ranked[j].slot.start {
      assert ranked[i] in multiset(ranked) && ranked[j] in multiset(ranked);
      MembersOrigin(slots, period, minSellable, ranked[i]);
      MembersOrigin(slots, period, minSellable, ranked[j]);
      var offers := Offered(free, StartsIn(free, duration, SLOT_INTERVAL_MINUTES), duration, minSellable);
      var a :| a in offers && ranked[i].slot == FromSlot(a, dayStart);
      var b :| b in offers && ranked[j].slot == FromSlot(b, dayStart);
      if b.start < a.start {
        EarlierScoresHigher(free, duration, minSellable, dayStart, b, a);
      }
    }
  }

  // ---------------------------------------------------------------- exposure

  predicate Eligible(e: Entry, minSellable: nat) {
    !Unsellable(e.before, minSellable) && !Unsellable(e.after, minSellable)
  }

  function EligibleOnly(entries: seq<Entry>, minSellable: nat): seq<Candidate> {
    if entries == [] then []
    else (if Eligible(entries[0], minSellable) then [entries[0].slot] else []) + EligibleOnly(entries[1..], minSellable)
  }

  function Distance(a: int, b: int): nat { if a < b then b - a else a - b }

  /** No chosen slot starts within the spacing of the candidate. */
  predicate Spaced(chosen: seq<Candidate>, c: Candidate, spacing: nat) {
    forall k :: 0 <= k < |chosen| ==> Distance(c.start, chosen[k].start) >= spacing
  }

  datatype Exposure = Exposure(recommended: seq<Candidate>, alternatives: seq<Candidate>, overflow: seq<Candidate>)

  function Shown(x: Exposure): seq<Candidate> { x.recommended + x.alternatives }

  /** One candidate after the recommended one. */
  function Place(x: Exposure, c: Candidate, limit: nat, spacing: nat): Exposure {
    if |x.alternatives| < limit && Spaced(Shown(x), c, spacing)
      then x.(alternatives := x.alternatives + [c])
    else x.(overflow := x.overflow + [c])
  }

  function Expose(ordered: seq<Candidate>, limit: nat, spacing: nat): Exposure {
    if ordered == [] then Exposure([], [], [])
    else if |ordered| == 1 then Exposure(ordered, [], [])
    else Place(Expose(ordered[..|ordered| - 1], limit, spacing), ordered[|ordered| - 1], limit, spacing)
  }

  method HasMinSpacingFromSelected(selected: seq<Candidate>, candidate: Candidate, spacing: nat) returns (ok: bool)
    ensures ok <==> Spaced(selected, candidate, spacing)
  {
    if spacing <= 0 { return true; }
    for k := 0 to |selected|
      invariant forall j :: 0 <= j < k ==> Distance(candidate.start, selected[j].start) >= spacing
    {
      if Distance(candidate.start, selected[k].start) < spacing { return false; }
    }
    ok := true;
  }

  method ExposePeriod(ordered: seq<Candidate>, limit: nat, spacing: nat) returns (x: Exposure)
    ensures x == Expose(ordered, limit, spacing)
  {
    if |ordered| == 0 { return Exposure([], [], []); }
    var recommended := ordered[0];
    var alternatives, overflow, selected := [], [], [recommended];
    assert ordered[..1] == [recommended];
    for i := 1 to |ordered|
      invariant Exposure([recommended], alternatives, overflow) == Expose(ordered[..i], limit, spacing)
      invariant selected == [recommended] + alternatives
    {
      var candidate := ordered[i];
      assert ordered[..i + 1][..i] == ordered[..i];
      var hasSpacing := HasMinSpacingFromSelected(selected, candidate, spacing);
      if |alternatives| < limit && hasSpacing {
        alternatives := alternatives + [candidate];
        selected := selected + [candidate];
        continue;
      }
      overflow := overflow + [candidate];
    }
    assert ordered[..|ordered|] == ordered;
    x := Exposure([recommended], alternatives, overflow);
  }

  lemma PlaceKeepsAll(x: Exposure, c: Candidate, limit: nat, spacing: nat)
    ensures var y := Place(x, c, limit, spacing);
            multiset(Shown(y) + y.overflow) == multiset(Shown(x) + x.overflow) + multiset{c}
  {
    var y := Place(x, c, limit, spacing);
    assert multiset(Shown(y) + y.overflow) == multiset(y.recommended) + multiset(y.alternatives) + multiset(y.overflow);
  }

  lemma PlaceExtends(x: Exposure, init: seq<Candidate>, last: Candidate, limit: nat, spacing: nat)
    requires multiset(Shown(x) + x.overflow) == multiset(init)
    ensures var y := Place(x, last, limit, spacing); multiset(Shown(y) + y.overflow) == multiset(init + [last])
  {
    PlaceKeepsAll(x, last, limit, spacing);
  }

  lemma LastPlaced(ordered: seq<Candidate>, limit: nat, spacing: nat)
    requires |ordered| >= 2
    ensures var n := |ordered| - 1;
      ordered[..n] + [ordered[n]] == ordered && Expose(ordered, limit, spacing) == Place(Expose(ordered[..n], limit, spacing), ordered[n], limit, spacing)
  {
  }

  lemma {:induction false} ExposureKeepsAll(ordered: seq<Candidate>, limit: nat, spacing: nat)
    ensures var x := Expose(ordered, limit, spacing); multiset(Shown(x) + x.overflow) == multiset(ordered)
  {
    if |ordered| >= 2 {
      var init, last := ordered[..|ordered| - 1], ordered[|ordered| - 1];
      ExposureKeepsAll(init, limit, spacing);
      PlaceExtends(Expose(init, limit, spacing), init, last, limit, spacing);
      LastPlaced(ordered, limit, spacing);
    } else if |ordered| == 1 {
      assert (ordered + []) + [] == ordered;
    } else {
      assert ([] + []) + [] == ordered;
    }
  }

  lemma {:induction false} ExposureHead(ordered: seq<Candidate>, limit: nat, spacing: nat)
    ensures var x := Expose(ordered, limit, spacing);
      x.recommended == ordered[..if |ordered| > 0 then 1 else 0] && |x.alternatives| <= limit
  {
    if |ordered| >= 2 {
      var init := ordered[..|ordered| - 1];
      ExposureHead(init, limit, spacing);
      assert init[..1] == ordered[..1];
    } else if |ordered| == 1 {
      assert ordered[..1] == ordered;
    } else {
      assert ordered[..0] == [];
    }
  }

  /** Nothing is lost or invented, and the first of the ranking is the recommended one. */
  lemma ExposurePartitions(ordered: seq<Candidate>, limit: nat, spacing: nat)
    ensures var x := Expose(ordered, limit, spacing);
            && multiset(Shown(x) + x.overflow) == multiset(ordered)
            && x.recommended == ordered[..if |ordered| > 0 then 1 else 0]
            && |x.alternatives| <= limit
  {
    ExposureKeepsAll(ordered, limit, spacing);
    ExposureHead(ordered, limit, spacing);
  }

  ghost predicate PairwiseSpaced(shown: seq<Candidate>, spacing: nat) {
    forall i, j :: 0 <= i < j < |shown| ==> shown[i].start + spacing <= shown[j].start || shown[j].start + spacing <= shown[i].start
  }

  lemma AppendSpaced(shown: seq<Candidate>, c: Candidate, spacing: nat)
    requires PairwiseSpaced(shown, spacing) && Spaced(shown, c, spacing)
    ensures PairwiseSpaced(shown + [c], spacing)
  {
    var all := shown + [c];
    forall i, j | 0 <= i < j < |all|
      ensures all[i].start + spacing <= all[j].start || all[j].start + spacing <= all[i].start
    {
      assert all[i] == shown[i];
      if j < |shown| { assert all[j] == shown[j]; }
    }
  }

  /** Shown slots are pairwise at least the spacing apart. */
  lemma {:induction false} ShownAreSpaced(ordered: seq<Candidate>, limit: nat, spacing: nat)
    ensures PairwiseSpaced(Shown(Expose(ordered, limit, spacing)), spacing)
  {
    if |ordered| >= 2 {
      var init, last := ordered[..|ordered| - 1], ordered[|ordered| - 1];
      ShownAreSpaced(init, limit, spacing);
      var y, x := Expose(init, limit, spacing), Expose(ordered, limit, spacing);
      if |x.alternatives| > |y.alternatives| {
        assert Shown(x) == Shown(y) + [last];
        AppendSpaced(Shown(y), last, spacing);
      } else {
        assert Shown(x) == Shown(y);
      }
    }
  }

  /** Alternatives and overflow keep the ranking order: both are subsequences of it. */
  ghost predicate Subsequence(part: seq<Candidate>, whole: seq<Candidate>, at: seq<nat>) {
    && |at| == |part|
    && (forall i :: 0 <= i < |at| ==> at[i] < |whole| && part[i] == whole[at[i]])
    && (forall i, j :: 0 <= i < j < |at| ==> at[i] < at[j])
  }

  /** When its turn came, the i-th slot of the ranking met a full list, or a slot already shown
      that is too close. */
  predicate MetNoPlace(ordered: seq<Candidate>, i: nat, limit: nat, spacing: nat)
    requires i < |ordered|
  {
    var met := Expose(ordered[..i], limit, spacing);
    || |met.alternatives| >= limit
    || exists k :: 0 <= k < |Shown(met)|
         && ordered[i].start < Shown(met)[k].start + spacing && Shown(met)[k].start < ordered[i].start + spacing
  }

  /** What was shown at a slot's turn stays shown. */
  lemma {:induction false} ShownStays(ordered: seq<Candidate>, i: nat, limit: nat, spacing: nat)
    requires i <= |ordered|
    ensures Shown(Expose(ordered[..i], limit, spacing)) <= Shown(Expose(ordered, limit, spacing))
    decreases |ordered| - i
  {
    if i < |ordered| {
      ShownStays(ordered, i + 1, limit, spacing);
      ShownGrows(ordered[..i + 1], limit, spacing);
      assert ordered[..i + 1][..i] == ordered[..i];
    } else {
      assert ordered[..i] == ordered;
    }
  }

  lemma ShownGrows(ordered: seq<Candidate>, limit: nat, spacing: nat)
    requires |ordered| > 0
    ensures Shown(Expose(ordered[..|ordered| - 1], limit, spacing)) <= Shown(Expose(ordered, limit, spacing))
  {
    if |ordered| == 1 { assert ordered[..0] == []; }
  }

  lemma {:induction false} ExposureKeepsOrder(ordered: seq<Candidate>, limit: nat, spacing: nat)
    returns (shownAt: seq<nat>, overflowAt: seq<nat>)
    ensures var x := Expose(ordered, limit, spacing);
            Subsequence(Shown(x), ordered, shownAt) && Subsequence(x.overflow, ordered, overflowAt)
    ensures forall i :: i in shownAt ==> i !in overflowAt
  {
    if |ordered| <= 1 {
      shownAt, overflowAt := seq(|ordered|, i => i), [];
    } else {
      var n := |ordered| - 1;
      shownAt, overflowAt := ExposureKeepsOrder(ordered[..n], limit, spacing);
      var y, x := Expose(ordered[..n], limit, spacing), Expose(ordered, limit, spacing);
      if |x.alternatives| > |y.alternatives| {
        assert Shown(x) == Shown(y) + [ordered[n]];
        shownAt := shownAt + [n];
      } else {
        overflowAt := overflowAt + [n];
      }
    }
  }

  lemma {:induction false} OverflowPositions(ordered: seq<Candidate>, limit: nat, spacing: nat) returns (at: seq<nat>)
    ensures Subsequence(Expose(ordered, limit, spacing).overflow, ordered, at)
    ensures forall i: nat :: 1 <= i < |ordered| ==> (i in at <==> MetNoPlace(ordered, i, limit, spacing))
    ensures 0 !in at
  {
    at := [];
    if |ordered| >= 2 {
      var n := |ordered| - 1;
      at := OverflowPositions(ordered[..n], limit, spacing);
      forall i: nat | 1 <= i < n ensures MetNoPlace(ordered, i, limit, spacing) <==> MetNoPlace(ordered[..n], i, limit, spacing) {
        assert ordered[..n][..i] == ordered[..i];
      }
      if MetNoPlace(ordered, n, limit, spacing) {
        at := at + [n];
      }
    }
  }

  /** The slots after the first that land in the overflow are exactly those that met no place
      at their turn, in the order of the ranking; what was shown at that turn stays shown. */
  lemma OverflowHasReason(ordered: seq<Candidate>, limit: nat, spacing: nat) returns (at: seq<nat>)
    ensures Subsequence(Expose(ordered, limit, spacing).overflow, ordered, at)
    ensures forall i: nat :: 1 <= i < |ordered| ==> (i in at <==> MetNoPlace(ordered, i, limit, spacing))
    ensures 0 !in at
    ensures forall i: nat :: i < |ordered| ==> Shown(Expose(ordered[..i], limit, spacing)) <= Shown(Expose(ordered, limit, spacing))
  {
    at := OverflowPositions(ordered, limit, spacing);
    forall i: nat | i < |ordered| ensures Shown(Expose(ordered[..i], limit, spacing)) <= Shown(Expose(ordered, limit, spacing)) {
      ShownStays(ordered, i, limit, spacing);
    }
  }

  function SafeLimit(requested: int): nat { if requested == 0 || requested >= 3 then 3 else 2 }

  function Clamp(requested: int): nat { if requested < 0 then 0 else requested }

  datatype PeriodView = PeriodView(exposure: Exposure, hasMore: bool, total: nat)

  /** What a period's view must be, from the raw slots. */
  ghost predicate IsView(view: PeriodView, slots: seq<Candidate>, period: Period, minimum: nat, limit: nat, spacing: nat) {
    var ordered := EligibleOnly(Ranking(slots, period, minimum), minimum);
    && view.exposure == Expose(ordered, limit, spacing)
    && (view.hasMore <==> view.exposure.overflow != [])
    && view.total == |ordered|
  }

  method BuildCuratedSlotExposure(slots: seq<Candidate>, alternativesLimit: int, minSellable: int, alternativeSpacing: int)
    returns (periods: ByPeriod<PeriodView>)
    ensures IsView(periods.manana, slots, Manana, Clamp(minSellable), SafeLimit(alternativesLimit), Clamp(alternativeSpacing))
    ensures IsView(periods.tarde, slots, Tarde, Clamp(minSellable), SafeLimit(alternativesLimit), Clamp(alternativeSpacing))
    ensures IsView(periods.noche, slots, Noche, Clamp(minSellable), SafeLimit(alternativesLimit), Clamp(alternativeSpacing))
  {
    var limit, minimum, spacing := SafeLimit(alternativesLimit), Clamp(minSellable), Clamp(alternativeSpacing);
    var ranking := BuildCuratedRankingByPeriod(slots, minimum);
    var manana := ViewPeriod(EligibleOnly(ranking.manana, minimum), limit, spacing);
    var tarde := ViewPeriod(EligibleOnly(ranking.tarde, minimum), limit, spacing);
    var noche := ViewPeriod(EligibleOnly(ranking.noche, minimum), limit, spacing);
    periods := ByPeriod(manana, tarde, noche);
  }

  method ViewPeriod(ordered: seq<Candidate>, limit: nat, spacing: nat) returns (view: PeriodView)
    ensures view.exposure == Expose(ordered, limit, spacing)
    ensures view.hasMore <==> view.exposure.overflow != []
    ensures view.total == |ordered|
  {
    var x := ExposePeriod(ordered, limit, spacing);
    ExposurePartitions(ordered, limit, spacing);
    assert |multiset(Shown(x) + x.overflow)| == |multiset(ordered)|;
    view := PeriodView(x, |x.overflow| > 0, |x.recommended| + |x.alternatives| + |x.overflow|);
  }
}
