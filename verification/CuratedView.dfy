/** What the curated exposure of a period shows, told from the slots alone
    (src/services/agendaService.js:2802-3040). */
module CuratedView {
  import opened Intervals
  import opened Slots
  import opened Curation

  /** The slot lies whole inside this segment of its day. */
  predicate Inside(c: Candidate, segment: Segment) {
    c.start < c.end && segment.startMin <= c.start % 1440 && c.start % 1440 + (c.end - c.start) <= segment.endMin
  }

  /** What it leaves before and after, in its free gap when that is known, else in the segment,
      is nothing or enough to sell. */
  predicate LeavesSellable(c: Candidate, segment: Segment, minimum: nat) {
    var before := if c.InContext? && c.before >= 0 then c.before else c.start % 1440 - segment.startMin;
    var after := if c.InContext? && c.after >= 0 then c.after else segment.endMin - c.start % 1440 - (c.end - c.start);
    KeepsSellable(before, minimum) && KeepsSellable(after, minimum)
  }

  predicate Exposable(c: Candidate, period: Period, minimum: nat) {
    exists i :: 0 <= i < |SEGMENTS| && SEGMENTS[i].period == period && Inside(c, SEGMENTS[i]) && LeavesSellable(c, SEGMENTS[i], minimum)
  }

  lemma SegmentOf(c: Candidate, i: nat)
    requires i < |SEGMENTS|
    ensures Inside(c, SEGMENTS[i]) <==> MembershipOf(c).Within? && MembershipOf(c).segment == SEGMENTS[i]
  {
    MembershipExact(c);
  }

  lemma SomeSegment(c: Candidate) returns (i: nat)
    requires MembershipOf(c).Within?
    ensures i < |SEGMENTS| && MembershipOf(c).segment == SEGMENTS[i]
  {
    i :| 0 <= i < 4 && MembershipOf(c).segment == SEGMENTS[i];
  }

  /** Morning runs from 6:00 to 12:00, afternoon to 18:00, night to midnight and again to 6:00; a
      slot that crosses a bound belongs to no period. */
  lemma PeriodIs(c: Candidate)
    requires c.start < c.end
    ensures var m, from, to := MembershipOf(c), c.start % 1440, c.start % 1440 + (c.end - c.start);
      && (m.Within? && m.segment.period == Manana <==> 360 <= from && to <= 720)
      && (m.Within? && m.segment.period == Tarde <==> 720 <= from && to <= 1080)
      && (m.Within? && m.segment.period == Noche <==> to <= 360 || (1080 <= from && to <= 1440))
  {
    MembershipExact(c);
    if MembershipOf(c).Within? { var i := SomeSegment(c); }
  }

  lemma EligibleMeans(c: Candidate, minimum: nat)
    requires MembershipOf(c).Within?
    ensures Eligible(Scored(c, MembershipOf(c), minimum), minimum) <==> LeavesSellable(c, MembershipOf(c).segment, minimum)
  {
    var i := SomeSegment(c);
    SegmentOf(c, i);
    MembershipExact(c);
  }

  /** The slot belongs to the period and its entry there is eligible. */
  predicate Kept(c: Candidate, period: Period, minimum: nat) {
    var m := MembershipOf(c);
    m.Within? && m.segment.period == period && Eligible(Scored(c, m, minimum), minimum)
  }

  lemma KeptIff(c: Candidate, period: Period, minimum: nat)
    ensures Kept(c, period, minimum) <==> Exposable(c, period, minimum)
  {
    if MembershipOf(c).Within? {
      EligibleMeans(c, minimum);
      var i := SomeSegment(c);
      SegmentOf(c, i);
    }
    if i :| 0 <= i < |SEGMENTS| && SEGMENTS[i].period == period && Inside(c, SEGMENTS[i]) && LeavesSellable(c, SEGMENTS[i], minimum) {
      SegmentOf(c, i);
    }
  }

  // ------------------------------------------------------------- the ranking

  lemma {:induction false} MembersAre(slots: seq<Candidate>, period: Period, minimum: nat, e: Entry)
    ensures e in Members(slots, period, minimum) <==>
      e.slot in slots && MembershipOf(e.slot).Within? && MembershipOf(e.slot).segment.period == period
      && e == Scored(e.slot, MembershipOf(e.slot), minimum)
  {
    if slots != [] {
      var init, last := slots[..|slots| - 1], slots[|slots| - 1];
      MembersAre(init, period, minimum, e);
      assert slots == init + [last];
    }
  }

  /** A ranking holds the slots of the period, each with its score, the higher score first and
      equal scores by clock time. */
  lemma RankingExact(slots: seq<Candidate>, period: Period, minimum: nat)
    ensures var ranked := Ranking(slots, period, minimum);
      && (forall e :: e in ranked <==>
            e.slot in slots && MembershipOf(e.slot).Within? && MembershipOf(e.slot).segment.period == period
            && e == Scored(e.slot, MembershipOf(e.slot), minimum))
      && forall i, j :: 0 <= i < j < |ranked| ==>
           ranked[i].score > ranked[j].score
           || (ranked[i].score == ranked[j].score && ranked[i].slot.start % 1440 <= ranked[j].slot.start % 1440)
  {
    var members, ranked := Members(slots, period, minimum), Ranking(slots, period, minimum);
    SortRankedOrdered(members);
    forall e ensures e in ranked <==> e in members { assert e in multiset(ranked) <==> e in multiset(members); }
    forall e ensures e in members <==>
        e.slot in slots && MembershipOf(e.slot).Within? && MembershipOf(e.slot).segment.period == period
        && e == Scored(e.slot, MembershipOf(e.slot), minimum) {
      MembersAre(slots, period, minimum, e);
    }
    assert forall i, j :: 0 <= i < j < |ranked| ==> RanksBefore(ranked[i], ranked[j]);
  }

  // -------------------------------------------------------------- the filter

  /** An eligible entry of the slot. */
  predicate HasEligible(entries: seq<Entry>, c: Candidate, minimum: nat) {
    exists i :: 0 <= i < |entries| && entries[i].slot == c && Eligible(entries[i], minimum)
  }

  lemma HasEligibleCons(entries: seq<Entry>, c: Candidate, minimum: nat)
    requires entries != []
    ensures HasEligible(entries, c, minimum) <==>
      (entries[0].slot == c && Eligible(entries[0], minimum)) || HasEligible(entries[1..], c, minimum)
  {
    var rest := entries[1..];
    if i :| 0 <= i < |rest| && rest[i].slot == c && Eligible(rest[i], minimum) { assert entries[i + 1] == rest[i]; }
    if i :| 0 <= i < |entries| && entries[i].slot == c && Eligible(entries[i], minimum) {
      assert i == 0 || rest[i - 1] == entries[i];
    }
  }

  lemma {:induction false} FilterMember(entries: seq<Entry>, c: Candidate, minimum: nat)
    ensures c in EligibleOnly(entries, minimum) <==> HasEligible(entries, c, minimum)
  {
    if entries != [] {
      FilterMember(entries[1..], c, minimum);
      HasEligibleCons(entries, c, minimum);
    }
  }

  predicate ScoresAtLeast(best: Candidate, c: Candidate, minimum: nat) {
    && MembershipOf(best).Within? && MembershipOf(c).Within?
    && Score(best, MembershipOf(best), minimum) >= Score(c, MembershipOf(c), minimum)
  }

  ghost predicate Descends(candidates: seq<Candidate>, minimum: nat) {
    forall i, j :: 0 <= i < j < |candidates| ==> ScoresAtLeast(candidates[i], candidates[j], minimum)
  }

  ghost predicate OwnScores(entries: seq<Entry>, minimum: nat) {
    forall e :: e in entries ==> MembershipOf(e.slot).Within? && e == Scored(e.slot, MembershipOf(e.slot), minimum)
  }

  /** The filter keeps the order of the scores. */
  lemma {:induction false} FilterDescends(entries: seq<Entry>, minimum: nat)
    requires Ranked(entries) && OwnScores(entries, minimum)
    ensures Descends(EligibleOnly(entries, minimum), minimum)
  {
    if entries != [] {
      var rest := entries[1..];
      FilterDescends(rest, minimum);
      var tail := EligibleOnly(rest, minimum);
      forall j | 0 <= j < |tail| ensures ScoresAtLeast(entries[0].slot, tail[j], minimum) {
        FilterMember(rest, tail[j], minimum);
        assert tail[j] in tail;
        var i :| 0 <= i < |rest| && rest[i].slot == tail[j];
        assert entries[i + 1] == rest[i] && entries[0] in entries && entries[i + 1] in entries;
        assert RanksBefore(entries[0], entries[i + 1]);
      }
    }
  }

  // ---------------------------------------------------------------- the view

  /** The slots of a view, the recommended one first. */
  function AllOf(view: PeriodView): seq<Candidate> { Shown(view.exposure) + view.exposure.overflow }

  lemma ListedIff(slots: seq<Candidate>, period: Period, minimum: nat, c: Candidate)
    ensures c in EligibleOnly(Ranking(slots, period, minimum), minimum) <==> c in slots && Exposable(c, period, minimum)
  {
    var ranked := Ranking(slots, period, minimum);
    RankingExact(slots, period, minimum);
    FilterMember(ranked, c, minimum);
    KeptIff(c, period, minimum);
    if i :| 0 <= i < |ranked| && ranked[i].slot == c && Eligible(ranked[i], minimum) {
      assert ranked[i] in ranked;
    }
    if c in slots && Kept(c, period, minimum) {
      assert Scored(c, MembershipOf(c), minimum) in ranked;
    }
  }

  lemma SubsequenceDescends(part: seq<Candidate>, whole: seq<Candidate>, at: seq<nat>, minimum: nat)
    requires Subsequence(part, whole, at) && Descends(whole, minimum)
    ensures Descends(part, minimum)
  {
    forall i, j | 0 <= i < j < |part| ensures ScoresAtLeast(part[i], part[j], minimum) {
      assert at[i] < at[j];
      assert ScoresAtLeast(whole[at[i]], whole[at[j]], minimum);
    }
  }

  /** What is shown runs down the scores, the recommended slot first; so does the overflow. */
  lemma ViewDescends(view: PeriodView, slots: seq<Candidate>, period: Period, minimum: nat, limit: nat, spacing: nat)
    requires IsView(view, slots, period, minimum, limit, spacing)
    ensures Descends(Shown(view.exposure), minimum) && Descends(view.exposure.overflow, minimum)
    ensures forall k :: 0 <= k < |view.exposure.overflow| ==>
      |view.exposure.recommended| == 1 && ScoresAtLeast(view.exposure.recommended[0], view.exposure.overflow[k], minimum)
  {
    var ranked := Ranking(slots, period, minimum);
    var ordered, overflow := EligibleOnly(ranked, minimum), view.exposure.overflow;
    RankingExact(slots, period, minimum);
    SortRankedOrdered(Members(slots, period, minimum));
    FilterDescends(ranked, minimum);
    ExposureHead(ordered, limit, spacing);
    var shownAt, overflowAt := ExposureKeepsOrder(ordered, limit, spacing);
    SubsequenceDescends(Shown(view.exposure), ordered, shownAt, minimum);
    SubsequenceDescends(overflow, ordered, overflowAt, minimum);
    forall k | 0 <= k < |overflow|
      ensures |view.exposure.recommended| == 1 && ScoresAtLeast(view.exposure.recommended[0], overflow[k], minimum)
    {
      HeadIsBest(ordered, overflowAt[k], minimum);
    }
  }

  lemma HeadIsBest(ordered: seq<Candidate>, k: nat, minimum: nat)
    requires k < |ordered| && Descends(ordered, minimum) && MembershipOf(ordered[0]).Within?
    ensures ScoresAtLeast(ordered[0], ordered[k], minimum)
  {
  }

  /** A view shows exactly the slots of its period that leave nothing unsellable, one of them
      recommended when there is any; the shown ones lie the spacing apart; at most the limit are
      alternatives; and the total and the flag count the rest. */
  lemma ViewExact(view: PeriodView, slots: seq<Candidate>, period: Period, minimum: nat, limit: nat, spacing: nat)
    requires IsView(view, slots, period, minimum, limit, spacing)
    ensures forall c :: c in AllOf(view) <==> c in slots && Exposable(c, period, minimum)
    ensures |view.exposure.recommended| == if exists c :: c in slots && Exposable(c, period, minimum) then 1 else 0
    ensures PairwiseSpaced(Shown(view.exposure), spacing) && |view.exposure.alternatives| <= limit
    ensures view.total == |AllOf(view)| && (view.hasMore <==> view.exposure.overflow != [])
  {
    var ranked := Ranking(slots, period, minimum);
    var ordered := EligibleOnly(ranked, minimum);
    ExposurePartitions(ordered, limit, spacing);
    ShownAreSpaced(ordered, limit, spacing);
    SameMembers(AllOf(view), ordered);
    forall c ensures c in ordered <==> c in slots && Exposable(c, period, minimum) { ListedIff(slots, period, minimum, c); }
    if ordered != [] { assert ordered[0] in ordered; }
  }

  lemma SameMembers(a: seq<Candidate>, b: seq<Candidate>)
    requires multiset(a) == multiset(b)
    ensures |a| == |b| && forall c :: c in a <==> c in b
  {
    assert |multiset(a)| == |multiset(b)|;
    forall c ensures c in a <==> c in b { assert c in multiset(a) <==> c in multiset(b); }
  }

  /** The limit is three unless a smaller positive or any negative number is asked for: then two.
      Never more alternatives, never fewer allowed. */
  lemma LimitIs(requested: int)
    ensures SafeLimit(requested) == if requested == 1 || requested == 2 || requested < 0 then 2 else 3
    ensures 2 <= SafeLimit(requested) <= 3
  {
  }
}
