/** Limits of a subscriber's buffer and of the address counts, with the inputs for which
    the plain claims fail (src/services/agendaEventDispatcher.js:61-65, 94-131, 189-200, 302-368). */
module Overflow {
  import opened Subscriber
  import opened Outbox
  import opened Dispatcher
  import opened Delivery
  import opened Replay

  // ----------------------------------------------------------- buffer limit

  /** One resync frame beyond the limit after a failed replay, one more once closed, and one
      for every offer that threw. */
  ghost predicate Slim(s: Sub, ph: Phase, c: Config, write: nat -> Outcome) {
    |s.queue| <= c.bufferMax + (if ph == Live(true) then 1 else 0) + (if s.closed then 1 else 0) + Throws(write, s.attempts)
  }

  ghost predicate SlimAt(w: World, id: int, c: Config, write: int -> nat -> Outcome) {
    id in w.subs && id in w.phases && Slim(w.subs[id], w.phases[id], c, write(id))
  }

  /** A flush that throws ends in a local close, which empties the queue. */
  lemma GoLiveSlim(w: World, id: int, resynced: bool, c: Config, write: int -> nat -> Outcome)
    requires id in w.subs && Slim(w.subs[id], Live(resynced), c, write(id))
    ensures SlimAt(GoLive(w, id, resynced, write), id, c, write)
  {
    FlushCounts(w.subs[id], write(id));
  }

  lemma GiveUpSlim(w: World, id: int, reason: string, mark: int, c: Config, write: int -> nat -> Outcome)
    requires id in w.subs && Slim(w.subs[id], Live(false), c, write(id))
    ensures SlimAt(GiveUp(w, id, reason, mark, c, write), id, c, write)
  {
    var s := w.subs[id];
    var e := Enqueued(s, Resync(reason), true, c.bufferMax, write(id));
    FlushCounts(Push(s, Resync(reason)), write(id));
    if !e.thrown {
      GoLiveSlim(Settle(w, id, e.(sub := e.sub.(lastSent := Some(mark)))), id, true, c, write);
    }
  }

  lemma DeliveredSlim(s: Sub, ph: Phase, row: Row, c: Config, write: nat -> Outcome)
    requires Slim(s, ph, c, write)
    ensures Slim(Delivered(s, row, c.bufferMax, write).sub, ph, c, write)
  {
    if !s.closed {
      QueueBounded(s, row, c.bufferMax, if ph == Live(true) then 1 else 0, write);
    }
  }

  lemma {:induction false} ReplaySlim(p: Progress, ph: Phase, rows: seq<Row>, c: Config, write: nat -> Outcome)
    requires Slim(p.effect.sub, ph, c, write)
    ensures Slim(ReplayRows(p, rows, c, write).effect.sub, ph, c, write)
  {
    if rows != [] {
      ReplaySlim(p, ph, rows[..|rows| - 1], c, write);
      DeliveredSlim(ReplayRows(p, rows[..|rows| - 1], c, write).effect.sub, ph, rows[|rows| - 1], c, write);
    }
  }

  lemma BatchSlim(w: World, id: int, c: Config, write: int -> nat -> Outcome)
    requires SlimAt(w, id, c, write)
    ensures SlimAt(ReplayBatch(w, id, c, write), id, c, write)
  {
    if w.phases[id].Replaying? {
      var ph := w.phases[id];
      var p0 := Progress(Effect(w.subs[id], false, false), ph.current, ph.delivered, false);
      ReplaySlim(p0, ph, ReplayQuery(w, id, c), c, write(id));
      var p := BatchProgress(w, id, c, write);
      var v := Settle(w, id, p.effect);
      if !p.effect.thrown {
        GiveUpSlim(v, id, "replay_limit_exceeded", ph.mark, c, write);
        GoLiveSlim(v, id, false, c, write);
      }
    }
  }

  lemma BoundsSlim(w: World, id: int, c: Config, write: int -> nat -> Outcome)
    requires SlimAt(w, id, c, write)
    ensures SlimAt(ReadBounds(w, id, c, write), id, c, write)
  {
    if w.phases[id].NeedBounds? {
      var mark := w.phases[id].mark;
      GiveUpSlim(w, id, "invalid_last_event_id", mark, c, write);
      GiveUpSlim(w, id, "history_not_available", mark, c, write);
      GoLiveSlim(w, id, false, c, write);
    }
  }

  lemma OwnStepSlim(w: World, l: Label, id: int, c: Config, write: int -> nat -> Outcome)
    requires SlimAt(w, id, c, write) && OpeningStep(l) && l.id == id
    ensures SlimAt(ApplyOpening(w, l, c, write), id, c, write)
  {
    if l.Watermark? {
      if w.phases[id].NeedWatermark? { GoLiveSlim(w, id, false, c, write); }
    } else if l.Bounds? {
      BoundsSlim(w, id, c, write);
    } else if l.Batch? {
      BatchSlim(w, id, c, write);
    } else if l.Drain? {
      FlushCounts(w.subs[id].(draining := false), write(id));
    }
  }

  lemma {:induction false} DeliveredAllSlim(s: Sub, ph: Phase, rows: seq<Row>, c: Config, write: nat -> Outcome)
    requires Slim(s, ph, c, write)
    ensures Slim(DeliveredAll(s, rows, c.bufferMax, write), ph, c, write)
  {
    if rows != [] {
      DeliveredAllSlim(s, ph, rows[..|rows| - 1], c, write);
      DeliveredSlim(DeliveredAll(s, rows[..|rows| - 1], c.bufferMax, write), ph, rows[|rows| - 1], c, write);
    }
  }

  lemma StepSlim(w: World, l: Label, id: int, c: Config, write: int -> nat -> Outcome)
    requires Orderly(w, c) && (id in w.subs ==> SlimAt(w, id, c, write))
    ensures id in Apply(w, l, c, write).subs ==> SlimAt(Apply(w, l, c, write), id, c, write)
  {
    if OpeningStep(l) {
      if l.id == id {
        if id in w.subs { OwnStepSlim(w, l, id, c, write); }
      } else {
        OpeningKeepsOthers(w, l, c, write, id);
      }
    } else if OutboxStep(l) {
      OutboxKeepsSubscribers(w, l, c);
    } else if l.PollDeliver? {
      if w.poll.Some? { PollSlim(w, id, c, write); }
    } else if l.StopEnd? {
      StopSlim(w, id, c, write);
    }
  }

  lemma PollSlim(w: World, id: int, c: Config, write: int -> nat -> Outcome)
    requires Orderly(w, c) && (id in w.subs ==> SlimAt(w, id, c, write)) && w.poll.Some?
    ensures id in FinishPoll(w, c, write).subs ==> SlimAt(FinishPoll(w, c, write), id, c, write)
  {
    if id in w.subs {
      DeliverRowsSub(w, w.poll.value, id, c, write);
      DeliveredAllSlim(w.subs[id], w.phases[id], w.poll.value, c, write(id));
    } else {
      DeliverRowsKeys(w, w.poll.value, c, write);
    }
  }

  lemma StopSlim(w: World, id: int, c: Config, write: int -> nat -> Outcome)
    requires Orderly(w, c) && (id in w.subs ==> SlimAt(w, id, c, write))
    ensures var v := CloseBelow(w, w.nextId); id in v.subs ==> SlimAt(v, id, c, write)
  {
    if id in w.subs {
      CloseBelowSub(w, w.nextId, id);
    } else {
      CloseBelowKeys(w, w.nextId);
    }
  }

  lemma {:induction false} RunSlim(labels: seq<Label>, id: int, c: Config, write: int -> nat -> Outcome)
    requires AllKeepBooks(labels)
    ensures var v := Run(Init(), labels, c, write); id in v.subs ==> SlimAt(v, id, c, write)
  {
    if labels != [] {
      var init := labels[..|labels| - 1];
      RunSlim(init, id, c, write);
      RunOrderly(init, c, write);
      StepSlim(Run(Init(), init, c, write), labels[|labels| - 1], id, c, write);
    }
  }

  /** In every run a subscriber holds at most bufferMax + 2 frames and one for every offer to
      its transport that threw; for a transport that never throws that is bufferMax + 2. */
  lemma QueueNeverExceeds(labels: seq<Label>, id: int, c: Config, write: int -> nat -> Outcome)
    requires AllKeepBooks(labels)
    ensures var v := Run(Init(), labels, c, write);
      id in v.subs ==>
        && |v.subs[id].queue| <= c.bufferMax + 2 + Throws(write(id), v.subs[id].attempts)
        && (NeverThrows(write(id)) ==> |v.subs[id].queue| <= c.bufferMax + 2)
  {
    RunSlim(labels, id, c, write);
    var v := Run(Init(), labels, c, write);
    if id in v.subs && NeverThrows(write(id)) { NoThrows(write(id), v.subs[id].attempts); }
  }

  // ------------------------------------------------------ addresses counted

  lemma {:induction false} TrimStartFixed(s: string)
    ensures var t := TrimStart(s); TrimStart(t) == t && |t| <= |s|
    ensures TrimStart(s) == s || |TrimStart(s)| < |s|
  {
    if s != "" && IsSpace(s[0]) {
      TrimStartFixed(s[1..]);
    }
  }

  lemma {:induction false} TrimEndFixed(s: string)
    requires TrimStart(s) == s
    ensures var t := TrimEnd(s); TrimEnd(t) == t && TrimStart(t) == t && |t| <= |s|
  {
    if s != "" && IsSpace(s[|s| - 1]) {
      TrimStartFixed(s[1..]);
      assert !IsSpace(s[0]);
      TrimEndFixed(s[..|s| - 1]);
    }
  }

  function Trim(s: string): string { TrimEnd(TrimStart(s)) }

  lemma TrimFixed(value: string)
    ensures Trim(Trim(value)) == Trim(value)
  {
    TrimStartFixed(value);
    TrimEndFixed(TrimStart(value));
  }

  lemma TrimShortens(s: string)
    ensures |Trim(s)| <= |s|
  {
    TrimStartFixed(s);
    TrimEndFixed(TrimStart(s));
  }

  /** When an address that does not start with the prefix after trimming normalizes to itself. */
  lemma PlainStable(ip: string)
    requires ip == Trim(ip) && ip != "" && !(MAPPED <= ip)
    ensures Stable(ip)
  {
  }

  lemma MappedStableIff(ip: string)
    ensures Stable(ip) <==> ip != "" && Trim(ip) == ip && !(MAPPED <= ip)
  {
    TrimShortens(ip);
  }

  /** An address normalizes to itself the second time unless it is IPv4-mapped and what
      follows the prefix is empty, padded, or mapped again. */
  lemma StableIff(value: string)
    ensures var raw := Trim(value);
      Stable(NormalizeIp(value)) <==>
        !(MAPPED <= raw) || (raw[|MAPPED|..] != "" && Trim(raw[|MAPPED|..]) == raw[|MAPPED|..] && !(MAPPED <= raw[|MAPPED|..]))
  {
    var raw := Trim(value);
    if MAPPED <= raw {
      MappedStableIff(raw[|MAPPED|..]);
    } else if raw == "" {
      assert Trim("unknown") == "unknown";
    } else {
      TrimFixed(value);
      PlainStable(raw);
    }
  }

  // ------------------------------------------------- runs that show a limit

  lemma RunSnoc(w: World, labels: seq<Label>, l: Label, c: Config, write: int -> nat -> Outcome)
    ensures Run(w, labels + [l], c, write) == Apply(Run(w, labels, c, write), l, c, write)
  {
    assert (labels + [l])[..|labels|] == labels;
  }

  predicate ReachedBy(labels: seq<Label>, w: World, c: Config, write: int -> nat -> Outcome) {
    Run(Init(), labels, c, write) == w
  }

  lemma Extend(labels: seq<Label>, w: World, l: Label, v: World, c: Config, write: int -> nat -> Outcome)
    requires ReachedBy(labels, w, c, write) && Apply(w, l, c, write) == v
    ensures ReachedBy(labels + [l], v, c, write)
  {
    RunSnoc(Init(), labels, l, c, write);
  }

  /** For an address that is only the IPv4-mapped prefix the count is left behind when its
      one subscriber goes. */
  lemma CountLeftBehind(c: Config, write: int -> nat -> Outcome)
    requires c.maxGlobal > 0 && c.maxPerIp > 0
    ensures var v := Run(Init(), [Connect(MAPPED, 7, None), Disconnect(0)], c, write);
      v.registered == {} && v.perIp == map["" := 1]
  {
    assert NormalizeIp(MAPPED) == "" && NormalizeIp("") == "unknown";
    Run2(Init(), Connect(MAPPED, 7, None), Disconnect(0), c, write);
    LeftBehind(c, write);
  }

  lemma LeftBehind(c: Config, write: int -> nat -> Outcome)
    requires c.maxGlobal > 0 && c.maxPerIp > 0 && NormalizeIp(MAPPED) == "" && NormalizeIp("") == "unknown"
    ensures var v := Apply(Apply(Init(), Connect(MAPPED, 7, None), c, write), Disconnect(0), c, write);
      v.registered == {} && v.perIp == map["" := 1]
  {
    var u := Apply(Init(), Connect(MAPPED, 7, None), c, write);
    assert u.registered == {0} && u.perIp == map["" := 1] && u.subs == map[0 := Newcomer(7, "")];
  }

  const R1 := Row(1, 7, 0)
  const R2 := Row(2, 7, 0)

  lemma SelectOneRow(branch: Option<int>, lo: int, hi: int)
    ensures Select([R1], branch, lo, hi) == if Wanted(R1, branch, lo, hi) then [R1] else []
  {
    assert [R1][..0] == [];
  }

  lemma SelectTwoRows(branch: Option<int>, lo: int, hi: int)
    ensures Select([R1, R2], branch, lo, hi)
         == (if Wanted(R1, branch, lo, hi) then [R1] else []) + (if Wanted(R2, branch, lo, hi) then [R2] else [])
  {
    SelectOneRow(branch, lo, hi);
    assert [R1, R2][..1] == [R1];
  }

  predicate Roomy(c: Config) {
    c.bufferMax > 1 && c.batchSize > 1 && c.replayBatchSize > 2 && c.replayMaxEvents > 1 && c.maxPerIp > 0 && c.maxGlobal > 0
  }

  ghost predicate AlwaysAccepts(write: int -> nat -> Outcome) { forall id, n :: write(id)(n) == Accepted }

  /** After the commits and the start: cursor at the last of `cursor` rows. */
  function Started(history: seq<Row>, cursor: int): World {
    World(history, 0, cursor, true, false, None, map[], map[], {}, map[], 0)
  }

  lemma StartAfterOne(c: Config, write: int -> nat -> Outcome)
    ensures Apply(Init().(history := [R1]), Start, c, write) == Started([R1], 1)
  {
    SelectOneRow(None, 0, 1);
    assert MaxVisible(Init().(history := [R1])) == 1;
  }

  lemma CommitFirst(c: Config, write: int -> nat -> Outcome)
    ensures ReachedBy([Commit(0, 7, 0)], Init().(history := [R1]), c, write)
  {
    assert Init().history + [R1] == [R1];
    assert ReachedBy([], Init(), c, write);
    Extend([], Init(), Commit(0, 7, 0), Init().(history := [R1]), c, write);
    assert [] + [Commit(0, 7, 0)] == [Commit(0, 7, 0)];
  }

  lemma OneStarted(c: Config, write: int -> nat -> Outcome)
    ensures ReachedBy([Commit(0, 7, 0), Start], Started([R1], 1), c, write)
  {
    CommitFirst(c, write);
    StartAfterOne(c, write);
    Extend([Commit(0, 7, 0)], Init().(history := [R1]), Start, Started([R1], 1), c, write);
    assert [Commit(0, 7, 0)] + [Start] == [Commit(0, 7, 0), Start];
  }

  lemma StartedOne(c: Config, write: int -> nat -> Outcome)
    ensures ReachedBy([Start, Commit(0, 7, 0)], Started([R1], 0), c, write)
  {
    assert ReachedBy([], Init(), c, write);
    Extend([], Init(), Start, Started([], 0), c, write);
    assert [] + [Start] == [Start];
    assert Apply(Started([], 0), Commit(0, 7, 0), c, write) == Started([R1], 0) by { assert [] + [R1] == [R1]; }
    Extend([Start], Started([], 0), Commit(0, 7, 0), Started([R1], 0), c, write);
    assert [Start] + [Commit(0, 7, 0)] == [Start, Commit(0, 7, 0)];
  }

  function Joined(w: World, s: Sub, ph: Phase): World {
    w.(subs := map[0 := s], phases := map[0 := ph], registered := {0}, perIp := map["a" := 1], nextId := 1)
  }

  lemma Joins(w: World, last: int, c: Config, write: int -> nat -> Outcome)
    requires Roomy(c) && w == Started(w.history, w.cursor)
    ensures Apply(w, Connect("a", 7, Some(last)), c, write) == Joined(w, Newcomer(7, "a"), NeedWatermark(Some(last)))
  {
    assert NormalizeIp("a") == "a";
  }

  lemma WritesOne(s: Sub, row: Row, c: Config, write: int -> nat -> Outcome)
    requires Roomy(c) && AlwaysAccepts(write) && s.queue == [] && !s.draining && !s.closed
    requires row.branch == s.branch && !Stale(s, Event(row))
    ensures Delivered(s, row, c.bufferMax, write(0))
         == Effect(s.(written := s.written + [Event(row)], attempts := s.attempts + 1, lastSent := Some(row.id)), false, false)
  {
    OneAccepted(s, Event(row), write(0));
  }

  lemma DeliverOne(w: World, row: Row, c: Config, write: int -> nat -> Outcome)
    requires w.poll == Some([row]) && w.nextId == 1 && w.registered == {0} && 0 in w.subs
    ensures Apply(w, PollDeliver, c, write)
         == Settle(w, 0, Delivered(w.subs[0], row, c.bufferMax, write(0))).(cursor := row.id, poll := None)
  {
    assert [row][..0] == [];
    assert DeliverRows(w, [row], c, write) == DeliverRow(w, row, 1, c, write);
    assert DeliverRow(w, row, 0, c, write) == w;
  }

  lemma Run2(w: World, a: Label, b: Label, c: Config, write: int -> nat -> Outcome)
    ensures Run(w, [a, b], c, write) == Apply(Apply(w, a, c, write), b, c, write)
  {
    RunSnoc(w, [], a, c, write);
    assert [] + [a] == [a];
    RunSnoc(w, [a], b, c, write);
    assert [a] + [b] == [a, b];
  }

  lemma Run3(w: World, a: Label, b: Label, d: Label, c: Config, write: int -> nat -> Outcome)
    ensures Run(w, [a, b, d], c, write) == Apply(Apply(Apply(w, a, c, write), b, c, write), d, c, write)
  {
    Run2(w, a, b, c, write);
    RunSnoc(w, [a, b], d, c, write);
    assert [a, b] + [d] == [a, b, d];
  }

  lemma Run4(w: World, a: Label, b: Label, d: Label, e: Label, c: Config, write: int -> nat -> Outcome)
    ensures Run(w, [a, b, d, e], c, write)
         == Apply(Apply(Apply(Apply(w, a, c, write), b, c, write), d, c, write), e, c, write)
  {
    Run3(w, a, b, d, c, write);
    RunSnoc(w, [a, b, d], e, c, write);
    assert [a, b, d] + [e] == [a, b, d, e];
  }

  lemma MarkAtOne(cursor: int, c: Config, write: int -> nat -> Outcome)
    ensures Apply(Joined(Started([R1], cursor), Newcomer(7, "a"), NeedWatermark(Some(1))), Watermark(0), c, write)
         == Joined(Started([R1], cursor), Newcomer(7, "a"), NeedBounds(1, 1))
  {
    SelectOneRow(None, 0, 1);
    assert MaxVisible(Joined(Started([R1], cursor), Newcomer(7, "a"), NeedWatermark(Some(1)))) == 1;
  }

  lemma LiveAtOne(cursor: int, c: Config, write: int -> nat -> Outcome)
    ensures Apply(Joined(Started([R1], cursor), Newcomer(7, "a"), NeedBounds(1, 1)), Bounds(0), c, write)
         == Joined(Started([R1], cursor), Newcomer(7, "a"), Live(false))
  {
    SelectOneRow(None, 0, 1);
    var w := Joined(Started([R1], cursor), Newcomer(7, "a"), NeedBounds(1, 1));
    assert MaxVisible(w) == 1 && MinVisible(w) == 1;
    assert ReadBounds(w, 0, c, write) == GoLive(w, 0, false, write);
  }

  /** The requested id is ahead of the cursor and the replay has nothing to send: the next
      poll repeats an event the client already has. */
  lemma RepeatedAfterReconnect(c: Config, write: int -> nat -> Outcome)
    requires Roomy(c) && AlwaysAccepts(write)
    ensures var w := Joined(Started([R1], 0), Newcomer(7, "a"), NeedWatermark(Some(1)));
      && ReachedBy([Start, Commit(0, 7, 0), Connect("a", 7, Some(1))], w, c, write)
      && var v := Run(w, [Watermark(0), Bounds(0), PollQuery, PollDeliver], c, write);
         0 in v.subs && v.subs[0].written == [Event(R1)]
  {
    StartedOne(c, write);
    Joins(Started([R1], 0), 1, c, write);
    var w := Joined(Started([R1], 0), Newcomer(7, "a"), NeedWatermark(Some(1)));
    Extend([Start, Commit(0, 7, 0)], Started([R1], 0), Connect("a", 7, Some(1)), w, c, write);
    assert [Start, Commit(0, 7, 0)] + [Connect("a", 7, Some(1))] == [Start, Commit(0, 7, 0), Connect("a", 7, Some(1))];
    Run4(w, Watermark(0), Bounds(0), PollQuery, PollDeliver, c, write);
    MarkAtOne(0, c, write);
    LiveAtOne(0, c, write);
    QueryAtOne(c, write);
    DeliveryAtOne(c, write);
  }

  lemma QueryAtOne(c: Config, write: int -> nat -> Outcome)
    requires Roomy(c)
    ensures var live := Joined(Started([R1], 0), Newcomer(7, "a"), Live(false));
      Apply(live, PollQuery, c, write) == live.(poll := Some([R1]))
  {
    SelectOneRow(None, 0, 1);
    assert PollRows(Joined(Started([R1], 0), Newcomer(7, "a"), Live(false)), c) == [R1];
  }

  lemma DeliveryAtOne(c: Config, write: int -> nat -> Outcome)
    requires Roomy(c) && AlwaysAccepts(write)
    ensures var v := Apply(Joined(Started([R1], 0), Newcomer(7, "a"), Live(false)).(poll := Some([R1])), PollDeliver, c, write);
      0 in v.subs && v.subs[0].written == [Event(R1)]
  {
    WritesOne(Newcomer(7, "a"), R1, c, write);
    DeliverOne(Joined(Started([R1], 0), Newcomer(7, "a"), Live(false)).(poll := Some([R1])), R1, c, write);
  }

  /** A poll batch lands between two steps of a replay: the older row it overtakes is never
      written, and the subscriber goes live without a resync frame. */
  lemma GapWhenPollOvertakes(c: Config, write: int -> nat -> Outcome)
    requires Roomy(c) && AlwaysAccepts(write)
    ensures var w := Joined(Started([R1, R2], 1), Newcomer(7, "a"), Replaying(0, 2, 0, 0));
      var v := Run(w, [PollQuery, PollDeliver, Batch(0)], c, write);
      && ReachedBy([Commit(0, 7, 0), Start, Commit(0, 7, 0), Connect("a", 7, Some(0)), Watermark(0), Bounds(0)], w, c, write)
      && v.phases == map[0 := Live(false)] && 0 in v.subs && v.subs[0].written == [Event(R2)]
  {
    GapStartReachable(c, write);
    Run3(Joined(Started([R1, R2], 1), Newcomer(7, "a"), Replaying(0, 2, 0, 0)), PollQuery, PollDeliver, Batch(0), c, write);
    OvertakingQuery(c, write);
    OvertakingDelivery(c, write);
    StaleBatch(Overtaken(), c, write);
  }

  function Overtaken(): Sub { Newcomer(7, "a").(written := [Event(R2)], attempts := 1, lastSent := Some(2)) }

  lemma OvertakingQuery(c: Config, write: int -> nat -> Outcome)
    requires Roomy(c)
    ensures var w := Joined(Started([R1, R2], 1), Newcomer(7, "a"), Replaying(0, 2, 0, 0));
      Apply(w, PollQuery, c, write) == w.(poll := Some([R2]))
  {
    SelectTwoRows(None, 1, 2);
    assert Select([R1, R2], None, 1, 2) == [R2];
    var w := Joined(Started([R1, R2], 1), Newcomer(7, "a"), Replaying(0, 2, 0, 0));
    assert PollRows(w, c) == [R2];
  }

  lemma OvertakingDelivery(c: Config, write: int -> nat -> Outcome)
    requires Roomy(c) && AlwaysAccepts(write)
    ensures Apply(Joined(Started([R1, R2], 1), Newcomer(7, "a"), Replaying(0, 2, 0, 0)).(poll := Some([R2])), PollDeliver, c, write)
         == Joined(Started([R1, R2], 2), Overtaken(), Replaying(0, 2, 0, 0))
  {
    var n := Newcomer(7, "a");
    WritesOne(n, R2, c, write);
    DeliverOne(Joined(Started([R1, R2], 1), n, Replaying(0, 2, 0, 0)).(poll := Some([R2])), R2, c, write);
    assert n.written + [Event(R2)] == [Event(R2)];
  }

  lemma StaleBatch(t: Sub, c: Config, write: int -> nat -> Outcome)
    requires Roomy(c) && t.branch == 7 && t.lastSent == Some(2) && t.queue == [] && !t.closed && t.ip == "a"
    ensures Apply(Joined(Started([R1, R2], 2), t, Replaying(0, 2, 0, 0)), Batch(0), c, write)
         == Joined(Started([R1, R2], 2), t, Live(false))
  {
    var w := Joined(Started([R1, R2], 2), t, Replaying(0, 2, 0, 0));
    SelectTwoRows(Some(7), 0, 2);
    assert ReplayQuery(w, 0, c) == [R1, R2];
    assert [R1, R2][..1] == [R1] && [R1][..0] == [];
    var p0 := Progress(Effect(t, false, false), 0, 0, false);
    assert ReplayRows(p0, [R1], c, write(0)) == ReplayRow(p0, R1, c, write(0));
    assert ReplayRows(p0, [R1], c, write(0)) == Progress(Effect(t, false, false), 1, 1, false);
    assert ReplayRows(p0, [R1, R2], c, write(0)) == Progress(Effect(t, false, false), 2, 2, false);
    assert Flushed(t, write(0)) == Effect(t, false, false);
  }

  lemma MarkAtTwo(c: Config, write: int -> nat -> Outcome)
    ensures Apply(Joined(Started([R1, R2], 1), Newcomer(7, "a"), NeedWatermark(Some(0))), Watermark(0), c, write)
         == Joined(Started([R1, R2], 1), Newcomer(7, "a"), NeedBounds(0, 2))
  {
    SelectTwoRows(None, 0, 2);
  }

  lemma ReplayFromZero(c: Config, write: int -> nat -> Outcome)
    ensures Apply(Joined(Started([R1, R2], 1), Newcomer(7, "a"), NeedBounds(0, 2)), Bounds(0), c, write)
         == Joined(Started([R1, R2], 1), Newcomer(7, "a"), Replaying(0, 2, 0, 0))
  {
    SelectTwoRows(None, 0, 2);
  }

  lemma CommitSecond(c: Config, write: int -> nat -> Outcome)
    ensures Apply(Started([R1], 1), Commit(0, 7, 0), c, write) == Started([R1, R2], 1)
  {
    assert [R1] + [R2] == [R1, R2];
  }

  lemma TwoStarted(c: Config, write: int -> nat -> Outcome)
    ensures ReachedBy([Commit(0, 7, 0), Start, Commit(0, 7, 0)], Started([R1, R2], 1), c, write)
  {
    OneStarted(c, write);
    CommitSecond(c, write);
    Extend([Commit(0, 7, 0), Start], Started([R1], 1), Commit(0, 7, 0), Started([R1, R2], 1), c, write);
    assert [Commit(0, 7, 0), Start] + [Commit(0, 7, 0)] == [Commit(0, 7, 0), Start, Commit(0, 7, 0)];
  }

  lemma GapStartReachable(c: Config, write: int -> nat -> Outcome)
    requires Roomy(c)
    ensures ReachedBy([Commit(0, 7, 0), Start, Commit(0, 7, 0), Connect("a", 7, Some(0)), Watermark(0), Bounds(0)],
              Joined(Started([R1, R2], 1), Newcomer(7, "a"), Replaying(0, 2, 0, 0)), c, write)
  {
    var n := Newcomer(7, "a");
    var two := Started([R1, R2], 1);
    var l3 := [Commit(0, 7, 0), Start, Commit(0, 7, 0)];
    TwoStarted(c, write);
    Joins(two, 0, c, write);
    Extend(l3, two, Connect("a", 7, Some(0)), Joined(two, n, NeedWatermark(Some(0))), c, write);
    MarkAtTwo(c, write);
    var l4 := l3 + [Connect("a", 7, Some(0))];
    Extend(l4, Joined(two, n, NeedWatermark(Some(0))), Watermark(0), Joined(two, n, NeedBounds(0, 2)), c, write);
    ReplayFromZero(c, write);
    Extend(l4 + [Watermark(0)], Joined(two, n, NeedBounds(0, 2)), Bounds(0), Joined(two, n, Replaying(0, 2, 0, 0)), c, write);
    assert l4 + [Watermark(0)] + [Bounds(0)]
        == [Commit(0, 7, 0), Start, Commit(0, 7, 0), Connect("a", 7, Some(0)), Watermark(0), Bounds(0)];
  }

  function Emptied(ph: Phase): World { Joined(Started([R1], 1), Newcomer(7, "a"), ph).(purged := 1) }

  lemma MarkWhenEmptied(c: Config, write: int -> nat -> Outcome)
    ensures Apply(Emptied(NeedWatermark(Some(0))), Watermark(0), c, write) == Emptied(NeedBounds(0, 0))
  {
    SelectOneRow(None, 1, 1);
  }

  lemma LiveWhenEmptied(c: Config, write: int -> nat -> Outcome)
    ensures Apply(Emptied(NeedBounds(0, 0)), Bounds(0), c, write) == Emptied(Live(false))
  {
    SelectOneRow(None, 1, 1);
  }

  /** With Last-Event-ID 0 and an outbox that retention has emptied, the subscriber goes live
      without a resync frame although rows are gone. */
  lemma ZeroIdMissesPurgedRows(c: Config, write: int -> nat -> Outcome)
    requires Roomy(c)
    ensures var w := Joined(Started([R1], 1), Newcomer(7, "a"), NeedWatermark(Some(0)));
      && ReachedBy([Commit(0, 7, 0), Start, Connect("a", 7, Some(0))], w, c, write)
      && Run(w, [Purge(1), Watermark(0), Bounds(0)], c, write) == Emptied(Live(false))
  {
    OneStarted(c, write);
    Joins(Started([R1], 1), 0, c, write);
    var w := Joined(Started([R1], 1), Newcomer(7, "a"), NeedWatermark(Some(0)));
    Extend([Commit(0, 7, 0), Start], Started([R1], 1), Connect("a", 7, Some(0)), w, c, write);
    assert [Commit(0, 7, 0), Start] + [Connect("a", 7, Some(0))] == [Commit(0, 7, 0), Start, Connect("a", 7, Some(0))];
    Run3(w, Purge(1), Watermark(0), Bounds(0), c, write);
    assert Apply(w, Purge(1), c, write) == Emptied(NeedWatermark(Some(0)));
    MarkWhenEmptied(c, write);
    LiveWhenEmptied(c, write);
  }
}
