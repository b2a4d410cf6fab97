/** Reconnecting with a Last-Event-ID: replay from the outbox, then live delivery
    (src/services/agendaEventDispatcher.js:302-368). */
module Replay {
  import opened Subscriber
  import opened Outbox
  import opened Dispatcher
  import opened Delivery

  // ------------------------------------------------------------- the replay

  /** Written so far: the branch's rows after `last` up to `current`; nothing is waiting. */
  ghost predicate Caught(s: Sub, h: seq<Row>, last: int, current: int) {
    && !s.closed && !s.draining && s.queue == []
    && Events(s.written) == Select(h, Some(s.branch), last, current)
    && s.lastSent == LastRow(Select(h, Some(s.branch), last, current))
  }

  function LastRow(rows: seq<Row>): Option<int> {
    if rows == [] then None else Some(rows[|rows| - 1].id)
  }

  ghost predicate AcceptedSoFar(s: Sub, write: nat -> Outcome) { forall n :: 0 <= n < s.attempts ==> write(n).Accepted? }

  lemma CaughtFresh(s: Sub, h: seq<Row>, last: int, current: int, row: Row)
    requires Ascending(h) && Caught(s, h, last, current) && last <= current < row.id
    requires Select(h, Some(s.branch), current, row.id) == [row]
    ensures !Stale(s, Event(row))
    ensures Select(h, Some(s.branch), last, row.id) == Select(h, Some(s.branch), last, current) + [row]
  {
    var rows := Select(h, Some(s.branch), last, current);
    assert rows != [] ==> rows[|rows| - 1] in rows;
    SelectSplit(h, Some(s.branch), last, current, row.id);
  }

  /** One replayed row: written at once, unless the buffer limit is zero. */
  lemma CaughtNext(s: Sub, h: seq<Row>, last: int, current: int, row: Row, bufferMax: nat, write: nat -> Outcome)
    requires Ascending(h) && Caught(s, h, last, current) && last <= current < row.id && row.branch == s.branch
    requires Select(h, Some(s.branch), current, row.id) == [row]
    requires AcceptedSoFar(Delivered(s, row, bufferMax, write).sub, write)
    ensures var e := Delivered(s, row, bufferMax, write);
      e.sub.closed || (!e.thrown && !e.released && e.sub.branch == s.branch && Caught(e.sub, h, last, row.id))
  {
    CaughtFresh(s, h, last, current, row);
    if bufferMax > 0 {
      var k := FlushMoves(Push(s, Event(row)), write);
      OneAccepted(s, Event(row), write);
      EventsSnoc(s.written, Event(row));
    } else {
      ZeroBufferCloses(s, row, write);
    }
  }

  lemma OneAccepted(s: Sub, item: Item, write: nat -> Outcome)
    requires !s.closed && !s.draining && s.queue == []
    requires AcceptedSoFar(Flushed(Push(s, item), write).sub, write)
    ensures var e := Flushed(Push(s, item), write);
      !e.thrown && e.sub == s.(written := s.written + [item], attempts := s.attempts + 1,
                               lastSent := if item.Event? then Some(item.row.id) else s.lastSent)
  {
    var u := Push(s, item);
    assert u.queue[0] == item && u.queue[1..] == [];
    assert write(s.attempts).Accepted? by {
      assert s.attempts < Flushed(u, write).sub.attempts by {
        var next := Sent(u.(attempts := u.attempts + 1));
        var k := FlushMoves(next, write);
      }
    }
  }

  lemma ZeroBufferCloses(s: Sub, row: Row, write: nat -> Outcome)
    requires !s.closed && !s.draining && s.queue == [] && row.branch == s.branch && !Stale(s, Event(row))
    requires AcceptedSoFar(Delivered(s, row, 0, write).sub, write)
    ensures Delivered(s, row, 0, write).sub.closed
  {
    var resync := Resync("client_buffer_overflow");
    assert Delivered(s, row, 0, write) == ClosedWithResync(s, "client_buffer_overflow", write);
    OneAccepted(s, resync, write);
  }

  /** After the first k rows of a batch. */
  lemma {:induction false} CaughtRows(
    p: Progress, h: seq<Row>, last: int, mark: int, rows: seq<Row>, k: nat, c: Config, write: nat -> Outcome)
    requires Ascending(h) && Caught(p.effect.sub, h, last, p.current) && last <= p.current
    requires !p.tooMany && !p.effect.thrown && !p.effect.released
    requires rows == Select(h, Some(p.effect.sub.branch), p.current, mark) && k <= |rows|
    requires AcceptedSoFar(ReplayRows(p, rows[..k], c, write).effect.sub, write)
    ensures var q := ReplayRows(p, rows[..k], c, write);
      || q.effect.sub.closed
      || (&& !q.effect.thrown && !q.effect.released && q.effect.sub.branch == p.effect.sub.branch
          && (q.tooMany || (q.current == Reached(rows, k, p.current) && Caught(q.effect.sub, h, last, q.current))))
  {
    if k > 0 {
      assert rows[..k][..k - 1] == rows[..k - 1];
      var q := ReplayRows(p, rows[..k - 1], c, write);
      DeliveredSound(q.effect.sub, rows[k - 1], c.bufferMax, write);
      CaughtRows(p, h, last, mark, rows, k - 1, c, write);
      if !q.effect.sub.closed && !q.tooMany && q.delivered + 1 <= c.replayMaxEvents {
        NextRow(h, Some(p.effect.sub.branch), p.current, mark, k - 1);
        assert rows[k - 1] in rows;
        CaughtNext(q.effect.sub, h, last, q.current, rows[k - 1], c.bufferMax, write);
      }
    }
  }

  /** A batch that ends the loop leaves no row of the branch unread up to the watermark. */
  lemma Exhausted(h: seq<Row>, branch: int, current: int, mark: int, n: nat)
    requires Ascending(h) && n > 0 && current <= mark
    ensures var all := Select(h, Some(branch), current, mark);
      var rows := FirstN(all, n);
      var reached := Reached(rows, |rows|, current);
      && current <= reached <= mark
      && (rows == [] || |rows| < n || reached >= mark ==> Select(h, Some(branch), reached, mark) == [])
  {
    var all := Select(h, Some(branch), current, mark);
    var rows := FirstN(all, n);
    var reached := Reached(rows, |rows|, current);
    if rows != [] {
      assert rows[|rows| - 1] == all[|rows| - 1];
      NextRow(h, Some(branch), current, mark, |rows| - 1);
    }
    if reached >= mark {
      SelectNone(h, Some(branch), reached, mark);
    } else if |rows| < n {
      NothingAfterLast(h, branch, current, mark);
    }
  }

  lemma NothingAfterLast(h: seq<Row>, branch: int, current: int, mark: int)
    requires Ascending(h) && current <= mark
    ensures var all := Select(h, Some(branch), current, mark);
      Select(h, Some(branch), Reached(all, |all|, current), mark) == []
  {
    var all := Select(h, Some(branch), current, mark);
    var reached := Reached(all, |all|, current);
    SelectAscending(h, Some(branch), current, mark);
    assert all != [] ==> all[|all| - 1] in all;
    forall x | x in h ensures !Wanted(x, Some(branch), reached, mark) {
      assert Wanted(x, Some(branch), current, mark) ==> x in all;
      if x in all {
        var i :| 0 <= i < |all| && all[i] == x;
      }
    }
    SelectNone(h, Some(branch), reached, mark);
  }

  lemma CaughtUp(s: Sub, h: seq<Row>, last: int, current: int, mark: int)
    requires Ascending(h) && Caught(s, h, last, current) && last <= current <= mark
    requires Select(h, Some(s.branch), current, mark) == []
    ensures Caught(s, h, last, mark)
  {
    SelectSplit(h, Some(s.branch), last, current, mark);
  }

  // ---------------------------------------------------------- in the world

  /** An opening that nothing has disturbed. */
  ghost predicate Steady(w: World, id: int, last: int) {
    && id in w.subs && id in w.phases && 0 <= last
    && var s := w.subs[id];
       match w.phases[id]
       case NeedWatermark(requested) => requested == Some(last) && s == Newcomer(s.branch, s.ip)
       case NeedBounds(l, mark) =>
         && l == last && s == Newcomer(s.branch, s.ip)
         && 0 <= mark <= LastRowId(w.history) && w.cursor <= Max(mark, w.purged)
         && (last == 0 && mark > 0 ==> w.purged < mark)
       case Replaying(l, mark, current, _) =>
         && l == last && last <= current <= mark <= LastRowId(w.history)
         && w.purged <= last && w.cursor <= mark
         && Caught(s, w.history, last, current)
       case _ => false
  }

  /** Still opening, open, and every frame offered so far was accepted. */
  ghost predicate Undisturbed(w: World, id: int, write: int -> nat -> Outcome) {
    && id in w.subs && id in w.phases && !w.phases[id].Live? && !w.phases[id].Failed?
    && !w.subs[id].closed && AcceptedSoFar(w.subs[id], write(id))
  }

  /** Steps other than a poll batch, a restart, or retention past the requested id. */
  predicate Quiet(l: Label, last: int) {
    KeepsBooks(l) && !l.Start? && !l.PollDeliver? && (l.Purge? ==> l.upTo <= last)
  }

  lemma WatermarkSteady(w: World, id: int, last: int, write: int -> nat -> Outcome)
    requires WellFormed(w) && Steady(w, id, last)
    ensures Steady(ReadWatermark(w, id, write), id, last)
  {
    MaxVisibleBounds(w);
    if w.phases[id].NeedWatermark? && w.history != [] {
      var r := w.history[|w.history| - 1];
      assert r in w.history;
    }
  }

  lemma BoundsSteady(w: World, id: int, last: int, c: Config, write: int -> nat -> Outcome)
    requires WellFormed(w) && Steady(w, id, last) && w.phases[id].NeedBounds?
    ensures var v := ReadBounds(w, id, c, write);
      && id in v.phases
      && (v.phases[id].Replaying? ==> Steady(v, id, last))
      && (v.phases[id] == Live(false) ==>
            && v == SetPhase(w, id, Live(false)) && w.phases[id].mark <= last <= LastRowId(w.history)
            && (w.purged <= last || last == 0))
  {
    MaxVisibleBounds(w);
    var s := w.subs[id];
    var mark := w.phases[id].mark;
    GiveUpEnds(w, id, "invalid_last_event_id", mark, c, write);
    GiveUpEnds(w, id, "history_not_available", mark, c, write);
    SelectNone(w.history, Some(s.branch), last, last);
    assert w.subs[id := s] == w.subs;
  }

  lemma GiveUpEnds(w: World, id: int, reason: string, mark: int, c: Config, write: int -> nat -> Outcome)
    requires id in w.subs
    ensures var v := GiveUp(w, id, reason, mark, c, write);
      id in v.phases && (v.phases[id] == Live(true) || v.phases[id] == Failed)
  {
  }

  function BatchProgress(w: World, id: int, c: Config, write: int -> nat -> Outcome): Progress
    requires id in w.subs && id in w.phases && w.phases[id].Replaying?
  {
    var ph := w.phases[id];
    ReplayRows(Progress(Effect(w.subs[id], false, false), ph.current, ph.delivered, false), ReplayQuery(w, id, c), c, write(id))
  }

  lemma BatchReads(w: World, id: int, last: int, c: Config, write: int -> nat -> Outcome)
    requires WellFormed(w) && Steady(w, id, last) && w.phases[id].Replaying? && c.replayBatchSize > 0
    requires AcceptedSoFar(BatchProgress(w, id, c, write).effect.sub, write(id))
    ensures var p := BatchProgress(w, id, c, write);
      var rows := ReplayQuery(w, id, c);
      p.effect.sub.closed || p.tooMany ||
      (&& !p.effect.thrown && w.phases[id].current <= p.current <= w.phases[id].mark
       && Caught(p.effect.sub, w.history, last, p.current)
       && (rows == [] || |rows| < c.replayBatchSize || p.current >= w.phases[id].mark ==>
             Caught(p.effect.sub, w.history, last, w.phases[id].mark)))
  {
    var Replaying(l, mark, current, delivered) := w.phases[id];
    var s := w.subs[id];
    var rows := ReplayQuery(w, id, c);
    var all := Select(w.history, Some(s.branch), current, mark);
    assert rows == all[..|rows|];
    var p0 := Progress(Effect(s, false, false), current, delivered, false);
    var p := ReplayRows(p0, rows, c, write(id));
    CaughtRows(p0, w.history, last, mark, all, |rows|, c, write(id));
    Exhausted(w.history, s.branch, current, mark, c.replayBatchSize);
    assert Reached(all, |rows|, current) == Reached(rows, |rows|, current);
    if !p.effect.sub.closed && !p.tooMany && Select(w.history, Some(s.branch), p.current, mark) == [] {
      CaughtUp(p.effect.sub, w.history, last, p.current, mark);
    }
  }

  lemma GoLiveFlushes(w: World, id: int, resynced: bool, write: int -> nat -> Outcome)
    requires id in w.subs
    ensures var v := GoLive(w, id, resynced, write);
      && id in v.phases && id in v.subs && (v.phases[id].Live? || v.phases[id].Failed?)
      && (v.phases[id].Live? ==> v.subs[id] == Flushed(w.subs[id], write(id)).sub)
      && w.subs[id].attempts <= v.subs[id].attempts
      && (w.subs[id].closed ==> v.subs[id].closed)
  {
    FlushedSound(w.subs[id], write(id));
  }

  lemma BatchSteady(w: World, id: int, last: int, c: Config, write: int -> nat -> Outcome)
    requires WellFormed(w) && Steady(w, id, last) && w.phases[id].Replaying? && c.replayBatchSize > 0
    requires id in ReplayBatch(w, id, c, write).subs
    requires AcceptedSoFar(ReplayBatch(w, id, c, write).subs[id], write(id))
    ensures var v := ReplayBatch(w, id, c, write);
      && id in v.phases
      && (v.phases[id].Replaying? ==> v.subs[id].closed || Steady(v, id, last))
      && (v.phases[id] == Live(false) ==> v.subs[id].closed || Caught(v.subs[id], w.history, last, w.phases[id].mark))
  {
    var p := BatchProgress(w, id, c, write);
    var v := Settle(w, id, p.effect);
    GiveUpEnds(v, id, "replay_limit_exceeded", w.phases[id].mark, c, write);
    if !p.effect.thrown && !p.tooMany {
      GoLiveFlushes(v, id, false, write);
      BatchReads(w, id, last, c, write);
    }
  }

  lemma SteadyOwnStep(w: World, l: Label, id: int, last: int, c: Config, write: int -> nat -> Outcome)
    requires WellFormed(w) && Steady(w, id, last) && OpeningStep(l) && l.id == id && c.replayBatchSize > 0
    requires Undisturbed(Apply(w, l, c, write), id, write)
    ensures Steady(Apply(w, l, c, write), id, last)
  {
    if l.Watermark? {
      WatermarkSteady(w, id, last, write);
    } else if l.Bounds? {
      if w.phases[id].NeedBounds? {
        BoundsSteady(w, id, last, c, write);
        BoundsEnds(w, id, c, write);
      }
    } else if l.Batch? {
      if w.phases[id].Replaying? {
        BatchSteady(w, id, last, c, write);
        BatchEnds(w, id, c, write);
      }
    }
  }

  lemma BoundsEnds(w: World, id: int, c: Config, write: int -> nat -> Outcome)
    requires id in w.subs && id in w.phases && w.phases[id].NeedBounds?
    ensures var v := ReadBounds(w, id, c, write);
      id in v.phases && (v.phases[id].Replaying? || v.phases[id].Live? || v.phases[id].Failed?)
  {
    var last, mark := w.phases[id].last, w.phases[id].mark;
    if last < 0 || last > MaxVisible(w) {
      GiveUpEnds(w, id, "invalid_last_event_id", mark, c, write);
    } else if MinVisible(w) > 0 && last < MinVisible(w) - 1 {
      GiveUpEnds(w, id, "history_not_available", mark, c, write);
    } else if last >= mark {
      GoLiveFlushes(w, id, false, write);
    }
  }

  lemma BatchEnds(w: World, id: int, c: Config, write: int -> nat -> Outcome)
    requires id in w.subs && id in w.phases && w.phases[id].Replaying?
    ensures var v := ReplayBatch(w, id, c, write);
      id in v.phases && (v.phases[id].Replaying? || v.phases[id].Live? || v.phases[id].Failed?)
  {
    GiveUpEnds(Settle(w, id, BatchProgress(w, id, c, write).effect), id, "replay_limit_exceeded", w.phases[id].mark, c, write);
  }

  lemma SteadyCommit(w: World, r: Row, id: int, last: int)
    requires WellFormed(w) && Steady(w, id, last) && LastRowId(w.history) < r.id
    ensures Steady(w.(history := w.history + [r]), id, last)
  {
    if w.phases[id].Replaying? {
      SelectAfterCommit(w.history, r, Some(w.subs[id].branch), last, w.phases[id].current);
    }
  }

  lemma SteadyFrame(w: World, v: World, id: int, last: int)
    requires Steady(w, id, last) && Same(w, v, id) && v.history == w.history && v.cursor == w.cursor && 0 <= w.purged
    requires w.purged <= v.purged <= Max(w.purged, last)
    ensures Steady(v, id, last)
  {
  }

  lemma SteadyOutside(w: World, l: Label, id: int, last: int, c: Config, write: int -> nat -> Outcome)
    requires WellFormed(w) && Registry(w) && Steady(w, id, last) && Quiet(l, last) && !OpeningStep(l) && !l.StopEnd?
    ensures Steady(Apply(w, l, c, write), id, last)
  {
    if OutboxStep(l) {
      SteadyOutbox(w, l, id, last, c);
    } else {
      assert id < w.nextId;
      SteadyFrame(w, Apply(w, l, c, write), id, last);
    }
  }

  lemma SteadyOutbox(w: World, l: Label, id: int, last: int, c: Config)
    requires WellFormed(w) && Steady(w, id, last) && Quiet(l, last) && OutboxStep(l)
    ensures Steady(ApplyOutbox(w, l, c), id, last)
  {
    if l.Commit? {
      SteadyCommit(w, Row(LastRowId(w.history) + 1 + l.gap, l.branch, l.body), id, last);
    } else {
      OutboxKeepsSubscribers(w, l, c);
      SteadyFrame(w, ApplyOutbox(w, l, c), id, last);
    }
  }

  lemma SteadyStep(w: World, l: Label, id: int, last: int, c: Config, write: int -> nat -> Outcome)
    requires Good(w, c) && Steady(w, id, last) && Quiet(l, last) && c.replayBatchSize > 0
    requires Undisturbed(Apply(w, l, c, write), id, write)
    ensures Steady(Apply(w, l, c, write), id, last)
  {
    if OpeningStep(l) {
      if l.id == id {
        SteadyOwnStep(w, l, id, last, c, write);
      } else {
        OpeningKeepsOthers(w, l, c, write, id);
        OpeningKeepsRest(w, l, c, write);
      }
    } else if l.StopEnd? {
      CloseBelowSub(w, w.nextId, id);
    } else {
      SteadyOutside(w, l, id, last, c, write);
    }
  }

  /** Going live, failing, closing and a refused frame are all for good. */
  lemma UndisturbedBefore(w: World, l: Label, id: int, c: Config, write: int -> nat -> Outcome)
    requires Orderly(w, c) && id in w.subs && Undisturbed(Apply(w, l, c, write), id, write)
    ensures Undisturbed(w, id, write)
  {
    StepPersists(w, l, id, c, write);
    if w.phases[id].Live? || w.phases[id].Failed? {
      LiveStays(w, l, id, c, write);
    }
  }

  lemma LiveStays(w: World, l: Label, id: int, c: Config, write: int -> nat -> Outcome)
    requires Orderly(w, c) && id in w.subs && (w.phases[id].Live? || w.phases[id].Failed?)
    ensures id in Apply(w, l, c, write).phases && Apply(w, l, c, write).phases[id] == w.phases[id]
  {
    if OpeningStep(l) {
      if l.id == id { LiveKeepsPhase(w, l, id, c, write); } else { OpeningKeepsOthers(w, l, c, write, id); }
    } else if OutboxStep(l) {
      OutboxKeepsSubscribers(w, l, c);
    } else if l.PollDeliver? {
      if w.poll.Some? { DeliverRowsSub(w, w.poll.value, id, c, write); }
    } else if l.StopEnd? {
      CloseBelowSub(w, w.nextId, id);
    } else {
      assert id < w.nextId;
    }
  }

  lemma LiveKeepsPhase(w: World, l: Label, id: int, c: Config, write: int -> nat -> Outcome)
    requires id in w.subs && id in w.phases && (w.phases[id].Live? || w.phases[id].Failed?) && OpeningStep(l) && l.id == id
    ensures var v := ApplyOpening(w, l, c, write); id in v.phases && v.phases[id] == w.phases[id]
  {
  }

  ghost predicate AllQuiet(labels: seq<Label>, last: int) { forall i :: 0 <= i < |labels| ==> Quiet(labels[i], last) }

  lemma {:induction false} SteadyRun(w: World, labels: seq<Label>, id: int, last: int, c: Config, write: int -> nat -> Outcome)
    requires Good(w, c) && Steady(w, id, last) && AllQuiet(labels, last) && c.replayBatchSize > 0
    requires Undisturbed(Run(w, labels, c, write), id, write)
    ensures Steady(Run(w, labels, c, write), id, last)
  {
    if labels != [] {
      var init := labels[..|labels| - 1];
      RunGood(w, init, c, write);
      KeepsBranch(w, init, id, c, write);
      UndisturbedBefore(Run(w, init, c, write), labels[|labels| - 1], id, c, write);
      SteadyRun(w, init, id, last, c, write);
      SteadyStep(Run(w, init, c, write), labels[|labels| - 1], id, last, c, write);
    }
  }

  // ------------------------------------------------------------ the reconnect

  /** The step that takes the subscriber live. */
  predicate LastStep(l: Label, id: int) { (l.Bounds? || l.Batch?) && l.id == id }

  function MarkOf(ph: Phase): int { if ph.NeedBounds? || ph.Replaying? then ph.mark else 0 }

  /** Known before the last step: retention has taken no row of the branch after the id, and
      either the replay has a row to send or the poll has no row of the branch left to meet
      up to the id. */
  ghost predicate Seamless(u: World, id: int, last: int)
    requires id in u.subs && id in u.phases
  {
    var b := Some(u.subs[id].branch);
    && Select(u.history, b, last, u.purged) == []
    && (Select(u.history, b, last, Max(last, MarkOf(u.phases[id]))) != [] || Select(u.history, b, Floor(u), last) == [])
  }

  /** Everything the replay owed is settled, and no row up to `last` will be met again. */
  lemma LiveIsOwed(v: World, id: int, last: int, upTo: int)
    requires WellFormed(v) && id in v.subs && id in v.phases && v.phases[id].Live?
    requires Caught(v.subs[id], v.history, last, upTo) && last <= upTo <= LastRowId(v.history)
    requires v.purged <= upTo && v.cursor <= upTo
    requires var b := Some(v.subs[id].branch);
      Select(v.history, b, last, upTo) != [] || Select(v.history, b, Floor(v), last) == []
    ensures OwedAt(v, id, Promise(Select(v.history, Some(v.subs[id].branch), last, upTo), upTo))
  {
    var s := v.subs[id];
    SelectNone(v.history, Some(s.branch), upTo, upTo);
    assert s.written + s.queue == s.written;
    SettledStale(v, s, last, upTo);
    SentLast(v.history, s, last, upTo);
  }

  lemma SentLast(h: seq<Row>, s: Sub, last: int, upTo: int)
    requires Ascending(h) && Caught(s, h, last, upTo)
    ensures s.lastSent.Some? ==> last < s.lastSent.value <= upTo
  {
    var rows := Select(h, Some(s.branch), last, upTo);
    assert rows != [] ==> rows[|rows| - 1] in rows;
  }

  lemma SettledStale(v: World, s: Sub, last: int, upTo: int)
    requires WellFormed(v) && Caught(s, v.history, last, upTo)
    requires var b := Some(s.branch); Select(v.history, b, last, upTo) != [] || Select(v.history, b, Floor(v), last) == []
    ensures forall x :: x in v.history && Wanted(x, Some(s.branch), Floor(v), upTo) ==> s.lastSent.Some? && x.id <= s.lastSent.value
  {
    var rows := Select(v.history, Some(s.branch), last, upTo);
    SelectAscending(v.history, Some(s.branch), last, upTo);
    SentLast(v.history, s, last, upTo);
    forall x | x in v.history && Wanted(x, Some(s.branch), Floor(v), upTo)
      ensures s.lastSent.Some? && x.id <= s.lastSent.value
    {
      if x.id > last {
        assert x in rows;
        var i :| 0 <= i < |rows| && rows[i] == x;
      } else {
        assert s.lastSent.Some? || x in Select(v.history, Some(s.branch), Floor(v), last);
      }
    }
  }

  /** A replay that sent nothing leaves the subscriber where a newcomer stands. */
  lemma LiveIsNew(v: World, id: int, last: int, upTo: int)
    requires WellFormed(v) && id in v.subs && id in v.phases && v.phases[id].Live?
    requires Caught(v.subs[id], v.history, last, upTo) && Select(v.history, Some(v.subs[id].branch), last, upTo) == []
    ensures OwedAt(v, id, Promise([], Floor(v)))
  {
    var s := v.subs[id];
    SelectNone(v.history, Some(s.branch), Floor(v), Floor(v));
    assert s.written + s.queue == s.written;
  }

  /** Where the last step leaves the replay. */
  ghost predicate Arrived(u: World, v: World, id: int, last: int)
    requires id in u.subs && id in u.phases
  {
    var upTo := Max(last, MarkOf(u.phases[id]));
    && id in v.subs && SameRest(u, v) && v.subs[id].branch == u.subs[id].branch
    && Caught(v.subs[id], v.history, last, upTo) && last <= upTo <= LastRowId(v.history)
    && (if v.purged <= last then v.cursor <= upTo else last == upTo == 0 && v.cursor <= v.purged)
  }

  lemma BoundsArrives(u: World, id: int, last: int, c: Config, write: int -> nat -> Outcome)
    requires Good(u, c) && Steady(u, id, last)
    requires var v := ReadBounds(u, id, c, write); id in v.phases && v.phases[id] == Live(false)
    ensures Arrived(u, ReadBounds(u, id, c, write), id, last)
  {
    BoundsSteady(u, id, last, c, write);
    SelectNone(u.history, Some(u.subs[id].branch), last, last);
  }

  lemma BatchArrives(u: World, id: int, last: int, c: Config, write: int -> nat -> Outcome)
    requires Good(u, c) && Steady(u, id, last) && c.replayBatchSize > 0
    requires var v := ReplayBatch(u, id, c, write);
      id in v.subs && id in v.phases && v.phases[id] == Live(false) && !v.subs[id].closed && AcceptedSoFar(v.subs[id], write(id))
    ensures Arrived(u, ReplayBatch(u, id, c, write), id, last)
  {
    BatchRest(u, id, c, write);
    BatchPersists(u, id, c, write);
    BatchSteady(u, id, last, c, write);
  }

  /** Live without a resync frame, open, and all frames accepted. */
  ghost predicate ResumedAt(v: World, id: int, write: int -> nat -> Outcome) {
    && id in v.subs && id in v.phases && v.phases[id] == Live(false)
    && !v.subs[id].closed && AcceptedSoFar(v.subs[id], write(id))
  }

  /** The window a seamless resumption delivers, for a subscriber in a later state `x`. */
  ghost predicate Resumes(u: World, x: World, id: int, last: int)
    requires id in u.subs && id in u.phases && id in x.subs
  {
    DeliversWindow(x.subs[id], u.subs[id].branch, x.history, last, Max(Max(last, MarkOf(u.phases[id])), x.cursor))
  }

  /** What holds of a later state: seamless resumptions deliver the window, and once the poll
      has passed the id and retention an open subscriber has the window only then. */
  ghost predicate ResumesIff(u: World, x: World, id: int, last: int)
    requires id in u.subs && id in u.phases && id in x.subs
  {
    && (Seamless(u, id, last) ==> Resumes(u, x, id, last))
    && (!x.subs[id].closed && Max(last, u.purged) <= x.cursor ==> (Resumes(u, x, id, last) <==> Seamless(u, id, last)))
  }

  /** `x` is a later state in which subscriber `id` is still owed `p`. */
  ghost predicate LaterOwes(v: World, x: World, id: int, p: Promise, c: Config)
    requires id in v.subs
  {
    && Good(x, c) && OwedAt(x, id, p) && x.subs[id].branch == v.subs[id].branch
    && v.history <= x.history
  }

  lemma StaysOwed(v: World, id: int, p: Promise, after: seq<Label>, c: Config, write: int -> nat -> Outcome)
    requires Good(v, c) && OwedAt(v, id, p) && AllKeepBooks(after) && NoStart(after) && NeverThrows(write(id))
    ensures LaterOwes(v, Run(v, after, c, write), id, p, c)
  {
    OwedRun(v, after, id, p, c, write);
    RunGood(v, after, c, write);
    KeepsBranch(v, after, id, c, write);
    HistoryGrows(v, after, c, write);
  }

  lemma SettledResumes(u: World, v: World, x: World, id: int, last: int, c: Config)
    requires id in u.subs && id in u.phases && Arrived(u, v, id, last) && WellFormed(v)
    requires var upTo := Max(last, MarkOf(u.phases[id]));
      LaterOwes(v, x, id, Promise(Select(v.history, Some(u.subs[id].branch), last, upTo), upTo), c)
    ensures Resumes(u, x, id, last)
  {
    var upTo, b := Max(last, MarkOf(u.phases[id])), Some(u.subs[id].branch);
    SelectStable(v.history, x.history, b, last, upTo);
    SelectSplit(x.history, b, last, upTo, Max(upTo, x.cursor));
    SelectAscending(x.history, b, last, Max(upTo, x.cursor));
  }

  /** A window that starts elsewhere is the same exactly when the branch has no row between. */
  lemma ShiftedWindow(h: seq<Row>, b: Option<int>, from: int, last: int, cursor: int)
    requires Ascending(h) && from <= last <= cursor
    ensures Select(h, b, from, cursor) == Select(h, b, last, cursor) <==> Select(h, b, from, last) == []
  {
    SelectSplit(h, b, from, last, cursor);
  }

  lemma NewcomerResumesIff(u: World, v: World, x: World, id: int, last: int, c: Config)
    requires id in u.subs && id in u.phases && Arrived(u, v, id, last) && WellFormed(v)
    requires Select(v.history, Some(u.subs[id].branch), last, Max(last, MarkOf(u.phases[id]))) == []
    requires v.purged <= last ==> Select(v.history, Some(u.subs[id].branch), Floor(v), last) != []
    requires LaterOwes(v, x, id, Promise([], Floor(v)), c)
    ensures ResumesIff(u, x, id, last)
  {
    var b := Some(u.subs[id].branch);
    OwedIsWindow(x, id, u.subs[id].branch, Floor(v));
    SelectAscending(x.history, b, last, Max(Max(last, MarkOf(u.phases[id])), x.cursor));
    if v.purged <= last {
      RepeatsRows(u, v, x, id, last);
    } else {
      SkipsPurged(u, v, x, id);
    }
  }

  lemma RepeatsRows(u: World, v: World, x: World, id: int, last: int)
    requires id in u.subs && id in u.phases && Arrived(u, v, id, last) && id in x.subs && v.purged <= last
    requires WellFormed(v) && WellFormed(x) && v.history <= x.history && x.subs[id].branch == u.subs[id].branch
    requires Select(v.history, Some(u.subs[id].branch), last, Max(last, MarkOf(u.phases[id]))) == []
    requires Select(v.history, Some(u.subs[id].branch), Floor(v), last) != []
    requires DeliversWindow(x.subs[id], u.subs[id].branch, x.history, Floor(v), Max(Floor(v), x.cursor))
    ensures ResumesIff(u, x, id, last)
  {
    var b, upTo := Some(u.subs[id].branch), Max(last, MarkOf(u.phases[id]));
    if !x.subs[id].closed && last <= x.cursor {
      var r := Select(v.history, b, Floor(v), last)[0];
      assert r in Select(v.history, b, Floor(v), last);
      assert r in x.history;
      assert r in Select(x.history, b, Floor(v), Max(Floor(v), x.cursor));
      assert r !in Select(x.history, b, last, Max(upTo, x.cursor));
    }
  }

  lemma SkipsPurged(u: World, v: World, x: World, id: int)
    requires id in u.subs && id in u.phases && Arrived(u, v, id, 0) && id in x.subs && 0 < v.purged
    requires WellFormed(v) && WellFormed(x) && v.history <= x.history && x.subs[id].branch == u.subs[id].branch
    requires DeliversWindow(x.subs[id], u.subs[id].branch, x.history, Floor(v), Max(Floor(v), x.cursor))
    ensures ResumesIff(u, x, id, 0)
  {
    var b := Some(u.subs[id].branch);
    SelectNone(u.history, b, Floor(u), 0);
    SelectStable(v.history, x.history, b, 0, v.purged);
    SelectAscending(x.history, b, 0, Max(0, x.cursor));
    if v.purged <= x.cursor {
      ShiftedWindow(x.history, b, 0, v.purged, x.cursor);
    } else if Select(x.history, b, 0, v.purged) == [] {
      SelectSplit(x.history, b, 0, Max(0, x.cursor), v.purged);
      SelectNone(x.history, b, v.purged, v.purged);
    }
  }

  lemma ContinueLive(
    u: World, l: Label, id: int, last: int, after: seq<Label>, c: Config, write: int -> nat -> Outcome)
    requires Good(u, c) && Steady(u, id, last) && c.replayBatchSize > 0
    requires LastStep(l, id) && AllKeepBooks(after) && NoStart(after) && NeverThrows(write(id))
    requires ResumedAt(Apply(u, l, c, write), id, write)
    ensures var x := Run(Apply(u, l, c, write), after, c, write); id in x.subs && ResumesIff(u, x, id, last)
  {
    var v := Apply(u, l, c, write);
    ApplyGood(u, l, c, write);
    if l.Bounds? { BoundsArrives(u, id, last, c, write); } else { BatchArrives(u, id, last, c, write); }
    LaterResumes(u, v, id, last, after, c, write);
  }

  lemma LaterResumes(
    u: World, v: World, id: int, last: int, after: seq<Label>, c: Config, write: int -> nat -> Outcome)
    requires Good(v, c) && id in u.subs && id in u.phases && Arrived(u, v, id, last) && 0 <= last
    requires id in v.phases && v.phases[id].Live?
    requires AllKeepBooks(after) && NoStart(after) && NeverThrows(write(id))
    ensures var x := Run(v, after, c, write); id in x.subs && ResumesIff(u, x, id, last)
  {
    var x, b, upTo := Run(v, after, c, write), Some(u.subs[id].branch), Max(last, MarkOf(u.phases[id]));
    var sent := Select(v.history, b, last, upTo);
    if v.purged <= last && (sent != [] || Select(v.history, b, Floor(v), last) == []) {
      LiveIsOwed(v, id, last, upTo);
      StaysOwed(v, id, Promise(sent, upTo), after, c, write);
      SettledResumes(u, v, x, id, last, c);
      SelectNone(u.history, b, last, u.purged);
    } else {
      SelectNone(v.history, b, 0, 0);
      LiveIsNew(v, id, last, upTo);
      StaysOwed(v, id, Promise([], Floor(v)), after, c, write);
      NewcomerResumesIff(u, v, x, id, last, c);
    }
  }

  lemma {:induction false} SelectStable(h: seq<Row>, g: seq<Row>, branch: Option<int>, lo: int, hi: int)
    requires h <= g && Ascending(g) && hi <= LastRowId(h)
    ensures Select(g, branch, lo, hi) == Select(h, branch, lo, hi)
    decreases |g|
  {
    if g == h {
    } else {
      var n := |g| - 1;
      assert g == g[..n] + [g[n]];
      SelectStable(h, g[..n], branch, lo, hi);
    }
  }

  lemma {:induction false} HistoryGrows(w: World, labels: seq<Label>, c: Config, write: int -> nat -> Outcome)
    requires WellFormed(w)
    ensures w.history <= Run(w, labels, c, write).history
  {
    if labels != [] {
      var init := labels[..|labels| - 1];
      HistoryGrows(w, init, c, write);
      HistoryStep(Run(w, init, c, write), labels[|labels| - 1], c, write);
    }
  }

  lemma HistoryStep(w: World, l: Label, c: Config, write: int -> nat -> Outcome)
    ensures w.history <= Apply(w, l, c, write).history
  {
    if OpeningStep(l) {
      OpeningKeepsRest(w, l, c, write);
    } else if l.PollDeliver? {
      if w.poll.Some? { DeliverRowsRest(w, w.poll.value, c, write); }
    } else if l.StopEnd? {
      CloseBelowRest(w, w.nextId);
    }
  }

  lemma ResumesFrom(
    w: World, address: string, branch: int, last: nat, opening: seq<Label>, l: Label, after: seq<Label>,
    c: Config, write: int -> nat -> Outcome)
    requires Good(w, c) && Accepts(w, c, address) && Stable(NormalizeIp(address)) && c.replayBatchSize > 0
    requires AllQuiet(opening, last) && LastStep(l, w.nextId) && AllKeepBooks(after) && NoStart(after)
    requires NeverThrows(write(w.nextId))
    requires var u := Run(Register(w, address, branch, Some(last)), opening, c, write);
      Undisturbed(u, w.nextId, write) && ResumedAt(Apply(u, l, c, write), w.nextId, write)
    ensures var u := Run(Register(w, address, branch, Some(last)), opening, c, write);
      var x := Run(Apply(u, l, c, write), after, c, write);
      && w.nextId in x.subs && u.subs[w.nextId].branch == branch
      && ResumesIff(u, x, w.nextId, last)
  {
    var id := w.nextId;
    var r := Register(w, address, branch, Some(last));
    RegisterOrderly(w, address, branch, Some(last), c);
    SameRestWellFormed(w, r.(nextId := w.nextId));
    RunGood(r, opening, c, write);
    SteadyRun(r, opening, id, last, c, write);
    KeepsBranch(r, opening, id, c, write);
    ContinueLive(Run(r, opening, c, write), l, id, last, after, c, write);
  }

  /** Reconnecting with an event id. When no poll batch lands during the replay, retention
      does not pass the id, and every frame of the replay is accepted, then in every later
      state what the subscriber was written and has queued are exactly the rows of its branch
      after that id, in order and once each, provided the resumption was seamless, which is
      known before its last step. Otherwise no later state with the poll past the id and
      past retention has an open subscriber holding exactly those rows. */
  lemma ResumesWithoutGap(
    before: seq<Label>, address: string, branch: int, last: nat, opening: seq<Label>, l: Label, after: seq<Label>,
    c: Config, write: int -> nat -> Outcome)
    requires AllKeepBooks(before) && Stable(NormalizeIp(address)) && c.replayBatchSize > 0
    requires AllQuiet(opening, last) && AllKeepBooks(after) && NoStart(after)
    requires var w := Run(Init(), before, c, write);
      && Accepts(w, c, address) && LastStep(l, w.nextId) && NeverThrows(write(w.nextId))
      && var u := Run(Register(w, address, branch, Some(last)), opening, c, write);
         Undisturbed(u, w.nextId, write) && ResumedAt(Apply(u, l, c, write), w.nextId, write)
    ensures var w := Run(Init(), before, c, write);
      var u := Run(Register(w, address, branch, Some(last)), opening, c, write);
      var x := Run(Apply(u, l, c, write), after, c, write);
      && w.nextId in x.subs && u.subs[w.nextId].branch == branch
      && ResumesIff(u, x, w.nextId, last)
  {
    InitGood(c);
    RunGood(Init(), before, c, write);
    ResumesFrom(Run(Init(), before, c, write), address, branch, last, opening, l, after, c, write);
  }
}
