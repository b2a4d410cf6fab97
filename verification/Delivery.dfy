/** What every run of the dispatcher delivers to one subscriber
    (src/services/agendaEventDispatcher.js:103-141, 224-256, 302-370). */
module Delivery {
  import opened Subscriber
  import opened Outbox
  import opened Dispatcher

  // ----------------------------------------------- one subscriber, one step

  lemma {:induction false} DeliverRowFrame(w: World, row: Row, n: nat, c: Config, write: int -> nat -> Outcome)
    ensures var v := DeliverRow(w, row, n, c, write);
      v.subs.Keys == w.subs.Keys && v.nextId == w.nextId && v.phases == w.phases
  {
    if n > 0 {
      DeliverRowFrame(w, row, n - 1, c, write);
      DeliverToFrame(DeliverRow(w, row, n - 1, c, write), n - 1, row, c, write);
    }
  }

  lemma DeliverToFrame(v: World, to: int, row: Row, c: Config, write: int -> nat -> Outcome)
    ensures var u := DeliverTo(v, to, row, c, write);
      u.subs.Keys == v.subs.Keys && u.nextId == v.nextId && u.phases == v.phases
  {
  }

  lemma DeliverRowRegistry(w: World, row: Row, n: nat, c: Config, write: int -> nat -> Outcome)
    requires Orderly(w, c)
    ensures Registry(DeliverRow(w, row, n, c, write))
  {
    DeliverRowOrderly(w, row, n, c, write);
  }

  lemma DeliverToSub(v: World, row: Row, to: int, id: int, c: Config, write: int -> nat -> Outcome)
    requires Registry(v) && id in v.subs
    ensures var u := DeliverTo(v, to, row, c, write);
      id in u.subs && u.subs[id] == if id == to then Delivered(v.subs[id], row, c.bufferMax, write(id)).sub else v.subs[id]
  {
    DeliveredSound(v.subs[id], row, c.bufferMax, write(id));
  }

  /** Along the loop over the subscribers. */
  lemma {:induction false} LoopReaches(w: World, row: Row, n: nat, id: int, c: Config, write: int -> nat -> Outcome)
    requires forall m: nat :: m < n ==> Registry(DeliverRow(w, row, m, c, write))
    requires id in w.subs
    ensures id in DeliverRow(w, row, n, c, write).subs
    ensures DeliverRow(w, row, n, c, write).subs[id]
         == if 0 <= id < n then Delivered(w.subs[id], row, c.bufferMax, write(id)).sub else w.subs[id]
  {
    if n > 0 {
      LoopReaches(w, row, n - 1, id, c, write);
      DeliverToSub(DeliverRow(w, row, n - 1, c, write), row, n - 1, id, c, write);
    }
  }

  /** What a polled row does to a subscriber does not depend on the others. */
  lemma DeliverRowSub(w: World, row: Row, n: nat, id: int, c: Config, write: int -> nat -> Outcome)
    requires Orderly(w, c) && id in w.subs
    ensures id in DeliverRow(w, row, n, c, write).subs
    ensures DeliverRow(w, row, n, c, write).subs[id]
         == if id < n then Delivered(w.subs[id], row, c.bufferMax, write(id)).sub else w.subs[id]
  {
    forall m: nat | m < n ensures Registry(DeliverRow(w, row, m, c, write)) {
      DeliverRowRegistry(w, row, m, c, write);
    }
    LoopReaches(w, row, n, id, c, write);
  }

  lemma {:induction false} DeliverRowsSub(w: World, rows: seq<Row>, id: int, c: Config, write: int -> nat -> Outcome)
    requires Orderly(w, c) && id in w.subs
    ensures var v := DeliverRows(w, rows, c, write);
      && v.subs.Keys == w.subs.Keys && v.nextId == w.nextId && v.phases == w.phases
      && v.subs[id] == DeliveredAll(w.subs[id], rows, c.bufferMax, write(id))
  {
    if rows != [] {
      var init := rows[..|rows| - 1];
      DeliverRowsSub(w, init, id, c, write);
      DeliverRowsOrderly(w, init, c, write);
      var v := DeliverRows(w, init, c, write);
      DeliverRowSub(v, rows[|rows| - 1], v.nextId, id, c, write);
      DeliverRowFrame(v, rows[|rows| - 1], v.nextId, c, write);
    }
  }

  lemma {:induction false} DeliverRowsRest(w: World, rows: seq<Row>, c: Config, write: int -> nat -> Outcome)
    ensures var v := DeliverRows(w, rows, c, write);
      && v.history == w.history && v.purged == w.purged && v.cursor == w.cursor
      && v.running == w.running && v.stopping == w.stopping && v.poll == w.poll
  {
    if rows != [] {
      DeliverRowsRest(w, rows[..|rows| - 1], c, write);
      var v := DeliverRows(w, rows[..|rows| - 1], c, write);
      DeliverRowRest(v, rows[|rows| - 1], v.nextId, c, write);
    }
  }

  lemma {:induction false} DeliverRowRest(w: World, row: Row, n: nat, c: Config, write: int -> nat -> Outcome)
    ensures var v := DeliverRow(w, row, n, c, write);
      && v.history == w.history && v.purged == w.purged && v.cursor == w.cursor
      && v.running == w.running && v.stopping == w.stopping && v.poll == w.poll
  {
    if n > 0 {
      DeliverRowRest(w, row, n - 1, c, write);
    }
  }

  lemma {:induction false} CloseBelowSub(w: World, n: nat, id: int)
    requires id in w.subs
    ensures var v := CloseBelow(w, n);
      && v.subs.Keys == w.subs.Keys && v.nextId == w.nextId && v.phases == w.phases
      && v.history == w.history && v.purged == w.purged && v.cursor == w.cursor && v.poll == w.poll
      && (v.subs[id] == w.subs[id] || v.subs[id] == ClosedLocally(w.subs[id]).sub)
  {
    if n > 0 {
      CloseBelowSub(w, n - 1, id);
    }
  }

  lemma {:induction false} DeliverRowsKeys(w: World, rows: seq<Row>, c: Config, write: int -> nat -> Outcome)
    ensures DeliverRows(w, rows, c, write).subs.Keys == w.subs.Keys
  {
    if rows != [] {
      DeliverRowsKeys(w, rows[..|rows| - 1], c, write);
      var v := DeliverRows(w, rows[..|rows| - 1], c, write);
      DeliverRowFrame(v, rows[|rows| - 1], v.nextId, c, write);
    }
  }

  lemma {:induction false} CloseBelowKeys(w: World, n: nat)
    ensures CloseBelow(w, n).subs.Keys == w.subs.Keys
  {
    if n > 0 {
      CloseBelowKeys(w, n - 1);
    }
  }

  // ------------------------------------------------------ history and cursor

  ghost predicate PollReady(w: World) {
    w.poll.Some? ==> w.poll.value <= Select(w.history, None, Floor(w), LastRowId(w.history))
  }

  /** Ids grow, the cursor and retention stay inside the history, and a poll in flight holds
      the rows that follow the floor. */
  ghost predicate WellFormed(w: World) {
    && Ascending(w.history)
    && 0 <= w.cursor <= LastRowId(w.history) && 0 <= w.purged <= LastRowId(w.history)
    && PollReady(w)
  }

  lemma MaxVisibleBounds(w: World)
    requires Ascending(w.history)
    ensures 0 <= MaxVisible(w) <= LastRowId(w.history)
    ensures forall x :: x in w.history && w.purged < x.id ==> x.id <= MaxVisible(w)
    ensures Visible(w) != [] ==> w.purged < MinVisible(w) <= MaxVisible(w)
  {
    var v := Visible(w);
    SelectAscending(w.history, None, w.purged, LastRowId(w.history));
    IdsUpToLast(w.history);
    IdsUpToLast(v);
    forall x | x in w.history && w.purged < x.id ensures x.id <= MaxVisible(w) {
      assert x in v;
    }
    if v != [] {
      assert v[0] in v && v[|v| - 1] in v;
    }
  }

  lemma CommitWellFormed(w: World, r: Row)
    requires WellFormed(w) && r.id > LastRowId(w.history)
    ensures WellFormed(w.(history := w.history + [r]))
  {
    var v := w.(history := w.history + [r]);
    CommitAscending(w.history, r);
    assert v.history[..|w.history|] == w.history;
    var f := Floor(w);
    IdsUpToLast(w.history);
    SelectSplit(v.history, None, f, LastRowId(w.history), r.id);
    SelectAfterCommit(w.history, r, None, f, LastRowId(w.history));
  }

  lemma PollWellFormed(w: World, c: Config, write: int -> nat -> Outcome)
    requires WellFormed(w) && w.poll.Some?
    ensures WellFormed(FinishPoll(w, c, write))
    ensures w.cursor <= FinishPoll(w, c, write).cursor
  {
    var rows := w.poll.value;
    DeliverRowsRest(w, rows, c, write);
    if rows != [] {
      var s := Select(w.history, None, Floor(w), LastRowId(w.history));
      assert s[|rows| - 1] == rows[|rows| - 1];
      assert rows[|rows| - 1] in s;
    }
  }

  /** The part of the state polling reads is untouched by the steps of a subscriber. */
  ghost predicate SameRest(w: World, v: World) {
    v.history == w.history && v.purged == w.purged && v.cursor == w.cursor && v.poll == w.poll && v.nextId == w.nextId
  }

  lemma GoLiveRest(w: World, id: int, resynced: bool, write: int -> nat -> Outcome)
    requires id in w.subs
    ensures SameRest(w, GoLive(w, id, resynced, write))
  {
  }

  lemma GiveUpRest(w: World, id: int, reason: string, mark: int, c: Config, write: int -> nat -> Outcome)
    requires id in w.subs
    ensures SameRest(w, GiveUp(w, id, reason, mark, c, write))
  {
    var e := Enqueued(w.subs[id], Resync(reason), true, c.bufferMax, write(id));
    if !e.thrown {
      GoLiveRest(Settle(w, id, e.(sub := e.sub.(lastSent := Some(mark)))), id, true, write);
    }
  }

  lemma BatchRest(w: World, id: int, c: Config, write: int -> nat -> Outcome)
    requires id in w.subs
    ensures SameRest(w, ReplayBatch(w, id, c, write))
  {
    if id in w.phases && w.phases[id].Replaying? {
      var Replaying(last, mark, current, delivered) := w.phases[id];
      var p0 := Progress(Effect(w.subs[id], false, false), current, delivered, false);
      var v := Settle(w, id, ReplayRows(p0, ReplayQuery(w, id, c), c, write(id)).effect);
      GiveUpRest(v, id, "replay_limit_exceeded", mark, c, write);
      GoLiveRest(v, id, false, write);
    }
  }

  lemma OpeningKeepsRest(w: World, l: Label, c: Config, write: int -> nat -> Outcome)
    requires OpeningStep(l)
    ensures SameRest(w, Apply(w, l, c, write))
  {
    if l.id in w.subs {
      match l
      case Watermark(id) => GoLiveRest(w, id, false, write);
      case Bounds(id) =>
        if id in w.phases && w.phases[id].NeedBounds? {
          GiveUpRest(w, id, "invalid_last_event_id", w.phases[id].mark, c, write);
          GiveUpRest(w, id, "history_not_available", w.phases[id].mark, c, write);
          GoLiveRest(w, id, false, write);
        }
      case Batch(id) => BatchRest(w, id, c, write);
      case _ =>
    }
  }

  lemma SameRestWellFormed(w: World, v: World)
    requires WellFormed(w) && SameRest(w, v)
    ensures WellFormed(v)
  {
  }

  lemma PurgeWellFormed(w: World, upTo: int)
    requires WellFormed(w) && upTo <= w.cursor
    ensures WellFormed(w.(purged := Max(w.purged, upTo)))
  {
    assert Floor(w.(purged := Max(w.purged, upTo))) == Floor(w);
  }

  lemma StartWellFormed(w: World)
    requires WellFormed(w) && w.poll.None?
    ensures WellFormed(w.(running := true, cursor := MaxVisible(w)))
  {
    MaxVisibleBounds(w);
  }

  lemma QueryWellFormed(w: World, c: Config)
    requires WellFormed(w)
    ensures WellFormed(w.(poll := Some(PollRows(w, c))))
  {
  }

  lemma ApplyWellFormed(w: World, l: Label, c: Config, write: int -> nat -> Outcome)
    requires WellFormed(w)
    ensures WellFormed(Apply(w, l, c, write))
  {
    if OpeningStep(l) {
      OpeningKeepsRest(w, l, c, write);
      SameRestWellFormed(w, Apply(w, l, c, write));
    } else if l.PollDeliver? || l.StopEnd? {
      PollOrStopWellFormed(w, l, c, write);
    } else {
      OutsideWellFormed(w, l, c, write);
    }
  }

  lemma PollOrStopWellFormed(w: World, l: Label, c: Config, write: int -> nat -> Outcome)
    requires WellFormed(w) && (l.PollDeliver? || l.StopEnd?)
    ensures WellFormed(Apply(w, l, c, write))
  {
    if l.StopEnd? {
      CloseBelowRest(w, w.nextId);
    } else if w.poll.Some? {
      PollWellFormed(w, c, write);
    }
  }

  lemma OutsideWellFormed(w: World, l: Label, c: Config, write: int -> nat -> Outcome)
    requires WellFormed(w) && !OpeningStep(l) && !l.PollDeliver? && !l.StopEnd?
    ensures WellFormed(Apply(w, l, c, write))
  {
    if OutboxStep(l) {
      OutboxWellFormed(w, l, c);
    } else {
      KeptWellFormed(w, Apply(w, l, c, write));
    }
  }

  lemma KeptWellFormed(w: World, v: World)
    requires WellFormed(w) && v.history == w.history && v.purged == w.purged && v.cursor == w.cursor
    requires v.poll == w.poll || v.poll.None?
    ensures WellFormed(v)
  {
  }

  lemma OutboxWellFormed(w: World, l: Label, c: Config)
    requires WellFormed(w) && OutboxStep(l)
    ensures WellFormed(ApplyOutbox(w, l, c))
  {
    var v := ApplyOutbox(w, l, c);
    if l.Commit? {
      var r := Row(LastRowId(w.history) + 1 + l.gap, l.branch, l.body);
      CommitWellFormed(w, r);
      assert v == w.(history := w.history + [r]);
    } else if l.Purge? && l.upTo <= w.cursor {
      PurgeWellFormed(w, l.upTo);
      assert v == w.(purged := Max(w.purged, l.upTo));
    } else if l.Start? && v.running != w.running {
      StartWellFormed(w);
      assert v == w.(running := true, cursor := MaxVisible(w));
    } else if l.PollQuery? && v.poll != w.poll {
      QueryWellFormed(w, c);
      assert v == w.(poll := Some(PollRows(w, c)));
    } else {
      assert v.history == w.history && v.purged == w.purged && v.cursor == w.cursor;
      KeptWellFormed(w, v);
    }
  }

  lemma {:induction false} CloseBelowRest(w: World, n: nat)
    ensures var v := CloseBelow(w, n);
      v.history == w.history && v.purged == w.purged && v.cursor == w.cursor && v.poll == w.poll
  {
    if n > 0 {
      CloseBelowRest(w, n - 1);
    }
  }

  /** Both run invariants together. */
  ghost predicate Good(w: World, c: Config) { Orderly(w, c) && WellFormed(w) }

  lemma ApplyGood(w: World, l: Label, c: Config, write: int -> nat -> Outcome)
    requires Good(w, c) && KeepsBooks(l)
    ensures Good(Apply(w, l, c, write), c)
  {
    ApplyOrderly(w, l, c, write);
    ApplyWellFormed(w, l, c, write);
  }

  ghost predicate AllKeepBooks(labels: seq<Label>) { forall i :: 0 <= i < |labels| ==> KeepsBooks(labels[i]) }

  lemma {:induction false} RunGood(w: World, labels: seq<Label>, c: Config, write: int -> nat -> Outcome)
    requires Good(w, c) && AllKeepBooks(labels)
    ensures Good(Run(w, labels, c, write), c)
  {
    if labels != [] {
      RunGood(w, labels[..|labels| - 1], c, write);
      ApplyGood(Run(w, labels[..|labels| - 1], c, write), labels[|labels| - 1], c, write);
    }
  }

  lemma InitGood(c: Config)
    ensures Good(Init(), c)
  {
    RunOrderly([], c, _ => _ => Accepted);
  }

  // ------------------------------------------------------------- the promise

  /** What a subscriber is owed: some rows already settled, then every later row of its branch. */
  datatype Promise = Promise(before: seq<Row>, upTo: int)

  function Due(p: Promise, h: seq<Row>, branch: int, cursor: int): seq<Row> {
    p.before + Select(h, Some(branch), p.upTo, Max(p.upTo, cursor))
  }

  ghost predicate IdsWithin(items: seq<Item>, lo: int, hi: int) {
    forall i :: 0 <= i < |items| && items[i].Event? ==> lo < items[i].row.id <= hi
  }

  /** Rows the poll will still meet although the promise counts them as settled are stale. */
  ghost predicate SettledAreStale(s: Sub, p: Promise, h: seq<Row>, floor: int) {
    forall x :: x in h && Wanted(x, Some(s.branch), floor, p.upTo) ==> s.lastSent.Some? && x.id <= s.lastSent.value
  }

  ghost predicate Guarded(s: Sub, p: Promise, h: seq<Row>, cursor: int, purged: int) {
    && purged <= Max(p.upTo, cursor)
    && (s.lastSent.Some? ==> s.lastSent.value <= Max(p.upTo, cursor))
    && IdsWithin(s.queue, p.upTo, Max(p.upTo, cursor))
    && SettledAreStale(s, p, h, Max(cursor, purged))
  }

  /** An open subscriber has been written, or has queued, exactly what is due; a closed one
      was written a prefix of it. */
  ghost predicate Owed(s: Sub, p: Promise, h: seq<Row>, cursor: int, purged: int) {
    && p.upTo <= LastRowId(h)
    && if s.closed then Events(s.written) <= Due(p, h, s.branch, cursor)
       else Events(s.written + s.queue) == Due(p, h, s.branch, cursor) && Guarded(s, p, h, cursor, purged)
  }

  lemma {:induction false} LastIdWithin(items: seq<Item>, before: Option<int>, lo: int, hi: int)
    requires IdsWithin(items, lo, hi)
    ensures LastId(items, before) == before || (LastId(items, before).Some? && lo < LastId(items, before).value <= hi)
  {
    if items != [] && !items[|items| - 1].Event? {
      LastIdWithin(items[..|items| - 1], before, lo, hi);
    }
  }

  lemma PartsWithin(queue: seq<Item>, k: nat, lo: int, hi: int)
    requires k <= |queue| && IdsWithin(queue, lo, hi)
    ensures IdsWithin(queue[..k], lo, hi) && IdsWithin(queue[k..], lo, hi)
  {
  }

  lemma OwedFlush(s: Sub, p: Promise, h: seq<Row>, cursor: int, purged: int, write: nat -> Outcome)
    requires Owed(s, p, h, cursor, purged)
    ensures Owed(Flushed(s, write).sub, p, h, cursor, purged)
  {
    var k := FlushMoves(s, write);
    if !s.closed {
      MovedFeed(s.written, s.queue, k);
      PartsWithin(s.queue, k, p.upTo, Max(p.upTo, cursor));
      LastIdWithin(s.queue[..k], s.lastSent, p.upTo, Max(p.upTo, cursor));
      OwedMoved(s, Flushed(s, write).sub, p, h, cursor, purged);
    }
  }

  /** Moving part of the queue to the log settles nothing new. */
  lemma OwedMoved(s: Sub, t: Sub, p: Promise, h: seq<Row>, cursor: int, purged: int)
    requires Owed(s, p, h, cursor, purged) && !s.closed && !t.closed && t.branch == s.branch
    requires t.written + t.queue == s.written + s.queue && IdsWithin(t.queue, p.upTo, Max(p.upTo, cursor))
    requires t.lastSent == s.lastSent || (t.lastSent.Some? && p.upTo < t.lastSent.value <= Max(p.upTo, cursor))
    ensures Owed(t, p, h, cursor, purged)
  {
  }

  lemma OwedDrained(s: Sub, p: Promise, h: seq<Row>, cursor: int, purged: int, write: nat -> Outcome)
    requires Owed(s, p, h, cursor, purged)
    ensures Owed(Drained(s, write).sub, p, h, cursor, purged)
  {
    OwedFlush(s.(draining := false), p, h, cursor, purged, write);
  }

  lemma OwedClosed(s: Sub, t: Sub, p: Promise, h: seq<Row>, cursor: int, purged: int)
    requires Owed(s, p, h, cursor, purged) && t.closed && t.branch == s.branch
    requires s.closed ==> t.written == s.written
    requires !s.closed ==> exists rest :: Events(t.written) + rest == Events(s.written + s.queue)
    ensures Owed(t, p, h, cursor, purged)
  {
  }

  lemma OwedClosedLocally(s: Sub, p: Promise, h: seq<Row>, cursor: int, purged: int)
    requires Owed(s, p, h, cursor, purged)
    ensures Owed(ClosedLocally(s).sub, p, h, cursor, purged)
  {
    EventsAppend(s.written, s.queue);
    OwedClosed(s, s.(closed := true, queue := []), p, h, cursor, purged);
  }

  lemma OwedCommit(s: Sub, p: Promise, h: seq<Row>, cursor: int, purged: int, r: Row)
    requires Ascending(h) && cursor <= LastRowId(h) < r.id && Owed(s, p, h, cursor, purged)
    ensures Owed(s, p, h + [r], cursor, purged)
  {
    SelectAfterCommit(h, r, Some(s.branch), p.upTo, Max(p.upTo, cursor));
  }

  /** What becomes due when the cursor moves to the next row. */
  lemma DueNext(p: Promise, h: seq<Row>, branch: int, cursor: int, floor: int, row: Row)
    requires Ascending(h) && row in h && cursor <= floor < row.id && floor <= Max(p.upTo, cursor)
    requires Select(h, None, floor, row.id) == [row]
    ensures Due(p, h, branch, row.id)
         == Due(p, h, branch, cursor) + if row.branch == branch && row.id > p.upTo then [row] else []
  {
    var m := Max(p.upTo, cursor);
    if row.id > p.upTo {
      SelectSplit(h, Some(branch), p.upTo, m, row.id);
      OnlyRowIsLast(h, floor, m, row, branch);
    }
  }

  lemma OnlyRowIsLast(h: seq<Row>, floor: int, m: int, row: Row, branch: int)
    requires Ascending(h) && row in h && floor <= m < row.id
    requires Select(h, None, floor, row.id) == [row]
    ensures Select(h, Some(branch), m, row.id) == if row.branch == branch then [row] else []
  {
    assert Select(h, None, m, row.id) == [row] by {
      forall x | x in h && Wanted(x, None, m, row.id) ensures x == row {
        assert x in Select(h, None, floor, row.id);
      }
      SelectOne(h, None, m, row.id, row);
    }
    WindowOfBranch(h, m, row, branch);
  }

  /** The next polled row reaches an owed subscriber exactly once: kept when it is due,
      dropped when it was settled before, and a subscriber that overflows is closed. */
  lemma OwedDelivered(s: Sub, p: Promise, h: seq<Row>, cursor: int, purged: int, row: Row, bufferMax: nat, write: nat -> Outcome)
    requires Ascending(h) && row in h && Max(cursor, purged) < row.id
    requires Select(h, None, Max(cursor, purged), row.id) == [row]
    requires Owed(s, p, h, cursor, purged) && NeverThrows(write)
    ensures Owed(Delivered(s, row, bufferMax, write).sub, p, h, row.id, purged)
  {
    if s.closed {
      SelectSplit(h, Some(s.branch), p.upTo, Max(p.upTo, cursor), Max(p.upTo, row.id));
    } else {
      DueNext(p, h, s.branch, cursor, Max(cursor, purged), row);
      if row.branch != s.branch || row.id <= p.upTo {
        OwedAdvances(s, p, h, cursor, purged, row);
      } else if |s.queue| >= bufferMax {
        OwedOverflow(s, p, h, cursor, purged, row, bufferMax, write);
      } else {
        OwedPush(s, p, h, cursor, purged, row);
        OwedFlush(Push(s, Event(row)), p, h, row.id, purged, write);
      }
    }
  }

  lemma OwedAdvances(s: Sub, p: Promise, h: seq<Row>, cursor: int, purged: int, row: Row)
    requires !s.closed && Owed(s, p, h, cursor, purged) && Max(cursor, purged) < row.id
    requires Due(p, h, s.branch, row.id) == Due(p, h, s.branch, cursor)
    ensures Owed(s, p, h, row.id, purged)
  {
  }

  lemma OwedPush(s: Sub, p: Promise, h: seq<Row>, cursor: int, purged: int, row: Row)
    requires !s.closed && Owed(s, p, h, cursor, purged) && Max(cursor, purged) < row.id && p.upTo < row.id
    requires Due(p, h, s.branch, row.id) == Due(p, h, s.branch, cursor) + [row]
    ensures Owed(Push(s, Event(row)), p, h, row.id, purged)
  {
    PushGuarded(s, p, h, cursor, purged, row);
    EventsSnoc(s.written + s.queue, Event(row));
    assert Push(s, Event(row)).written + Push(s, Event(row)).queue == (s.written + s.queue) + [Event(row)];
  }

  lemma PushGuarded(s: Sub, p: Promise, h: seq<Row>, cursor: int, purged: int, row: Row)
    requires Guarded(s, p, h, cursor, purged) && Max(cursor, purged) < row.id && p.upTo < row.id
    ensures Guarded(Push(s, Event(row)), p, h, row.id, purged)
  {
    var t := Push(s, Event(row));
    forall i | 0 <= i < |t.queue| && t.queue[i].Event? ensures p.upTo < t.queue[i].row.id <= row.id {
      if i < |s.queue| { assert t.queue[i] == s.queue[i]; }
    }
  }

  lemma OwedOverflow(s: Sub, p: Promise, h: seq<Row>, cursor: int, purged: int, row: Row, bufferMax: nat, write: nat -> Outcome)
    requires !s.closed && Owed(s, p, h, cursor, purged) && NeverThrows(write) && |s.queue| >= bufferMax
    requires Due(p, h, s.branch, row.id) == Due(p, h, s.branch, cursor) + [row]
    requires row.branch == s.branch && !Stale(s, Event(row))
    ensures Owed(Delivered(s, row, bufferMax, write).sub, p, h, row.id, purged)
  {
    var resync := Resync("client_buffer_overflow");
    var t := Flushed(Push(s, resync), write).sub;
    NoThrowFlushed(Push(s, resync), write);
    ResyncIsNoEvent(s, resync, write);
    var rest := Events(t.queue) + [row];
    assert Events(t.written) + rest == (Events(t.written) + Events(t.queue)) + [row];
    assert Delivered(s, row, bufferMax, write).sub == t.(closed := true);
    OwedByClosing(t.(closed := true), s.branch, rest, p, h, row.id, purged);
  }

  lemma ResyncIsNoEvent(s: Sub, resync: Item, write: nat -> Outcome)
    requires resync.Resync?
    ensures var t := Flushed(Push(s, resync), write).sub;
      Events(t.written) + Events(t.queue) == Events(s.written + s.queue) && t.branch == s.branch
  {
    var u := Push(s, resync);
    var t := Flushed(u, write).sub;
    FlushedSound(u, write);
    FlushKeepsFeed(u, write);
    assert u.written + u.queue == (s.written + s.queue) + [resync];
    EventsSnoc(s.written + s.queue, resync);
    EventsAppend(t.written, t.queue);
  }

  lemma OwedByClosing(t: Sub, branch: int, rest: seq<Row>, p: Promise, h: seq<Row>, cursor: int, purged: int)
    requires t.closed && t.branch == branch && p.upTo <= LastRowId(h)
    requires Events(t.written) + rest == Due(p, h, branch, cursor)
    ensures Owed(t, p, h, cursor, purged)
  {
  }

  /** The cursor after the first k of `rows`. */
  function Reached(rows: seq<Row>, k: nat, cursor: int): int
    requires k <= |rows|
  {
    if k == 0 then cursor else rows[k - 1].id
  }

  /** A whole poll batch, row by row. */
  lemma {:induction false} OwedBatch(
    s: Sub, p: Promise, h: seq<Row>, cursor: int, purged: int, rows: seq<Row>, k: nat, bufferMax: nat, write: nat -> Outcome)
    requires Ascending(h) && Owed(s, p, h, cursor, purged) && NeverThrows(write)
    requires rows == Select(h, None, Max(cursor, purged), LastRowId(h)) && k <= |rows|
    ensures Owed(DeliveredAll(s, rows[..k], bufferMax, write), p, h, Reached(rows, k, cursor), purged)
  {
    if k > 0 {
      OwedBatch(s, p, h, cursor, purged, rows, k - 1, bufferMax, write);
      assert rows[..k][..k - 1] == rows[..k - 1];
      var t := DeliveredAll(s, rows[..k - 1], bufferMax, write);
      NextReached(h, cursor, purged, rows, k - 1);
      OwedDelivered(t, p, h, Reached(rows, k - 1, cursor), purged, rows[k - 1], bufferMax, write);
    }
  }

  lemma NextReached(h: seq<Row>, cursor: int, purged: int, rows: seq<Row>, k: nat)
    requires Ascending(h) && rows == Select(h, None, Max(cursor, purged), LastRowId(h)) && k < |rows|
    ensures var floor := Max(Reached(rows, k, cursor), purged);
      rows[k] in h && floor < rows[k].id && Select(h, None, floor, rows[k].id) == [rows[k]]
  {
    NextRow(h, None, Max(cursor, purged), LastRowId(h), k);
  }

  // ------------------------------------------------------------ in the world

  predicate Opened(ph: Phase) { ph == NeedWatermark(None) || ph.Live? || ph.Failed? }

  ghost predicate OwedAt(w: World, id: int, p: Promise) {
    && id in w.subs && id in w.phases && Opened(w.phases[id])
    && Owed(w.subs[id], p, w.history, w.cursor, w.purged)
  }

  lemma GoLiveOthers(w: World, id: int, resynced: bool, write: int -> nat -> Outcome, other: int)
    requires id in w.subs && other != id
    ensures Same(w, GoLive(w, id, resynced, write), other)
  {
  }

  /** Subscriber `id` and its phase are as before. */
  predicate Same(w: World, v: World, id: int) {
    && (id in v.subs <==> id in w.subs) && (id in v.phases <==> id in w.phases)
    && (id in w.subs ==> v.subs[id] == w.subs[id]) && (id in w.phases ==> v.phases[id] == w.phases[id])
  }

  lemma GiveUpOthers(w: World, id: int, reason: string, mark: int, c: Config, write: int -> nat -> Outcome, other: int)
    requires id in w.subs && other != id
    ensures Same(w, GiveUp(w, id, reason, mark, c, write), other)
  {
    var e := Enqueued(w.subs[id], Resync(reason), true, c.bufferMax, write(id));
    if !e.thrown {
      GoLiveOthers(Settle(w, id, e.(sub := e.sub.(lastSent := Some(mark)))), id, true, write, other);
    }
  }

  lemma BatchOthers(w: World, id: int, c: Config, write: int -> nat -> Outcome, other: int)
    requires id in w.subs && other != id
    ensures Same(w, ReplayBatch(w, id, c, write), other)
  {
    if id in w.phases && w.phases[id].Replaying? {
      var Replaying(last, mark, current, delivered) := w.phases[id];
      var p0 := Progress(Effect(w.subs[id], false, false), current, delivered, false);
      var v := Settle(w, id, ReplayRows(p0, ReplayQuery(w, id, c), c, write(id)).effect);
      GiveUpOthers(v, id, "replay_limit_exceeded", mark, c, write, other);
      GoLiveOthers(v, id, false, write, other);
    }
  }

  lemma BoundsOthers(w: World, id: int, c: Config, write: int -> nat -> Outcome, other: int)
    requires id in w.subs && other != id
    ensures Same(w, ReadBounds(w, id, c, write), other)
  {
    if id in w.phases && w.phases[id].NeedBounds? {
      GiveUpOthers(w, id, "invalid_last_event_id", w.phases[id].mark, c, write, other);
      GiveUpOthers(w, id, "history_not_available", w.phases[id].mark, c, write, other);
      GoLiveOthers(w, id, false, write, other);
    }
  }

  lemma OpeningKeepsOthers(w: World, l: Label, c: Config, write: int -> nat -> Outcome, other: int)
    requires OpeningStep(l) && l.id != other
    ensures Same(w, Apply(w, l, c, write), other)
  {
    if l.id in w.subs {
      if l.Watermark? {
        GoLiveOthers(w, l.id, false, write, other);
      } else if l.Bounds? {
        BoundsOthers(w, l.id, c, write, other);
      } else if l.Batch? {
        BatchOthers(w, l.id, c, write, other);
      }
    }
  }

  lemma OwedOwnStep(w: World, l: Label, id: int, p: Promise, c: Config, write: int -> nat -> Outcome)
    requires OwedAt(w, id, p) && OpeningStep(l) && l.id == id && NeverThrows(write(id))
    ensures OwedAt(Apply(w, l, c, write), id, p)
  {
    var s := w.subs[id];
    OwedFlush(s, p, w.history, w.cursor, w.purged, write(id));
    OwedDrained(s, p, w.history, w.cursor, w.purged, write(id));
    OwedClosedLocally(s, p, w.history, w.cursor, w.purged);
    NoThrowFlushed(s, write(id));
  }

  lemma OwedPoll(w: World, id: int, p: Promise, c: Config, write: int -> nat -> Outcome)
    requires Good(w, c) && OwedAt(w, id, p) && NeverThrows(write(id)) && w.poll.Some?
    ensures OwedAt(FinishPoll(w, c, write), id, p)
  {
    var rows := w.poll.value;
    var all := Select(w.history, None, Floor(w), LastRowId(w.history));
    assert rows == all[..|rows|];
    assert Reached(all, |rows|, w.cursor) == Reached(rows, |rows|, w.cursor);
    DeliverRowsSub(w, rows, id, c, write);
    DeliverRowsRest(w, rows, c, write);
    OwedBatch(w.subs[id], p, w.history, w.cursor, w.purged, all, |rows|, c.bufferMax, write(id));
  }

  lemma OwedOutside(w: World, l: Label, id: int, p: Promise, c: Config, write: int -> nat -> Outcome)
    requires Good(w, c) && OwedAt(w, id, p) && !OpeningStep(l) && !l.PollDeliver? && !l.StopEnd? && !l.Start?
    ensures OwedAt(Apply(w, l, c, write), id, p)
  {
    if OutboxStep(l) {
      OwedOutbox(w, l, id, p, c);
    } else {
      assert id < w.nextId;
    }
  }

  lemma OwedOutbox(w: World, l: Label, id: int, p: Promise, c: Config)
    requires WellFormed(w) && OwedAt(w, id, p) && OutboxStep(l) && !l.Start?
    ensures OwedAt(ApplyOutbox(w, l, c), id, p)
  {
    var v := ApplyOutbox(w, l, c);
    OutboxKeepsSubscribers(w, l, c);
    if l.Commit? {
      OwedCommit(w.subs[id], p, w.history, w.cursor, w.purged, Row(LastRowId(w.history) + 1 + l.gap, l.branch, l.body));
    } else {
      assert v.history == w.history && v.cursor == w.cursor && Max(w.cursor, v.purged) == Max(w.cursor, w.purged);
    }
  }

  lemma OwedStep(w: World, l: Label, id: int, p: Promise, c: Config, write: int -> nat -> Outcome)
    requires Good(w, c) && OwedAt(w, id, p) && NeverThrows(write(id)) && !l.Start?
    ensures OwedAt(Apply(w, l, c, write), id, p)
  {
    if OpeningStep(l) {
      if l.id == id {
        OwedOwnStep(w, l, id, p, c, write);
      } else {
        OpeningKeepsOthers(w, l, c, write, id);
        OpeningKeepsRest(w, l, c, write);
      }
    } else if l.PollDeliver? {
      if w.poll.Some? { OwedPoll(w, id, p, c, write); }
    } else if l.StopEnd? {
      CloseBelowSub(w, w.nextId, id);
      OwedClosedLocally(w.subs[id], p, w.history, w.cursor, w.purged);
    } else {
      OwedOutside(w, l, id, p, c, write);
    }
  }

  /** The cursor is not initialised again. */
  ghost predicate NoStart(labels: seq<Label>) { forall i :: 0 <= i < |labels| ==> !labels[i].Start? }

  lemma {:induction false} OwedRun(w: World, labels: seq<Label>, id: int, p: Promise, c: Config, write: int -> nat -> Outcome)
    requires Good(w, c) && OwedAt(w, id, p) && NeverThrows(write(id))
    requires AllKeepBooks(labels) && NoStart(labels)
    ensures OwedAt(Run(w, labels, c, write), id, p)
  {
    if labels != [] {
      var init := labels[..|labels| - 1];
      OwedRun(w, init, id, p, c, write);
      RunGood(w, init, c, write);
      OwedStep(Run(w, init, c, write), labels[|labels| - 1], id, p, c, write);
    }
  }

  lemma DeliveredFrom(w: World, address: string, branch: int, after: seq<Label>, c: Config, write: int -> nat -> Outcome)
    requires Good(w, c) && AllKeepBooks(after) && NoStart(after) && Stable(NormalizeIp(address))
    requires Accepts(w, c, address) && NeverThrows(write(w.nextId))
    ensures var v := Run(Register(w, address, branch, None), after, c, write);
      w.nextId in v.subs && DeliversWindow(v.subs[w.nextId], branch, v.history, Floor(w), Max(Floor(w), v.cursor))
  {
    var u := Register(w, address, branch, None);
    RegisterOrderly(w, address, branch, None, c);
    SameRestWellFormed(w, u.(nextId := w.nextId));
    NewcomerOwed(w, branch, NormalizeIp(address));
    OwedRun(u, after, w.nextId, Promise([], Floor(w)), c, write);
    RunGood(u, after, c, write);
    KeepsBranch(u, after, w.nextId, c, write);
    OwedIsWindow(Run(u, after, c, write), w.nextId, branch, Floor(w));
  }

  /** A subscriber opened without Last-Event-ID: in every later state, what it was written
      and has queued are exactly the rows of its branch from the cursor at registration to
      the cursor now, in increasing order and once each; once closed, a prefix of them. */
  lemma DeliveredExactly(
    before: seq<Label>, address: string, branch: int, after: seq<Label>, c: Config, write: int -> nat -> Outcome)
    requires AllKeepBooks(before) && AllKeepBooks(after) && NoStart(after) && Stable(NormalizeIp(address))
    requires var w := Run(Init(), before, c, write); Accepts(w, c, address) && NeverThrows(write(w.nextId))
    ensures var w := Run(Init(), before, c, write);
      var v := Run(Register(w, address, branch, None), after, c, write);
      w.nextId in v.subs && DeliversWindow(v.subs[w.nextId], branch, v.history, Floor(w), Max(Floor(w), v.cursor))
  {
    InitGood(c);
    RunGood(Init(), before, c, write);
    DeliveredFrom(Run(Init(), before, c, write), address, branch, after, c, write);
  }

  lemma OwedIsWindow(v: World, id: int, branch: int, lo: int)
    requires WellFormed(v) && OwedAt(v, id, Promise([], lo)) && v.subs[id].branch == branch
    ensures DeliversWindow(v.subs[id], branch, v.history, lo, Max(lo, v.cursor))
  {
    SelectAscending(v.history, Some(branch), lo, Max(lo, v.cursor));
    assert Due(Promise([], lo), v.history, branch, v.cursor) == Select(v.history, Some(branch), lo, Max(lo, v.cursor));
  }

  ghost predicate DeliversWindow(s: Sub, branch: int, h: seq<Row>, lo: int, hi: int) {
    var rows := Select(h, Some(branch), lo, hi);
    && Ascending(rows)
    && (if s.closed then Events(s.written) <= rows else Events(s.written + s.queue) == rows)
  }

  lemma NewcomerOwed(w: World, branch: int, ip: string)
    requires WellFormed(w)
    ensures Owed(Newcomer(branch, ip), Promise([], Floor(w)), w.history, w.cursor, w.purged)
  {
    SelectNone(w.history, Some(branch), Floor(w), Floor(w));
  }

  // ---------------------------------------------- identity and permanence

  /** Subscribers stay, keep branch and address, and stay closed. */
  ghost predicate Persists(w: World, v: World, id: int)
    requires id in w.subs
  {
    && id in v.subs && v.subs[id].branch == w.subs[id].branch && v.subs[id].ip == w.subs[id].ip
    && w.subs[id].attempts <= v.subs[id].attempts
    && (w.subs[id].closed ==> v.subs[id].closed)
  }

  lemma GoLivePersists(w: World, id: int, resynced: bool, write: int -> nat -> Outcome)
    requires id in w.subs
    ensures Persists(w, GoLive(w, id, resynced, write), id)
  {
    FlushedSound(w.subs[id], write(id));
  }

  lemma GiveUpPersists(w: World, id: int, reason: string, mark: int, c: Config, write: int -> nat -> Outcome)
    requires id in w.subs
    ensures Persists(w, GiveUp(w, id, reason, mark, c, write), id)
  {
    var e := Enqueued(w.subs[id], Resync(reason), true, c.bufferMax, write(id));
    EnqueuedSound(w.subs[id], Resync(reason), true, c.bufferMax, write(id));
    if !e.thrown {
      GoLivePersists(Settle(w, id, e.(sub := e.sub.(lastSent := Some(mark)))), id, true, write);
    }
  }

  lemma BatchPersists(w: World, id: int, c: Config, write: int -> nat -> Outcome)
    requires id in w.subs
    ensures Persists(w, ReplayBatch(w, id, c, write), id)
  {
    if id in w.phases && w.phases[id].Replaying? {
      var Replaying(last, mark, current, delivered) := w.phases[id];
      var p0 := Progress(Effect(w.subs[id], false, false), current, delivered, false);
      ReplaySound(w.subs[id], p0, ReplayQuery(w, id, c), c, write(id));
      var p := ReplayRows(p0, ReplayQuery(w, id, c), c, write(id));
      var v := Settle(w, id, p.effect);
      if !p.effect.thrown {
        if p.tooMany {
          GiveUpPersists(v, id, "replay_limit_exceeded", mark, c, write);
        } else {
          GoLivePersists(v, id, false, write);
        }
      }
    }
  }

  lemma BoundsPersists(w: World, id: int, c: Config, write: int -> nat -> Outcome)
    requires id in w.subs
    ensures Persists(w, ReadBounds(w, id, c, write), id)
  {
    if id in w.phases && w.phases[id].NeedBounds? {
      GiveUpPersists(w, id, "invalid_last_event_id", w.phases[id].mark, c, write);
      GiveUpPersists(w, id, "history_not_available", w.phases[id].mark, c, write);
      GoLivePersists(w, id, false, write);
    }
  }

  lemma OwnStepPersists(w: World, l: Label, c: Config, write: int -> nat -> Outcome)
    requires OpeningStep(l) && l.id in w.subs
    ensures Persists(w, Apply(w, l, c, write), l.id)
  {
    var id := l.id;
    FlushedSound(w.subs[id], write(id));
    if l.Watermark? {
      GoLivePersists(w, id, false, write);
    } else if l.Bounds? {
      BoundsPersists(w, id, c, write);
    } else if l.Batch? {
      BatchPersists(w, id, c, write);
    }
  }

  lemma {:induction false} DeliveredAllSound(s: Sub, rows: seq<Row>, bufferMax: nat, write: nat -> Outcome)
    ensures var t := DeliveredAll(s, rows, bufferMax, write);
      t.branch == s.branch && t.ip == s.ip && s.attempts <= t.attempts && (s.closed ==> t == s)
  {
    if rows != [] {
      DeliveredAllSound(s, rows[..|rows| - 1], bufferMax, write);
      DeliveredSound(DeliveredAll(s, rows[..|rows| - 1], bufferMax, write), rows[|rows| - 1], bufferMax, write);
    }
  }

  lemma StepPersists(w: World, l: Label, id: int, c: Config, write: int -> nat -> Outcome)
    requires Orderly(w, c) && id in w.subs
    ensures Persists(w, Apply(w, l, c, write), id)
  {
    if OpeningStep(l) {
      if l.id == id {
        OwnStepPersists(w, l, c, write);
      } else {
        OpeningKeepsOthers(w, l, c, write, id);
      }
    } else if l.PollDeliver? {
      if w.poll.Some? {
        DeliverRowsSub(w, w.poll.value, id, c, write);
        DeliveredAllSound(w.subs[id], w.poll.value, c.bufferMax, write(id));
      }
    } else if l.StopEnd? {
      CloseBelowSub(w, w.nextId, id);
    } else {
      assert id < w.nextId;
    }
  }

  /** Closed is for good in every run, and no subscriber changes branch or address. */
  lemma {:induction false} KeepsBranch(w: World, labels: seq<Label>, id: int, c: Config, write: int -> nat -> Outcome)
    requires Orderly(w, c) && AllKeepBooks(labels) && id in w.subs
    ensures Persists(w, Run(w, labels, c, write), id)
  {
    if labels != [] {
      var init := labels[..|labels| - 1];
      KeepsBranch(w, init, id, c, write);
      RunStaysOrderly(w, init, c, write);
      StepPersists(Run(w, init, c, write), labels[|labels| - 1], id, c, write);
    }
  }

  lemma {:induction false} RunStaysOrderly(w: World, labels: seq<Label>, c: Config, write: int -> nat -> Outcome)
    requires Orderly(w, c) && AllKeepBooks(labels)
    ensures Orderly(Run(w, labels, c, write), c)
  {
    if labels != [] {
      RunStaysOrderly(w, labels[..|labels| - 1], c, write);
      ApplyOrderly(Run(w, labels[..|labels| - 1], c, write), labels[|labels| - 1], c, write);
    }
  }
}
