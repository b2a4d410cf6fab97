/** Who is let in, where a start and an opening begin to read, and when a replay gives up
    (src/services/agendaEventDispatcher.js:182-187, 206-213, 258-370). */
module Opening {
  import opened Subscriber
  import opened Outbox
  import opened Dispatcher
  import opened Delivery
  import opened Polling

  /** A connection is accepted exactly when both the open subscribers and those of its address
      are fewer than their limits. */
  lemma AcceptsIff(w: World, c: Config, address: string)
    requires Books(w)
    ensures Accepts(w, c, address) <==>
      && |set id | id in w.subs && !w.subs[id].closed| < c.maxGlobal
      && |set id | id in w.subs && !w.subs[id].closed && w.subs[id].ip == NormalizeIp(address)| < c.maxPerIp
  {
    var ip := NormalizeIp(address);
    var open := set id | id in w.subs && !w.subs[id].closed;
    var there := set id | id in w.subs && !w.subs[id].closed && w.subs[id].ip == ip;
    forall id ensures id in open <==> id in w.registered { assert id in w.registered ==> id in w.subs.Keys; }
    assert open == w.registered;
    assert there == OpenAt(w, ip);
    assert CountsOpen(w, ip);
  }

  // ----------------------------------------------------------- what is stored

  /** A row that retention has left. */
  predicate Stored(w: World, r: Row) { r in w.history && w.purged < r.id }

  /** `m` is the greatest stored id, or zero when nothing is stored. */
  ghost predicate NewestId(w: World, m: int) {
    (forall r :: r in w.history && Stored(w, r) ==> r.id <= m) && (m == 0 || exists r :: r in w.history && Stored(w, r) && r.id == m)
  }

  lemma NewestIs(w: World)
    requires Ascending(w.history)
    ensures NewestId(w, MaxVisible(w))
  {
    MaxVisibleBounds(w);
    var v := Visible(w);
    if v != [] {
      assert v[|v| - 1] in v;
      assert Stored(w, v[|v| - 1]);
    }
  }

  lemma OldestIs(w: World)
    requires Ascending(w.history) && 0 <= w.purged
    ensures MinVisible(w) > 0 <==> exists r :: r in w.history && Stored(w, r)
    ensures MinVisible(w) > 0 ==> (forall r :: r in w.history && Stored(w, r) ==> MinVisible(w) <= r.id)
    ensures MinVisible(w) > 0 ==> exists r :: r in w.history && Stored(w, r) && r.id == MinVisible(w)
  {
    var v := Visible(w);
    SelectAscending(w.history, None, w.purged, LastRowId(w.history));
    IdsUpToLast(w.history);
    forall r ensures r in v <==> r in w.history && Stored(w, r) {}
    if v != [] { assert v[0] in v; }
    if r :| r in w.history && Stored(w, r) { assert r in v; }
  }

  /** A start puts the cursor at the newest stored row: what was stored before is not polled. */
  lemma StartExact(w: World, c: Config, write: int -> nat -> Outcome)
    requires WellFormed(w) && !w.running && w.poll.None?
    ensures var v := Apply(w, Start, c, write);
      v == w.(running := true, cursor := v.cursor) && NewestId(w, v.cursor)
  {
    NewestIs(w);
  }

  /** The watermark of an opening is the newest stored id. */
  lemma WatermarkExact(w: World, id: int, last: int, write: int -> nat -> Outcome)
    requires WellFormed(w) && id in w.subs && id in w.phases && w.phases[id] == NeedWatermark(Some(last))
    ensures var v := ReadWatermark(w, id, write);
      id in v.phases && v.phases[id].NeedBounds? && v == SetPhase(w, id, NeedBounds(last, v.phases[id].mark)) && NewestId(w, v.phases[id].mark)
  {
    NewestIs(w);
  }

  /** No stored row reaches the id asked for, or it is no id at all. */
  ghost predicate UnknownId(w: World, last: int) {
    last < 0 || (last > 0 && forall r :: r in w.history && Stored(w, r) ==> r.id < last)
  }

  /** Rows are stored, but none next to the id asked for. */
  ghost predicate Lost(w: World, last: int) {
    (exists r :: r in w.history && Stored(w, r)) && forall r :: r in w.history && Stored(w, r) ==> r.id > last + 1
  }

  lemma BoundsMean(w: World, last: int)
    requires WellFormed(w)
    ensures UnknownId(w, last) <==> last < 0 || last > MaxVisible(w)
    ensures Lost(w, last) <==> MinVisible(w) > 0 && last < MinVisible(w) - 1
  {
    NewestIs(w);
    OldestIs(w);
    MaxVisibleBounds(w);
  }

  /** A resync notice: it is the last frame of the feed, the subscriber is live, and without
      frames waiting before it nothing up to the watermark is sent any more. */
  predicate Noticed(s: Sub, t: Sub, ph: Phase, reason: string, mark: int) {
    Feed(t) == Feed(s) + [Resync(reason)] && ph == Live(true) && !t.closed && (s.queue == [] ==> t.lastSent == Some(mark))
  }

  /** At most one frame, a resync. */
  predicate OnlyResync(queue: seq<Item>) { |queue| <= 1 && forall i :: 0 <= i < |queue| ==> queue[i].Resync? }

  lemma ResyncKeepsLast(s: Sub, write: nat -> Outcome)
    requires OnlyResync(s.queue)
    ensures Flushed(s, write).sub.lastSent == s.lastSent && OnlyResync(Flushed(s, write).sub.queue)
  {
    var k := FlushMoves(s, write);
    if k == 1 { assert s.queue[..1][..0] == []; }
  }

  lemma FlushQuiet(s: Sub, write: nat -> Outcome)
    requires !s.closed && NeverThrows(write)
    ensures var e := Flushed(s, write); !e.thrown && !e.released && !e.sub.closed && Feed(e.sub) == Feed(s)
  {
    NoThrowFlushed(s, write);
    FlushKeepsFeed(s, write);
    var k := FlushMoves(s, write);
  }

  lemma ResyncedSub(s: Sub, reason: string, mark: int, bufferMax: nat, write: nat -> Outcome)
    requires !s.closed && NeverThrows(write)
    ensures var e := Enqueued(s, Resync(reason), true, bufferMax, write);
      var f := Flushed(e.sub.(lastSent := Some(mark)), write);
      && !e.thrown && !e.released && !f.thrown && !f.released && !f.sub.closed
      && Feed(f.sub) == Feed(s) + [Resync(reason)] && (s.queue == [] ==> f.sub.lastSent == Some(mark))
  {
    var pushed := Push(s, Resync(reason));
    FlushQuiet(pushed, write);
    assert Feed(pushed) == Feed(s) + [Resync(reason)];
    var u := Flushed(pushed, write).sub.(lastSent := Some(mark));
    FlushQuiet(u, write);
    if s.queue == [] {
      ResyncKeepsLast(pushed, write);
      ResyncKeepsLast(u, write);
    }
  }

  lemma GiveUpExact(w: World, id: int, reason: string, mark: int, c: Config, write: int -> nat -> Outcome)
    requires id in w.subs && !w.subs[id].closed && NeverThrows(write(id))
    ensures var v := GiveUp(w, id, reason, mark, c, write);
      id in v.subs && id in v.phases && Noticed(w.subs[id], v.subs[id], v.phases[id], reason, mark)
  {
    ResyncedSub(w.subs[id], reason, mark, c.bufferMax, write(id));
  }

  /** What reading the bounds decides: an unknown id and lost history are announced, in that
      order; else the replay begins right after the id, or there is nothing to replay. */
  lemma BoundsExact(w: World, id: int, c: Config, write: int -> nat -> Outcome)
    requires WellFormed(w) && id in w.subs && id in w.phases && w.phases[id].NeedBounds?
    requires !w.subs[id].closed && NeverThrows(write(id))
    ensures var v, last, mark := ReadBounds(w, id, c, write), w.phases[id].last, w.phases[id].mark;
      && id in v.subs && id in v.phases
      && if UnknownId(w, last) then Noticed(w.subs[id], v.subs[id], v.phases[id], "invalid_last_event_id", mark)
         else if Lost(w, last) then Noticed(w.subs[id], v.subs[id], v.phases[id], "history_not_available", mark)
         else && Feed(v.subs[id]) == Feed(w.subs[id])
              && v.phases[id] == if last < mark then Replaying(last, mark, last, 0) else Live(false)
  {
    var mark := w.phases[id].mark;
    BoundsMean(w, w.phases[id].last);
    if UnknownId(w, w.phases[id].last) {
      GiveUpExact(w, id, "invalid_last_event_id", mark, c, write);
    } else if Lost(w, w.phases[id].last) {
      GiveUpExact(w, id, "history_not_available", mark, c, write);
    } else {
      NoThrowFlushed(w.subs[id], write(id));
      FlushKeepsFeed(w.subs[id], write(id));
    }
  }

  // ---------------------------------------------------------------- the replay

  /** A batch of the replay holds the first rows of the branch past where it stands, up to the
      watermark, that are still stored. */
  lemma ReplayQueryExact(w: World, id: int, c: Config)
    requires Ascending(w.history) && id in w.subs && id in w.phases && w.phases[id].Replaying?
    ensures var rows := ReplayQuery(w, id, c);
      && Ascending(rows) && |rows| <= c.replayBatchSize
      && (forall r :: r in rows ==> Owing(w, id, r))
      && (forall r :: r in w.history && Owing(w, id, r) && r !in rows ==>
            |rows| == c.replayBatchSize && forall x :: x in rows ==> x.id < r.id)
  {
    var ph := w.phases[id];
    var all := Select(w.history, Some(w.subs[id].branch), Max(ph.current, w.purged), ph.mark);
    SelectAscending(w.history, Some(w.subs[id].branch), Max(ph.current, w.purged), ph.mark);
    FirstRows(all, c.replayBatchSize);
    forall r ensures r in all <==> r in w.history && Owing(w, id, r) {}
  }

  /** The first n rows of a list, and what is not among them. */
  lemma FirstRows(all: seq<Row>, n: nat)
    requires Ascending(all)
    ensures var rows := FirstN(all, n);
      && Ascending(rows) && |rows| <= n && (forall r :: r in rows ==> r in all)
      && forall r :: r in all && r !in rows ==> |rows| == n && forall x :: x in rows ==> x.id < r.id
  {
    var rows := FirstN(all, n);
    forall r | r in all && r !in rows ensures |rows| == n && forall x :: x in rows ==> x.id < r.id {
      var i :| 0 <= i < |all| && all[i] == r;
      assert i >= |rows|;
    }
  }

  predicate Owing(w: World, id: int, r: Row)
    requires id in w.subs && id in w.phases && w.phases[id].Replaying?
  {
    Stored(w, r) && r.branch == w.subs[id].branch && w.phases[id].current < r.id <= w.phases[id].mark
  }

  /** How many more rows the replay may deliver. */
  function Room(p: Progress, c: Config): nat
    requires p.delivered <= c.replayMaxEvents
  {
    c.replayMaxEvents - p.delivered
  }

  lemma DeliveryThrowsNot(s: Sub, row: Row, bufferMax: nat, write: nat -> Outcome)
    requires NeverThrows(write)
    ensures !Delivered(s, row, bufferMax, write).thrown
  {
    NoThrowFlushed(Push(s, Event(row)), write);
    NoThrowFlushed(Push(s, Resync("client_buffer_overflow")), write);
  }

  /** A batch is delivered row by row as far as the limit of the replay allows, and the replay is
      too long exactly when that is not the whole batch. */
  lemma {:induction false} ReplayedExact(p: Progress, rows: seq<Row>, c: Config, write: nat -> Outcome)
    requires !p.tooMany && !p.effect.thrown && p.delivered <= c.replayMaxEvents && NeverThrows(write)
    ensures var q, k := ReplayRows(p, rows, c, write), Least(|rows|, Room(p, c));
      && !q.effect.thrown && (q.tooMany <==> |rows| > Room(p, c))
      && q.effect.sub == DeliveredAll(p.effect.sub, rows[..k], c.bufferMax, write) && q.current == Reached(rows, k, p.current)
      && (!q.tooMany ==> q.delivered == p.delivered + |rows|)
  {
    if rows != [] {
      var init := rows[..|rows| - 1];
      ReplayedExact(p, init, c, write);
      var q := ReplayRows(p, init, c, write);
      DeliveryThrowsNot(q.effect.sub, rows[|rows| - 1], c.bufferMax, write);
      if |rows| <= Room(p, c) {
        assert rows[..|rows|] == rows && init[..|init|] == init;
      } else {
        assert init[..Room(p, c)] == rows[..Room(p, c)];
      }
    }
  }

  /** When a replay ends: too long, it is announced; otherwise it goes live once a batch was short
      or reached the watermark, and goes on from the last row until then. */
  lemma BatchEndsIff(w: World, id: int, c: Config, write: int -> nat -> Outcome)
    requires id in w.subs && id in w.phases && w.phases[id].Replaying? && NeverThrows(write(id))
    requires w.phases[id].delivered <= c.replayMaxEvents
    ensures var v, rows, ph := ReplayBatch(w, id, c, write), ReplayQuery(w, id, c), w.phases[id];
      && id in v.phases
      && v.phases[id] ==
         if ph.delivered + |rows| > c.replayMaxEvents then Live(true)
         else if |rows| < c.replayBatchSize || rows == [] || rows[|rows| - 1].id >= ph.mark then Live(false)
         else Replaying(ph.last, ph.mark, rows[|rows| - 1].id, ph.delivered + |rows|)
  {
    var ph, rows := w.phases[id], ReplayQuery(w, id, c);
    var p0 := Progress(Effect(w.subs[id], false, false), ph.current, ph.delivered, false);
    ReplayedExact(p0, rows, c, write(id));
    var p := ReplayRows(p0, rows, c, write(id));
    var v := Settle(w, id, p.effect);
    NoThrowFlushed(p.effect.sub, write(id));
    if p.tooMany {
      GiveUpGoesLive(v, id, "replay_limit_exceeded", ph.mark, c, write);
    }
  }

  lemma GiveUpGoesLive(w: World, id: int, reason: string, mark: int, c: Config, write: int -> nat -> Outcome)
    requires id in w.subs && NeverThrows(write(id))
    ensures var v := GiveUp(w, id, reason, mark, c, write); id in v.phases && v.phases[id] == Live(true)
  {
    var e := Enqueued(w.subs[id], Resync(reason), true, c.bufferMax, write(id));
    NoThrowFlushed(Push(w.subs[id], Resync(reason)), write(id));
    NoThrowFlushed(e.sub.(lastSent := Some(mark)), write(id));
  }

  /** An opening that fails leaves its subscriber closed, unregistered and without waiting frames. */
  lemma FailedIsClosed(w: World, id: int)
    requires id in w.subs && id in w.phases && !w.phases[id].Live? && !w.phases[id].Failed?
    ensures var v := FailOpening(w, id);
      id in v.subs && id in v.phases && v.phases[id] == Failed && v.subs[id].closed
      && (!w.subs[id].closed ==> v.subs[id].queue == [] && id !in v.registered)
  {
  }
}
