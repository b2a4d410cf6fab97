/** One event-stream subscriber of the agenda dispatcher
    (src/services/agendaEventDispatcher.js:74-157). */
module Subscriber {

  datatype Option<T> = None | Some(value: T)

  /** A row of the outbox; ids grow with commit order. */
  datatype Row = Row(id: int, branch: int, body: int)

  datatype Item = Event(row: Row) | Resync(reason: string)

  /** What the transport does with one frame. */
  datatype Outcome = Accepted | Refused | Thrown

  /** `written` and `attempts` are the transport's log: the accepted frames, in order, and
      the number of frames offered so far. */
  datatype Sub = Sub(
    branch: int, ip: string, lastSent: Option<int>, queue: seq<Item>, draining: bool, closed: bool,
    written: seq<Item>, attempts: nat)

  /** The subscriber after a call, whether the call threw, and whether it ran `onClose`. */
  datatype Effect = Effect(sub: Sub, thrown: bool, released: bool)

  // ---------------------------------------------------------- specification

  function Flushed(s: Sub, write: nat -> Outcome): Effect
    decreases |s.queue|
  {
    if s.closed || s.draining || s.queue == [] then Effect(s, false, false)
    else
      var t := s.(attempts := s.attempts + 1);
      match write(s.attempts)
      case Refused => Effect(t.(draining := true), false, false)
      case Thrown => Effect(t, true, false)
      case Accepted => Flushed(Sent(t), write)
  }

  function Sent(s: Sub): Sub
    requires s.queue != []
  {
    var item := s.queue[0];
    s.(queue := s.queue[1..], written := s.written + [item],
       lastSent := if item.Event? then Some(item.row.id) else s.lastSent)
  }

  function Push(s: Sub, item: Item): Sub { s.(queue := s.queue + [item]) }

  predicate Stale(s: Sub, item: Item) {
    item.Event? && s.lastSent.Some? && item.row.id <= s.lastSent.value
  }

  function ClosedWithResync(s: Sub, reason: string, write: nat -> Outcome): Effect {
    if s.closed then Effect(s, false, false)
    else
      var e := Flushed(Push(s, Resync(reason)), write);
      if e.thrown then e else Effect(e.sub.(closed := true), false, true)
  }

  function Enqueued(s: Sub, item: Item, force: bool, bufferMax: nat, write: nat -> Outcome): Effect {
    if s.closed || Stale(s, item) then Effect(s, false, false)
    else if !force && |s.queue| >= bufferMax then ClosedWithResync(s, "client_buffer_overflow", write)
    else Flushed(Push(s, item), write)
  }

  function Delivered(s: Sub, row: Row, bufferMax: nat, write: nat -> Outcome): Effect {
    if s.closed || row.branch != s.branch then Effect(s, false, false)
    else Enqueued(s, Event(row), false, bufferMax, write)
  }

  function Drained(s: Sub, write: nat -> Outcome): Effect { Flushed(s.(draining := false), write) }

  function ClosedLocally(s: Sub): Effect {
    if s.closed then Effect(s, false, false) else Effect(s.(closed := true, queue := []), false, true)
  }

  // ------------------------------------------------------------ the object

  class Subscriber {
    const branch: int
    const ip: string
    const bufferMax: nat
    const write: nat -> Outcome
    var lastSentId: Option<int>
    var queue: seq<Item>
    var draining: bool
    var closed: bool
    ghost var written: seq<Item>
    var attempts: nat

    constructor (branch: int, ip: string, bufferMax: nat, write: nat -> Outcome)
      ensures this.branch == branch && this.ip == ip && this.bufferMax == bufferMax && this.write == write
      ensures Value() == Sub(branch, ip, None, [], false, false, [], 0)
    {
      this.branch, this.ip, this.bufferMax, this.write := branch, ip, bufferMax, write;
      lastSentId, queue, draining, closed, written, attempts := None, [], false, false, [], 0;
    }

    ghost function Value(): Sub
      reads this
    {
      Sub(branch, ip, lastSentId, queue, draining, closed, written, attempts)
    }

    method Flush() returns (thrown: bool)
      modifies this
      ensures Effect(Value(), thrown, false) == Flushed(old(Value()), write)
    {
      if closed || draining {
        return false;
      }
      while |queue| > 0
        invariant !closed && !draining
        invariant Flushed(Value(), write) == Flushed(old(Value()), write)
        decreases |queue|
      {
        var item := queue[0];
        var outcome := write(attempts);
        attempts := attempts + 1;
        if outcome == Refused {
          draining := true;
          return false;
        }
        if outcome == Thrown {
          return true;
        }
        queue := queue[1..];
        written := written + [item];
        if item.Event? {
          lastSentId := Some(item.row.id);
        }
      }
      return false;
    }

    method CloseWithResync(reason: string) returns (thrown: bool, released: bool)
      modifies this
      ensures Effect(Value(), thrown, released) == ClosedWithResync(old(Value()), reason, write)
    {
      if closed {
        return false, false;
      }
      queue := queue + [Resync(reason)];
      thrown := Flush();
      if thrown {
        return true, false;
      }
      closed := true;
      return false, true;
    }

    method EnqueueFrame(item: Item, force: bool) returns (thrown: bool, released: bool)
      modifies this
      ensures Effect(Value(), thrown, released)
           == Enqueued(old(Value()), item, force, bufferMax, write)
    {
      if closed {
        return false, false;
      }
      if item.Event? && lastSentId.Some? && item.row.id <= lastSentId.value {
        return false, false;
      }
      if !force && |queue| >= bufferMax {
        thrown, released := CloseWithResync("client_buffer_overflow");
        return;
      }
      queue := queue + [item];
      thrown := Flush();
      released := false;
    }

    method Deliver(row: Row) returns (thrown: bool, released: bool)
      modifies this
      ensures Effect(Value(), thrown, released) == Delivered(old(Value()), row, bufferMax, write)
    {
      if closed || row.branch != branch {
        return false, false;
      }
      thrown, released := EnqueueFrame(Event(row), false);
    }

    method OnDrain() returns (thrown: bool)
      modifies this
      ensures Effect(Value(), thrown, false) == Drained(old(Value()), write)
    {
      draining := false;
      thrown := Flush();
    }

    method CloseLocal() returns (released: bool)
      modifies this
      ensures Effect(Value(), false, released) == ClosedLocally(old(Value()))
    {
      if closed {
        return false;
      }
      closed := true;
      queue := [];
      return true;
    }
  }

  // ------------------------------------------------------------- properties

  /** Id of the last event among `items`, or `before` when there is none. */
  function LastId(items: seq<Item>, before: Option<int>): Option<int> {
    if items == [] then before
    else if items[|items| - 1].Event? then Some(items[|items| - 1].row.id)
    else LastId(items[..|items| - 1], before)
  }

  lemma {:induction false} LastIdCons(item: Item, items: seq<Item>, before: Option<int>)
    ensures LastId([item] + items, before) == LastId(items, LastId([item], before))
  {
    if items == [] {
      assert [item] + items == [item];
    } else if !items[|items| - 1].Event? {
      LastIdCons(item, items[..|items| - 1], before);
      assert ([item] + items)[..|items|] == [item] + items[..|items| - 1];
    }
  }

  /** `t` is `s` with its first k frames moved to the log, in order. */
  ghost predicate Moved(s: Sub, t: Sub, k: nat) {
    && k <= |s.queue|
    && t.written == s.written + s.queue[..k] && t.queue == s.queue[k..]
    && t.lastSent == LastId(s.queue[..k], s.lastSent)
    && t.branch == s.branch && t.ip == s.ip && t.closed == s.closed && s.attempts <= t.attempts
  }

  lemma MovedFirst(s: Sub, t: Sub, j: nat)
    requires s.queue != [] && Moved(Sent(s.(attempts := s.attempts + 1)), t, j)
    ensures Moved(s, t, j + 1)
  {
    var rest := s.queue[1..];
    assert s.queue[..j + 1] == [s.queue[0]] + rest[..j];
    assert s.written + ([s.queue[0]] + rest[..j]) == (s.written + [s.queue[0]]) + rest[..j];
    LastIdCons(s.queue[0], rest[..j], s.lastSent);
    LastIdOne(s.queue[0], s.lastSent);
  }

  lemma LastIdOne(item: Item, before: Option<int>)
    ensures LastId([item], before) == if item.Event? then Some(item.row.id) else before
  {
    assert [item][..0] == [];
  }

  /** A flush moves a prefix of the queue to the log, in order, and nothing else. */
  lemma {:induction false} FlushMoves(s: Sub, write: nat -> Outcome) returns (k: nat)
    ensures Moved(s, Flushed(s, write).sub, k)
    ensures s.closed || s.draining ==> Flushed(s, write).sub == s
    ensures !Flushed(s, write).released
    decreases |s.queue|
  {
    if s.closed || s.draining || s.queue == [] || !write(s.attempts).Accepted? {
      k := 0;
    } else {
      var next := Sent(s.(attempts := s.attempts + 1));
      var j := FlushMoves(next, write);
      MovedFirst(s, Flushed(next, write).sub, j);
      k := j + 1;
    }
  }

  /** Of an open, undrained queue exactly the frames before the first offer that is not accepted
      leave, each offered once; that offer, if any, was the last, and a refusal starts draining. */
  lemma {:induction false} FlushStops(s: Sub, write: nat -> Outcome) returns (k: nat)
    requires !s.closed && !s.draining
    ensures k <= |s.queue| && |Flushed(s, write).sub.queue| == |s.queue| - k
    ensures forall j :: s.attempts <= j < s.attempts + k ==> write(j).Accepted?
    ensures var e := Flushed(s, write);
      if k == |s.queue| then !e.thrown && !e.sub.draining && e.sub.attempts == s.attempts + k
      else && !write(s.attempts + k).Accepted? && e.sub.attempts == s.attempts + k + 1
           && (e.thrown <==> write(s.attempts + k).Thrown?) && (e.sub.draining <==> write(s.attempts + k).Refused?)
    decreases |s.queue|
  {
    k := 0;
    if s.queue != [] && write(s.attempts).Accepted? {
      var j := FlushStops(Sent(s.(attempts := s.attempts + 1)), write);
      k := j + 1;
    }
  }

  /** Of the next n offers the first one that is not accepted throws. */
  ghost predicate ThrowsFirst(write: nat -> Outcome, from: nat, n: nat) {
    exists k :: from <= k < from + n && write(k).Thrown? && forall j :: from <= j < k ==> write(j).Accepted?
  }

  lemma ThrowsFirstStep(write: nat -> Outcome, from: nat, n: nat)
    requires n > 0
    ensures ThrowsFirst(write, from, n) <==>
      write(from).Thrown? || (write(from).Accepted? && ThrowsFirst(write, from + 1, n - 1))
  {
    if write(from).Accepted? && ThrowsFirst(write, from, n) {
      var k :| from <= k < from + n && write(k).Thrown? && forall j :: from <= j < k ==> write(j).Accepted?;
      assert from + 1 <= k;
    }
    if write(from).Accepted? && ThrowsFirst(write, from + 1, n - 1) {
      var k :| from + 1 <= k < from + n && write(k).Thrown? && forall j :: from + 1 <= j < k ==> write(j).Accepted?;
      assert forall j :: from <= j < k ==> j == from || write(j).Accepted?;
    }
  }

  /** A flush throws exactly when the transport throws before it refuses or the queue is sent. */
  lemma {:induction false} FlushThrowsIff(s: Sub, write: nat -> Outcome)
    requires !s.closed && !s.draining
    ensures Flushed(s, write).thrown <==> ThrowsFirst(write, s.attempts, |s.queue|)
    decreases |s.queue|
  {
    if s.queue != [] {
      ThrowsFirstStep(write, s.attempts, |s.queue|);
      if write(s.attempts).Accepted? {
        FlushThrowsIff(Sent(s.(attempts := s.attempts + 1)), write);
      }
    }
  }

  /** Overflow closes the subscriber, and releases it, unless it is not draining and, of the
      offers of its queue and of the resync frame, the first not accepted is a throw; then it
      stays open. */
  lemma OverflowClosesIff(s: Sub, row: Row, bufferMax: nat, write: nat -> Outcome)
    requires !s.closed && row.branch == s.branch && !Stale(s, Event(row)) && |s.queue| >= bufferMax
    ensures var e := Delivered(s, row, bufferMax, write);
      && (e.sub.closed <==> s.draining || !ThrowsFirst(write, s.attempts, |s.queue| + 1))
      && (e.released <==> e.sub.closed) && (e.thrown <==> !e.sub.closed)
  {
    var u := Push(s, Resync("client_buffer_overflow"));
    var k := FlushMoves(u, write);
    if !s.draining { FlushThrowsIff(u, write); }
  }

  /** Everything ever accepted for the client, written or waiting, in order. */
  function Feed(s: Sub): seq<Item> { s.written + s.queue }

  lemma FlushKeepsFeed(s: Sub, write: nat -> Outcome)
    ensures Feed(Flushed(s, write).sub) == Feed(s) && Flushed(s, write).sub.closed == s.closed
  {
    var k := FlushMoves(s, write);
    MovedFeed(s.written, s.queue, k);
  }

  lemma MovedFeed(written: seq<Item>, queue: seq<Item>, k: nat)
    requires k <= |queue|
    ensures (written + queue[..k]) + queue[k..] == written + queue
  {
    assert queue == queue[..k] + queue[k..];
  }

  /** A frame reaches the end of the feed exactly when the subscriber is open, the frame is
      not stale and it is forced or there is room; an overflow adds the resync frame in its
      place; otherwise the feed stays as it is. Nothing else is added, dropped or moved. */
  lemma EnqueuedFeed(s: Sub, item: Item, force: bool, bufferMax: nat, write: nat -> Outcome)
    ensures var e := Enqueued(s, item, force, bufferMax, write);
      Feed(e.sub) == Feed(s) +
        if s.closed || Stale(s, item) then [] else if force || |s.queue| < bufferMax then [item] else [Resync("client_buffer_overflow")]
    ensures var e := Enqueued(s, item, force, bufferMax, write);
      e.sub.closed && !s.closed ==> !force && |s.queue| >= bufferMax
  {
    var resync := Resync("client_buffer_overflow");
    FlushKeepsFeed(Push(s, item), write);
    FlushKeepsFeed(Push(s, resync), write);
    assert s.written + (s.queue + [item]) == (s.written + s.queue) + [item];
    assert s.written + (s.queue + [resync]) == (s.written + s.queue) + [resync];
  }

  /** A refused frame stays at the head of the queue and is offered a second time on drain. */
  lemma RefusedIsOfferedAgain(s: Sub, write: nat -> Outcome)
    requires !s.closed && !s.draining && s.queue != [] && write(s.attempts).Refused?
    requires write(s.attempts + 1).Accepted?
    ensures var first := Flushed(s, write).sub;
      && first == s.(attempts := s.attempts + 1, draining := true)
      && s.written + [s.queue[0]] <= Drained(first, write).sub.written
  {
    var again := s.(attempts := s.attempts + 1);
    var next := Sent(again.(attempts := again.attempts + 1));
    assert Flushed(again, write) == Flushed(next, write);
    var k := FlushMoves(next, write);
  }

  // ------------------------------------------------- every call, in general

  /** What every call does: the address stays, closing is for good and runs `onClose` exactly then. */
  predicate Sound(s: Sub, e: Effect) {
    && e.sub.branch == s.branch && e.sub.ip == s.ip && s.attempts <= e.sub.attempts
    && (s.closed ==> e.sub.closed && !e.released)
    && (e.released <==> !s.closed && e.sub.closed)
  }

  lemma FlushedSound(s: Sub, write: nat -> Outcome)
    ensures Sound(s, Flushed(s, write)) && Sound(s, Drained(s, write))
  {
    var k := FlushMoves(s, write);
    var j := FlushMoves(s.(draining := false), write);
  }

  lemma EnqueuedSound(s: Sub, item: Item, force: bool, bufferMax: nat, write: nat -> Outcome)
    ensures Sound(s, Enqueued(s, item, force, bufferMax, write))
  {
    var j := FlushMoves(Push(s, item), write);
    var k := FlushMoves(Push(s, Resync("client_buffer_overflow")), write);
  }

  lemma DeliveredSound(s: Sub, row: Row, bufferMax: nat, write: nat -> Outcome)
    ensures Sound(s, Delivered(s, row, bufferMax, write))
    ensures s.closed ==> Delivered(s, row, bufferMax, write) == Effect(s, false, false)
  {
    EnqueuedSound(s, Event(row), false, bufferMax, write);
  }

  /** Whatever is called: branch and address stay, closed is for good, and `onClose` runs exactly
      when an open subscriber closes, so at most once in its life. */
  lemma ClosesOnce(s: Sub, item: Item, row: Row, force: bool, reason: string, bufferMax: nat, write: nat -> Outcome)
    ensures Sound(s, Enqueued(s, item, force, bufferMax, write)) && Sound(s, Delivered(s, row, bufferMax, write))
    ensures Sound(s, ClosedWithResync(s, reason, write)) && Sound(s, ClosedLocally(s)) && Sound(s, Drained(s, write))
    ensures s.closed ==> Delivered(s, row, bufferMax, write).sub == ClosedLocally(s).sub == s
  {
    EnqueuedSound(s, item, force, bufferMax, write);
    DeliveredSound(s, row, bufferMax, write);
    FlushedSound(s, write);
    var k := FlushMoves(Push(s, Resync(reason)), write);
  }

  ghost predicate NeverThrows(write: nat -> Outcome) { forall n :: !write(n).Thrown? }

  lemma {:induction false} NoThrowFlushed(s: Sub, write: nat -> Outcome)
    requires NeverThrows(write)
    ensures !Flushed(s, write).thrown
    decreases |s.queue|
  {
    if !s.closed && !s.draining && s.queue != [] && write(s.attempts).Accepted? {
      NoThrowFlushed(Sent(s.(attempts := s.attempts + 1)), write);
    }
  }

  /** How many of the first n offers threw. */
  function Throws(write: nat -> Outcome, n: nat): nat {
    if n == 0 then 0 else Throws(write, n - 1) + if write(n - 1).Thrown? then 1 else 0
  }

  lemma {:induction false} NoThrows(write: nat -> Outcome, n: nat)
    requires NeverThrows(write)
    ensures Throws(write, n) == 0
  {
    if n > 0 { NoThrows(write, n - 1); }
  }

  /** A flush never lengthens the queue, and one that throws is counted. */
  lemma {:induction false} FlushCounts(s: Sub, write: nat -> Outcome)
    ensures var e := Flushed(s, write);
      && |e.sub.queue| <= |s.queue| && e.sub.closed == s.closed
      && Throws(write, e.sub.attempts) >= Throws(write, s.attempts) + if e.thrown then 1 else 0
    decreases |s.queue|
  {
    if !s.closed && !s.draining && s.queue != [] {
      var t := s.(attempts := s.attempts + 1);
      assert Throws(write, t.attempts) == Throws(write, s.attempts) + if write(s.attempts).Thrown? then 1 else 0;
      if write(s.attempts).Accepted? { FlushCounts(Sent(t), write); }
    }
  }

  /** A delivery keeps the queue within its limit, one frame for every offer that threw, and
      one resync frame once closed. */
  lemma QueueBounded(s: Sub, row: Row, bufferMax: nat, extra: nat, write: nat -> Outcome)
    requires !s.closed && |s.queue| <= bufferMax + extra + Throws(write, s.attempts)
    ensures var e := Delivered(s, row, bufferMax, write);
      |e.sub.queue| <= bufferMax + extra + Throws(write, e.sub.attempts) + (if e.sub.closed then 1 else 0)
  {
    FlushCounts(Push(s, Event(row)), write);
    FlushCounts(Push(s, Resync("client_buffer_overflow")), write);
  }

  function DeliveredAll(s: Sub, rows: seq<Row>, bufferMax: nat, write: nat -> Outcome): Sub {
    if rows == [] then s
    else Delivered(DeliveredAll(s, rows[..|rows| - 1], bufferMax, write), rows[|rows| - 1], bufferMax, write).sub
  }

  /** A transport that always throws keeps the subscriber open and grows its queue by one
      frame for every row of its branch, past any limit. */
  lemma {:induction false} ThrowingGrows(s: Sub, rows: seq<Row>, bufferMax: nat, write: nat -> Outcome)
    requires !s.closed && !s.draining && s.lastSent.None? && forall n :: write(n).Thrown?
    requires forall i :: 0 <= i < |rows| ==> rows[i].branch == s.branch
    ensures var t := DeliveredAll(s, rows, bufferMax, write);
      && t.branch == s.branch && !t.closed && !t.draining && t.lastSent.None?
      && |t.queue| == |s.queue| + |rows|
  {
    if rows != [] {
      ThrowingGrows(s, rows[..|rows| - 1], bufferMax, write);
    }
  }
}
