/** What a poll reads and how fast the cursor catches up with the outbox
    (src/services/agendaEventDispatcher.js:224-256). */
module Polling {
  import opened Subscriber
  import opened Outbox
  import opened Dispatcher
  import opened Delivery

  /** The rows the poll has not read yet and retention has left. */
  function Pending(w: World): seq<Row> { Select(w.history, None, Floor(w), LastRowId(w.history)) }

  function Least(a: nat, b: nat): nat { if a < b then a else b }

  lemma PendingExact(w: World)
    requires Ascending(w.history)
    ensures Ascending(Pending(w))
    ensures forall r :: r in Pending(w) <==> r in w.history && w.cursor < r.id && w.purged < r.id
  {
    SelectAscending(w.history, None, Floor(w), LastRowId(w.history));
    IdsUpToLast(w.history);
  }

  /** A poll holds the first rows past the cursor and retention, in id order: all of them, or
      as many as the batch size when more are waiting. */
  lemma PollExact(w: World, c: Config)
    requires Ascending(w.history)
    ensures var rows := PollRows(w, c);
      && |rows| == Least(c.batchSize, |Pending(w)|) && rows == Pending(w)[..|rows|] && Ascending(rows)
      && (forall r :: r in rows ==> r in w.history && w.cursor < r.id && w.purged < r.id)
      && (forall r :: r in w.history && w.cursor < r.id && w.purged < r.id && r !in rows ==>
            |rows| == c.batchSize && forall x :: x in rows ==> x.id < r.id)
  {
    PendingExact(w);
    var rows, all := PollRows(w, c), Pending(w);
    forall r | r in w.history && w.cursor < r.id && w.purged < r.id && r !in rows
      ensures |rows| == c.batchSize && forall x :: x in rows ==> x.id < r.id
    {
      assert r in all;
      var i :| 0 <= i < |all| && all[i] == r;
      assert i >= |rows|;
    }
  }

  /** A poll that found rows moves the cursor strictly forward, to the last of them. */
  lemma PollAdvances(w: World, c: Config, write: int -> nat -> Outcome)
    requires WellFormed(w) && w.poll.Some? && w.poll.value != []
    ensures var v := Apply(w, PollDeliver, c, write);
      v.cursor == w.poll.value[|w.poll.value| - 1].id && w.cursor < v.cursor && v.poll.None?
  {
    var rows := w.poll.value;
    assert rows[|rows| - 1] == Pending(w)[|rows| - 1];
    assert Pending(w)[|rows| - 1] in Pending(w);
  }

  /** What is left of a window after its first k rows. */
  lemma DropRows(h: seq<Row>, lo: int, hi: int, k: nat)
    requires Ascending(h) && 0 < k <= |Select(h, None, lo, hi)|
    ensures var s := Select(h, None, lo, hi); Select(h, None, s[k - 1].id, hi) == s[k..]
  {
    var s := Select(h, None, lo, hi);
    var mid := s[k - 1].id;
    assert s[k - 1] in s;
    SelectAscending(h, None, lo, hi);
    SelectAscending(h, None, mid, hi);
    forall x ensures x in Select(h, None, mid, hi) <==> x in s[k..] { PastRow(s, k, x); }
    AscendingUnique(Select(h, None, mid, hi), s[k..]);
  }

  lemma PastRow(s: seq<Row>, k: nat, x: Row)
    requires Ascending(s) && 0 < k <= |s|
    ensures x in s[k..] <==> x in s && s[k - 1].id < x.id
  {
    if x in s && s[k - 1].id < x.id {
      var i :| 0 <= i < |s| && s[i] == x;
      assert s[k..][i - k] == x;
    }
    if x in s[k..] {
      var i :| 0 <= i < |s| - k && s[k..][i] == x;
      assert s[k + i] == x;
    }
  }

  /** Ready for an undisturbed poll. */
  ghost predicate Polls(w: World) { WellFormed(w) && w.running && w.poll.None? }

  function OnePoll(w: World, c: Config, write: int -> nat -> Outcome): World {
    Apply(Apply(w, PollQuery, c, write), PollDeliver, c, write)
  }

  /** `v` is `w` with the first k pending rows read. */
  ghost predicate ReadFirst(w: World, v: World, k: nat) {
    && v.history == w.history && v.purged == w.purged && k <= |Pending(w)|
    && Pending(v) == Pending(w)[k..] && v.cursor == Reached(Pending(w), k, w.cursor)
  }

  lemma PollFrame(w: World, c: Config, write: int -> nat -> Outcome)
    requires Polls(w)
    ensures var v := OnePoll(w, c, write);
      && Polls(v) && v.history == w.history && v.purged == w.purged
      && v.cursor == Reached(PollRows(w, c), |PollRows(w, c)|, w.cursor)
  {
    var u := Apply(w, PollQuery, c, write);
    ApplyWellFormed(w, PollQuery, c, write);
    ApplyWellFormed(u, PollDeliver, c, write);
    DeliverRowsRest(u, PollRows(w, c), c, write);
  }

  /** One undisturbed poll takes the first batch off what is pending. */
  lemma PollTakesBatch(w: World, c: Config, write: int -> nat -> Outcome)
    requires Polls(w)
    ensures ReadFirst(w, OnePoll(w, c, write), Least(c.batchSize, |Pending(w)|))
  {
    PollFrame(w, c, write);
    PollExact(w, c);
    var k := |PollRows(w, c)|;
    if k > 0 {
      DropRows(w.history, Floor(w), LastRowId(w.history), k);
      assert Pending(w)[k - 1] in PollRows(w, c) by { assert PollRows(w, c)[k - 1] == Pending(w)[k - 1]; }
    }
  }

  /** n polls, one after another. */
  function PollLabels(n: nat): seq<Label> { if n == 0 then [] else PollLabels(n - 1) + [PollQuery] + [PollDeliver] }

  lemma RunOnePoll(w: World, labels: seq<Label>, c: Config, write: int -> nat -> Outcome)
    ensures Run(w, labels + [PollQuery] + [PollDeliver], c, write) == OnePoll(Run(w, labels, c, write), c, write)
  {
    assert (labels + [PollQuery])[..|labels|] == labels;
    assert (labels + [PollQuery] + [PollDeliver])[..|labels| + 1] == labels + [PollQuery];
  }

  lemma ReadOn(w: World, u: World, v: World, j: nat, k: nat)
    requires ReadFirst(w, u, j) && ReadFirst(u, v, k)
    ensures ReadFirst(w, v, j + k)
  {
    assert Pending(w)[j..][k..] == Pending(w)[j + k..];
    if k > 0 { assert Pending(u)[k - 1] == Pending(w)[j + k - 1]; }
  }

  lemma {:induction false} PollsStayReady(w: World, n: nat, c: Config, write: int -> nat -> Outcome)
    requires Polls(w)
    ensures Polls(Run(w, PollLabels(n), c, write))
  {
    if n > 0 {
      PollsStayReady(w, n - 1, c, write);
      RunOnePoll(w, PollLabels(n - 1), c, write);
      PollFrame(Run(w, PollLabels(n - 1), c, write), c, write);
    }
  }

  /** How many rows n polls read. */
  function Taken(w: World, n: nat, c: Config): nat { Least(Batches(n, c.batchSize), |Pending(w)|) }

  lemma {:induction false} PollsTake(w: World, n: nat, c: Config, write: int -> nat -> Outcome)
    requires Polls(w)
    ensures ReadFirst(w, Run(w, PollLabels(n), c, write), Taken(w, n, c))
  {
    if n > 0 {
      PollsTake(w, n - 1, c, write);
      PollOnceMore(w, n, c, write);
    } else {
      ReadNone(w);
    }
  }

  lemma ReadNone(w: World)
    ensures ReadFirst(w, w, 0)
  {
    assert Pending(w)[0..] == Pending(w);
  }

  lemma PollOnceMore(w: World, n: nat, c: Config, write: int -> nat -> Outcome)
    requires Polls(w) && n > 0 && ReadFirst(w, Run(w, PollLabels(n - 1), c, write), Taken(w, n - 1, c))
    ensures ReadFirst(w, Run(w, PollLabels(n), c, write), Taken(w, n, c))
  {
    var u := Run(w, PollLabels(n - 1), c, write);
    PollsStayReady(w, n - 1, c, write);
    PollTakesBatch(u, c, write);
    RunOnePoll(w, PollLabels(n - 1), c, write);
    ReadBatch(w, u, OnePoll(u, c, write), Batches(n - 1, c.batchSize), c.batchSize);
  }

  lemma ReadBatch(w: World, u: World, v: World, read: nat, batch: nat)
    requires ReadFirst(w, u, Least(read, |Pending(w)|)) && ReadFirst(u, v, Least(batch, |Pending(u)|))
    ensures ReadFirst(w, v, Least(read + batch, |Pending(w)|))
  {
    assert |Pending(u)| == |Pending(w)| - Least(read, |Pending(w)|);
    ReadOn(w, u, v, Least(read, |Pending(w)|), Least(batch, |Pending(u)|));
  }

  function Batches(n: nat, batch: nat): nat { if n == 0 then 0 else Batches(n - 1, batch) + batch }

  lemma {:induction false} BatchesIs(n: nat, batch: nat)
    ensures Batches(n, batch) == n * batch
  {
    if n > 0 {
      BatchesIs(n - 1, batch);
      OneBatchMore(n, batch);
    }
  }

  lemma OneBatchMore(n: nat, batch: nat)
    requires n > 0
    ensures n * batch == (n - 1) * batch + batch
  {
  }

  /** Enough undisturbed polls bring the cursor to the last row: nothing is pending any more. */
  lemma PollsCatchUp(w: World, n: nat, c: Config, write: int -> nat -> Outcome)
    requires Polls(w) && n * c.batchSize >= |Pending(w)|
    ensures var v := Run(w, PollLabels(n), c, write);
      && (forall r :: r in v.history ==> r.id <= v.cursor || r.id <= v.purged)
      && v.cursor == (if Pending(w) == [] then w.cursor else LastRowId(w.history))
  {
    BatchesIs(n, c.batchSize);
    PollsTake(w, n, c, write);
    PollsStayReady(w, n, c, write);
    PendingExact(w);
    var v := Run(w, PollLabels(n), c, write);
    PendingExact(v);
    if Pending(w) != [] {
      LastPending(w);
    }
  }

  lemma LastPending(w: World)
    requires WellFormed(w) && Pending(w) != []
    ensures Pending(w)[|Pending(w)| - 1].id == LastRowId(w.history)
  {
    PendingExact(w);
    IdsUpToLast(w.history);
    var all := Pending(w);
    var last := w.history[|w.history| - 1];
    assert all[0] in all && all[|all| - 1] in all;
    assert last in w.history && last in all;
    var i :| 0 <= i < |all| && all[i] == last;
  }

  /** Whatever happened to a subscriber opened without Last-Event-ID: after enough undisturbed
      polls it has been sent, or has waiting, every row of its branch committed since it
      registered; once closed, a prefix of them. */
  lemma BacklogIsDelivered(
    before: seq<Label>, address: string, branch: int, after: seq<Label>, n: nat, c: Config, write: int -> nat -> Outcome)
    requires AllKeepBooks(before) && AllKeepBooks(after) && NoStart(after) && Stable(NormalizeIp(address))
    requires var w := Run(Init(), before, c, write);
      && Accepts(w, c, address) && NeverThrows(write(w.nextId))
      && var u := Run(Register(w, address, branch, None), after, c, write);
         u.running && u.poll.None? && n * c.batchSize >= |Pending(u)|
    ensures var w := Run(Init(), before, c, write);
      var v := Run(Run(Register(w, address, branch, None), after, c, write), PollLabels(n), c, write);
      w.nextId in v.subs && DeliversWindow(v.subs[w.nextId], branch, v.history, Floor(w), Max(Floor(w), LastRowId(v.history)))
  {
    InitGood(c);
    RunGood(Init(), before, c, write);
    var w := Run(Init(), before, c, write);
    OpenedIsOwed(w, address, branch, after, c, write);
    CatchesUp(Run(Register(w, address, branch, None), after, c, write), w.nextId, branch, Floor(w), n, c, write);
  }

  lemma OpenedIsOwed(w: World, address: string, branch: int, after: seq<Label>, c: Config, write: int -> nat -> Outcome)
    requires Good(w, c) && AllKeepBooks(after) && NoStart(after) && Stable(NormalizeIp(address))
    requires Accepts(w, c, address) && NeverThrows(write(w.nextId))
    ensures var u := Run(Register(w, address, branch, None), after, c, write);
      Good(u, c) && OwedAt(u, w.nextId, Promise([], Floor(w))) && u.subs[w.nextId].branch == branch
  {
    var u := Register(w, address, branch, None);
    RegisterOrderly(w, address, branch, None, c);
    SameRestWellFormed(w, u.(nextId := w.nextId));
    NewcomerOwed(w, branch, NormalizeIp(address));
    OwedRun(u, after, w.nextId, Promise([], Floor(w)), c, write);
    RunGood(u, after, c, write);
    KeepsBranch(u, after, w.nextId, c, write);
  }

  lemma {:induction false} PollsKeepBooks(n: nat)
    ensures AllKeepBooks(PollLabels(n)) && NoStart(PollLabels(n))
  {
    if n > 0 { PollsKeepBooks(n - 1); }
  }

  lemma CatchesUp(u: World, id: int, branch: int, lo: int, n: nat, c: Config, write: int -> nat -> Outcome)
    requires Good(u, c) && OwedAt(u, id, Promise([], lo)) && u.subs[id].branch == branch && NeverThrows(write(id))
    requires u.running && u.poll.None? && n * c.batchSize >= |Pending(u)|
    ensures var v := Run(u, PollLabels(n), c, write);
      id in v.subs && DeliversWindow(v.subs[id], branch, v.history, lo, Max(lo, LastRowId(v.history)))
  {
    PollsKeepBooks(n);
    OwedRun(u, PollLabels(n), id, Promise([], lo), c, write);
    RunGood(u, PollLabels(n), c, write);
    KeepsBranch(u, PollLabels(n), id, c, write);
    PollsCatchUp(u, n, c, write);
    var v := Run(u, PollLabels(n), c, write);
    OwedIsWindow(v, id, branch, lo);
    NothingPast(v, id, branch, lo);
  }

  lemma NothingPast(v: World, id: int, branch: int, lo: int)
    requires WellFormed(v) && id in v.subs && DeliversWindow(v.subs[id], branch, v.history, lo, Max(lo, v.cursor))
    requires v.subs[id].closed || v.purged <= Max(lo, v.cursor)
    requires forall r :: r in v.history ==> r.id <= v.cursor || r.id <= v.purged
    ensures DeliversWindow(v.subs[id], branch, v.history, lo, Max(lo, LastRowId(v.history)))
  {
    IdsUpToLast(v.history);
    var now, last := Max(lo, v.cursor), Max(lo, LastRowId(v.history));
    SelectSplit(v.history, Some(branch), lo, now, last);
    SelectAscending(v.history, Some(branch), lo, last);
    if !v.subs[id].closed { SelectNone(v.history, Some(branch), now, last); }
  }
}
