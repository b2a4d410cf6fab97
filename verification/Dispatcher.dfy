/** The outbox dispatcher as a state machine: registration, polling, replay and shutdown
    (src/services/agendaEventDispatcher.js:158-388). */
module Dispatcher {
  import opened Subscriber
  import opened Outbox

  datatype Config = Config(
    bufferMax: nat, batchSize: nat, replayBatchSize: nat, replayMaxEvents: nat, maxPerIp: nat, maxGlobal: nat)

  /** How far the opening of a subscriber has come; `last` is its Last-Event-ID, negative
      when it is not a decimal id. */
  datatype Phase =
    | NeedWatermark(requested: Option<int>)
    | NeedBounds(last: int, mark: int)
    | Replaying(last: int, mark: int, current: int, delivered: nat)
    | Live(resynced: bool)
    | Failed

  /** `history` holds every row ever committed, of which retention has removed the ids up to
      `purged`; `subs` keeps closed subscribers too, `registered` is the dispatcher's map. */
  datatype World = World(
    history: seq<Row>, purged: int, cursor: int, running: bool, stopping: bool, poll: Option<seq<Row>>,
    subs: map<int, Sub>, phases: map<int, Phase>, registered: set<int>, perIp: map<string, int>, nextId: nat)

  datatype Label =
    | Commit(gap: nat, branch: int, body: int)
    | Purge(upTo: int)
    | Start
    | PollQuery
    | PollDeliver
    | PollFail
    | Connect(address: string, branch: int, last: Option<int>)
    | Watermark(id: int)
    | Bounds(id: int)
    | Batch(id: int)
    | OpeningFails(id: int)
    | Disconnect(id: int)
    | Drain(id: int)
    | StopBegin
    | StopEnd

  function Max(a: int, b: int): int { if a < b then b else a }

  // --------------------------------------------------------------- addresses

  /** White space and line ends, as String.trim of JavaScript removes them. */
  predicate IsSpace(c: char) {
    || '\U{9}' <= c <= '\U{D}' || c == ' ' || c == '\U{A0}' || c == '\U{1680}' || '\U{2000}' <= c <= '\U{200A}'
    || c == '\U{2028}' || c == '\U{2029}' || c == '\U{202F}' || c == '\U{205F}' || c == '\U{3000}' || c == '\U{FEFF}'
  }

  function TrimStart(s: string): string {
    if s != "" && IsSpace(s[0]) then TrimStart(s[1..]) else s
  }

  function TrimEnd(s: string): string {
    if s != "" && IsSpace(s[|s| - 1]) then TrimEnd(s[..|s| - 1]) else s
  }

  const MAPPED := "::ffff:"

  function NormalizeIp(value: string): string {
    var raw := TrimEnd(TrimStart(value));
    if MAPPED <= raw then raw[|MAPPED|..] else if raw != "" then raw else "unknown"
  }

  function CountOf(perIp: map<string, int>, ip: string): int { if ip in perIp then perIp[ip] else 0 }

  function Reserve(perIp: map<string, int>, address: string): map<string, int> {
    var ip := NormalizeIp(address);
    perIp[ip := CountOf(perIp, ip) + 1]
  }

  function Release(perIp: map<string, int>, address: string): map<string, int> {
    var ip := NormalizeIp(address);
    if CountOf(perIp, ip) <= 1 then perIp - {ip} else perIp[ip := CountOf(perIp, ip) - 1]
  }

  /** Releasing what a connection reserved restores the counts exactly when the reserved
      address normalizes to itself; otherwise a count stays behind. */
  lemma ReleaseUndoesReserveIff(perIp: map<string, int>, address: string)
    requires forall ip :: ip in perIp ==> perIp[ip] >= 1
    ensures Release(Reserve(perIp, address), NormalizeIp(address)) == perIp <==> NormalizeIp(NormalizeIp(address)) == NormalizeIp(address)
  {
    var ip := NormalizeIp(address);
    var after := Release(Reserve(perIp, address), ip);
    if NormalizeIp(ip) == ip {
      if ip in perIp { assert after[ip] == perIp[ip]; }
    } else {
      assert ip in after && after[ip] == CountOf(perIp, ip) + 1;
    }
  }

  // ------------------------------------------------------------- transitions

  function Newcomer(branch: int, ip: string): Sub { Sub(branch, ip, None, [], false, false, [], 0) }

  function Settle(w: World, id: int, e: Effect): World {
    w.(subs := w.subs[id := e.sub],
       registered := if e.released then w.registered - {id} else w.registered,
       perIp := if e.released then Release(w.perIp, e.sub.ip) else w.perIp)
  }

  predicate Accepts(w: World, c: Config, address: string) {
    |w.registered| < c.maxGlobal && CountOf(w.perIp, NormalizeIp(address)) < c.maxPerIp
  }

  function Register(w: World, address: string, branch: int, last: Option<int>): World {
    w.(perIp := Reserve(w.perIp, address),
       subs := w.subs[w.nextId := Newcomer(branch, NormalizeIp(address))],
       phases := w.phases[w.nextId := NeedWatermark(last)],
       registered := w.registered + {w.nextId},
       nextId := w.nextId + 1)
  }

  function SetPhase(w: World, id: int, p: Phase): World { w.(phases := w.phases[id := p]) }

  function Abort(w: World, id: int): World
    requires id in w.subs
  {
    SetPhase(Settle(w, id, ClosedLocally(w.subs[id])), id, Failed)
  }

  function GoLive(w: World, id: int, resynced: bool, write: int -> nat -> Outcome): World
    requires id in w.subs
  {
    var e := Flushed(w.subs[id], write(id));
    var v := Settle(w, id, e);
    if e.thrown then Abort(v, id) else SetPhase(v, id, Live(resynced))
  }

  function GiveUp(w: World, id: int, reason: string, mark: int, c: Config, write: int -> nat -> Outcome): World
    requires id in w.subs
  {
    var e := Enqueued(w.subs[id], Resync(reason), true, c.bufferMax, write(id));
    if e.thrown then Abort(Settle(w, id, e), id)
    else GoLive(Settle(w, id, e.(sub := e.sub.(lastSent := Some(mark)))), id, true, write)
  }

  function Visible(w: World): seq<Row> { Select(w.history, None, w.purged, LastRowId(w.history)) }

  function MinVisible(w: World): int { if Visible(w) == [] then 0 else Visible(w)[0].id }

  function MaxVisible(w: World): int { LastRowId(Visible(w)) }

  function ReadWatermark(w: World, id: int, write: int -> nat -> Outcome): World
    requires id in w.subs
  {
    if id !in w.phases || !w.phases[id].NeedWatermark? then w
    else if w.phases[id].requested.None? then GoLive(w, id, false, write)
    else SetPhase(w, id, NeedBounds(w.phases[id].requested.value, MaxVisible(w)))
  }

  function ReadBounds(w: World, id: int, c: Config, write: int -> nat -> Outcome): World
    requires id in w.subs
  {
    if id !in w.phases || !w.phases[id].NeedBounds? then w
    else
      var last, mark := w.phases[id].last, w.phases[id].mark;
      if last < 0 || last > MaxVisible(w) then GiveUp(w, id, "invalid_last_event_id", mark, c, write)
      else if MinVisible(w) > 0 && last < MinVisible(w) - 1 then GiveUp(w, id, "history_not_available", mark, c, write)
      else if last < mark then SetPhase(w, id, Replaying(last, mark, last, 0))
      else GoLive(w, id, false, write)
  }

  /** Where a replay loop stands. */
  datatype Progress = Progress(effect: Effect, current: int, delivered: nat, tooMany: bool)

  function ReplayRow(p: Progress, row: Row, c: Config, write: nat -> Outcome): Progress {
    if p.tooMany || p.effect.thrown then p
    else if p.delivered + 1 > c.replayMaxEvents then p.(delivered := p.delivered + 1, tooMany := true)
    else
      var e := Delivered(p.effect.sub, row, c.bufferMax, write);
      Progress(e.(released := p.effect.released || e.released),
               if e.thrown then p.current else row.id, p.delivered + 1, false)
  }

  function ReplayRows(p: Progress, rows: seq<Row>, c: Config, write: nat -> Outcome): Progress {
    if rows == [] then p
    else ReplayRow(ReplayRows(p, rows[..|rows| - 1], c, write), rows[|rows| - 1], c, write)
  }

  function ReplayQuery(w: World, id: int, c: Config): seq<Row>
    requires id in w.subs && id in w.phases && w.phases[id].Replaying?
  {
    FirstN(Select(w.history, Some(w.subs[id].branch), Max(w.phases[id].current, w.purged), w.phases[id].mark),
           c.replayBatchSize)
  }

  function ReplayBatch(w: World, id: int, c: Config, write: int -> nat -> Outcome): World
    requires id in w.subs
  {
    if id !in w.phases || !w.phases[id].Replaying? then w
    else
      var Replaying(last, mark, current, delivered) := w.phases[id];
      var rows := ReplayQuery(w, id, c);
      var p := ReplayRows(Progress(Effect(w.subs[id], false, false), current, delivered, false), rows, c, write(id));
      var v := Settle(w, id, p.effect);
      if p.effect.thrown then Abort(v, id)
      else if p.tooMany then GiveUp(v, id, "replay_limit_exceeded", mark, c, write)
      else if rows == [] || |rows| < c.replayBatchSize || p.current >= mark then GoLive(v, id, false, write)
      else SetPhase(v, id, Replaying(last, mark, p.current, p.delivered))
  }

  function DeliverTo(w: World, id: int, row: Row, c: Config, write: int -> nat -> Outcome): World {
    if id in w.registered && id in w.subs then Settle(w, id, Delivered(w.subs[id], row, c.bufferMax, write(id)))
    else w
  }

  /** One polled row to the subscribers numbered below `n`, in order of registration. */
  function DeliverRow(w: World, row: Row, n: nat, c: Config, write: int -> nat -> Outcome): World {
    if n == 0 then w else DeliverTo(DeliverRow(w, row, n - 1, c, write), n - 1, row, c, write)
  }

  function DeliverRows(w: World, rows: seq<Row>, c: Config, write: int -> nat -> Outcome): World {
    if rows == [] then w
    else
      var v := DeliverRows(w, rows[..|rows| - 1], c, write);
      DeliverRow(v, rows[|rows| - 1], v.nextId, c, write)
  }

  /** Nothing at or below the floor is delivered by the next poll. */
  function Floor(w: World): int { Max(w.cursor, w.purged) }

  function PollRows(w: World, c: Config): seq<Row> {
    FirstN(Select(w.history, None, Floor(w), LastRowId(w.history)), c.batchSize)
  }

  function FinishPoll(w: World, c: Config, write: int -> nat -> Outcome): World
    requires w.poll.Some?
  {
    var rows := w.poll.value;
    DeliverRows(w, rows, c, write).(
      cursor := if rows == [] then w.cursor else rows[|rows| - 1].id, poll := None)
  }

  function CloseOne(w: World, id: int): World {
    if id in w.registered && id in w.subs then Settle(w, id, ClosedLocally(w.subs[id])) else w
  }

  function CloseBelow(w: World, n: nat): World {
    if n == 0 then w else CloseOne(CloseBelow(w, n - 1), n - 1)
  }

  function Init(): World { World([], 0, 0, false, false, None, map[], map[], {}, map[], 0) }

  function FailOpening(w: World, id: int): World
    requires id in w.subs
  {
    if id in w.phases && !w.phases[id].Live? && !w.phases[id].Failed? then Abort(w, id) else w
  }

  function DrainOne(w: World, id: int, write: int -> nat -> Outcome): World
    requires id in w.subs
  {
    if id in w.phases && w.phases[id].Live? then Settle(w, id, Drained(w.subs[id], write(id))) else w
  }

  /** Steps of one subscriber. */
  predicate OpeningStep(l: Label) { l.Watermark? || l.Bounds? || l.Batch? || l.OpeningFails? || l.Disconnect? || l.Drain? }

  function ApplyOpening(w: World, l: Label, c: Config, write: int -> nat -> Outcome): World
    requires OpeningStep(l)
  {
    if l.id !in w.subs then w
    else
      match l
      case Watermark(id) => ReadWatermark(w, id, write)
      case Bounds(id) => ReadBounds(w, id, c, write)
      case Batch(id) => ReplayBatch(w, id, c, write)
      case OpeningFails(id) => FailOpening(w, id)
      case Disconnect(id) => CloseOne(w, id)
      case Drain(id) => DrainOne(w, id, write)
  }

  /** Steps of the outbox, the clock of the poll and the switch, which touch no subscriber. */
  predicate OutboxStep(l: Label) { l.Commit? || l.Purge? || l.Start? || l.PollQuery? || l.PollFail? || l.StopBegin? }

  function ApplyOutbox(w: World, l: Label, c: Config): World
    requires OutboxStep(l)
  {
    match l
    case Commit(gap, branch, body) => w.(history := w.history + [Row(LastRowId(w.history) + 1 + gap, branch, body)])
    case Purge(upTo) => if upTo <= w.cursor then w.(purged := Max(w.purged, upTo)) else w
    case Start => if w.running || w.poll.Some? then w else w.(running := true, cursor := MaxVisible(w))
    case PollQuery => if w.running && w.poll.None? then w.(poll := Some(PollRows(w, c))) else w
    case PollFail => w.(poll := None)
    case StopBegin => w.(running := false, stopping := true)
  }

  function Apply(w: World, l: Label, c: Config, write: int -> nat -> Outcome): World {
    if OpeningStep(l) then ApplyOpening(w, l, c, write)
    else if OutboxStep(l) then ApplyOutbox(w, l, c)
    else
      match l
      case PollDeliver => if w.poll.Some? then FinishPoll(w, c, write) else w
      case Connect(address, branch, last) => if Accepts(w, c, address) then Register(w, address, branch, last) else w
      case StopEnd =>
        if w.stopping && w.poll.None?
        then CloseBelow(w, w.nextId).(registered := {}, perIp := map[], stopping := false) else w
  }

  function Run(w: World, labels: seq<Label>, c: Config, write: int -> nat -> Outcome): World {
    if labels == [] then w else Apply(Run(w, labels[..|labels| - 1], c, write), labels[|labels| - 1], c, write)
  }

  // -------------------------------------------------------------- accounting

  /** The registered subscribers of an address. */
  function OpenAt(w: World, ip: string): set<int> {
    set id | id in w.registered && id in w.subs && w.subs[id].ip == ip
  }

  predicate Stable(ip: string) { NormalizeIp(ip) == ip }

  ghost predicate Registry(w: World) {
    && w.phases.Keys == w.subs.Keys && w.registered <= w.subs.Keys
    && (forall id :: id in w.subs ==> 0 <= id < w.nextId)
    && (forall id :: id in w.subs ==> (id in w.registered <==> !w.subs[id].closed))
    && (forall id :: id in w.subs ==> Stable(w.subs[id].ip))
  }

  ghost predicate CountsOpen(w: World, ip: string) {
    && (ip in w.perIp <==> OpenAt(w, ip) != {})
    && CountOf(w.perIp, ip) == |OpenAt(w, ip)|
  }

  ghost predicate Books(w: World) {
    Registry(w) && forall ip :: CountsOpen(w, ip)
  }

  /** The connection limits hold. */
  ghost predicate WithinLimits(w: World, c: Config) {
    |w.registered| <= c.maxGlobal && forall ip :: CountOf(w.perIp, ip) <= c.maxPerIp
  }

  ghost predicate Orderly(w: World, c: Config) { Books(w) && WithinLimits(w, c) }

  lemma SettleOrderly(w: World, id: int, e: Effect, c: Config)
    requires Orderly(w, c) && id in w.subs && Sound(w.subs[id], e)
    ensures Orderly(Settle(w, id, e), c)
  {
    var v := Settle(w, id, e);
    forall ip ensures CountsOpen(v, ip) && CountOf(v.perIp, ip) <= c.maxPerIp {
      assert CountsOpen(w, ip) && CountOf(w.perIp, ip) <= c.maxPerIp;
      if e.released && ip == e.sub.ip {
        assert NormalizeIp(e.sub.ip) == ip by { assert Stable(w.subs[id].ip); }
        assert id in OpenAt(w, ip);
        assert OpenAt(v, ip) == OpenAt(w, ip) - {id};
        assert |OpenAt(v, ip)| == |OpenAt(w, ip)| - 1;
        assert OpenAt(v, ip) == {} <==> |OpenAt(v, ip)| == 0;
      } else {
        assert OpenAt(v, ip) == OpenAt(w, ip);
      }
    }
  }

  lemma RegisterOrderly(w: World, address: string, branch: int, last: Option<int>, c: Config)
    requires Orderly(w, c) && Stable(NormalizeIp(address)) && Accepts(w, c, address)
    ensures Orderly(Register(w, address, branch, last), c)
  {
    var v := Register(w, address, branch, last);
    forall ip ensures CountsOpen(v, ip) && CountOf(v.perIp, ip) <= c.maxPerIp {
      assert CountsOpen(w, ip) && CountOf(w.perIp, ip) <= c.maxPerIp;
      if ip == NormalizeIp(address) {
        assert w.nextId !in OpenAt(w, ip);
        assert OpenAt(v, ip) == OpenAt(w, ip) + {w.nextId};
        assert |OpenAt(v, ip)| == |OpenAt(w, ip)| + 1;
      } else {
        assert OpenAt(v, ip) == OpenAt(w, ip);
      }
    }
  }

  lemma SetPhaseOrderly(w: World, id: int, p: Phase, c: Config)
    requires Orderly(w, c) && id in w.subs
    ensures Orderly(SetPhase(w, id, p), c)
  {
    var v := SetPhase(w, id, p);
    forall ip ensures CountsOpen(v, ip) {
      assert CountsOpen(w, ip) && OpenAt(v, ip) == OpenAt(w, ip);
    }
  }

  lemma AbortOrderly(w: World, id: int, c: Config)
    requires Orderly(w, c) && id in w.subs
    ensures Orderly(Abort(w, id), c)
  {
    SettleOrderly(w, id, ClosedLocally(w.subs[id]), c);
    SetPhaseOrderly(Settle(w, id, ClosedLocally(w.subs[id])), id, Failed, c);
  }

  lemma GoLiveOrderly(w: World, id: int, resynced: bool, c: Config, write: int -> nat -> Outcome)
    requires Orderly(w, c) && id in w.subs
    ensures Orderly(GoLive(w, id, resynced, write), c)
  {
    var e := Flushed(w.subs[id], write(id));
    FlushedSound(w.subs[id], write(id));
    SettleOrderly(w, id, e, c);
    if e.thrown {
      AbortOrderly(Settle(w, id, e), id, c);
    } else {
      SetPhaseOrderly(Settle(w, id, e), id, Live(resynced), c);
    }
  }

  lemma GiveUpOrderly(w: World, id: int, reason: string, mark: int, c: Config, write: int -> nat -> Outcome)
    requires Orderly(w, c) && id in w.subs
    ensures Orderly(GiveUp(w, id, reason, mark, c, write), c)
  {
    var e := Enqueued(w.subs[id], Resync(reason), true, c.bufferMax, write(id));
    EnqueuedSound(w.subs[id], Resync(reason), true, c.bufferMax, write(id));
    if e.thrown {
      SettleOrderly(w, id, e, c);
      AbortOrderly(Settle(w, id, e), id, c);
    } else {
      var f := e.(sub := e.sub.(lastSent := Some(mark)));
      SettleOrderly(w, id, f, c);
      GoLiveOrderly(Settle(w, id, f), id, true, c, write);
    }
  }

  lemma {:induction false} ReplaySound(s: Sub, p: Progress, rows: seq<Row>, c: Config, write: nat -> Outcome)
    requires Sound(s, p.effect)
    ensures Sound(s, ReplayRows(p, rows, c, write).effect)
  {
    if rows != [] {
      ReplaySound(s, p, rows[..|rows| - 1], c, write);
      var q := ReplayRows(p, rows[..|rows| - 1], c, write);
      DeliveredSound(q.effect.sub, rows[|rows| - 1], c.bufferMax, write);
    }
  }

  lemma ReplayBatchOrderly(w: World, id: int, c: Config, write: int -> nat -> Outcome)
    requires Orderly(w, c) && id in w.subs
    ensures Orderly(ReplayBatch(w, id, c, write), c)
  {
    if id in w.phases && w.phases[id].Replaying? {
      var Replaying(last, mark, current, delivered) := w.phases[id];
      var rows := ReplayQuery(w, id, c);
      var p0 := Progress(Effect(w.subs[id], false, false), current, delivered, false);
      var p := ReplayRows(p0, rows, c, write(id));
      var v := Settle(w, id, p.effect);
      ReplaySound(w.subs[id], p0, rows, c, write(id));
      SettleOrderly(w, id, p.effect, c);
      if p.effect.thrown {
        AbortOrderly(v, id, c);
      } else if p.tooMany {
        GiveUpOrderly(v, id, "replay_limit_exceeded", mark, c, write);
      } else {
        GoLiveOrderly(v, id, false, c, write);
        SetPhaseOrderly(v, id, Replaying(last, mark, p.current, p.delivered), c);
      }
    }
  }

  lemma BoundsOrderly(w: World, id: int, c: Config, write: int -> nat -> Outcome)
    requires Orderly(w, c) && id in w.subs
    ensures Orderly(ReadBounds(w, id, c, write), c)
  {
    if id in w.phases && w.phases[id].NeedBounds? {
      var last, mark := w.phases[id].last, w.phases[id].mark;
      if last < 0 || last > MaxVisible(w) {
        GiveUpOrderly(w, id, "invalid_last_event_id", mark, c, write);
      } else if MinVisible(w) > 0 && last < MinVisible(w) - 1 {
        GiveUpOrderly(w, id, "history_not_available", mark, c, write);
      } else if last < mark {
        SetPhaseOrderly(w, id, Replaying(last, mark, last, 0), c);
      } else {
        GoLiveOrderly(w, id, false, c, write);
      }
    }
  }

  lemma WatermarkOrderly(w: World, id: int, c: Config, write: int -> nat -> Outcome)
    requires Orderly(w, c) && id in w.subs
    ensures Orderly(ReadWatermark(w, id, write), c)
  {
    if id in w.phases && w.phases[id].NeedWatermark? {
      if w.phases[id].requested.None? {
        GoLiveOrderly(w, id, false, c, write);
      } else {
        SetPhaseOrderly(w, id, NeedBounds(w.phases[id].requested.value, MaxVisible(w)), c);
      }
    }
  }

  lemma {:induction false} DeliverRowOrderly(w: World, row: Row, n: nat, c: Config, write: int -> nat -> Outcome)
    requires Orderly(w, c)
    ensures Orderly(DeliverRow(w, row, n, c, write), c)
  {
    if n > 0 {
      DeliverRowOrderly(w, row, n - 1, c, write);
      var v := DeliverRow(w, row, n - 1, c, write);
      DeliverToOrderly(v, n - 1, row, c, write);
      OneRowMore(w, v, row, n, c, write);
    }
  }

  lemma OneRowMore(w: World, v: World, row: Row, n: nat, c: Config, write: int -> nat -> Outcome)
    requires n > 0 && v == DeliverRow(w, row, n - 1, c, write) && Orderly(DeliverTo(v, n - 1, row, c, write), c)
    ensures Orderly(DeliverRow(w, row, n, c, write), c)
  {
    assert DeliverRow(w, row, n, c, write) == DeliverTo(v, n - 1, row, c, write);
  }

  lemma DeliverToOrderly(v: World, id: int, row: Row, c: Config, write: int -> nat -> Outcome)
    requires Orderly(v, c)
    ensures Orderly(DeliverTo(v, id, row, c, write), c)
  {
    if id in v.registered && id in v.subs {
      DeliveredSound(v.subs[id], row, c.bufferMax, write(id));
      SettleOrderly(v, id, Delivered(v.subs[id], row, c.bufferMax, write(id)), c);
    }
  }

  lemma {:induction false} DeliverRowsOrderly(w: World, rows: seq<Row>, c: Config, write: int -> nat -> Outcome)
    requires Orderly(w, c)
    ensures Orderly(DeliverRows(w, rows, c, write), c)
  {
    if rows != [] {
      DeliverRowsOrderly(w, rows[..|rows| - 1], c, write);
      var v := DeliverRows(w, rows[..|rows| - 1], c, write);
      DeliverRowOrderly(v, rows[|rows| - 1], v.nextId, c, write);
    }
  }

  lemma {:induction false} CloseBelowOrderly(w: World, n: nat, c: Config)
    requires Orderly(w, c)
    ensures Orderly(CloseBelow(w, n), c) && CloseBelow(w, n).nextId == w.nextId
    ensures NoneBelow(CloseBelow(w, n), n)
  {
    if n > 0 {
      CloseBelowOrderly(w, n - 1, c);
      CloseNextOrderly(w, n - 1, c);
    } else {
      assert forall id :: id in w.registered ==> id in w.subs;
    }
  }

  lemma CloseNextOrderly(w: World, n: nat, c: Config)
    requires Orderly(CloseBelow(w, n), c) && CloseBelow(w, n).nextId == w.nextId && NoneBelow(CloseBelow(w, n), n)
    ensures var v := CloseBelow(w, n + 1); Orderly(v, c) && v.nextId == w.nextId && NoneBelow(v, n + 1)
  {
    CloseOneOrderly(CloseBelow(w, n), n, c);
  }

  ghost predicate NoneBelow(w: World, n: int) { forall id :: id in w.registered ==> id >= n }

  lemma CloseOneOrderly(w: World, id: int, c: Config)
    requires Orderly(w, c) && NoneBelow(w, id)
    ensures var v := CloseOne(w, id); Orderly(v, c) && v.nextId == w.nextId && NoneBelow(v, id + 1)
  {
    if id in w.registered {
      SettleOrderly(w, id, ClosedLocally(w.subs[id]), c);
      assert !w.subs[id].closed;
    }
    forall other | other in CloseOne(w, id).registered ensures other >= id + 1 {
      assert other in w.registered;
    }
  }

  /** By the time stop clears both maps, closing every subscriber has emptied them. */
  lemma StopLeavesNothing(w: World, c: Config)
    requires Orderly(w, c)
    ensures Orderly(CloseBelow(w, w.nextId), c)
    ensures CloseBelow(w, w.nextId).registered == {} && CloseBelow(w, w.nextId).perIp == map[]
  {
    CloseBelowOrderly(w, w.nextId, c);
    var v := CloseBelow(w, w.nextId);
    forall id ensures id !in v.registered {
      assert id in v.registered ==> id in v.subs;
    }
    forall ip ensures ip !in v.perIp {
      assert CountsOpen(v, ip) && OpenAt(v, ip) == {};
    }
  }

  predicate KeepsBooks(l: Label) { l.Connect? ==> Stable(NormalizeIp(l.address)) }

  /** The books, as far as they depend on the state. */
  ghost predicate SameSubscribers(w: World, v: World) {
    v.subs == w.subs && v.phases == w.phases && v.registered == w.registered && v.perIp == w.perIp && v.nextId == w.nextId
  }

  lemma SameBooks(w: World, v: World, c: Config)
    requires Orderly(w, c)
    requires SameSubscribers(w, v)
    ensures Orderly(v, c)
  {
    forall ip ensures CountsOpen(v, ip) {
      assert CountsOpen(w, ip) && OpenAt(v, ip) == OpenAt(w, ip);
    }
  }

  lemma ClientStepOrderly(w: World, id: int, c: Config, write: int -> nat -> Outcome)
    requires Orderly(w, c) && id in w.subs
    ensures Orderly(FailOpening(w, id), c) && Orderly(CloseOne(w, id), c) && Orderly(DrainOne(w, id, write), c)
  {
    AbortOrderly(w, id, c);
    SettleOrderly(w, id, ClosedLocally(w.subs[id]), c);
    FlushedSound(w.subs[id], write(id));
    SettleOrderly(w, id, Drained(w.subs[id], write(id)), c);
  }

  lemma OpeningStepOrderly(w: World, l: Label, c: Config, write: int -> nat -> Outcome)
    requires Orderly(w, c) && OpeningStep(l)
    ensures Orderly(ApplyOpening(w, l, c, write), c)
  {
    if l.id in w.subs {
      if l.Watermark? {
        WatermarkOrderly(w, l.id, c, write);
      } else if l.Bounds? {
        BoundsOrderly(w, l.id, c, write);
      } else if l.Batch? {
        ReplayBatchOrderly(w, l.id, c, write);
      } else {
        ClientStepOrderly(w, l.id, c, write);
      }
    }
  }

  lemma OutboxKeepsSubscribers(w: World, l: Label, c: Config)
    requires OutboxStep(l)
    ensures SameSubscribers(w, ApplyOutbox(w, l, c))
  {
  }

  lemma ApplyOrderly(w: World, l: Label, c: Config, write: int -> nat -> Outcome)
    requires Orderly(w, c) && KeepsBooks(l)
    ensures Orderly(Apply(w, l, c, write), c)
  {
    if OpeningStep(l) {
      OpeningStepOrderly(w, l, c, write);
    } else if OutboxStep(l) {
      OutboxKeepsSubscribers(w, l, c);
      SameBooks(w, ApplyOutbox(w, l, c), c);
    } else if l.PollDeliver? {
      if w.poll.Some? { FinishPollOrderly(w, c, write); }
    } else if l.Connect? {
      if Accepts(w, c, l.address) { RegisterOrderly(w, l.address, l.branch, l.last, c); }
    } else if w.stopping && w.poll.None? {
      StopLeavesNothing(w, c);
      SameBooks(CloseBelow(w, w.nextId), Apply(w, l, c, write), c);
    }
  }

  lemma FinishPollOrderly(w: World, c: Config, write: int -> nat -> Outcome)
    requires Orderly(w, c) && w.poll.Some?
    ensures Orderly(FinishPoll(w, c, write), c)
  {
    DeliverRowsOrderly(w, w.poll.value, c, write);
    SameBooks(DeliverRows(w, w.poll.value, c, write), FinishPoll(w, c, write), c);
  }

  /** In every run each address is counted once per open subscriber and absent at zero, the
      map holds exactly the subscribers not closed, and the connection limits hold. */
  lemma {:induction false} RunOrderly(labels: seq<Label>, c: Config, write: int -> nat -> Outcome)
    requires forall i :: 0 <= i < |labels| ==> KeepsBooks(labels[i])
    ensures Orderly(Run(Init(), labels, c, write), c)
  {
    if labels == [] {
      forall ip ensures CountsOpen(Init(), ip) {
        assert OpenAt(Init(), ip) == {};
      }
    } else {
      RunOrderly(labels[..|labels| - 1], c, write);
      ApplyOrderly(Run(Init(), labels[..|labels| - 1], c, write), labels[|labels| - 1], c, write);
    }
  }
}
