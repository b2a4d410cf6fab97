/** The dispatcher as the object the server keeps: its synchronous stretches, proved against
    the state machine (src/services/agendaEventDispatcher.js:158-388). */
module DispatcherObject {
  import opened Subscriber
  import opened Outbox
  import opened Dispatcher

  class AgendaDispatcher {
    const config: Config
    const write: int -> nat -> Outcome
    var subs: map<int, Sub>
    var registered: set<int>
    var perIp: map<string, int>
    var nextId: nat
    var cursor: int
    var running: bool
    var stopping: bool
    var activePoll: Option<seq<Row>>
    ghost var history: seq<Row>
    ghost var purged: int
    ghost var phases: map<int, Phase>

    constructor (config: Config, write: int -> nat -> Outcome)
      ensures this.config == config && this.write == write && State() == Init()
    {
      this.config, this.write := config, write;
      subs, registered, perIp, nextId, cursor := map[], {}, map[], 0, 0;
      running, stopping, activePoll := false, false, None;
      history, purged, phases := [], 0, map[];
    }

    ghost function State(): World
      reads this
    {
      World(history, purged, cursor, running, stopping, activePoll, subs, phases, registered, perIp, nextId)
    }

    method ReserveIp(address: string) returns (ip: string)
      modifies this`perIp
      ensures ip == NormalizeIp(address) && perIp == Reserve(old(perIp), address)
    {
      ip := NormalizeIp(address);
      perIp := perIp[ip := (if ip in perIp then perIp[ip] else 0) + 1];
    }

    method ReleaseIp(address: string)
      modifies this`perIp
      ensures perIp == Release(old(perIp), address)
    {
      var ip := NormalizeIp(address);
      var current := if ip in perIp then perIp[ip] else 0;
      if current <= 1 {
        perIp := perIp - {ip};
      } else {
        perIp := perIp[ip := current - 1];
      }
    }

    /** Keeps the subscriber's new value and runs `onClose` when the call closed it. */
    method Keep(id: int, e: Effect)
      modifies this`subs, this`registered, this`perIp
      ensures State() == Settle(old(State()), id, e)
    {
      subs := subs[id := e.sub];
      if e.released {
        registered := registered - {id};
        ReleaseIp(e.sub.ip);
      }
    }

    method Connect(address: string, branch: int, last: Option<int>) returns (accepted: bool, id: int)
      modifies this
      ensures accepted <==> Accepts(old(State()), config, address)
      ensures State() == if accepted then Register(old(State()), address, branch, last) else old(State())
      ensures accepted ==> id == old(nextId)
    {
      var wanted := NormalizeIp(address);
      if |registered| >= config.maxGlobal || (if wanted in perIp then perIp[wanted] else 0) >= config.maxPerIp {
        return false, -1;
      }
      var ip := ReserveIp(address);
      id := nextId;
      subs := subs[id := Newcomer(branch, ip)];
      phases := phases[id := NeedWatermark(last)];
      registered := registered + {id};
      nextId := nextId + 1;
      return true, id;
    }

    method Unsubscribe(id: int)
      modifies this
      ensures State() == Apply(old(State()), Disconnect(id), config, write)
    {
      if id in registered && id in subs {
        Keep(id, ClosedLocally(subs[id]));
      }
    }

    /** The continuation of a poll whose query has answered. */
    method DeliverPolled()
      requires activePoll.Some?
      modifies this
      ensures State() == FinishPoll(old(State()), config, write)
    {
      var rows := activePoll.value;
      for k := 0 to |rows|
        invariant activePoll == old(activePoll) && cursor == old(cursor)
        invariant State() == DeliverRows(old(State()), rows[..k], config, write)
      {
        assert rows[..k + 1][..k] == rows[..k];
        Broadcast(rows[k]);
      }
      assert rows[..|rows|] == rows;
      if |rows| > 0 {
        cursor := rows[|rows| - 1].id;
      }
      activePoll := None;
    }

    /** One row to every subscriber still registered, in order of registration. */
    method Broadcast(row: Row)
      modifies this`subs, this`registered, this`perIp
      ensures State() == DeliverRow(old(State()), row, old(nextId), config, write)
    {
      for n := 0 to nextId
        invariant State() == DeliverRow(old(State()), row, n, config, write)
      {
        if n in registered && n in subs {
          Keep(n, Delivered(subs[n], row, config.bufferMax, write(n)));
        }
      }
    }

    method Stop()
      requires activePoll.None? && stopping
      modifies this
      ensures State() == Apply(old(State()), StopEnd, config, write)
    {
      for n := 0 to nextId
        invariant State() == CloseBelow(old(State()), n)
      {
        if n in registered && n in subs {
          Keep(n, ClosedLocally(subs[n]));
        }
      }
      registered, perIp, stopping := {}, map[], false;
    }
  }

  /** The loop over one batch of replayed rows, with its three ways out. */
  method ReplayLoop(s: Sub, current: int, delivered: nat, rows: seq<Row>, c: Config, write: nat -> Outcome) returns (p: Progress)
    ensures p == ReplayRows(Progress(Effect(s, false, false), current, delivered, false), rows, c, write)
  {
    ghost var p0 := Progress(Effect(s, false, false), current, delivered, false);
    p := Progress(Effect(s, false, false), current, delivered, false);
    for k := 0 to |rows|
      invariant p == ReplayRows(p0, rows[..k], c, write)
      invariant !p.tooMany && !p.effect.thrown
    {
      assert rows[..k + 1][..k] == rows[..k];
      p := p.(delivered := p.delivered + 1);
      if p.delivered > c.replayMaxEvents {
        p := p.(tooMany := true);
        StoppedStays(p0, rows, k + 1, c, write);
        return;
      }
      var e := Delivered(p.effect.sub, rows[k], c.bufferMax, write);
      p := p.(effect := e.(released := p.effect.released || e.released));
      if e.thrown {
        StoppedStays(p0, rows, k + 1, c, write);
        return;
      }
      p := p.(current := rows[k].id);
    }
    assert rows[..|rows|] == rows;
  }

  /** Once a replay has stopped, the rest of its batch changes nothing. */
  lemma {:induction false} StoppedStays(p: Progress, rows: seq<Row>, k: nat, c: Config, write: nat -> Outcome)
    requires k <= |rows|
    requires ReplayRows(p, rows[..k], c, write).tooMany || ReplayRows(p, rows[..k], c, write).effect.thrown
    ensures ReplayRows(p, rows, c, write) == ReplayRows(p, rows[..k], c, write)
    decreases |rows|
  {
    if k == |rows| {
      assert rows[..k] == rows;
    } else {
      var init := rows[..|rows| - 1];
      assert init[..k] == rows[..k];
      StoppedStays(p, init, k, c, write);
    }
  }
}
