/** The frames the dispatcher writes, read back by an event-stream client as section 9.2.6
    "Interpreting an event stream" of the WHATWG HTML Living Standard prescribes
    (src/services/agendaEventDispatcher.js:53-59, src/routes/v1/public/agendaEventos.js:187-191). */
module EventStream {
  import opened Subscriber
  import opened Dispatcher
  import opened Delivery
  import opened Replay

  /** One frame: an optional id, an event name and one line of serialized data. */
  datatype Frame = Frame(id: Option<string>, event: string, data: string)

  /** What the client dispatches: type, data, and the last event id at that moment. */
  datatype Message = Message(kind: string, data: string, lastEventId: string)

  function CreateSseFrame(f: Frame): string {
    (if f.id.Some? then "id: " + f.id.value + "\n" else "") + "event: " + f.event + "\n" + "data: " + f.data + "\n" + "\n"
  }

  // ------------------------------------------------------------- the client

  /** The next line and what follows it, at LF, CR or CRLF; `None` without a line end. */
  function NextLine(s: string): Option<(string, string)> {
    if s == "" then None
    else if s[0] == '\n' then Some(("", s[1..]))
    else if s[0] == '\r' then Some(("", if |s| > 1 && s[1] == '\n' then s[2..] else s[1..]))
    else
      match NextLine(s[1..])
      case None => None
      case Some(split) => Some(([s[0]] + split.0, split.1))
  }

  lemma {:induction false} NextLineShortens(s: string)
    ensures NextLine(s).Some? ==> |NextLine(s).value.1| < |s|
  {
    if s != "" && s[0] != '\n' && s[0] != '\r' {
      NextLineShortens(s[1..]);
    }
  }

  /** Buffers of the client and the messages dispatched so far. */
  datatype Client = Client(data: string, kind: string, lastId: string, dispatched: seq<Message>)

  function SplitAt(line: string, k: nat): (string, string)
    requires k < |line|
  {
    var rest := line[k + 1..];
    (line[..k], if rest != "" && rest[0] == ' ' then rest[1..] else rest)
  }

  function Colon(line: string): nat { if line == "" || line[0] == ':' then 0 else 1 + Colon(line[1..]) }

  lemma {:induction false} ColonBound(line: string)
    ensures Colon(line) <= |line|
  {
    if line != "" && line[0] != ':' {
      ColonBound(line[1..]);
    }
  }

  function Field(line: string): (r: (string, string)) {
    ColonBound(line);
    var k := Colon(line);
    if k < |line| then SplitAt(line, k) else (line, "")
  }

  function Dispatch(c: Client): Client {
    if c.data == "" then c.(kind := "")
    else
      var text := if c.data[|c.data| - 1] == '\n' then c.data[..|c.data| - 1] else c.data;
      Client("", "", c.lastId, c.dispatched + [Message(if c.kind == "" then "message" else c.kind, text, c.lastId)])
  }

  function Take(c: Client, line: string): Client {
    if line == "" then Dispatch(c)
    else if line[0] == ':' then c
    else
      var (name, value) := Field(line);
      if name == "event" then c.(kind := value)
      else if name == "data" then c.(data := c.data + value + "\n")
      else if name == "id" then (if '\0' in value then c else c.(lastId := value))
      else c
  }

  /** Reads whole lines; an unfinished one is dropped. */
  function Read(c: Client, stream: string): Client
    decreases |stream|
  {
    NextLineShortens(stream);
    match NextLine(stream)
    case None => c
    case Some(split) => Read(Take(c, split.0), split.1)
  }

  // ------------------------------------------------------------ the round trip

  predicate OneLine(s: string) { '\n' !in s && '\r' !in s }

  /** Serialized JSON and decimal ids have no line ends, and an id has no NULL. */
  predicate Clean(f: Frame) {
    && OneLine(f.event) && OneLine(f.data) && f.event != ""
    && (f.id.Some? ==> OneLine(f.id.value) && '\0' !in f.id.value)
  }

  lemma {:induction false} WholeLine(line: string, rest: string)
    requires OneLine(line)
    ensures NextLine(line + "\n" + rest) == Some((line, rest))
  {
    var s := line + "\n" + rest;
    if line == "" {
      assert s == "\n" + rest;
    } else {
      assert s[1..] == line[1..] + "\n" + rest;
      assert [line[0]] + line[1..] == line;
      WholeLine(line[1..], rest);
    }
  }

  lemma ReadLine(c: Client, line: string, rest: string)
    requires OneLine(line)
    ensures Read(c, line + "\n" + rest) == Read(Take(c, line), rest)
  {
    WholeLine(line, rest);
  }

  lemma ReadFields(value: string)
    ensures Field("event: " + value) == ("event", value)
    ensures Field("data: " + value) == ("data", value)
    ensures Field("id: " + value) == ("id", value)
  {
    FieldOf("event", value);
    FieldOf("data", value);
    FieldOf("id", value);
    assert "event: " + value == "event" + ": " + value;
    assert "data: " + value == "data" + ": " + value;
    assert "id: " + value == "id" + ": " + value;
  }

  lemma {:induction false} ColonAfter(name: string, rest: string)
    requires ':' !in name
    ensures Colon(name + ":" + rest) == |name|
  {
    var line := name + ":" + rest;
    if name != "" {
      assert line[1..] == name[1..] + ":" + rest;
      ColonAfter(name[1..], rest);
    } else {
      assert line[0] == ':';
    }
  }

  lemma FieldOf(name: string, value: string)
    requires ':' !in name
    ensures Field(name + ": " + value) == (name, value)
  {
    var line := name + ": " + value;
    ColonAfter(name, " " + value);
    assert line == name + ":" + (" " + value);
    assert line[|name| + 1..] == " " + value && (" " + value)[1..] == value;
    assert line[..|name|] == name;
  }

  /** What the client holds after one frame: one more message, empty buffers, and the frame's
      id, or the one it had. */
  function AfterFrame(c: Client, f: Frame): Client {
    var last := if f.id.Some? then f.id.value else c.lastId;
    Client("", "", last, c.dispatched + [Message(f.event, f.data, last)])
  }

  lemma TakeFields(c: Client, value: string)
    ensures Take(c, "event: " + value) == c.(kind := value)
    ensures Take(c, "data: " + value) == c.(data := c.data + value + "\n")
    ensures '\0' !in value ==> Take(c, "id: " + value) == c.(lastId := value)
  {
    ReadFields(value);
  }

  lemma ReadBody(c: Client, event: string, data: string, rest: string)
    requires c.data == "" && OneLine(event) && OneLine(data) && event != ""
    ensures Read(c, "event: " + event + "\n" + ("data: " + data + "\n" + ("" + "\n" + rest)))
         == Read(Client("", "", c.lastId, c.dispatched + [Message(event, data, c.lastId)]), rest)
  {
    ReadLine(c, "event: " + event, "data: " + data + "\n" + ("" + "\n" + rest));
    TakeFields(c, event);
    var c1 := c.(kind := event);
    ReadLine(c1, "data: " + data, "" + "\n" + rest);
    TakeFields(c1, data);
    var c2 := c1.(data := "" + data + "\n");
    ReadLine(c2, "", rest);
    assert c2.data[..|c2.data| - 1] == data;
  }

  /** One frame read by a client between messages. */
  lemma ReadFrame(c: Client, f: Frame, rest: string)
    requires c.data == "" && Clean(f)
    ensures Read(c, CreateSseFrame(f) + rest) == Read(AfterFrame(c, f), rest)
  {
    var body := "event: " + f.event + "\n" + ("data: " + f.data + "\n" + ("" + "\n" + rest));
    if f.id.Some? {
      assert CreateSseFrame(f) + rest == "id: " + f.id.value + "\n" + body;
      ReadLine(c, "id: " + f.id.value, body);
      TakeFields(c, f.id.value);
      ReadBody(c.(lastId := f.id.value), f.event, f.data, rest);
    } else {
      assert CreateSseFrame(f) + rest == body;
      ReadBody(c, f.event, f.data, rest);
    }
  }

  function Written(frames: seq<Frame>): string {
    if frames == [] then "" else CreateSseFrame(frames[0]) + Written(frames[1..])
  }

  function AfterFrames(c: Client, frames: seq<Frame>): Client
    decreases |frames|
  {
    if frames == [] then c else AfterFrames(AfterFrame(c, frames[0]), frames[1..])
  }

  /** Reading what was written gives every frame once, in order, with its event name and its
      data, and leaves the client with the id of the last frame that had one. */
  lemma {:induction false} ReadsWhatWasWritten(c: Client, frames: seq<Frame>)
    requires c.data == "" && forall i :: 0 <= i < |frames| ==> Clean(frames[i])
    ensures Read(c, Written(frames)) == AfterFrames(c, frames)
    decreases |frames|
  {
    if frames != [] {
      ReadFrame(c, frames[0], Written(frames[1..]));
      ReadsWhatWasWritten(AfterFrame(c, frames[0]), frames[1..]);
    }
  }

  /** The id a client sends when it reconnects: that of the last frame with one. */
  function LastIdOf(frames: seq<Frame>, before: string): string {
    if frames == [] then before
    else if frames[|frames| - 1].id.Some? then frames[|frames| - 1].id.value
    else LastIdOf(frames[..|frames| - 1], before)
  }

  lemma {:induction false} ReconnectsWithLastId(c: Client, frames: seq<Frame>)
    ensures AfterFrames(c, frames).lastId == LastIdOf(frames, c.lastId)
    ensures |AfterFrames(c, frames).dispatched| == |c.dispatched| + |frames|
    decreases |frames|
  {
    if frames != [] {
      ReconnectsWithLastId(AfterFrame(c, frames[0]), frames[1..]);
      LastIdCons(frames[0], frames[1..], c.lastId);
      assert [frames[0]] + frames[1..] == frames;
    }
  }

  lemma {:induction false} LastIdCons(f: Frame, rest: seq<Frame>, before: string)
    ensures LastIdOf([f] + rest, before) == LastIdOf(rest, if f.id.Some? then f.id.value else before)
  {
    if rest == [] {
      assert [f] + rest == [f] && [f][..0] == [];
    } else if rest[|rest| - 1].id.None? {
      LastIdCons(f, rest[..|rest| - 1], before);
      assert ([f] + rest)[..|rest|] == [f] + rest[..|rest| - 1];
    }
  }

  /** The frames a subscriber was written; `idText` prints ids, `body` and `note` serialize. */
  function FramesOf(items: seq<Item>, idText: int -> string, body: Row -> string, note: string -> string): seq<Frame> {
    seq(|items|, i requires 0 <= i < |items| =>
      match items[i]
      case Event(row) => Frame(Some(idText(row.id)), "agenda.availability.changed", body(row))
      case Resync(reason) => Frame(None, "agenda.resync.required", note(reason)))
  }

  lemma {:induction false} LastFrameId(
    items: seq<Item>, idText: int -> string, body: Row -> string, note: string -> string, before: string)
    ensures var frames := FramesOf(items, idText, body, note);
      LastIdOf(frames, before) == match LastId(items, None) case None => before case Some(id) => idText(id)
  {
    if items != [] {
      var n := |items| - 1;
      LastFrameId(items[..n], idText, body, note, before);
      assert FramesOf(items, idText, body, note)[..n] == FramesOf(items[..n], idText, body, note);
    }
  }

  // ---------------------------------------------- the dispatcher's last sent id

  /** The last sent id is that of the last event written. */
  ghost predicate Known(s: Sub) { s.lastSent == LastId(s.written, None) }

  /** After a failed replay the last sent id is the watermark instead. */
  ghost predicate KnownAt(w: World, id: int) {
    && id in w.subs && id in w.phases
    && (w.phases[id] == Live(true) || w.phases[id].Failed? || Known(w.subs[id]))
  }

  lemma {:induction false} LastIdAppend(a: seq<Item>, b: seq<Item>, before: Option<int>)
    ensures LastId(a + b, before) == LastId(b, LastId(a, before))
  {
    if b == [] {
      assert a + b == a;
    } else if !b[|b| - 1].Event? {
      LastIdAppend(a, b[..|b| - 1], before);
      assert (a + b)[..|a + b| - 1] == a + b[..|b| - 1];
    }
  }

  lemma FlushedKnown(s: Sub, write: nat -> Outcome)
    requires Known(s)
    ensures Known(Flushed(s, write).sub)
  {
    var k := FlushMoves(s, write);
    LastIdAppend(s.written, s.queue[..k], None);
  }

  lemma DeliveredKnown(s: Sub, row: Row, bufferMax: nat, write: nat -> Outcome)
    requires Known(s)
    ensures Known(Delivered(s, row, bufferMax, write).sub)
  {
    FlushedKnown(Push(s, Event(row)), write);
    FlushedKnown(Push(s, Resync("client_buffer_overflow")), write);
  }

  lemma {:induction false} DeliveredAllKnown(s: Sub, rows: seq<Row>, bufferMax: nat, write: nat -> Outcome)
    requires Known(s)
    ensures Known(DeliveredAll(s, rows, bufferMax, write))
  {
    if rows != [] {
      DeliveredAllKnown(s, rows[..|rows| - 1], bufferMax, write);
      DeliveredKnown(DeliveredAll(s, rows[..|rows| - 1], bufferMax, write), rows[|rows| - 1], bufferMax, write);
    }
  }

  lemma {:induction false} ReplayKnown(p: Progress, rows: seq<Row>, c: Config, write: nat -> Outcome)
    requires Known(p.effect.sub)
    ensures Known(ReplayRows(p, rows, c, write).effect.sub)
  {
    if rows != [] {
      ReplayKnown(p, rows[..|rows| - 1], c, write);
      DeliveredKnown(ReplayRows(p, rows[..|rows| - 1], c, write).effect.sub, rows[|rows| - 1], c.bufferMax, write);
    }
  }

  lemma GoLiveKnown(w: World, id: int, write: int -> nat -> Outcome)
    requires id in w.subs && Known(w.subs[id])
    ensures KnownAt(GoLive(w, id, false, write), id)
  {
    FlushedKnown(w.subs[id], write(id));
  }

  lemma GiveUpKnown(w: World, id: int, reason: string, mark: int, c: Config, write: int -> nat -> Outcome)
    requires id in w.subs
    ensures KnownAt(GiveUp(w, id, reason, mark, c, write), id)
  {
    GiveUpEnds(w, id, reason, mark, c, write);
    GiveUpPersists(w, id, reason, mark, c, write);
  }

  lemma BatchKnown(w: World, id: int, c: Config, write: int -> nat -> Outcome)
    requires KnownAt(w, id) && w.phases[id].Replaying?
    ensures KnownAt(ReplayBatch(w, id, c, write), id)
  {
    var ph := w.phases[id];
    ReplayKnown(Progress(Effect(w.subs[id], false, false), ph.current, ph.delivered, false), ReplayQuery(w, id, c), c, write(id));
    var v := Settle(w, id, BatchProgress(w, id, c, write).effect);
    GiveUpKnown(v, id, "replay_limit_exceeded", ph.mark, c, write);
    GoLiveKnown(v, id, write);
  }

  lemma BoundsKnown(w: World, id: int, c: Config, write: int -> nat -> Outcome)
    requires KnownAt(w, id) && w.phases[id].NeedBounds?
    ensures KnownAt(ReadBounds(w, id, c, write), id)
  {
    var last, mark := w.phases[id].last, w.phases[id].mark;
    if last < 0 || last > MaxVisible(w) {
      GiveUpKnown(w, id, "invalid_last_event_id", mark, c, write);
    } else if MinVisible(w) > 0 && last < MinVisible(w) - 1 {
      GiveUpKnown(w, id, "history_not_available", mark, c, write);
    } else if last >= mark {
      GoLiveKnown(w, id, write);
    }
  }

  lemma OwnStepKnown(w: World, l: Label, id: int, c: Config, write: int -> nat -> Outcome)
    requires KnownAt(w, id) && OpeningStep(l) && l.id == id
    ensures KnownAt(ApplyOpening(w, l, c, write), id)
  {
    if l.Watermark? {
      if w.phases[id].NeedWatermark? { GoLiveKnown(w, id, write); }
    } else if l.Bounds? {
      if w.phases[id].NeedBounds? { BoundsKnown(w, id, c, write); }
    } else if l.Batch? {
      if w.phases[id].Replaying? { BatchKnown(w, id, c, write); }
    } else if l.Drain? && w.phases[id] == Live(false) {
      FlushedKnown(w.subs[id].(draining := false), write(id));
    }
  }

  lemma StepKnown(w: World, l: Label, id: int, c: Config, write: int -> nat -> Outcome)
    requires Orderly(w, c) && (id in w.subs ==> KnownAt(w, id))
    ensures id in Apply(w, l, c, write).subs ==> KnownAt(Apply(w, l, c, write), id)
  {
    if OpeningStep(l) {
      if l.id == id {
        if id in w.subs { OwnStepKnown(w, l, id, c, write); }
      } else {
        OpeningKeepsOthers(w, l, c, write, id);
      }
    } else if OutboxStep(l) {
      OutboxKeepsSubscribers(w, l, c);
    } else if l.PollDeliver? {
      if w.poll.Some? { PollKnown(w, id, c, write); }
    } else if l.StopEnd? {
      if id in w.subs { CloseBelowSub(w, w.nextId, id); } else { CloseBelowKeys(w, w.nextId); }
    }
  }

  lemma PollKnown(w: World, id: int, c: Config, write: int -> nat -> Outcome)
    requires Orderly(w, c) && (id in w.subs ==> KnownAt(w, id)) && w.poll.Some?
    ensures id in FinishPoll(w, c, write).subs ==> KnownAt(FinishPoll(w, c, write), id)
  {
    if id in w.subs {
      DeliverRowsSub(w, w.poll.value, id, c, write);
      if Known(w.subs[id]) { DeliveredAllKnown(w.subs[id], w.poll.value, c.bufferMax, write(id)); }
    } else {
      DeliverRowsKeys(w, w.poll.value, c, write);
    }
  }

  lemma {:induction false} RunKnown(labels: seq<Label>, id: int, c: Config, write: int -> nat -> Outcome)
    requires AllKeepBooks(labels)
    ensures var v := Run(Init(), labels, c, write); id in v.subs ==> KnownAt(v, id)
  {
    if labels != [] {
      var init := labels[..|labels| - 1];
      RunKnown(init, id, c, write);
      RunOrderly(init, c, write);
      StepKnown(Run(Init(), init, c, write), labels[|labels| - 1], id, c, write);
    }
  }

  /** Ids print without a NULL, and ids and serialized texts are one line. */
  ghost predicate CleanTexts(idText: int -> string, body: Row -> string, note: string -> string) {
    && (forall id :: OneLine(idText(id)) && '\0' !in idText(id))
    && (forall row :: OneLine(body(row))) && (forall reason :: OneLine(note(reason)))
  }

  lemma NamesClean()
    ensures OneLine("agenda.availability.changed") && OneLine("agenda.resync.required")
  {
  }

  lemma FramesClean(items: seq<Item>, idText: int -> string, body: Row -> string, note: string -> string)
    requires CleanTexts(idText, body, note)
    ensures var frames := FramesOf(items, idText, body, note); forall i :: 0 <= i < |frames| ==> Clean(frames[i])
  {
    NamesClean();
  }

  lemma ReadsToLastId(
    items: seq<Item>, client: Client, idText: int -> string, body: Row -> string, note: string -> string)
    requires client.data == "" && CleanTexts(idText, body, note)
    ensures var after := Read(client, Written(FramesOf(items, idText, body, note)));
      && |after.dispatched| == |client.dispatched| + |items|
      && after.lastId == match LastId(items, None) case None => client.lastId case Some(last) => idText(last)
  {
    var frames := FramesOf(items, idText, body, note);
    FramesClean(items, idText, body, note);
    ReadsWhatWasWritten(client, frames);
    ReconnectsWithLastId(client, frames);
    LastFrameId(items, idText, body, note, client.lastId);
  }

  /** In every run: a client that reads everything its subscriber was written dispatches one
      message for each frame and reconnects with exactly the dispatcher's last sent id, or
      with the id it came with when no event was written; only a failed opening or replay,
      which sets the last sent id to the watermark, is excepted. */
  lemma ClientKnowsLastSent(
    labels: seq<Label>, id: int, c: Config, write: int -> nat -> Outcome, client: Client,
    idText: int -> string, body: Row -> string, note: string -> string)
    requires AllKeepBooks(labels) && client.data == "" && CleanTexts(idText, body, note)
    requires var v := Run(Init(), labels, c, write);
      id in v.subs && id in v.phases && v.phases[id] != Live(true) && !v.phases[id].Failed?
    ensures var s := Run(Init(), labels, c, write).subs[id];
      var after := Read(client, Written(FramesOf(s.written, idText, body, note)));
      && |after.dispatched| == |client.dispatched| + |s.written|
      && after.lastId == match s.lastSent case None => client.lastId case Some(last) => idText(last)
  {
    RunKnown(labels, id, c, write);
    ReadsToLastId(Run(Init(), labels, c, write).subs[id].written, client, idText, body, note);
  }

  /** Comment lines, such as the heartbeat, are invisible to the client. */
  lemma CommentsAreSilent(c: Client, text: string, rest: string)
    requires c.data == "" && c.kind == "" && OneLine(text)
    ensures Read(c, ":" + text + "\n" + ("" + "\n" + rest)) == Read(c, rest)
  {
    ReadLine(c, ":" + text, "" + "\n" + rest);
    ReadLine(c, "", rest);
  }
}
