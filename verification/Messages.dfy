/**
 The message timeline (packages/protocol/src/client/messages.ts): pushed frames, streaming replies assembled
 from deltas and mirrored into the timeline, and a revision counter for the persisted part.
 */
module Messages {
  import opened Prelude
  import opened Frames

  datatype Block =
    | TextPart(text: string)
    | ThinkingPart(thinking: string)
    | ToolPart(id: string, name: string, input: Json, partialJson: string, parsed: bool)

  /** Blocks sit at the indices the wire gives them; an index without a block is a hole. */
  datatype InFlight = InFlight(id: string, model: Option<string>, content: map<int, Block>, done: bool, arrivalIdx: int)

  datatype Entry =
    | LocalUser(id: string, text: string, arrivalIdx: int)
    | FrameEntry(id: string, frame: Frame, arrivalIdx: int)
    | Streaming(id: string, msg: InFlight, arrivalIdx: int)

  datatype State = State(messages: seq<Entry>, streaming: map<string, InFlight>, active: Option<string>,
                         revision: nat, counter: int)

  const EMPTY := State([], map[], None, 0, 0)

  const NO_INPUT := Json("{}")

  type Parser = string -> Option<Json>

  // ---------- specification functions ----------

  function PushLocal(s: State, text: string, id: string): State {
    s.(messages := s.messages + [LocalUser(id, text, s.counter)], counter := s.counter + 1, revision := s.revision + 1)
  }

  function PushFrame(s: State, frame: Frame, id: string): State {
    s.(messages := s.messages + [FrameEntry(id, frame, s.counter)], counter := s.counter + 1, revision := s.revision + 1)
  }

  function Start(s: State, id: string, model: Option<string>): State {
    var msg := InFlight(id, model, map[], false, s.counter);
    s.(streaming := s.streaming[id := msg], messages := s.messages + [Streaming(id, msg, s.counter)],
       counter := s.counter + 1, active := Some(id))
  }

  predicate IsStream(e: Entry, id: string) {
    e.Streaming? && e.id == id
  }

  /** The timeline entry that shows a stream: the tail if it is that stream, else the first one. */
  function ShownAt(messages: seq<Entry>, id: string): int {
    if messages != [] && IsStream(messages[|messages| - 1], id) then |messages| - 1
    else FindIndex(messages, (e: Entry) => IsStream(e, id))
  }

  /** Replaces a live stream's record and shows it. */
  function Update(s: State, id: string, msg: InFlight): State {
    var i := ShownAt(s.messages, id);
    s.(streaming := s.streaming[id := msg],
       messages := if i < 0 || !s.messages[i].Streaming? then s.messages
                   else s.messages[i := s.messages[i].(msg := msg)])
  }

  function WithoutStream(messages: seq<Entry>, id: string): seq<Entry> {
    Filter(messages, (e: Entry) => !IsStream(e, id))
  }

  function Drop(s: State, id: string): State {
    s.(streaming := s.streaming - {id}, active := if s.active == Some(id) then None else s.active,
       messages := WithoutStream(s.messages, id), revision := s.revision + 1)
  }

  function InitialBlock(b: BlockInit): Block {
    match b
    case ToolUseInit(id, name, input) => ToolPart(ValueOr(id, ""), ValueOr(name, ""), ValueOr(input, NO_INPUT), "", false)
    case ThinkingInit(thinking) => ThinkingPart(ValueOr(thinking, ""))
    case TextInit(text) => TextPart(ValueOr(text, ""))
  }

  function AppendDelta(b: Block, d: Delta): Block {
    if b.TextPart? && d.TextDelta? && d.text.Some? then TextPart(b.text + d.text.value)
    else if b.ToolPart? && d.InputJsonDelta? && d.partialJson.Some? then b.(partialJson := b.partialJson + d.partialJson.value)
    else if b.ThinkingPart? && d.ThinkingDelta? && d.thinking.Some? then ThinkingPart(b.thinking + d.thinking.value)
    else b
  }

  function StopBlock(b: Block, parse: Parser): Block {
    if !b.ToolPart? || b.parsed then b
    else if b.partialJson == "" then b.(parsed := true)
    else if parse(b.partialJson).Some? then b.(input := parse(b.partialJson).value, parsed := true)
    else b
  }

  /** What an event other than message_start does to the record of the active stream. */
  function Assemble(msg: InFlight, ev: StreamEvent, parse: Parser): InFlight {
    match ev
    case BlockStart(k, block) => msg.(content := msg.content[k := InitialBlock(block)])
    case BlockDelta(k, delta) =>
      if k in msg.content then msg.(content := msg.content[k := AppendDelta(msg.content[k], delta)]) else msg
    case BlockStop(k) =>
      if k in msg.content then msg.(content := msg.content[k := StopBlock(msg.content[k], parse)]) else msg
    case MessageStop => msg.(done := true)
    case _ => msg
  }

  function StreamStep(s: State, ev: StreamEvent, parse: Parser): State {
    if ev.MessageStart? then if ev.id != "" then Start(s, ev.id, ev.model) else s
    else if ev.OtherEvent? || s.active.None? || s.active.value !in s.streaming then s
    else Update(s, s.active.value, Assemble(s.streaming[s.active.value], ev, parse))
  }

  predicate Consumes(frame: Frame) {
    (frame.body.StreamEventBody? && frame.body.event.Some?) || (frame.body.Assistant? && frame.body.messageId != "")
  }

  function IngestFrame(s: State, frame: Frame, id: string, parse: Parser): State {
    if !Consumes(frame) then s
    else if frame.body.StreamEventBody? then StreamStep(s, frame.body.event.value, parse)
    else
      var mid := frame.body.messageId;
      PushFrame(if mid in s.streaming then Drop(s, mid) else s, frame, id)
  }

  /** The entries that are saved. */
  function Persisted(messages: seq<Entry>): seq<Entry> {
    Filter(messages, (e: Entry) => !e.Streaming?)
  }

  function MaxArrival(entries: seq<Entry>): int
    requires entries != []
  {
    var rest := entries[1..];
    if rest == [] || MaxArrival(rest) <= entries[0].arrivalIdx then entries[0].arrivalIdx else MaxArrival(rest)
  }

  function Hydrated(s: State, entries: seq<Entry>): State {
    var kept := Persisted(entries);
    State(kept, map[], None, s.revision + 1, if kept == [] then 0 else MaxArrival(kept) + 1)
  }

  function Cleared(s: State): State {
    State([], map[], None, s.revision + 1, 0)
  }

  // ---------- the aggregator ----------

  class MessagesAggregator {
    const parse: Parser
    var messages: seq<Entry>
    var activeStreamId: Option<string>
    var revision: nat
    var streaming: map<string, InFlight>
    var arrivalCounter: int

    constructor (parse: Parser)
      ensures this.parse == parse && Model() == EMPTY
    {
      this.parse := parse;
      messages, activeStreamId, revision, streaming, arrivalCounter := [], None, 0, map[], 0;
    }

    function Model(): State
      reads this
    {
      State(messages, streaming, activeStreamId, revision, arrivalCounter)
    }

    method PushLocalUser(text: string, id: string)
      modifies this
      ensures Model() == PushLocal(old(Model()), text, id)
    {
      var entry := LocalUser(id, text, arrivalCounter);
      arrivalCounter := arrivalCounter + 1;
      messages := messages + [entry];
      revision := revision + 1;
    }

    method Push(frame: Frame, id: string)
      modifies this
      ensures Model() == PushFrame(old(Model()), frame, id)
    {
      var entry := FrameEntry(id, frame, arrivalCounter);
      arrivalCounter := arrivalCounter + 1;
      messages := messages + [entry];
      revision := revision + 1;
    }

    method StartStreaming(id: string, msg: InFlight)
      requires msg == InFlight(id, msg.model, map[], false, arrivalCounter)
      modifies this
      ensures Model() == Start(old(Model()), id, msg.model)
    {
      streaming := streaming[id := msg];
      var entry := Streaming(id, msg, arrivalCounter);
      arrivalCounter := arrivalCounter + 1;
      messages := messages + [entry];
      activeStreamId := Some(id);
    }

    /** Shows the record of a stream whose record was just changed. */
    method BumpStreaming(id: string)
      modifies this
      ensures Model() == if id in old(streaming) then Update(old(Model()), id, old(streaming)[id]) else old(Model())
    {
      if id !in streaming {
        return;
      }
      var msg := streaming[id];
      assert streaming == streaming[id := msg];
      var last := |messages| - 1;
      if last < 0 {
        return;
      }
      if !IsStream(messages[last], id) {
        var idx := FindIndex(messages, (e: Entry) => IsStream(e, id));
        if idx == -1 {
          return;
        }
        messages := messages[idx := messages[idx].(msg := msg)];
        return;
      }
      messages := messages[last := messages[last].(msg := msg)];
    }

    method DropStreaming(id: string)
      modifies this
      ensures Model() == Drop(old(Model()), id)
    {
      streaming := streaming - {id};
      if activeStreamId == Some(id) {
        activeStreamId := None;
      }
      messages := WithoutStream(messages, id);
      revision := revision + 1;
    }

    method ApplyStreamEvent(ev: StreamEvent)
      modifies this
      ensures Model() == StreamStep(old(Model()), ev, parse)
    {
      if ev.MessageStart? {
        if ev.id != "" {
          StartStreaming(ev.id, InFlight(ev.id, ev.model, map[], false, arrivalCounter));
        }
        return;
      }
      if ev.OtherEvent? || activeStreamId.None? || activeStreamId.value !in streaming {
        return;
      }
      var id := activeStreamId.value;
      var msg := streaming[id];
      match ev {
        case BlockStart(index, block) =>
          msg := msg.(content := msg.content[index := InitialBlock(block)]);
        case BlockDelta(index, delta) =>
          if index in msg.content {
            msg := msg.(content := msg.content[index := AppendDelta(msg.content[index], delta)]);
          }
        case BlockStop(index) =>
          if index in msg.content {
            msg := msg.(content := msg.content[index := StopBlock(msg.content[index], parse)]);
          }
        case MessageStop =>
          msg := msg.(done := true);
      }
      streaming := streaming[id := msg];
      BumpStreaming(id);
    }

    method Ingest(frame: Frame, newId: string) returns (consumed: bool)
      modifies this
      ensures consumed == Consumes(frame)
      ensures Model() == IngestFrame(old(Model()), frame, newId, parse)
    {
      if frame.body.StreamEventBody? && frame.body.event.Some? {
        ApplyStreamEvent(frame.body.event.value);
        return true;
      }
      if frame.body.Assistant? && frame.body.messageId != "" {
        var id := frame.body.messageId;
        if id in streaming {
          DropStreaming(id);
        }
        Push(frame, newId);
        return true;
      }
      return false;
    }

    method Hydrate(entries: seq<Entry>)
      modifies this
      ensures Model() == Hydrated(old(Model()), entries)
    {
      streaming := map[];
      activeStreamId := None;
      var filtered := Persisted(entries);
      if |filtered| > 0 {
        var max := MaxOf(filtered);
        arrivalCounter := max + 1;
      } else {
        arrivalCounter := 0;
      }
      messages := filtered;
      revision := revision + 1;
    }

    method Reset()
      modifies this
      ensures Model() == Cleared(old(Model()))
    {
      streaming := map[];
      activeStreamId := None;
      messages := [];
      arrivalCounter := 0;
      revision := revision + 1;
    }
  }

  /** Math.max over the arrival indices. */
  method MaxOf(entries: seq<Entry>) returns (max: int)
    requires entries != []
    ensures max == MaxArrival(entries)
  {
    MaxArrivalIsMax(entries);
    max := entries[0].arrivalIdx;
    for i := 1 to |entries|
      invariant exists j :: 0 <= j < i && entries[j].arrivalIdx == max
      invariant forall j :: 0 <= j < i ==> entries[j].arrivalIdx <= max
    {
      if entries[i].arrivalIdx > max {
        max := entries[i].arrivalIdx;
      }
    }
  }

  lemma {:induction false} MaxArrivalIsMax(entries: seq<Entry>)
    requires entries != []
    ensures exists j :: 0 <= j < |entries| && entries[j].arrivalIdx == MaxArrival(entries)
    ensures forall j :: 0 <= j < |entries| ==> entries[j].arrivalIdx <= MaxArrival(entries)
  {
    var rest := entries[1..];
    if rest != [] {
      MaxArrivalIsMax(rest);
      var j :| 0 <= j < |rest| && rest[j].arrivalIdx == MaxArrival(rest);
      var i := if MaxArrival(rest) <= entries[0].arrivalIdx then 0 else j + 1;
      assert entries[i].arrivalIdx == MaxArrival(entries);
      assert forall i :: 1 <= i < |entries| ==> entries[i] == rest[i - 1];
    } else {
      assert entries[0].arrivalIdx == MaxArrival(entries);
    }
  }

  // ---------- runs ----------

  datatype Event =
    | PushLocalUser(text: string, id: string)
    | Push(frame: Frame, id: string)
    | Arrive(frame: Frame, id: string)
    | Restore(entries: seq<Entry>)
    | Clear

  function Step(s: State, e: Event, parse: Parser): State {
    match e
    case PushLocalUser(text, id) => PushLocal(s, text, id)
    case Push(frame, id) => PushFrame(s, frame, id)
    case Arrive(frame, id) => IngestFrame(s, frame, id, parse)
    case Restore(entries) => Hydrated(s, entries)
    case Clear => Cleared(s)
  }

  function Run(events: seq<Event>, parse: Parser): State {
    if events == [] then EMPTY
    else Step(Run(events[..|events| - 1], parse), events[|events| - 1], parse)
  }

  // ---------- the timeline mirrors the stream records ----------

  /** The timeline shows a stream at most once. */
  ghost predicate ShownOnce(messages: seq<Entry>) {
    forall i, j :: 0 <= i < j < |messages| && messages[i].Streaming? && messages[j].Streaming? ==>
      messages[i].id != messages[j].id
  }

  ghost predicate Shows(messages: seq<Entry>, id: string) {
    exists i :: 0 <= i < |messages| && IsStream(messages[i], id)
  }

  ghost predicate Mirrors(s: State) {
    && (forall e :: e in s.messages && e.Streaming? ==> e.id in s.streaming && e.msg == s.streaming[e.id])
    && (forall id :: id in s.streaming ==> Shows(s.messages, id))
    && ShownOnce(s.messages)
    && (s.active.Some? ==> s.active.value in s.streaming)
  }

  /** The id a message_start announces, if the event is one. */
  function StartedId(e: Event): Option<string> {
    if e.Arrive? && e.frame.body.StreamEventBody? && e.frame.body.event.Some? && e.frame.body.event.value.MessageStart?
       && e.frame.body.event.value.id != ""
    then Some(e.frame.body.event.value.id) else None
  }

  lemma ShownAtIs(messages: seq<Entry>, id: string, k: nat)
    requires ShownOnce(messages) && k < |messages| && IsStream(messages[k], id)
    ensures ShownAt(messages, id) == k
  {
  }

  lemma ShowsMore(messages: seq<Entry>, messages': seq<Entry>, id: string)
    requires Shows(messages, id) && |messages| <= |messages'|
    requires forall i :: 0 <= i < |messages| && messages[i].Streaming? ==> messages'[i].Streaming? && messages'[i].id == messages[i].id
    ensures Shows(messages', id)
  {
    var i :| 0 <= i < |messages| && IsStream(messages[i], id);
    assert IsStream(messages'[i], id);
  }

  lemma ReplaceKeepsMirrors(s: State, s': State, k: nat, msg: InFlight)
    requires Mirrors(s) && k < |s.messages| && s.messages[k].Streaming?
    requires s' == s.(streaming := s.streaming[s.messages[k].id := msg], messages := s.messages[k := s.messages[k].(msg := msg)])
    ensures Mirrors(s')
  {
    forall x | x in s'.streaming ensures Shows(s'.messages, x) { ShowsMore(s.messages, s'.messages, x); }
    forall e | e in s'.messages && e.Streaming? ensures e.id in s'.streaming && e.msg == s'.streaming[e.id] {
      var j :| 0 <= j < |s'.messages| && s'.messages[j] == e;
      if j != k { assert s'.messages[j] == s.messages[j] && s.messages[j] in s.messages; }
    }
  }

  lemma UpdateKeepsMirrors(s: State, id: string, msg: InFlight)
    requires Mirrors(s) && id in s.streaming
    ensures Mirrors(Update(s, id, msg))
  {
    var k :| 0 <= k < |s.messages| && IsStream(s.messages[k], id);
    ShownAtIs(s.messages, id, k);
    ReplaceKeepsMirrors(s, Update(s, id, msg), k, msg);
  }

  lemma PushKeepsMirrors(s: State, s': State, e: Entry)
    requires Mirrors(s) && !e.Streaming? && s'.messages == s.messages + [e]
    requires s'.streaming == s.streaming && s'.active == s.active
    ensures Mirrors(s')
  {
    forall x | x in s'.streaming ensures Shows(s'.messages, x) { ShowsMore(s.messages, s'.messages, x); }
  }

  lemma StartKeepsMirrors(s: State, id: string, model: Option<string>)
    requires Mirrors(s) && id !in s.streaming
    ensures Mirrors(Start(s, id, model))
  {
    var s' := Start(s, id, model);
    assert IsStream(s'.messages[|s.messages|], id);
    forall x | x in s'.streaming ensures Shows(s'.messages, x) {
      if x != id { ShowsMore(s.messages, s'.messages, x); }
    }
  }

  /** A second message_start with a live id leaves a stale entry: the timeline no longer mirrors the records. */
  lemma RestartBreaksMirrors(s: State, id: string, model: Option<string>)
    requires Mirrors(s) && id in s.streaming
    ensures !Mirrors(Start(s, id, model))
  {
    var s' := Start(s, id, model);
    var k :| 0 <= k < |s.messages| && IsStream(s.messages[k], id);
    assert IsStream(s'.messages[k], id) && IsStream(s'.messages[|s.messages|], id);
  }

  lemma {:induction false} FilterDropsStream(messages: seq<Entry>, id: string)
    requires ShownOnce(messages)
    ensures ShownOnce(WithoutStream(messages, id))
    ensures forall x :: x != id && Shows(messages, x) ==> Shows(WithoutStream(messages, id), x)
  {
    if messages != [] {
      var rest := messages[1..];
      FilterDropsStream(rest, id);
      var kept := WithoutStream(rest, id);
      forall j | 0 <= j < |kept| && messages[0].Streaming? && kept[j].Streaming? ensures kept[j].id != messages[0].id {
        assert kept[j] in rest;
      }
      forall x | x != id && Shows(messages, x) ensures Shows(WithoutStream(messages, id), x) {
        var i :| 0 <= i < |messages| && IsStream(messages[i], x);
        if i > 0 {
          assert IsStream(rest[i - 1], x) && Shows(kept, x);
          var j :| 0 <= j < |kept| && IsStream(kept[j], x);
          if !IsStream(messages[0], id) { assert IsStream(([messages[0]] + kept)[j + 1], x); }
        } else {
          assert IsStream(([messages[0]] + kept)[0], x);
        }
      }
    }
  }

  lemma DropKeepsMirrors(s: State, id: string)
    requires Mirrors(s) && id in s.streaming
    ensures Mirrors(Drop(s, id))
  {
    FilterDropsStream(s.messages, id);
  }

  lemma HydratedMirrors(s: State, entries: seq<Entry>)
    ensures Mirrors(Hydrated(s, entries))
  {
  }

  lemma StepMirrors(s: State, e: Event, parse: Parser)
    requires Mirrors(s)
    ensures Mirrors(Step(s, e, parse)) <==> StartedId(e).None? || StartedId(e).value !in s.streaming
  {
    match e
    case PushLocalUser(text, id) => PushKeepsMirrors(s, PushLocal(s, text, id), LocalUser(id, text, s.counter));
    case Push(frame, id) => PushKeepsMirrors(s, PushFrame(s, frame, id), FrameEntry(id, frame, s.counter));
    case Restore(entries) => HydratedMirrors(s, entries);
    case Clear =>
    case Arrive(frame, id) => ArrivalMirrors(s, frame, id, parse);
  }

  lemma ArrivalMirrors(s: State, frame: Frame, id: string, parse: Parser)
    requires Mirrors(s)
    ensures var started := StartedId(Arrive(frame, id));
      Mirrors(IngestFrame(s, frame, id, parse)) <==> started.None? || started.value !in s.streaming
  {
    if !Consumes(frame) {
    } else if frame.body.Assistant? {
      var mid := frame.body.messageId;
      var t := if mid in s.streaming then Drop(s, mid) else s;
      if mid in s.streaming { DropKeepsMirrors(s, mid); }
      PushKeepsMirrors(t, PushFrame(t, frame, id), FrameEntry(id, frame, t.counter));
    } else {
      var ev := frame.body.event.value;
      if ev.MessageStart? {
        if ev.id == "" {
        } else if ev.id in s.streaming {
          RestartBreaksMirrors(s, ev.id, ev.model);
        } else {
          StartKeepsMirrors(s, ev.id, ev.model);
        }
      } else if !ev.OtherEvent? && s.active.Some? {
        UpdateKeepsMirrors(s, s.active.value, Assemble(s.streaming[s.active.value], ev, parse));
      }
    }
  }

  /** No message_start of the run names a stream that is live at that moment. */
  ghost predicate FreshStarts(events: seq<Event>, parse: Parser) {
    events == [] ||
    (var before, e := events[..|events| - 1], events[|events| - 1];
     FreshStarts(before, parse) && (StartedId(e).None? || StartedId(e).value !in Run(before, parse).streaming))
  }

  /**
   Over every run with fresh message ids, under any interleaving: each streaming entry shows its record, the
   records are exactly those of the streaming entries, and the active stream is one of them.
   */
  lemma {:induction false} RunMirrors(events: seq<Event>, parse: Parser)
    requires FreshStarts(events, parse)
    ensures Mirrors(Run(events, parse))
  {
    if events != [] {
      RunMirrors(events[..|events| - 1], parse);
      StepMirrors(Run(events[..|events| - 1], parse), events[|events| - 1], parse);
    }
  }

  // ---------- assembly is a fold of the stream's own log ----------

  predicate Assembles(e: Event) {
    e.Arrive? && e.frame.body.StreamEventBody? && e.frame.body.event.Some?
    && !e.frame.body.event.value.MessageStart? && !e.frame.body.event.value.OtherEvent?
  }

  /** The stream the run's last event leaves active. */
  function ActiveAfter(events: seq<Event>): Option<string> {
    if events == [] then None
    else
      var prev, e := ActiveAfter(events[..|events| - 1]), events[|events| - 1];
      if e.Restore? || e.Clear? then None
      else if StartedId(e).Some? then StartedId(e)
      else if e.Arrive? && e.frame.body.Assistant? && Consumes(e.frame) && prev == Some(e.frame.body.messageId) then None
      else prev
  }

  /** The stream events that arrived while `id` was active, since its message_start. */
  function LogOf(events: seq<Event>, id: string): seq<StreamEvent> {
    if events == [] then []
    else
      var before, e := events[..|events| - 1], events[|events| - 1];
      if e.Restore? || e.Clear? || StartedId(e) == Some(id) then []
      else if Assembles(e) && ActiveAfter(before) == Some(id) then LogOf(before, id) + [e.frame.body.event.value]
      else LogOf(before, id)
  }

  /** The last content_block_start at index k, or -1. */
  function LastStart(log: seq<StreamEvent>, k: int): (i: int)
    ensures -1 <= i < |log| && (i >= 0 ==> log[i].BlockStart? && log[i].index == k)
  {
    if log == [] then -1
    else
      var last := log[|log| - 1];
      if last.BlockStart? && last.index == k then |log| - 1 else LastStart(log[..|log| - 1], k)
  }

  function TextIn(ev: StreamEvent, k: int): string {
    if ev.BlockDelta? && ev.index == k && ev.delta.TextDelta? then ValueOr(ev.delta.text, "") else ""
  }

  function ThinkingIn(ev: StreamEvent, k: int): string {
    if ev.BlockDelta? && ev.index == k && ev.delta.ThinkingDelta? then ValueOr(ev.delta.thinking, "") else ""
  }

  function JsonIn(ev: StreamEvent, k: int): string {
    if ev.BlockDelta? && ev.index == k && ev.delta.InputJsonDelta? then ValueOr(ev.delta.partialJson, "") else ""
  }

  /** The concatenation of what `part` picks from each event. */
  function Gather(log: seq<StreamEvent>, k: int, part: (StreamEvent, int) -> string): string {
    if log == [] then "" else Gather(log[..|log| - 1], k, part) + part(log[|log| - 1], k)
  }

  predicate Settles(json: string, parse: Parser) {
    json == "" || parse(json).Some?
  }

  /** The first content_block_stop at k whose JSON so far is empty or parses, or -1. */
  function SettledAt(log: seq<StreamEvent>, k: int, parse: Parser): (j: int)
    ensures -1 <= j < |log| && (j >= 0 ==> Settles(Gather(log[..j], k, JsonIn), parse))
  {
    if log == [] then -1
    else
      var front := log[..|log| - 1];
      var j := SettledAt(front, k, parse);
      assert j >= 0 ==> log[..j] == front[..j];
      if j >= 0 then j
      else if log[|log| - 1] == BlockStop(k) && Settles(Gather(front, k, JsonIn), parse) then |log| - 1
      else -1
  }

  /** The input of a tool block: the value parsed at the stop that settled it, else the initial one. */
  function ToolInput(since: seq<StreamEvent>, k: int, initial: Json, parse: Parser): Json {
    var j := SettledAt(since, k, parse);
    var json := if j < 0 then "" else Gather(since[..j], k, JsonIn);
    if json == "" then initial else parse(json).value
  }

  /** A start value continued by the events that followed it. */
  function Continue(start: BlockInit, since: seq<StreamEvent>, k: int, parse: Parser): Block {
    match start
    case TextInit(text) => TextPart(ValueOr(text, "") + Gather(since, k, TextIn))
    case ThinkingInit(thinking) => ThinkingPart(ValueOr(thinking, "") + Gather(since, k, ThinkingIn))
    case ToolUseInit(id, name, input) =>
      ToolPart(ValueOr(id, ""), ValueOr(name, ""), ToolInput(since, k, ValueOr(input, NO_INPUT), parse),
               Gather(since, k, JsonIn), SettledAt(since, k, parse) >= 0)
  }

  /** Block k of a log: its latest start value, continued by the deltas of matching type since then. */
  function BlockAt(log: seq<StreamEvent>, k: int, parse: Parser): Option<Block> {
    var i := LastStart(log, k);
    if i < 0 then None else Some(Continue(log[i].block, log[i + 1..], k, parse))
  }

  ghost predicate Holds(msg: InFlight, log: seq<StreamEvent>, parse: Parser) {
    && (forall k :: k in msg.content <==> BlockAt(log, k, parse).Some?)
    && (forall k :: k in msg.content ==> BlockAt(log, k, parse) == Some(msg.content[k]))
    && (msg.done <==> MessageStop in log)
  }

  function BlockStep(b: Option<Block>, ev: StreamEvent, k: int, parse: Parser): Option<Block> {
    if ev.BlockStart? && ev.index == k then Some(InitialBlock(ev.block))
    else if b.None? then None
    else if ev.BlockDelta? && ev.index == k then Some(AppendDelta(b.value, ev.delta))
    else if ev == BlockStop(k) then Some(StopBlock(b.value, parse))
    else b
  }

  lemma ContinueNothing(start: BlockInit, k: int, parse: Parser)
    ensures Continue(start, [], k, parse) == InitialBlock(start)
  {
    match start
    case TextInit(text) => assert ValueOr(text, "") + "" == ValueOr(text, "");
    case ThinkingInit(thinking) => assert ValueOr(thinking, "") + "" == ValueOr(thinking, "");
    case ToolUseInit(_, _, _) =>
  }

  /** What one more event does to the two kinds of block that only collect text. */
  lemma TextContinues(start: BlockInit, since: seq<StreamEvent>, ev: StreamEvent, k: int, parse: Parser)
    requires !(ev.BlockStart? && ev.index == k) && !start.ToolUseInit?
    ensures Some(Continue(start, since + [ev], k, parse)) == BlockStep(Some(Continue(start, since, k, parse)), ev, k, parse)
  {
    hide Settles, SettledAt, ToolInput;
    assert (since + [ev])[..|since|] == since;
    var text, thinking := Gather(since, k, TextIn), Gather(since, k, ThinkingIn);
    assert text + "" == text && thinking + "" == thinking;
    match start
    case TextInit(init) => assert ValueOr(init, "") + (text + TextIn(ev, k)) == ValueOr(init, "") + text + TextIn(ev, k);
    case ThinkingInit(init) =>
      assert ValueOr(init, "") + (thinking + ThinkingIn(ev, k)) == ValueOr(init, "") + thinking + ThinkingIn(ev, k);
  }

  lemma ToolContinues(start: BlockInit, since: seq<StreamEvent>, ev: StreamEvent, k: int, parse: Parser)
    requires !(ev.BlockStart? && ev.index == k) && start.ToolUseInit?
    ensures Some(Continue(start, since + [ev], k, parse)) == BlockStep(Some(Continue(start, since, k, parse)), ev, k, parse)
  {
    hide SettledAt, Gather;
    JsonGathers(since, ev, k);
    ToolInputStep(since, ev, k, parse);
  }

  lemma JsonGathers(since: seq<StreamEvent>, ev: StreamEvent, k: int)
    ensures Gather(since + [ev], k, JsonIn) == Gather(since, k, JsonIn) + JsonIn(ev, k)
    ensures Gather(since, k, JsonIn) + "" == Gather(since, k, JsonIn)
  {
    assert (since + [ev])[..|since|] == since;
  }

  /** One more event, other than a new start, does to the continued block what the aggregator does. */
  lemma ContinueStep(start: BlockInit, since: seq<StreamEvent>, ev: StreamEvent, k: int, parse: Parser)
    requires !(ev.BlockStart? && ev.index == k)
    ensures Some(Continue(start, since + [ev], k, parse)) == BlockStep(Some(Continue(start, since, k, parse)), ev, k, parse)
  {
    hide Continue, BlockStep;
    if start.ToolUseInit? { ToolContinues(start, since, ev, k, parse); } else { TextContinues(start, since, ev, k, parse); }
  }

  lemma LastStartStep(log: seq<StreamEvent>, ev: StreamEvent, k: int)
    ensures LastStart(log + [ev], k) == if ev.BlockStart? && ev.index == k then |log| else LastStart(log, k)
  {
    assert (log + [ev])[..|log|] == log;
  }

  lemma BlockAtStep(log: seq<StreamEvent>, ev: StreamEvent, k: int, parse: Parser)
    ensures BlockAt(log + [ev], k, parse) == BlockStep(BlockAt(log, k, parse), ev, k, parse)
  {
    hide Continue, InitialBlock, AppendDelta, StopBlock, LastStart;
    var log', i := log + [ev], LastStart(log, k);
    LastStartStep(log, ev, k);
    if ev.BlockStart? && ev.index == k {
      assert log'[|log| + 1..] == [];
      ContinueNothing(ev.block, k, parse);
    } else if i >= 0 {
      assert log'[i + 1..] == log[i + 1..] + [ev] && log'[i] == log[i];
      ContinueStep(log[i].block, log[i + 1..], ev, k, parse);
    }
  }

  lemma ToolInputStep(since: seq<StreamEvent>, ev: StreamEvent, k: int, parse: Parser)
    ensures var j, j' := SettledAt(since, k, parse), SettledAt(since + [ev], k, parse);
      && (j >= 0 ==> j' == j && (since + [ev])[..j] == since[..j])
      && (j < 0 && ev == BlockStop(k) && Settles(Gather(since, k, JsonIn), parse) ==>
            j' == |since| && (since + [ev])[..j'] == since)
      && (j < 0 && !(ev == BlockStop(k) && Settles(Gather(since, k, JsonIn), parse)) ==> j' < 0)
  {
    assert (since + [ev])[..|since|] == since;
    var j := SettledAt(since, k, parse);
    if j >= 0 { assert (since + [ev])[..j] == since[..j]; }
  }

  lemma AssembleHolds(msg: InFlight, log: seq<StreamEvent>, ev: StreamEvent, parse: Parser)
    requires Holds(msg, log, parse) && !ev.MessageStart? && !ev.OtherEvent?
    ensures Holds(Assemble(msg, ev, parse), log + [ev], parse)
  {
    hide BlockAt;
    forall k ensures BlockAt(log + [ev], k, parse) == BlockStep(BlockAt(log, k, parse), ev, k, parse) {
      BlockAtStep(log, ev, k, parse);
    }
  }

  ghost predicate Folded(s: State, events: seq<Event>, parse: Parser) {
    && s.active == ActiveAfter(events)
    && (s.active.Some? ==> s.active.value in s.streaming)
    && forall id :: id in s.streaming ==> Holds(s.streaming[id], LogOf(events, id), parse)
  }

  lemma StepFolds(s: State, events: seq<Event>, e: Event, parse: Parser)
    requires Folded(s, events, parse)
    ensures Folded(Step(s, e, parse), events + [e], parse)
  {
    hide Holds, Assemble;
    var events', s' := events + [e], Step(s, e, parse);
    assert events'[..|events|] == events;
    if Assembles(e) && s.active.Some? {
      var id, ev := s.active.value, e.frame.body.event.value;
      AssembleHolds(s.streaming[id], LogOf(events, id), ev, parse);
      assert s'.streaming == s.streaming[id := Assemble(s.streaming[id], ev, parse)];
    } else if StartedId(e).Some? {
      StartHolds(StartedId(e).value, e.frame.body.event.value.model, s.counter, parse);
    }
  }

  lemma StartHolds(id: string, model: Option<string>, counter: int, parse: Parser)
    ensures Holds(InFlight(id, model, map[], false, counter), [], parse)
  {
  }

  /**
   Over every run, with no assumption on ids: block k of each live stream is its latest start value followed by
   the matching deltas that arrived at index k while that stream was active, whatever else arrived in between.
   */
  lemma {:induction false} RunFolds(events: seq<Event>, parse: Parser)
    ensures Folded(Run(events, parse), events, parse)
  {
    if events != [] {
      var before := events[..|events| - 1];
      RunFolds(before, parse);
      StepFolds(Run(before, parse), before, events[|events| - 1], parse);
      assert before + [events[|events| - 1]] == events;
    }
  }

  /** Neither starts nor stops block k. */
  ghost predicate OnlyDeltas(log: seq<StreamEvent>, k: int) {
    forall ev :: ev in log ==> ev != BlockStop(k) && !(ev.BlockStart? && ev.index == k)
  }

  lemma {:induction false} SettledBy(log: seq<StreamEvent>, post: seq<StreamEvent>, k: int, parse: Parser)
    requires OnlyDeltas(log, k) && Settles(Gather(log, k, JsonIn), parse)
    ensures SettledAt(log + [BlockStop(k)] + post, k, parse) == |log|
  {
    hide Gather, JsonIn;
    var all := log + [BlockStop(k)] + post;
    if post == [] {
      assert all[..|log|] == log;
      NeverSettled(log, k, parse);
      assert all == log + [BlockStop(k)];
    } else {
      assert all[..|all| - 1] == log + [BlockStop(k)] + post[..|post| - 1];
      SettledBy(log, post[..|post| - 1], k, parse);
    }
  }

  lemma {:induction false} NeverSettled(log: seq<StreamEvent>, k: int, parse: Parser)
    requires OnlyDeltas(log, k)
    ensures SettledAt(log, k, parse) == -1
  {
    if log != [] { NeverSettled(log[..|log| - 1], k, parse); }
  }

  lemma {:induction false} StartIsLast(pre: seq<StreamEvent>, start: StreamEvent, post: seq<StreamEvent>, k: int)
    requires start.BlockStart? && start.index == k
    requires forall ev :: ev in post ==> !(ev.BlockStart? && ev.index == k)
    ensures LastStart(pre + [start] + post, k) == |pre|
  {
    var all := pre + [start] + post;
    if post != [] {
      assert all[..|all| - 1] == pre + [start] + post[..|post| - 1];
      StartIsLast(pre, start, post[..|post| - 1], k);
    }
  }

  /**
   A tool block that was started, fed and stopped: if its concatenated JSON parses, that value is its input from the
   first stop on, whatever arrives later short of a new start; if the concatenation is empty the start's input stays.
   */
  lemma StoppedToolInput(pre: seq<StreamEvent>, id: Option<string>, name: Option<string>, input: Option<Json>,
                         fed: seq<StreamEvent>, post: seq<StreamEvent>, k: int, parse: Parser)
    requires OnlyDeltas(fed, k) && forall ev :: ev in post ==> !(ev.BlockStart? && ev.index == k)
    requires Settles(Gather(fed, k, JsonIn), parse)
    ensures var json := Gather(fed, k, JsonIn);
      var log := pre + [BlockStart(k, ToolUseInit(id, name, input))] + (fed + [BlockStop(k)] + post);
      && BlockAt(log, k, parse).Some? && BlockAt(log, k, parse).value.ToolPart? && BlockAt(log, k, parse).value.parsed
      && BlockAt(log, k, parse).value.input == if json == "" then ValueOr(input, NO_INPUT) else parse(json).value
  {
    var start, since := BlockStart(k, ToolUseInit(id, name, input)), fed + [BlockStop(k)] + post;
    var log := pre + [start] + since;
    StartIsLast(pre, start, since, k);
    assert log[|pre|] == start && log[|pre| + 1..] == since;
    SettledBy(fed, post, k, parse);
    assert since[..|fed|] == fed;
  }

  // ---------- arrival order ----------

  ghost predicate Ordered(entries: seq<Entry>) {
    forall i, j :: 0 <= i < j < |entries| ==> entries[i].arrivalIdx < entries[j].arrivalIdx
  }

  /** Arrival indices increase along the timeline and stay below the counter. */
  ghost predicate Numbered(s: State) {
    Ordered(s.messages) && forall e :: e in s.messages ==> e.arrivalIdx < s.counter
  }

  lemma {:induction false} FilterOrdered(entries: seq<Entry>, p: Entry -> bool)
    requires Ordered(entries)
    ensures Ordered(Filter(entries, p))
  {
    if entries != [] {
      FilterOrdered(entries[1..], p);
      var kept := Filter(entries[1..], p);
      forall j | 0 <= j < |kept| ensures entries[0].arrivalIdx < kept[j].arrivalIdx {
        assert kept[j] in entries[1..];
      }
    }
  }

  lemma HydratedNumbered(s: State, entries: seq<Entry>)
    ensures Numbered(Hydrated(s, entries)) <==> Ordered(Persisted(entries))
  {
    var kept := Persisted(entries);
    if kept != [] { MaxArrivalIsMax(kept); }
  }

  /** Every step keeps the numbering, except a restore whose kept entries are out of order. */
  lemma StepNumbered(s: State, e: Event, parse: Parser)
    requires Numbered(s)
    ensures Numbered(Step(s, e, parse)) <==> (e.Restore? ==> Ordered(Persisted(e.entries)))
  {
    match e
    case PushLocalUser(text, id) =>
    case Push(frame, id) =>
    case Restore(entries) => HydratedNumbered(s, entries);
    case Clear =>
    case Arrive(frame, id) =>
      if frame.body.Assistant? && frame.body.messageId in s.streaming {
        FilterOrdered(s.messages, (x: Entry) => !IsStream(x, frame.body.messageId));
        DropNumbered(s, frame.body.messageId);
      } else if Assembles(e) && s.active.Some? && s.active.value in s.streaming {
        UpdateNumbered(s, s.active.value, Assemble(s.streaming[s.active.value], frame.body.event.value, parse));
      }
  }

  lemma DropNumbered(s: State, id: string)
    requires Numbered(s)
    ensures Numbered(Drop(s, id))
  {
    FilterOrdered(s.messages, (e: Entry) => !IsStream(e, id));
  }

  lemma UpdateNumbered(s: State, id: string, msg: InFlight)
    requires Numbered(s)
    ensures Numbered(Update(s, id, msg))
  {
    var s' := Update(s, id, msg);
    assert |s'.messages| == |s.messages|;
    assert forall i :: 0 <= i < |s.messages| ==> s'.messages[i].arrivalIdx == s.messages[i].arrivalIdx;
  }

  ghost predicate OrderedRestores(events: seq<Event>) {
    forall e :: e in events && e.Restore? ==> Ordered(Persisted(e.entries))
  }

  lemma {:induction false} RunNumbered(events: seq<Event>, parse: Parser)
    requires OrderedRestores(events)
    ensures Numbered(Run(events, parse))
  {
    if events != [] {
      RunNumbered(events[..|events| - 1], parse);
      StepNumbered(Run(events[..|events| - 1], parse), events[|events| - 1], parse);
    }
  }

  // ---------- the revision ----------

  lemma {:induction false} UpdatePersists(messages: seq<Entry>, i: nat, e: Entry)
    requires i < |messages| && messages[i].Streaming? && e.Streaming?
    ensures Persisted(messages[i := e]) == Persisted(messages)
  {
    if i > 0 {
      assert messages[i := e][1..] == messages[1..][i - 1 := e];
      UpdatePersists(messages[1..], i - 1, e);
    } else {
      assert messages[i := e][1..] == messages[1..];
    }
  }

  lemma StepRevision(s: State, e: Event, parse: Parser)
    ensures var s' := Step(s, e, parse);
      s'.revision > s.revision || (s'.revision == s.revision && Persisted(s'.messages) == Persisted(s.messages))
  {
    if e.Arrive? && e.frame.body.StreamEventBody? && e.frame.body.event.Some? {
      var ev, s' := e.frame.body.event.value, Step(s, e, parse);
      if StartedId(e).Some? {
        FilterAppend(s.messages, [s'.messages[|s.messages|]], (x: Entry) => !x.Streaming?);
      } else if s'.messages != s.messages {
        var i := ShownAt(s.messages, s.active.value);
        UpdatePersists(s.messages, i, s'.messages[i]);
      }
    }
  }

  function RunFrom(s: State, events: seq<Event>, parse: Parser): State {
    if events == [] then s
    else Step(RunFrom(s, events[..|events| - 1], parse), events[|events| - 1], parse)
  }

  /** Equal revisions before and after any run mean nothing that is saved has changed. */
  lemma {:induction false} RevisionIsChangeToken(s: State, events: seq<Event>, parse: Parser)
    ensures var s' := RunFrom(s, events, parse);
      s'.revision >= s.revision && (s'.revision == s.revision ==> Persisted(s'.messages) == Persisted(s.messages))
  {
    if events != [] {
      var before := events[..|events| - 1];
      RevisionIsChangeToken(s, before, parse);
      StepRevision(RunFrom(s, before, parse), events[|events| - 1], parse);
    }
  }
}
