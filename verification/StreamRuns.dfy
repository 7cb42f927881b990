/** What the message timeline holds after any run, read off the events alone (packages/protocol/src/client/messages.ts). */
module StreamRuns {
  import opened Prelude
  import opened Frames
  import opened Messages

  // ---------- which streams are live ----------

  /** The id of a finished reply, if the event is one. */
  function FinishedId(e: Event): Option<string> {
    if e.Arrive? && e.frame.body.Assistant? && e.frame.body.messageId != "" then Some(e.frame.body.messageId) else None
  }

  /** Started since the last restore or clear, and not finished since its last start. */
  function LiveIds(events: seq<Event>): set<string> {
    if events == [] then {}
    else
      var before, e := LiveIds(events[..|events| - 1]), events[|events| - 1];
      if e.Restore? || e.Clear? then {}
      else if StartedId(e).Some? then before + {StartedId(e).value}
      else if FinishedId(e).Some? then before - {FinishedId(e).value}
      else before
  }

  lemma ActiveIsLive(events: seq<Event>, parse: Parser)
    ensures var s := Run(events, parse);
      s.active == ActiveAfter(events) && (s.active.Some? ==> s.active.value in s.streaming)
  {
    hide Run, ActiveAfter, LogOf, Holds;
    RunFolds(events, parse);
  }

  lemma StepStreams(s: State, e: Event, parse: Parser)
    requires s.active.Some? ==> s.active.value in s.streaming
    ensures Step(s, e, parse).streaming.Keys ==
      if e.Restore? || e.Clear? then {}
      else if StartedId(e).Some? then s.streaming.Keys + {StartedId(e).value}
      else if FinishedId(e).Some? then s.streaming.Keys - {FinishedId(e).value}
      else s.streaming.Keys
  {
    hide Assemble, WithoutStream, ShownAt, Persisted, MaxArrival;
  }

  /** Over every run the live streams are those the events say. */
  lemma {:induction false} RunStreams(events: seq<Event>, parse: Parser)
    ensures Run(events, parse).streaming.Keys == LiveIds(events)
  {
    hide Step, StartedId, FinishedId;
    if events != [] {
      var before := events[..|events| - 1];
      RunStreams(before, parse);
      ActiveIsLive(before, parse);
      StepStreams(Run(before, parse), events[|events| - 1], parse);
    }
  }

  /** The model its latest start announced. */
  function ModelOf(events: seq<Event>, id: string): Option<string> {
    if events == [] then None
    else
      var e := events[|events| - 1];
      if StartedId(e) == Some(id) then e.frame.body.event.value.model else ModelOf(events[..|events| - 1], id)
  }

  ghost predicate Modelled(streaming: map<string, InFlight>, events: seq<Event>) {
    forall id :: id in streaming ==> streaming[id].id == id && streaming[id].model == ModelOf(events, id)
  }

  lemma AssembleKeepsModel(msg: InFlight, ev: StreamEvent, parse: Parser)
    ensures Assemble(msg, ev, parse).id == msg.id && Assemble(msg, ev, parse).model == msg.model
  {
    hide InitialBlock, AppendDelta, StopBlock;
  }

  /** Every record bears its own id and the model its start announced. */
  lemma {:induction false} RunModels(events: seq<Event>, parse: Parser)
    ensures Modelled(Run(events, parse).streaming, events)
  {
    hide WithoutStream, ShownAt, Persisted, MaxArrival, Assemble;
    if events != [] {
      var before, e := events[..|events| - 1], events[|events| - 1];
      var s := Run(before, parse);
      RunModels(before, parse);
      ActiveIsLive(before, parse);
      if Assembles(e) && s.active.Some? { AssembleKeepsModel(s.streaming[s.active.value], e.frame.body.event.value, parse); }
    }
  }

  /** A start shows the new stream, still empty, behind all else, and makes it the one deltas go to. */
  lemma StartShows(events: seq<Event>, frame: Frame, id: string, parse: Parser)
    requires StartedId(Arrive(frame, id)).Some?
    ensures var s, t := Run(events, parse), Run(events + [Arrive(frame, id)], parse);
      var ev := frame.body.event.value;
      && t.messages == s.messages + [Messages.Streaming(ev.id, InFlight(ev.id, ev.model, map[], false, s.counter), s.counter)]
      && t.active == Some(ev.id) && t.counter == s.counter + 1
  {
    assert (events + [Arrive(frame, id)])[..|events|] == events;
  }

  // ---------- what is shown of them ----------

  ghost predicate StreamsOnly(messages: seq<Entry>, ids: set<string>) {
    forall e :: e in messages && e.Streaming? ==> e.id in ids
  }

  lemma UpdateShowsOnly(s: State, id: string, msg: InFlight, ids: set<string>)
    requires StreamsOnly(s.messages, ids)
    ensures StreamsOnly(Update(s, id, msg).messages, ids)
  {
    var t := Update(s, id, msg);
    forall e | e in t.messages && e.Streaming? ensures e.id in ids {
      var j :| 0 <= j < |t.messages| && t.messages[j] == e;
      assert s.messages[j] in s.messages;
    }
  }

  lemma StepShowsOnly(s: State, e: Event, ids: set<string>, parse: Parser)
    requires StreamsOnly(s.messages, ids) && s.streaming.Keys <= ids
    requires s.active.Some? ==> s.active.value in s.streaming
    requires forall x :: x in ids ==> x in s.streaming
    ensures StreamsOnly(Step(s, e, parse).messages, Step(s, e, parse).streaming.Keys)
  {
    hide Assemble, ShownAt, MaxArrival, Update;
    if Assembles(e) && s.active.Some? {
      UpdateShowsOnly(s, s.active.value, Assemble(s.streaming[s.active.value], e.frame.body.event.value, parse), ids);
      assert Update(s, s.active.value, Assemble(s.streaming[s.active.value], e.frame.body.event.value, parse)).streaming.Keys == ids
        by { UpdateKeys(s, s.active.value, Assemble(s.streaming[s.active.value], e.frame.body.event.value, parse)); }
    }
  }

  lemma UpdateKeys(s: State, id: string, msg: InFlight)
    requires id in s.streaming
    ensures Update(s, id, msg).streaming.Keys == s.streaming.Keys
  {
  }

  /** Over every run, fresh ids or not, a streaming entry is shown for live streams only. */
  lemma {:induction false} RunShowsOnlyLive(events: seq<Event>, parse: Parser)
    ensures StreamsOnly(Run(events, parse).messages, LiveIds(events))
  {
    hide Step, LiveIds, StreamsOnly;
    if events == [] {
      assert StreamsOnly([], LiveIds([])) by { NothingShown(); }
    } else {
      var before := events[..|events| - 1];
      RunShowsOnlyLive(before, parse);
      RunStreams(before, parse);
      RunStreams(events, parse);
      ActiveIsLive(before, parse);
      StepShowsOnly(Run(before, parse), events[|events| - 1], LiveIds(before), parse);
    }
  }

  lemma NothingShown()
    ensures StreamsOnly([], LiveIds([]))
  {
  }

  /**
   A finished reply ends its stream: no entry streams its id any more, every other entry stays in its order, and the
   reply itself is the last entry. Other streams keep their records.
   */
  lemma ReplyReplacesStream(events: seq<Event>, frame: Frame, id: string, parse: Parser)
    requires frame.body.Assistant? && frame.body.messageId != ""
    ensures var s, t, mid := Run(events, parse), Run(events + [Arrive(frame, id)], parse), frame.body.messageId;
      && t.messages == Filter(s.messages, (e: Entry) => !(e.Streaming? && e.id == mid)) + [FrameEntry(id, frame, s.counter)]
      && (forall e :: e in t.messages && e.Streaming? ==> e.id != mid)
      && mid !in t.streaming && t.active == (if s.active == Some(mid) then None else s.active)
      && (forall other :: other in s.streaming && other != mid ==> other in t.streaming && t.streaming[other] == s.streaming[other])
  {
    hide Run, LiveIds, Filter;
    var s, mid := Run(events, parse), frame.body.messageId;
    RunMore(events, Arrive(frame, id), parse);
    RunStreams(events, parse);
    RunShowsOnlyLive(events, parse);
    ActiveIsLive(events, parse);
    SamePredicate(s.messages, mid);
    if mid !in s.streaming { FilterAll(s.messages, (e: Entry) => !IsStream(e, mid)); }
  }

  lemma {:induction false} SamePredicate(messages: seq<Entry>, id: string)
    ensures Filter(messages, (e: Entry) => !(e.Streaming? && e.id == id)) == Filter(messages, (e: Entry) => !IsStream(e, id))
  {
    if messages != [] { SamePredicate(messages[1..], id); }
  }

  /** Where a changed record shows: in the last entry if that streams it, otherwise in the first one that does. */
  ghost predicate IsShownAt(messages: seq<Entry>, id: string, k: nat) {
    && k < |messages| && messages[k].Streaming? && messages[k].id == id
    && (k == |messages| - 1
        || (!(messages[|messages| - 1].Streaming? && messages[|messages| - 1].id == id)
            && forall j :: 0 <= j < k ==> !(messages[j].Streaming? && messages[j].id == id)))
  }

  /** A delta changes the record of the active stream, and nothing of the timeline but the one entry that shows it. */
  lemma DeltaShows(events: seq<Event>, frame: Frame, id: string, k: nat, parse: Parser)
    requires Assembles(Arrive(frame, id)) && Run(events, parse).active.Some?
    requires IsShownAt(Run(events, parse).messages, Run(events, parse).active.value, k)
    ensures var s, t := Run(events, parse), Run(events + [Arrive(frame, id)], parse);
      var a := s.active.value;
      && a in t.streaming && t.messages == s.messages[k := s.messages[k].(msg := t.streaming[a])]
      && (forall other :: other in s.streaming && other != a ==> other in t.streaming && t.streaming[other] == s.streaming[other])
  {
    hide Assemble, Update, WithoutStream, Run, ShownAt;
    var s, a := Run(events, parse), Run(events, parse).active.value;
    ActiveIsLive(events, parse);
    RunMore(events, Arrive(frame, id), parse);
    UpdateAt(s, a, Assemble(s.streaming[a], frame.body.event.value, parse), k);
  }

  lemma RunMore(events: seq<Event>, e: Event, parse: Parser)
    ensures Run(events + [e], parse) == Step(Run(events, parse), e, parse)
  {
    assert (events + [e])[..|events|] == events;
  }

  lemma UpdateAt(s: State, id: string, msg: InFlight, k: nat)
    requires IsShownAt(s.messages, id, k)
    ensures Update(s, id, msg) == s.(streaming := s.streaming[id := msg], messages := s.messages[k := s.messages[k].(msg := msg)])
  {
  }

  /** After a restore numbering goes on right behind the greatest number kept; after a clear it starts at zero. */
  lemma NumberingGoesOn(events: seq<Event>, entries: seq<Entry>, parse: Parser)
    ensures Run(events + [Clear], parse).counter == 0
    ensures var c, kept := Run(events + [Restore(entries)], parse).counter, Filter(entries, (e: Entry) => !e.Streaming?);
      if kept == [] then c == 0
      else (forall e :: e in kept ==> e.arrivalIdx < c) && exists e :: e in kept && e.arrivalIdx + 1 == c
  {
    assert (events + [Clear])[..|events|] == events && (events + [Restore(entries)])[..|events|] == events;
    var kept := Persisted(entries);
    if kept != [] { MaxArrivalIsMax(kept); }
  }

  /** A tool block that is started without an input and stopped without any text has the empty object as its input. */
  lemma ToolWithoutInput(pre: seq<StreamEvent>, id: Option<string>, name: Option<string>, k: int, parse: Parser)
    ensures BlockAt(pre + [BlockStart(k, ToolUseInit(id, name, None))] + ([] + [BlockStop(k)] + []), k, parse)
         == Some(ToolPart(ValueOr(id, ""), ValueOr(name, ""), Json("{}"), "", true))
  {
    var start, since: seq<StreamEvent> := BlockStart(k, ToolUseInit(id, name, None)), [] + [BlockStop(k)] + [];
    StoppedToolInput(pre, id, name, None, [], [], k, parse);
    StartIsLast(pre, start, since, k);
    var log := pre + [start] + since;
    assert log[|pre|] == start && log[|pre| + 1..] == since && since == [BlockStop(k)] && since[..0] == [];
    assert Gather(since, k, JsonIn) == "" by { assert "" + "" == ""; }
  }

  // ---------- what is kept ----------

  /** What an event leaves in the timeline for good: pushed frames, finished replies, local texts. */
  function Lasting(e: Event): seq<(string, Option<Frame>, string)> {
    match e
    case PushLocalUser(text, id) => [(id, None, text)]
    case Push(frame, id) => [(id, Some(frame), "")]
    case Arrive(frame, id) => if frame.body.Assistant? && frame.body.messageId != "" then [(id, Some(frame), "")] else []
    case _ => []
  }

  /** An entry without its number. */
  function Unnumbered(e: Entry): (string, Option<Frame>, string)
  {
    match e
    case LocalUser(id, text, _) => (id, None, text)
    case FrameEntry(id, frame, _) => (id, Some(frame), "")
    case Streaming(id, _, _) => (id, None, "")
  }

  /** All that lasts since the last clear, behind what the last restore brought. */
  function Log(events: seq<Event>): seq<(string, Option<Frame>, string)> {
    if events == [] then []
    else
      var before, e := events[..|events| - 1], events[|events| - 1];
      match e
      case Clear => []
      case Restore(entries) => Map(Filter(entries, (x: Entry) => !x.Streaming?), Unnumbered)
      case _ => Log(before) + Lasting(e)
  }

  function LogOfState(messages: seq<Entry>): seq<(string, Option<Frame>, string)> {
    Map(Persisted(messages), Unnumbered)
  }

  lemma PersistedMore(messages: seq<Entry>, e: Entry)
    ensures Persisted(messages + [e]) == Persisted(messages) + if e.Streaming? then [] else [e]
    ensures LogOfState(messages + [e]) == LogOfState(messages) + if e.Streaming? then [] else [Unnumbered(e)]
  {
    FilterAppend(messages, [e], (x: Entry) => !x.Streaming?);
    assert [e][1..] == [];
  }

  lemma {:induction false} DropPersists(messages: seq<Entry>, id: string)
    ensures Persisted(WithoutStream(messages, id)) == Persisted(messages)
  {
    if messages != [] {
      DropPersists(messages[1..], id);
      if !IsStream(messages[0], id) {
        assert ([messages[0]] + WithoutStream(messages[1..], id))[1..] == WithoutStream(messages[1..], id);
      }
    }
  }

  lemma {:induction false} PersistedTwice(messages: seq<Entry>)
    ensures Persisted(Persisted(messages)) == Persisted(messages)
  {
    FilterAll(Persisted(messages), (e: Entry) => !e.Streaming?);
  }

  lemma StepLogs(s: State, e: Event, parse: Parser)
    requires s.active.Some? ==> s.active.value in s.streaming
    ensures LogOfState(Step(s, e, parse).messages) ==
      match e
      case Clear => []
      case Restore(entries) => Map(Filter(entries, (x: Entry) => !x.Streaming?), Unnumbered)
      case _ => LogOfState(s.messages) + Lasting(e)
  {
    hide Persisted, WithoutStream, Assemble, LogOfState;
    match e
    case PushLocalUser(text, id) => PersistedMore(s.messages, LocalUser(id, text, s.counter));
    case Push(frame, id) => PersistedMore(s.messages, FrameEntry(id, frame, s.counter));
    case Clear => assert LogOfState([]) == [] by { NothingLogged(); }
    case Restore(entries) => RestoredLog(entries);
    case Arrive(frame, id) => ArrivalLogs(s, frame, id, parse);
  }

  lemma NothingLogged()
    ensures LogOfState([]) == []
  {
  }

  lemma RestoredLog(entries: seq<Entry>)
    ensures LogOfState(Persisted(entries)) == Map(Filter(entries, (x: Entry) => !x.Streaming?), Unnumbered)
  {
    PersistedTwice(entries);
  }

  lemma ArrivalLogs(s: State, frame: Frame, id: string, parse: Parser)
    requires s.active.Some? ==> s.active.value in s.streaming
    ensures LogOfState(IngestFrame(s, frame, id, parse).messages) == LogOfState(s.messages) + Lasting(Arrive(frame, id))
  {
    hide Assemble, WithoutStream, ShownAt, Persisted;
    if frame.body.Assistant? && frame.body.messageId != "" {
      var mid := frame.body.messageId;
      var t := if mid in s.streaming then Drop(s, mid) else s;
      DropPersists(s.messages, mid);
      PersistedMore(t.messages, FrameEntry(id, frame, t.counter));
    } else if Consumes(frame) {
      var ev := frame.body.event.value;
      if StartedId(Arrive(frame, id)).Some? {
        PersistedMore(s.messages, Messages.Streaming(ev.id, InFlight(ev.id, ev.model, map[], false, s.counter), s.counter));
      } else if Assembles(Arrive(frame, id)) && s.active.Some? {
        UpdateLogs(s, s.active.value, Assemble(s.streaming[s.active.value], ev, parse));
      }
    }
  }

  lemma UpdateLogs(s: State, id: string, msg: InFlight)
    ensures LogOfState(Update(s, id, msg).messages) == LogOfState(s.messages)
  {
    var i := ShownAt(s.messages, id);
    if i >= 0 && s.messages[i].Streaming? { UpdatePersists(s.messages, i, s.messages[i].(msg := msg)); }
  }

  /**
   Over every run the entries that are not streaming are exactly what lasted of the events, in the order of their
   arrival: nothing is lost, doubled or moved.
   */
  lemma {:induction false} RunLogs(events: seq<Event>, parse: Parser)
    ensures LogOfState(Run(events, parse).messages) == Log(events)
  {
    hide Step, LogOfState, Lasting, Unnumbered;
    if events == [] {
      NothingLogged();
    } else {
      var before := events[..|events| - 1];
      RunLogs(before, parse);
      ActiveIsLive(before, parse);
      StepLogs(Run(before, parse), events[|events| - 1], parse);
    }
  }
}
