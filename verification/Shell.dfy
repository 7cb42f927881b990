/**
 The bash side channel (packages/protocol/src/client/shell.ts, runtime aggregator) together with the
 client's sendUserMessage (packages/protocol/src/client/index.ts), which drains it.
 */
module Shell {
  import opened Prelude
  import opened Frames
  import BashXml

  datatype Source = Context | SideChannel

  datatype ShellEntry = ShellEntry(id: string, command: string, source: Source, chunks: seq<string>, pending: bool)

  datatype Capture = Capture(entryId: string, command: string, source: Source, sawInputEcho: bool)

  datatype Exchange = Exchange(entryId: string, xml: string)

  /** What is handed to transport.send. */
  datatype Outgoing = BashCommand(command: string) | UserText(payload: string) | UserBlocks(content: Json)

  datatype State = State(entries: seq<ShellEntry>, captures: seq<Capture>, exchanges: seq<Exchange>,
                         followUps: map<string, string>, outbox: seq<Outgoing>)

  const EMPTY := State([], [], [], map[], [])

  // ---------- specification functions ----------

  /** The output a bash replay carries, if the frame is a replay that carries one. */
  datatype Reply = Reply(stdout: string, stderr: string, exit: string)

  function Parsed(frame: Frame): Option<BashXml.BashFrame> {
    if frame.body.User? && frame.body.isReplay && frame.body.content.PlainText?
    then BashXml.ParseBashFrame(frame.body.content.text) else None
  }

  function ReplyOf(frame: Frame): Option<Reply> {
    match Parsed(frame)
    case Some(Output(stdout, stderr, exit)) => Some(Reply(stdout, stderr, exit))
    case Some(Merged(_, stdout, stderr, exit, _)) => Some(Reply(stdout, stderr, exit))
    case _ => None
  }

  function ChunkOf(r: Reply): string {
    Join((if r.stdout != "" then [r.stdout] else [])
         + (if r.stderr != "" then ["[stderr] " + r.stderr] else [])
         + (if r.exit != "" && r.exit != "0" then ["[exit " + r.exit + "]"] else []), "\n")
  }

  function AddChunk(entries: seq<ShellEntry>, id: string, chunk: string): seq<ShellEntry> {
    Map(entries, (s: ShellEntry) => if s.id == id then s.(chunks := s.chunks + [chunk]) else s)
  }

  function XmlOf(command: string, r: Reply): string {
    BashXml.BuildBashXml(command, BashXml.EscapeXml(r.stdout), BashXml.EscapeXml(r.stderr))
  }

  function Xmls(exchanges: seq<Exchange>): seq<string> {
    Map(exchanges, (x: Exchange) => x.xml)
  }

  /** The payload of a user message that carries exchanges. */
  function Compose(exchanges: seq<Exchange>, text: string): string {
    if exchanges == [] then text
    else
      var xml := Join(Xmls(exchanges), "\n");
      if Trim(text) != "" then xml + ("\n\n" + text) else xml
  }

  predicate Sends(s: State, text: string) {
    Trim(text) != "" || s.exchanges != []
  }

  function SendUser(s: State, text: string): State {
    if !Sends(s, text) then s
    else
      s.(entries := if s.exchanges == [] then s.entries
                    else Filter(s.entries, (e: ShellEntry) => !exists x :: x in s.exchanges && x.entryId == e.id),
         exchanges := [], outbox := s.outbox + [UserText(Compose(s.exchanges, text))])
  }

  /** The state after the head capture took a reply, before its follow-up is sent. */
  function Captured(s: State, r: Reply): State
    requires s.captures != []
  {
    var cap := s.captures[0];
    s.(captures := s.captures[1..], entries := AddChunk(s.entries, cap.entryId, ChunkOf(r)),
       exchanges := if cap.source.Context? then s.exchanges + [Exchange(cap.entryId, XmlOf(cap.command, r))]
                    else s.exchanges)
  }

  function FollowUpOf(s: State): Option<string>
    requires s.captures != []
  {
    var cap := s.captures[0];
    if cap.source.Context? && cap.entryId in s.followUps && s.followUps[cap.entryId] != ""
    then Some(s.followUps[cap.entryId]) else None
  }

  function Replay(s: State, frame: Frame): State {
    if Parsed(frame).None? || s.captures == [] then s
    else if Parsed(frame).value.Input? then s.(captures := s.captures[0 := s.captures[0].(sawInputEcho := true)])
    else
      var t := Captured(s, ReplyOf(frame).value);
      match FollowUpOf(s)
      case None => t
      case Some(text) => SendUser(t.(followUps := t.followUps - {s.captures[0].entryId}), text)
  }

  /** The follow-up that answering the head capture sends. */
  function FollowUpFor(s: State, frame: Frame): Option<string> {
    if Parsed(frame).None? || s.captures == [] || Parsed(frame).value.Input? then None else FollowUpOf(s)
  }

  function LocalOutput(s: State, content: string): State {
    if s.captures == [] then s else s.(entries := AddChunk(s.entries, s.captures[0].entryId, content))
  }

  /** Issuing a command, up to and including the call of send. */
  function Issue(s: State, id: string, command: string, source: Source): State {
    s.(entries := s.entries + [ShellEntry(id, command, source, [], source.Context?)],
       captures := s.captures + [Capture(id, command, source, false)],
       outbox := s.outbox + [BashCommand(command)])
  }

  /** What a context command does after send has returned. */
  function Record(s: State, id: string, followUp: string): State {
    if Trim(followUp) != "" then s.(followUps := s.followUps[id := followUp]) else s
  }

  function Cleared(s: State): State {
    State([], [], [], map[], s.outbox)
  }

  function Dismiss(s: State, id: string): State {
    s.(entries := Filter(s.entries, (e: ShellEntry) => e.id != id))
  }

  // ---------- events ----------

  datatype Event =
    | Issued(id: string, command: string, source: Source)
    | FollowUpRecorded(id: string, followUp: string)
    | Arrived(frame: Frame)
    | LocalOutputArrived(chunk: string)
    | UserSends(text: string)
    | BlocksSent(blocks: Json)
    | Dismissed(id: string)
    | WasReset

  function Step(s: State, e: Event): State {
    match e
    case Issued(id, command, source) => Issue(s, id, command, source)
    case FollowUpRecorded(id, followUp) => Record(s, id, followUp)
    case Arrived(frame) => Replay(s, frame)
    case LocalOutputArrived(content) => LocalOutput(s, content)
    case UserSends(text) => SendUser(s, text)
    case BlocksSent(content) => s.(outbox := s.outbox + [UserBlocks(content)])
    case Dismissed(id) => Dismiss(s, id)
    case WasReset => Cleared(s)
  }

  function RunFrom(s: State, events: seq<Event>): State {
    if events == [] then s else Step(RunFrom(s, events[..|events| - 1]), events[|events| - 1])
  }

  function Run(events: seq<Event>): State {
    RunFrom(EMPTY, events)
  }

  /** A context command, with what a synchronous transport delivers inside send. */
  function ContextEvents(id: string, command: string, followUp: string, during: seq<Frame>): seq<Event> {
    [Issued(id, command, Context)] + Map(during, (f: Frame) => Arrived(f)) + [FollowUpRecorded(id, followUp)]
  }

  // ---------- the aggregator and its client ----------

  class ShellClient {
    var shellEntries: seq<ShellEntry>
    var captureQueue: seq<Capture>
    var pendingBashExchanges: seq<Exchange>
    var pendingFollowUps: map<string, string>
    var outbox: seq<Outgoing>

    constructor ()
      ensures Model() == EMPTY
    {
      shellEntries, captureQueue, pendingBashExchanges, pendingFollowUps, outbox := [], [], [], map[], [];
    }

    function Model(): State
      reads this
    {
      State(shellEntries, captureQueue, pendingBashExchanges, pendingFollowUps, outbox)
    }

    /** Also returns the follow-up it sent as a user message. */
    method HandleShellReplay(frame: Frame) returns (sent: Option<string>)
      modifies this
      ensures Model() == Replay(old(Model()), frame)
      ensures sent == FollowUpFor(old(Model()), frame)
    {
      hide BashXml.ParseBashFrame, BashXml.BuildBashXml, BashXml.EscapeXml, Compose;
      sent := None;
      var parsed := Parsed(frame);
      if parsed.None? {
        return;
      }
      if parsed.value.Input? {
        if captureQueue != [] {
          captureQueue := captureQueue[0 := captureQueue[0].(sawInputEcho := true)];
        }
        return;
      }
      if captureQueue == [] {
        return;
      }
      var cap := captureQueue[0];
      captureQueue := captureQueue[1..];
      var reply := ReplyOf(frame).value;
      shellEntries := AddChunk(shellEntries, cap.entryId, ChunkOf(reply));
      if cap.source.Context? {
        pendingBashExchanges := pendingBashExchanges + [Exchange(cap.entryId, XmlOf(cap.command, reply))];
        if cap.entryId in pendingFollowUps && pendingFollowUps[cap.entryId] != "" {
          var followUp := pendingFollowUps[cap.entryId];
          pendingFollowUps := pendingFollowUps - {cap.entryId};
          SendUserMessage(followUp);
          sent := Some(followUp);
        }
      }
    }

    method HandleLocalCommandOutput(content: Option<string>) returns (handled: bool)
      modifies this
      ensures handled <==> old(captureQueue) != []
      ensures Model() == LocalOutput(old(Model()), ValueOr(content, ""))
    {
      if captureQueue == [] {
        return false;
      }
      shellEntries := AddChunk(shellEntries, captureQueue[0].entryId, ValueOr(content, ""));
      return true;
    }

    /** The first half of sendShellContext, up to the call of send. */
    method IssueContext(id: string, command: string)
      modifies this
      ensures Model() == Issue(old(Model()), id, command, Context)
    {
      shellEntries := shellEntries + [ShellEntry(id, command, Context, [], true)];
      captureQueue := captureQueue + [Capture(id, command, Context, false)];
      outbox := outbox + [BashCommand(command)];
    }

    /** The second half, after send has returned. */
    method RecordFollowUp(id: string, followUp: string)
      modifies this
      ensures Model() == Record(old(Model()), id, followUp)
    {
      if Trim(followUp) != "" {
        pendingFollowUps := pendingFollowUps[id := followUp];
      }
    }

    /** `during` are the frames a synchronous transport delivers inside send. */
    method SendShellContext(id: string, command: string, followUp: string, during: seq<Frame>)
      modifies this
      ensures Model() == RunFrom(old(Model()), ContextEvents(id, command, followUp, during))
    {
      hide Replay, FollowUpFor, Record, Issue;
      ghost var start, events := Model(), ContextEvents(id, command, followUp, during);
      IssueContext(id, command);
      assert events[..1][..0] == [] && RunFrom(start, events[..0]) == start;
      for i := 0 to |during|
        invariant Model() == RunFrom(start, events[..i + 1])
      {
        assert events[..i + 2][..i + 1] == events[..i + 1] && events[i + 1] == Arrived(during[i]);
        var _ := HandleShellReplay(during[i]);
      }
      RecordFollowUp(id, followUp);
      assert events[..|events| - 1] == events[..|during| + 1];
    }

    method SendBashSideChannel(id: string, command: string)
      modifies this
      ensures Model() == Issue(old(Model()), id, command, SideChannel)
    {
      shellEntries := shellEntries + [ShellEntry(id, command, SideChannel, [], false)];
      captureQueue := captureQueue + [Capture(id, command, SideChannel, false)];
      outbox := outbox + [BashCommand(command)];
    }

    method DismissShellEntry(id: string)
      modifies this
      ensures Model() == Dismiss(old(Model()), id)
    {
      shellEntries := Filter(shellEntries, (e: ShellEntry) => e.id != id);
    }

    method DrainPending(text: string) returns (payload: string)
      modifies this
      ensures payload == Compose(old(pendingBashExchanges), text)
      ensures pendingBashExchanges == [] && captureQueue == old(captureQueue)
      ensures pendingFollowUps == old(pendingFollowUps) && outbox == old(outbox)
      ensures shellEntries == if old(pendingBashExchanges) == [] then old(shellEntries)
        else Filter(old(shellEntries), (e: ShellEntry) => !exists x :: x in old(pendingBashExchanges) && x.entryId == e.id)
    {
      if |pendingBashExchanges| == 0 {
        return text;
      }
      var drained := pendingBashExchanges;
      var xml := Join(Xmls(drained), "\n");
      payload := if Trim(text) != "" then xml + ("\n\n" + text) else xml;
      shellEntries := Filter(shellEntries, (e: ShellEntry) => !exists x :: x in drained && x.entryId == e.id);
      pendingBashExchanges := [];
    }

    method SendUserMessage(text: string)
      modifies this
      ensures Model() == SendUser(old(Model()), text)
    {
      if Trim(text) == "" && |pendingBashExchanges| == 0 {
        return;
      }
      var payload := DrainPending(text);
      outbox := outbox + [UserText(payload)];
    }

    method Reset()
      modifies this
      ensures Model() == Cleared(old(Model()))
    {
      shellEntries, captureQueue, pendingBashExchanges, pendingFollowUps := [], [], [], map[];
    }

    method SendUserBlocks(content: Json)
      modifies this
      ensures Model() == old(Model()).(outbox := old(outbox) + [UserBlocks(content)])
    {
      outbox := outbox + [UserBlocks(content)];
    }
  }
}
