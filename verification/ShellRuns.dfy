/**
 Whole runs of the bash side channel (packages/protocol/src/client/shell.ts): who gets which reply, where the
 exchanges end up and when follow-ups leave, with resets at any time.
 */
module ShellRuns {
  import opened Prelude
  import opened Frames
  import opened Shell
  import BashXml

  // ---------- the history read off the events alone ----------

  datatype Command = Command(id: string, command: string, source: Source)

  /** The issued commands, in order. */
  function Issues(events: seq<Event>): seq<Command> {
    if events == [] then []
    else
      var e := events[|events| - 1];
      Issues(events[..|events| - 1]) + if e.Issued? then [Command(e.id, e.command, e.source)] else []
  }

  predicate IsReply(e: Event) {
    e.Arrived? && ReplyOf(e.frame).Some?
  }

  /** How many of the issued commands no longer wait, because they were answered or a reset dropped them. */
  function Taken(events: seq<Event>): (n: nat)
    ensures n <= |Issues(events)|
  {
    if events == [] then 0
    else
      var before, e := events[..|events| - 1], events[|events| - 1];
      if e.WasReset? then |Issues(before)|
      else if IsReply(e) && Taken(before) < |Issues(before)| then Taken(before) + 1
      else Taken(before)
  }

  /** A reply that was given to a command: the command's number, the reply's number on the wire, and the reply. */
  datatype Answer = Answer(index: nat, wire: nat, reply: Reply)

  /** How many replies arrived. */
  function Arrivals(events: seq<Event>): nat {
    if events == [] then 0 else Arrivals(events[..|events| - 1]) + if IsReply(events[|events| - 1]) then 1 else 0
  }

  /** The replies, in the order of their arrival. */
  function Replies(events: seq<Event>): (r: seq<Reply>)
    ensures |r| == Arrivals(events)
  {
    if events == [] then []
    else
      var before, e := events[..|events| - 1], events[|events| - 1];
      Replies(before) + if IsReply(e) then [ReplyOf(e.frame).value] else []
  }

  function Answers(events: seq<Event>): seq<Answer> {
    if events == [] then []
    else
      var before, e := events[..|events| - 1], events[|events| - 1];
      Answers(before) + if IsReply(e) && Taken(before) < |Issues(before)|
                        then [Answer(Taken(before), Arrivals(before), ReplyOf(e.frame).value)] else []
  }

  /** How many waiting commands resets have dropped. */
  function Dropped(events: seq<Event>): nat {
    if events == [] then 0
    else
      var before := events[..|events| - 1];
      Dropped(before) + if events[|events| - 1].WasReset? then |Issues(before)| - Taken(before) else 0
  }

  /** The exchanges of the context commands, each with the reply it was given. */
  function Exchanges(issues: seq<Command>, answers: seq<Answer>): seq<Exchange>
    requires forall a :: a in answers ==> a.index < |issues|
  {
    if answers == [] then []
    else
      var a := answers[|answers| - 1];
      Exchanges(issues, answers[..|answers| - 1])
      + if issues[a.index].source.Context? then [Exchange(issues[a.index].id, XmlOf(issues[a.index].command, a.reply))] else []
  }

  lemma {:induction false} AnswersFit(events: seq<Event>)
    ensures forall a :: a in Answers(events) ==> a.index < Taken(events)
    ensures forall i, j :: 0 <= i < j < |Answers(events)| ==> Answers(events)[i].index < Answers(events)[j].index
    ensures Taken(events) == |Answers(events)| + Dropped(events)
    ensures forall a :: a in Answers(events) ==> a.wire < Arrivals(events) && a.reply == Replies(events)[a.wire]
    ensures forall i, j :: 0 <= i < j < |Answers(events)| ==> Answers(events)[i].wire < Answers(events)[j].wire
  {
    hide ReplyOf;
    if events != [] { AnswersFit(events[..|events| - 1]); }
  }

  /** The r-th reply given to a command is given to command r plus the number of commands dropped before. */
  lemma {:induction false} ReplyGoesBehindTheDropped(events: seq<Event>, e: Event)
    ensures var all := Answers(events + [e]);
      |all| > |Answers(events)| ==> all[|all| - 1].index == |Answers(events)| + Dropped(events)
  {
    assert (events + [e])[..|events|] == events;
    AnswersFit(events);
  }

  // ---------- where the exchanges go ----------

  /** A user message: the exchanges it carries and its own text. */
  datatype Message = Message(exchanges: seq<Exchange>, text: string)

  /** What became of a batch of pending exchanges: a user message took them, or a reset discarded them. */
  datatype Fate = Sent(message: Message) | Discarded(exchanges: seq<Exchange>)

  function FateBy(s: State, e: Event): seq<Fate> {
    match e
    case UserSends(text) => if Sends(s, text) then [Sent(Message(s.exchanges, text))] else []
    case Arrived(frame) =>
      if ReplyOf(frame).Some? && s.captures != [] && FollowUpOf(s).Some?
      then [Sent(Message(Captured(s, ReplyOf(frame).value).exchanges, FollowUpOf(s).value))] else []
    case WasReset => [Discarded(s.exchanges)]
    case _ => []
  }

  function Fates(events: seq<Event>): seq<Fate> {
    if events == [] then []
    else Fates(events[..|events| - 1]) + FateBy(Run(events[..|events| - 1]), events[|events| - 1])
  }

  function BatchOf(f: Fate): seq<Exchange> {
    if f.Sent? then f.message.exchanges else f.exchanges
  }

  function Batches(fates: seq<Fate>): seq<Exchange> {
    if fates == [] then [] else Batches(fates[..|fates| - 1]) + BatchOf(fates[|fates| - 1])
  }

  /** The payloads of the messages sent. */
  function Composed(fates: seq<Fate>): seq<string> {
    if fates == [] then []
    else
      var f := fates[|fates| - 1];
      Composed(fates[..|fates| - 1]) + if f.Sent? then [Compose(f.message.exchanges, f.message.text)] else []
  }

  /** The text payloads of the outbox, in order. */
  function Payloads(outbox: seq<Outgoing>): seq<string> {
    if outbox == [] then []
    else
      var last := outbox[|outbox| - 1];
      Payloads(outbox[..|outbox| - 1]) + if last.UserText? then [last.payload] else []
  }

  // ---------- first in, first out ----------

  ghost predicate Waits(captures: seq<Capture>, issues: seq<Command>) {
    |captures| == |issues| &&
    forall i :: 0 <= i < |captures| ==>
      Command(captures[i].entryId, captures[i].command, captures[i].source) == issues[i]
  }

  /** A history: the issued commands, how many of them are taken, the answers and the fates so far. */
  datatype History = History(issues: seq<Command>, taken: nat, answers: seq<Answer>, fates: seq<Fate>)

  ghost predicate ValidHistory(h: History) {
    h.taken <= |h.issues| && forall a :: a in h.answers ==> a.index < h.taken
  }

  /**
   The queue is the untaken tail of the issued commands; the batches taken away followed by the pending exchanges are
   exactly those of the answers, in order; and the messages in the outbox are those of the batches sent.
   */
  ghost predicate Ledger(s: State, h: History) {
    && ValidHistory(h)
    && Waits(s.captures, h.issues[h.taken..])
    && Batches(h.fates) + s.exchanges == Exchanges(h.issues, h.answers)
    && Payloads(s.outbox) == Composed(h.fates)
    && forall id :: id in s.followUps ==> Trim(s.followUps[id]) != ""
  }

  lemma {:induction false} ExchangesAppend(issues: seq<Command>, c: Command, answers: seq<Answer>)
    requires forall a :: a in answers ==> a.index < |issues|
    ensures Exchanges(issues + [c], answers) == Exchanges(issues, answers)
    decreases |answers|
  {
    hide XmlOf;
    if answers != [] {
      assert answers[|answers| - 1] in answers;
      ExchangesAppend(issues, c, answers[..|answers| - 1]);
    }
  }

  lemma PayloadsAppend(outbox: seq<Outgoing>, o: Outgoing)
    ensures Payloads(outbox + [o]) == Payloads(outbox) + if o.UserText? then [o.payload] else []
  {
    assert (outbox + [o])[..|outbox|] == outbox;
  }

  lemma FatesAppend(fates: seq<Fate>, f: Fate)
    ensures Composed(fates + [f]) == Composed(fates) + if f.Sent? then [Compose(f.message.exchanges, f.message.text)] else []
    ensures Batches(fates + [f]) == Batches(fates) + BatchOf(f)
  {
    assert (fates + [f])[..|fates|] == fates;
  }

  lemma SendUserLedger(s: State, h: History, text: string)
    requires Ledger(s, h) && Sends(s, text)
    ensures Ledger(SendUser(s, text), h.(fates := h.fates + [Sent(Message(s.exchanges, text))]))
  {
    hide Compose, Exchanges;
    FatesAppend(h.fates, Sent(Message(s.exchanges, text)));
    PayloadsAppend(s.outbox, UserText(Compose(s.exchanges, text)));
    assert Batches(h.fates) + s.exchanges + [] == Batches(h.fates) + s.exchanges;
  }

  lemma IssueLedger(s: State, h: History, id: string, command: string, source: Source)
    requires Ledger(s, h)
    ensures Ledger(Issue(s, id, command, source), h.(issues := h.issues + [Command(id, command, source)]))
  {
    hide Exchanges, Compose;
    var c := Command(id, command, source);
    ExchangesAppend(h.issues, c, h.answers);
    PayloadsAppend(s.outbox, BashCommand(command));
    assert (h.issues + [c])[h.taken..] == h.issues[h.taken..] + [c];
  }

  lemma CaptureLedger(s: State, h: History, wire: nat, r: Reply)
    requires Ledger(s, h) && s.captures != []
    ensures Ledger(Captured(s, r), h.(taken := h.taken + 1, answers := h.answers + [Answer(h.taken, wire, r)]))
  {
    hide XmlOf, ChunkOf, Compose, Composed, Payloads, AddChunk;
    var cap, a := s.captures[0], Answer(h.taken, wire, r);
    assert h.issues[h.taken..][0] == h.issues[h.taken] && h.issues[h.taken + 1..] == h.issues[h.taken..][1..];
    assert (h.answers + [a])[..|h.answers|] == h.answers;
    if cap.source.Context? {
      assert Batches(h.fates) + (s.exchanges + [Exchange(cap.entryId, XmlOf(cap.command, r))])
          == Batches(h.fates) + s.exchanges + [Exchange(cap.entryId, XmlOf(cap.command, r))];
    }
  }

  lemma ReplayLedger(s: State, h: History, wire: nat, frame: Frame)
    requires Ledger(s, h)
    ensures var h' := if ReplyOf(frame).Some? && h.taken < |h.issues|
                      then h.(taken := h.taken + 1, answers := h.answers + [Answer(h.taken, wire, ReplyOf(frame).value)]) else h;
      Ledger(Replay(s, frame), h'.(fates := h.fates + FateBy(s, Arrived(frame))))
  {
    hide BashXml.ParseBashFrame, XmlOf, ChunkOf, Compose, Exchanges, Batches, Composed, Payloads;
    assert h.fates + [] == h.fates;
    if ReplyOf(frame).Some? && s.captures != [] {
      var r := ReplyOf(frame).value;
      CaptureLedger(s, h, wire, r);
      if FollowUpOf(s).Some? {
        var t := Captured(s, r).(followUps := s.followUps - {s.captures[0].entryId});
        SendUserLedger(t, h.(taken := h.taken + 1, answers := h.answers + [Answer(h.taken, wire, r)]), FollowUpOf(s).value);
      }
    }
  }

  lemma ResetLedger(s: State, h: History)
    requires Ledger(s, h)
    ensures Ledger(Cleared(s), h.(taken := |h.issues|, fates := h.fates + [Discarded(s.exchanges)]))
  {
    hide Exchanges;
    FatesAppend(h.fates, Discarded(s.exchanges));
    assert Batches(h.fates) + s.exchanges + [] == Batches(h.fates) + s.exchanges;
  }

  /** Events that neither issue nor answer a command and send no text. */
  lemma QuietLedger(s: State, e: Event, h: History)
    requires Ledger(s, h) && (e.BlocksSent? || e.LocalOutputArrived? || e.Dismissed? || e.FollowUpRecorded?)
    ensures Ledger(Step(s, e), h)
  {
    hide Exchanges, Composed, AddChunk;
    if e.BlocksSent? { PayloadsAppend(s.outbox, UserBlocks(e.blocks)); }
  }

  lemma QuietSend(s: State, text: string)
    requires !Sends(s, text)
    ensures SendUser(s, text) == s
  {
  }

  function HistoryOf(events: seq<Event>): History {
    History(Issues(events), Taken(events), Answers(events), Fates(events))
  }

  lemma StepLedger(events: seq<Event>, e: Event)
    requires Ledger(Run(events), HistoryOf(events))
    ensures Ledger(Run(events + [e]), HistoryOf(events + [e]))
  {
    hide Ledger, Replay, SendUser, ReplyOf, Captured, FollowUpOf, Sends, Issue, Record, Dismiss, LocalOutput;
    var s, h := Run(events), HistoryOf(events);
    assert (events + [e])[..|events|] == events;
    assert h.fates + [] == h.fates && h.issues + [] == h.issues && h.answers + [] == h.answers;
    match e
    case Issued(id, command, source) => IssueLedger(s, h, id, command, source);
    case Arrived(frame) => ReplayLedger(s, h, Arrivals(events), frame);
    case UserSends(text) => if Sends(s, text) { SendUserLedger(s, h, text); } else { QuietSend(s, text); }
    case WasReset => ResetLedger(s, h);
    case _ => QuietLedger(s, e, h);
  }

  lemma EmptyLedger()
    ensures Ledger(Run([]), HistoryOf([]))
  {
  }

  /** The ledger holds after every run, resets included. */
  lemma {:induction false} RunLedger(events: seq<Event>)
    ensures Ledger(Run(events), HistoryOf(events))
  {
    hide Ledger, Run, HistoryOf;
    if events == [] {
      EmptyLedger();
    } else {
      var before, e := events[..|events| - 1], events[|events| - 1];
      RunLedger(before);
      StepLedger(before, e);
      assert before + [e] == events;
    }
  }

  /** x is the exchange of the context command an answer was given to, with the reply it was given. */
  ghost predicate AnsweredContext(issues: seq<Command>, a: Answer, x: Exchange) {
    a.index < |issues| && issues[a.index].source.Context?
    && x == Exchange(issues[a.index].id, XmlOf(issues[a.index].command, a.reply))
  }

  lemma {:induction false} ExchangesAreContext(issues: seq<Command>, answers: seq<Answer>)
    requires forall a :: a in answers ==> a.index < |issues|
    ensures forall x :: x in Exchanges(issues, answers) ==> exists a :: a in answers && AnsweredContext(issues, a, x)
    decreases |answers|
  {
    hide XmlOf;
    if answers != [] {
      var front, last := answers[..|answers| - 1], answers[|answers| - 1];
      ExchangesAreContext(issues, front);
      forall x | x in Exchanges(issues, answers) ensures exists a :: a in answers && AnsweredContext(issues, a, x) {
        if x in Exchanges(issues, front) {
          var a :| a in front && AnsweredContext(issues, a, x);
          assert a in answers;
        } else {
          assert last in answers && AnsweredContext(issues, last, x);
        }
      }
    }
  }

  /**
   Exactly once, in issue order, over every run: the exchanges carried by user messages or discarded by resets, followed
   by those still pending, are those of the answered context commands; each message's payload is composed from its own;
   what is neither answered nor dropped waits in the capture queue. An exchange holds a reply that arrived, each reply
   is in at most one, and whose reply it is the theorems on attribution say.
   */
  lemma DeliveredExactlyOnce(events: seq<Event>)
    ensures ValidHistory(HistoryOf(events))
    ensures var s, h := Run(events), HistoryOf(events);
      && Batches(h.fates) + s.exchanges == Exchanges(h.issues, h.answers)
      && Payloads(s.outbox) == Composed(h.fates)
      && Waits(s.captures, h.issues[h.taken..])
      && forall x :: x in Exchanges(h.issues, h.answers) ==> exists a :: a in h.answers && AnsweredContext(h.issues, a, x)
    ensures forall a :: a in Answers(events) ==> a.wire < Arrivals(events) && a.reply == Replies(events)[a.wire]
    ensures forall i, j :: 0 <= i < j < |Answers(events)| ==> Answers(events)[i].wire < Answers(events)[j].wire
  {
    hide Run, HistoryOf, Exchanges, Batches, Payloads, Composed, AnsweredContext;
    RunLedger(events);
    ExchangesAreContext(HistoryOf(events).issues, HistoryOf(events).answers);
    AnswersFit(events);
  }

  // ---------- follow-ups ----------

  /** The entry whose capture the event answers. */
  function AnsweredBy(s: State, e: Event): seq<string> {
    if IsReply(e) && s.captures != [] then [s.captures[0].entryId] else []
  }

  /** The entry whose follow-up the event sends. */
  function FiredBy(s: State, e: Event): seq<string> {
    if IsReply(e) && s.captures != [] && FollowUpOf(s).Some? then [s.captures[0].entryId] else []
  }

  function Answered(s: State, events: seq<Event>): seq<string> {
    if events == [] then []
    else
      var before := events[..|events| - 1];
      Answered(s, before) + AnsweredBy(RunFrom(s, before), events[|events| - 1])
  }

  /** The entries whose follow-ups were sent, in order. */
  function Fired(s: State, events: seq<Event>): seq<string> {
    if events == [] then []
    else
      var before := events[..|events| - 1];
      Fired(s, before) + FiredBy(RunFrom(s, before), events[|events| - 1])
  }

  function Count(ids: seq<string>, id: string): nat {
    if ids == [] then 0 else Count(ids[..|ids| - 1], id) + if ids[|ids| - 1] == id then 1 else 0
  }

  lemma CountMore(ids: seq<string>, more: seq<string>, id: string)
    requires |more| <= 1
    ensures Count(ids + more, id) == Count(ids, id) + if more != [] && more[0] == id then 1 else 0
  {
    if more == [] { assert ids + more == ids; } else { assert (ids + more)[..|ids|] == ids; }
  }

  /** How many captures belong to the entry. */
  function Held(captures: seq<Capture>, id: string): nat {
    if captures == [] then 0 else (if captures[0].entryId == id then 1 else 0) + Held(captures[1..], id)
  }

  lemma {:induction false} HeldMore(captures: seq<Capture>, c: Capture, id: string)
    ensures Held(captures + [c], id) == Held(captures, id) + if c.entryId == id then 1 else 0
  {
    if captures == [] {
      assert captures + [c] == [c] && [c][1..] == [];
    } else {
      assert (captures + [c])[1..] == captures[1..] + [c];
      HeldMore(captures[1..], c, id);
    }
  }

  lemma HeldEcho(captures: seq<Capture>, id: string)
    requires captures != []
    ensures Held(captures[0 := captures[0].(sawInputEcho := true)], id) == Held(captures, id)
  {
    assert captures[0 := captures[0].(sawInputEcho := true)][1..] == captures[1..];
  }

  /** The event neither issues the entry nor records a follow-up for it. */
  predicate Untouched(e: Event, id: string) {
    (e.Issued? ==> e.id != id) && (e.FollowUpRecorded? ==> e.id != id)
  }

  ghost predicate HeldMoves(s: State, e: Event, id: string, t: State) {
    && (Held(t.captures, id) == if e.WasReset? || AnsweredBy(s, e) == [id] then 0 else Held(s.captures, id))
    && (AnsweredBy(s, e) == [id] ==> Held(s.captures, id) == 1)
    && (FiredBy(s, e) == [id] <==> AnsweredBy(s, e) == [id] && FollowUpOf(s).Some?)
    && (id in t.followUps ==> id in s.followUps && t.followUps[id] == s.followUps[id])
    && (id in s.followUps && !e.WasReset? && AnsweredBy(s, e) != [id] ==> id in t.followUps)
  }

  lemma ReplayHeld(s: State, frame: Frame, id: string)
    requires Held(s.captures, id) <= 1
    ensures HeldMoves(s, Arrived(frame), id, Replay(s, frame))
  {
    hide BashXml.ParseBashFrame, Compose, XmlOf, ChunkOf, AddChunk, Sends;
    if s.captures != [] && Parsed(frame).Some? && Parsed(frame).value.Input? { HeldEcho(s.captures, id); }
  }

  /** What one event does to the capture and the follow-up of an entry it neither issues nor records. */
  lemma StepHeld(s: State, e: Event, id: string)
    requires Untouched(e, id) && Held(s.captures, id) <= 1
    ensures HeldMoves(s, e, id, Step(s, e))
  {
    hide Replay, Compose, AddChunk, Sends, FollowUpOf;
    if e.Issued? { HeldMore(s.captures, Capture(e.id, e.command, e.source, false), id); }
    if e.Arrived? { ReplayHeld(s, e.frame, id); }
  }

  /** Before the follow-up is recorded, nothing is sent for the entry. */
  lemma {:induction false} NothingFiresUnrecorded(s: State, events: seq<Event>, id: string)
    requires Held(s.captures, id) <= 1 && id !in s.followUps && forall e :: e in events ==> Untouched(e, id)
    ensures var t := RunFrom(s, events);
      && Count(Fired(s, events), id) == 0 && id !in t.followUps
      && Count(Answered(s, events), id) + Held(t.captures, id) <= Held(s.captures, id)
    decreases |events|
  {
    hide Step, AnsweredBy, FiredBy, FollowUpOf, Count, Held, Untouched;
    if events == [] {
      assert Count([], id) == 0 by { NoCount(id); }
    } else {
      var before, e := events[..|events| - 1], events[|events| - 1];
      NothingFiresUnrecorded(s, before, id);
      var m := RunFrom(s, before);
      StepHeld(m, e, id);
      StepCounts(s, before, e, id);
      UnrecordedSilent(m, e, id);
    }
  }

  lemma NoCount(id: string)
    ensures Count([], id) == 0
  {
  }

  lemma StepCounts(s: State, before: seq<Event>, e: Event, id: string)
    ensures var m := RunFrom(s, before);
      && Count(Fired(s, before) + FiredBy(m, e), id) == Count(Fired(s, before), id) + (if FiredBy(m, e) == [id] then 1 else 0)
      && Count(Answered(s, before) + AnsweredBy(m, e), id)
         == Count(Answered(s, before), id) + if AnsweredBy(m, e) == [id] then 1 else 0
  {
    hide Count;
    var m := RunFrom(s, before);
    AtMostOne(m, e);
    CountMore(Fired(s, before), FiredBy(m, e), id);
    CountMore(Answered(s, before), AnsweredBy(m, e), id);
  }

  lemma AtMostOne(s: State, e: Event)
    ensures |AnsweredBy(s, e)| <= 1 && |FiredBy(s, e)| <= 1
  {
  }

  lemma UnrecordedSilent(s: State, e: Event, id: string)
    requires id !in s.followUps
    ensures FiredBy(s, e) != [id]
  {
    hide BashXml.ParseBashFrame;
  }

  /** All captures of the entry are of a context command. */
  ghost predicate ContextOnly(captures: seq<Capture>, id: string) {
    forall c :: c in captures && c.entryId == id ==> c.source.Context?
  }

  lemma HeadFollowUp(s: State, e: Event, id: string)
    requires AnsweredBy(s, e) == [id] && ContextOnly(s.captures, id)
    ensures id in s.followUps && s.followUps[id] != "" ==> FollowUpOf(s).Some?
  {
    assert s.captures[0] in s.captures;
  }

  lemma ContextStays(s: State, e: Event, id: string)
    requires Untouched(e, id) && ContextOnly(s.captures, id)
    ensures ContextOnly(Step(s, e).captures, id)
  {
    hide BashXml.ParseBashFrame, Compose, XmlOf, ChunkOf, AddChunk;
    if e.Arrived? && s.captures != [] {
      assert s.captures[0] in s.captures;
      forall c | c in s.captures[1..] ensures c in s.captures { }
    }
  }

  /** The follow-up is recorded for the entry as long as the entry is held. */
  ghost predicate Recorded(t: State, id: string, text: string) {
    && ContextOnly(t.captures, id) && (id in t.followUps ==> t.followUps[id] == text)
    && (Held(t.captures, id) > 0 ==> id in t.followUps)
  }

  lemma StepRecorded(m: State, e: Event, id: string, text: string)
    requires Recorded(m, id, text) && text != "" && Held(m.captures, id) <= 1 && Untouched(e, id)
    ensures Recorded(Step(m, e), id, text) && (FiredBy(m, e) == [id] <==> AnsweredBy(m, e) == [id])
  {
    hide Step, AnsweredBy, FiredBy, FollowUpOf, ContextOnly, Untouched;
    StepHeld(m, e, id);
    ContextStays(m, e, id);
    if AnsweredBy(m, e) == [id] { HeadFollowUp(m, e, id); }
  }

  /** Once it is recorded, the follow-up is sent when, and only when, the entry's capture is answered. */
  lemma {:induction false} RecordedFiresWhenAnswered(s: State, events: seq<Event>, id: string, text: string)
    requires Recorded(s, id, text) && text != "" && Held(s.captures, id) <= 1 && forall e :: e in events ==> Untouched(e, id)
    ensures var t := RunFrom(s, events);
      && Recorded(t, id, text)
      && Count(Fired(s, events), id) == Count(Answered(s, events), id)
      && Count(Answered(s, events), id) + Held(t.captures, id) <= Held(s.captures, id)
    decreases |events|
  {
    hide Step, AnsweredBy, FiredBy, FollowUpOf, Count, Held, Untouched, Recorded;
    if events == [] {
      NoCount(id);
    } else {
      var before, e := events[..|events| - 1], events[|events| - 1];
      RecordedFiresWhenAnswered(s, before, id, text);
      var m := RunFrom(s, before);
      StepHeld(m, e, id);
      StepRecorded(m, e, id, text);
      StepCounts(s, before, e, id);
    }
  }

  /** A follow-up that is not sent stays where it is until a reset. */
  lemma {:induction false} UnsentStays(s: State, events: seq<Event>, id: string)
    requires Held(s.captures, id) == 0 && id in s.followUps
    requires forall e :: e in events ==> Untouched(e, id) && !e.WasReset?
    ensures id in RunFrom(s, events).followUps && Held(RunFrom(s, events).captures, id) == 0
    decreases |events|
  {
    hide Step, AnsweredBy, FiredBy, FollowUpOf, Held, Untouched;
    if events != [] {
      var before, e := events[..|events| - 1], events[|events| - 1];
      UnsentStays(s, before, id);
      StepHeld(RunFrom(s, before), e, id);
    }
  }

  lemma {:induction false} RunAppend(s: State, a: seq<Event>, b: seq<Event>)
    ensures RunFrom(s, a + b) == RunFrom(RunFrom(s, a), b)
    ensures Fired(s, a + b) == Fired(s, a) + Fired(RunFrom(s, a), b)
    ensures Answered(s, a + b) == Answered(s, a) + Answered(RunFrom(s, a), b)
    decreases |b|
  {
    hide Step, AnsweredBy, FiredBy;
    if b == [] {
      assert a + b == a;
    } else {
      assert (a + b)[..|a + b| - 1] == a + b[..|b| - 1];
      RunAppend(s, a, b[..|b| - 1]);
    }
  }

  lemma {:induction false} CountAppend(a: seq<string>, b: seq<string>, id: string)
    ensures Count(a + b, id) == Count(a, id) + Count(b, id)
    decreases |b|
  {
    if b == [] {
      assert a + b == a;
    } else {
      assert (a + b)[..|a + b| - 1] == a + b[..|b| - 1];
      CountAppend(a, b[..|b| - 1], id);
    }
  }

  /** Issuing a fresh entry gives it its one capture. */
  lemma IssueHolds(s: State, id: string, command: string)
    requires Held(s.captures, id) == 0 && id !in s.followUps
    ensures var t := Issue(s, id, command, Context);
      Held(t.captures, id) == 1 && id !in t.followUps && (ContextOnly(s.captures, id) ==> ContextOnly(t.captures, id))
  {
    HeldMore(s.captures, Capture(id, command, Context, false), id);
  }

  lemma {:induction false} ContextRun(s: State, events: seq<Event>, id: string)
    requires ContextOnly(s.captures, id) && forall e :: e in events ==> Untouched(e, id)
    ensures ContextOnly(RunFrom(s, events).captures, id)
    decreases |events|
  {
    hide Step, ContextOnly, Untouched;
    if events != [] {
      ContextRun(s, events[..|events| - 1], id);
      ContextStays(RunFrom(s, events[..|events| - 1]), events[|events| - 1], id);
    }
  }

  /**
   The follow-up of a fresh entry, over every run: it is sent at most once, and exactly when the command's reply arrives
   after send has returned; a reply inside send leaves it recorded and never sent.
   */
  lemma FollowUpSentOnceIff(pre: seq<Event>, id: string, command: string, text: string, during: seq<Event>, post: seq<Event>)
    requires forall e :: e in pre || e in during || e in post ==> Untouched(e, id)
    requires Trim(text) != ""
    ensures var inside := pre + [Issued(id, command, Context)] + during;
      var all := inside + [FollowUpRecorded(id, text)] + post;
      && Count(Answered(EMPTY, all), id) <= 1
      && Count(Fired(EMPTY, all), id) == Count(Answered(EMPTY, all), id) - Count(Answered(EMPTY, inside), id)
      && (Count(Answered(EMPTY, inside), id) == 1 && (forall e :: e in post ==> !e.WasReset?) ==> id in Run(all).followUps)
  {
    hide Fired, Answered, Count, Held, Untouched, Step, Recorded, ContextOnly;
    var issued, recorded := [Issued(id, command, Context)], [FollowUpRecorded(id, text)];
    var s0 := RunFrom(EMPTY, pre);
    EmptyHolds(id);
    NothingFiresUnrecorded(EMPTY, pre, id);
    ContextRun(EMPTY, pre, id);
    var s1 := RunFrom(s0, issued);
    IssuedAlone(s0, id, command);
    IssueHolds(s0, id, command);
    NothingFiresUnrecorded(s1, during, id);
    ContextRun(s1, during, id);
    var s2 := RunFrom(s1, during);
    RecordedAlone(s2, id, text);
    var s3 := RunFrom(s2, recorded);
    RecordedFiresWhenAnswered(s3, post, id, text);
    if Held(s3.captures, id) == 0 && forall e :: e in post ==> !e.WasReset? { UnsentStays(s3, post, id); }
    var inside := pre + issued + during;
    RunAppend(EMPTY, pre, issued);
    RunAppend(EMPTY, pre + issued, during);
    RunAppend(EMPTY, inside, recorded);
    RunAppend(EMPTY, inside + recorded, post);
    CountAppend(Answered(EMPTY, pre), Answered(s0, issued), id);
    CountAppend(Answered(EMPTY, pre + issued), Answered(s1, during), id);
    CountAppend(Answered(EMPTY, inside), Answered(s2, recorded), id);
    CountAppend(Answered(EMPTY, inside + recorded), Answered(s3, post), id);
    CountAppend(Fired(EMPTY, pre), Fired(s0, issued), id);
    CountAppend(Fired(EMPTY, pre + issued), Fired(s1, during), id);
    CountAppend(Fired(EMPTY, inside), Fired(s2, recorded), id);
    CountAppend(Fired(EMPTY, inside + recorded), Fired(s3, post), id);
  }

  lemma EmptyHolds(id: string)
    ensures Held(EMPTY.captures, id) == 0 && ContextOnly(EMPTY.captures, id)
  {
  }

  lemma IssuedAlone(s: State, id: string, command: string)
    ensures var e := [Issued(id, command, Context)];
      RunFrom(s, e) == Issue(s, id, command, Context) && Count(Answered(s, e), id) == 0 && Count(Fired(s, e), id) == 0
  {
    assert [Issued(id, command, Context)][..0] == [];
  }

  lemma RecordedAlone(s: State, id: string, text: string)
    requires Trim(text) != "" && id !in s.followUps && ContextOnly(s.captures, id)
    ensures var e := [FollowUpRecorded(id, text)];
      && Recorded(RunFrom(s, e), id, text) && text != "" && RunFrom(s, e).captures == s.captures
      && id in RunFrom(s, e).followUps && Count(Answered(s, e), id) == 0 && Count(Fired(s, e), id) == 0
  {
    assert [FollowUpRecorded(id, text)][..0] == [] && Trim("") == "";
  }

  /** A follow-up leaves in the message that carries its own exchange last, and leaves nothing pending. */
  lemma FollowUpCarriesItsExchange(s: State, frame: Frame)
    requires ReplyOf(frame).Some? && s.captures != [] && FollowUpOf(s).Some?
    ensures var cap, t := s.captures[0], Replay(s, frame);
      && t.exchanges == [] && cap.entryId !in t.followUps
      && t.outbox == s.outbox + [UserText(Compose(
           s.exchanges + [Exchange(cap.entryId, XmlOf(cap.command, ReplyOf(frame).value))], s.followUps[cap.entryId]))]
  {
    hide Compose, XmlOf, BashXml.ParseBashFrame;
  }

  // ---------- reading a message back ----------

  /** The exchange of a command with its reply. */
  datatype Done = Done(id: string, command: string, reply: Reply)

  function XmlsOf(all: seq<Done>): seq<Exchange> {
    Map(all, (x: Done) => Exchange(x.id, XmlOf(x.command, x.reply)))
  }

  /** What follows the first exchange in a message. */
  function Behind(rest: seq<Exchange>, text: string): string {
    (if rest == [] then "" else "\n" + Join(Xmls(rest), "\n")) + (if Trim(text) != "" then "\n\n" + text else "")
  }

  /**
   A message that carries exchanges, any number of them, is read back as the first one; the exit code and the trailing
   text are taken from everything behind it, the other exchanges included.
   */
  lemma MessageReadsBack(first: Done, rest: seq<Done>, text: string)
    ensures var behind := Behind(XmlsOf(rest), text);
      BashXml.ParseBashFrame(Compose(XmlsOf([first] + rest), text))
        == Some(BashXml.Merged(first.command, first.reply.stdout, first.reply.stderr, BashXml.Content(behind, BashXml.EXIT),
                               Trim(BashXml.RemoveTag(behind, BashXml.EXIT))))
  {
    hide BashXml.ParseBashFrame, BashXml.BuildBashXml, BashXml.EscapeXml, BashXml.Content, BashXml.RemoveTag, Compose, XmlsOf, Behind;
    ComposedFront(first, rest, text);
    BashXml.ParsePrinted(first.command, first.reply.stdout, first.reply.stderr, Behind(XmlsOf(rest), text));
  }

  lemma ComposedFront(first: Done, rest: seq<Done>, text: string)
    ensures Compose(XmlsOf([first] + rest), text) == XmlOf(first.command, first.reply) + Behind(XmlsOf(rest), text)
  {
    hide XmlOf, Trim, Join;
    var xml, xs := XmlOf(first.command, first.reply), Xmls(XmlsOf(rest));
    assert Xmls(XmlsOf([first] + rest)) == [xml] + xs;
    JoinFront(xml, xs);
    var more := if rest == [] then "" else "\n" + Join(xs, "\n");
    assert Join([xml] + xs, "\n") == xml + more && more + "" == more;
    assert xml + more + ("\n\n" + text) == xml + (more + ("\n\n" + text));
  }

  lemma JoinFront(a: string, rest: seq<string>)
    ensures Join([a] + rest, "\n") == a + if rest == [] then "" else "\n" + Join(rest, "\n")
  {
    if rest == [] {
      assert [a] + rest == [a];
    } else {
      assert ([a] + rest)[1..] == rest;
      assert a + "\n" + Join(rest, "\n") == a + ("\n" + Join(rest, "\n"));
    }
  }

  /** With a single exchange the text comes back whole, unless it has an exit code. */
  lemma SingleReadsBack(x: Done, text: string)
    ensures BashXml.ParseBashFrame(Compose(XmlsOf([x]), text))
        == Some(BashXml.Merged(x.command, x.reply.stdout, x.reply.stderr, "", Trim(text)))
      <==> Trim(text) == "" || BashXml.FindTag(text, BashXml.EXIT).None?
  {
    hide BashXml.ParseBashFrame, BashXml.BuildBashXml, BashXml.EscapeXml, BashXml.FindTag;
    assert Xmls(XmlsOf([x])) == [XmlOf(x.command, x.reply)];
    BashXml.RoundTrip(x.command, x.reply.stdout, x.reply.stderr, text);
    BashXml.RoundTripAlone(x.command, x.reply.stdout, x.reply.stderr);
  }
}
