/**
 Whose reply a command is given (packages/protocol/src/client/shell.ts): the queue knows no ids, so resets and lost
 replies can hand one command's output to another.
 */
module Attribution {
  import opened Prelude
  import opened Frames
  import opened Shell
  import opened ShellRuns
  import BashXml

  // ---------- how the history grows ----------

  lemma OneMore(events: seq<Event>, e: Event)
    ensures var all := events + [e];
      && Issues(all) == Issues(events) + (if e.Issued? then [Command(e.id, e.command, e.source)] else [])
      && Arrivals(all) == Arrivals(events) + (if IsReply(e) then 1 else 0)
      && Taken(all) == (if e.WasReset? then |Issues(events)|
                        else if IsReply(e) && Taken(events) < |Issues(events)| then Taken(events) + 1 else Taken(events))
      && Answers(all) == Answers(events) + (if IsReply(e) && Taken(events) < |Issues(events)|
                                            then [Answer(Taken(events), Arrivals(events), ReplyOf(e.frame).value)] else [])
      && Run(all) == Step(Run(events), e)
  {
    assert (events + [e])[..|events|] == events;
  }

  lemma NoEvents()
    ensures Issues([]) == [] && Taken([]) == 0 && Answers([]) == [] && Arrivals([]) == 0 && Run([]) == EMPTY
  {
  }

  /** The head of the queue is the first command that is not taken. */
  lemma HeadWaits(events: seq<Event>)
    requires Taken(events) < |Issues(events)|
    ensures var s := Run(events);
      s.captures != [] && Command(s.captures[0].entryId, s.captures[0].command, s.captures[0].source) == Issues(events)[Taken(events)]
  {
    hide Run, Exchanges, Batches, Payloads, Composed, Issues, Taken;
    RunLedger(events);
    assert Issues(events)[Taken(events)..][0] == Issues(events)[Taken(events)];
  }

  // ---------- whose reply is it ----------

  /**
   Whose replies arrive: for each the number of the command it answers, or None for a reply to no command of this
   client. Commands are answered in order, but not all of them: a process that is killed takes its replies along.
   */
  type Owners = seq<Option<nat>>

  /** The newest command that a reply was for, -1 if there is none. */
  function Newest(owners: Owners): int {
    if owners == [] then -1
    else
      var last := owners[|owners| - 1];
      if last.Some? then last.value else Newest(owners[..|owners| - 1])
  }

  /** The owners fit the run: each reply is for a command already issued, behind all those replied to before. */
  ghost predicate Owned(events: seq<Event>, owners: Owners) {
    |owners| == Arrivals(events) &&
    (events == [] ||
     (var before, e := events[..|events| - 1], events[|events| - 1];
      if !IsReply(e) then Owned(before, owners)
      else
        var front, owner := owners[..|owners| - 1], owners[|owners| - 1];
        Owned(before, front) && (owner.Some? ==> Newest(front) < owner.value < |Issues(before)|)))
  }

  /** How many commands were issued before the last reset. */
  function Base(events: seq<Event>): nat {
    if events == [] then 0
    else if events[|events| - 1].WasReset? then |Issues(events[..|events| - 1])|
    else Base(events[..|events| - 1])
  }

  /** The command that is due, if it has been issued: the first since the last reset behind all those replied to. */
  function Due(events: seq<Event>, owners: Owners): int {
    if Newest(owners) < Base(events) then Base(events) else Newest(owners) + 1
  }

  /**
   The next reply comes out of turn: it is for no command while one is due, or for a command behind the one that is due,
   whose own reply is lost, or for a command that a reset dropped while a later one is due.
   */
  predicate Disturbs(events: seq<Event>, owners: Owners, owner: Option<nat>) {
    var due, n := Due(events, owners), |Issues(events)|;
    match owner
    case None => due < n
    case Some(o) => due < o || (o < Base(events) && due < n)
  }

  ghost predicate Disturbed(events: seq<Event>, owners: Owners)
    requires |owners| == Arrivals(events)
  {
    events != [] &&
    (var before, e := events[..|events| - 1], events[|events| - 1];
     if !IsReply(e) then Disturbed(before, owners)
     else
       var front, owner := owners[..|owners| - 1], owners[|owners| - 1];
       Disturbed(before, front) || Disturbs(before, front, owner))
  }

  /** Every reply that was given to a command was given to its owner. */
  ghost predicate RightFor(events: seq<Event>, owners: Owners) {
    forall a :: a in Answers(events) ==> a.wire < |owners| && owners[a.wire] == Some(a.index)
  }

  lemma NewestMore(owners: Owners, owner: Option<nat>)
    ensures Newest(owners + [owner]) == if owner.Some? then owner.value else Newest(owners)
  {
    assert (owners + [owner])[..|owners|] == owners;
  }

  lemma OneMoreOwned(events: seq<Event>, e: Event, owners: Owners)
    requires !IsReply(e) && |owners| == Arrivals(events)
    ensures Owned(events + [e], owners) <==> Owned(events, owners)
    ensures Arrivals(events + [e]) == Arrivals(events)
    ensures Disturbed(events + [e], owners) <==> Disturbed(events, owners)
    ensures Base(events + [e]) == if e.WasReset? then |Issues(events)| else Base(events)
  {
    hide ReplyOf, Disturbs;
    assert (events + [e])[..|events|] == events;
  }

  lemma OneReplyMore(events: seq<Event>, e: Event, owners: Owners, owner: Option<nat>)
    requires IsReply(e) && |owners| == Arrivals(events)
    ensures Owned(events + [e], owners + [owner]) <==>
      Owned(events, owners) && (owner.Some? ==> Newest(owners) < owner.value < |Issues(events)|)
    ensures Arrivals(events + [e]) == Arrivals(events) + 1
    ensures Disturbed(events + [e], owners + [owner]) <==> Disturbed(events, owners) || Disturbs(events, owners, owner)
    ensures Base(events + [e]) == Base(events)
  {
    hide ReplyOf, Disturbs;
    assert (events + [e])[..|events|] == events && (owners + [owner])[..|owners|] == owners;
  }

  lemma NothingOwned()
    ensures Owned([], []) && !Disturbed([], []) && Base([]) == 0 && Newest([]) == -1
  {
  }

  /** As long as no reply comes out of turn, the head of the queue is the command that is due. */
  lemma {:induction false} HeadIsDue(events: seq<Event>, owners: Owners)
    requires Owned(events, owners)
    ensures Newest(owners) < |Issues(events)| && Base(events) <= |Issues(events)|
    ensures !Disturbed(events, owners) ==> Taken(events) == Due(events, owners)
  {
    hide ReplyOf;
    if events != [] {
      var before, e := events[..|events| - 1], events[|events| - 1];
      if IsReply(e) {
        var front, owner := owners[..|owners| - 1], owners[|owners| - 1];
        HeadIsDue(before, front);
        NewestMore(front, owner);
        assert front + [owner] == owners;
      } else {
        HeadIsDue(before, owners);
      }
    }
  }

  /**
   Whatever replies are lost or come from elsewhere, and whenever the shell is reset: every reply goes to its own
   command if and only if none comes out of turn.
   */
  lemma {:induction false} AttributionRightIff(events: seq<Event>, owners: Owners)
    requires Owned(events, owners)
    ensures RightFor(events, owners) <==> !Disturbed(events, owners)
  {
    hide ReplyOf, Due, Disturbs, Owned, Disturbed, RightFor;
    if events == [] {
      NothingOwned();
      assert RightFor([], owners) by { NothingGiven(owners); }
      OwnersFit(events, owners);
    } else {
      var before, e := events[..|events| - 1], events[|events| - 1];
      OwnedBefore(events, owners);
      if IsReply(e) {
        var front, owner := owners[..|owners| - 1], owners[|owners| - 1];
        AttributionRightIff(before, front);
        OwnersFit(before, front);
        RightMore(before, e, front, owner);
        if !Disturbed(before, front) { NextIsRightIff(before, front, owner); }
        assert before + [e] == events && front + [owner] == owners;
      } else {
        AttributionRightIff(before, owners);
        SameAnswers(before, e);
        assert before + [e] == events;
        assert RightFor(events, owners) <==> RightFor(before, owners) by { SameRight(before, events, owners); }
      }
    }
  }

  lemma NothingGiven(owners: Owners)
    ensures RightFor([], owners)
  {
  }

  lemma SameAnswers(events: seq<Event>, e: Event)
    requires !IsReply(e)
    ensures Answers(events + [e]) == Answers(events)
  {
    hide ReplyOf;
    assert (events + [e])[..|events|] == events;
  }

  lemma SameRight(events: seq<Event>, more: seq<Event>, owners: Owners)
    requires Answers(events) == Answers(more)
    ensures RightFor(events, owners) <==> RightFor(more, owners)
  {
  }

  lemma OwnedBefore(events: seq<Event>, owners: Owners)
    requires Owned(events, owners) && events != []
    ensures var before, e := events[..|events| - 1], events[|events| - 1];
      if IsReply(e) then
        var front, owner := owners[..|owners| - 1], owners[|owners| - 1];
        && owners != [] && Owned(before, front) && (owner.Some? ==> Newest(front) < owner.value < |Issues(before)|)
        && (Disturbed(events, owners) <==> Disturbed(before, front) || Disturbs(before, front, owner))
      else Owned(before, owners) && (Disturbed(events, owners) <==> Disturbed(before, owners))
  {
    hide Disturbs, ReplyOf, Issues;
  }

  lemma NextIsRightIff(events: seq<Event>, owners: Owners, owner: Option<nat>)
    requires Owned(events, owners) && !Disturbed(events, owners)
    requires owner.Some? ==> Newest(owners) < owner.value < |Issues(events)|
    ensures Disturbs(events, owners, owner) <==> Taken(events) < |Issues(events)| && owner != Some(Taken(events))
  {
    hide Owned, Disturbed, Issues, Taken, Newest, Base;
    HeadIsDue(events, owners);
  }

  lemma RightMore(events: seq<Event>, e: Event, owners: Owners, owner: Option<nat>)
    requires IsReply(e) && |owners| == Arrivals(events)
    ensures RightFor(events + [e], owners + [owner]) <==>
      RightFor(events, owners) && (Taken(events) < |Issues(events)| ==> owner == Some(Taken(events)))
  {
    hide ReplyOf, Issues, Taken, Arrivals, Replies;
    assert (events + [e])[..|events|] == events;
    AnswersFit(events);
    var more := if Taken(events) < |Issues(events)|
                then [Answer(Taken(events), Arrivals(events), ReplyOf(e.frame).value)] else [];
    assert Answers(events + [e]) == Answers(events) + more;
    assert forall a :: a in Answers(events) ==> (owners + [owner])[a.wire] == owners[a.wire];
    assert (owners + [owner])[Arrivals(events)] == owner;
    assert more != [] ==> more[0] in more;
  }

  /** The exchanges of all answered context commands of a run. */
  function ExchangesOf(events: seq<Event>): seq<Exchange> {
    AnswersFit(events);
    Exchanges(Issues(events), Answers(events))
  }

  /** A reply that finds a command waiting becomes that command's output, and its exchange if it is a context command. */
  lemma ReplyGoesToTheHead(events: seq<Event>, frame: Frame)
    requires ReplyOf(frame).Some? && Taken(events) < |Issues(events)|
    ensures var all, head, reply := events + [Arrived(frame)], Issues(events)[Taken(events)], ReplyOf(frame).value;
      && Answers(all) == Answers(events) + [Answer(Taken(events), Arrivals(events), reply)]
      && ExchangesOf(all) == ExchangesOf(events)
           + (if head.source.Context? then [Exchange(head.id, XmlOf(head.command, reply))] else [])
  {
    hide ReplyOf, Issues, Taken, Arrivals, Answers, XmlOf, Armed, Overtaken, OnTheWire;
    OneMore(events, Arrived(frame));
    AnswersFit(events);
    var more := Answer(Taken(events), Arrivals(events), ReplyOf(frame).value);
    assert (Answers(events) + [more])[..|Answers(events)|] == Answers(events);
    assert Issues(events + [Arrived(frame)]) == Issues(events);
    assert ExchangesOf(events) + [] == ExchangesOf(events);
  }

  /**
   The first reply out of turn: it is given to the head of the queue, the command that was due, whose output and, for a
   context command, exchange it becomes, although it is no reply to that command.
   */
  lemma ReplyOutOfTurnIsMisattributed(events: seq<Event>, owners: Owners, frame: Frame, owner: Option<nat>)
    requires Owned(events, owners) && !Disturbed(events, owners)
    requires ReplyOf(frame).Some? && (owner.Some? ==> Newest(owners) < owner.value < |Issues(events)|)
    requires Disturbs(events, owners, owner)
    ensures var all, due, reply := events + [Arrived(frame)], Due(events, owners), ReplyOf(frame).value;
      && 0 <= due < |Issues(events)| && owner != Some(due)
      && Answers(all) == Answers(events) + [Answer(due, Arrivals(events), reply)]
      && var head := Issues(events)[due];
         && Run(events).captures != []
         && Command(Run(events).captures[0].entryId, Run(events).captures[0].command, Run(events).captures[0].source) == head
         && ExchangesOf(all) == ExchangesOf(events)
              + (if head.source.Context? then [Exchange(head.id, XmlOf(head.command, reply))] else [])
  {
    hide ReplyOf, Owned, Disturbed, Issues, Taken, Answers, Exchanges, Arrivals, Run, XmlOf, Due, Disturbs, ExchangesOf, Newest;
    NextIsRightIff(events, owners, owner);
    HeadIsDue(events, owners);
    ReplyGoesToTheHead(events, frame);
    HeadWaits(events);
  }

  // ---------- a lost reply ----------

  /**
   Once the queue lags behind the replies it never catches up: until the next reset every reply is given to an earlier
   command than its own.
   */
  lemma {:induction false} LostReplyShiftsTheRest(pre: seq<Event>, owners: Owners, post: seq<Event>, more: Owners)
    requires |owners| == Arrivals(pre) && Taken(pre) <= Newest(owners)
    requires Owned(pre + post, owners + more)
    requires forall e :: e in post ==> !e.WasReset?
    requires forall o :: o in more ==> o.Some?
    ensures Taken(pre + post) <= Newest(owners + more)
    ensures forall a :: a in Answers(pre + post) ==>
      a in Answers(pre) || (a.wire < |owners + more| && (owners + more)[a.wire].Some? && a.index < (owners + more)[a.wire].value)
    decreases |post|
  {
    hide ReplyOf, Issues, Taken, Answers, Arrivals, Newest, Owned;
    if post == [] {
      assert pre + post == pre;
      OwnersFit(pre, owners + more);
      assert owners + more == owners;
    } else {
      var front, e := post[..|post| - 1], post[|post| - 1];
      assert pre + post == (pre + front) + [e];
      assert (pre + post)[..|pre + post| - 1] == pre + front;
      OneMore(pre + front, e);
      OwnedBefore(pre + post, owners + more);
      AnswersFit(pre + front);
      ArrivalsGrow(pre, front);
      OwnersFit(pre + post, owners + more);
      if IsReply(e) {
        var last := more[|more| - 1];
        assert (owners + more)[..|owners + more| - 1] == owners + more[..|more| - 1];
        assert owners + more == owners + more[..|more| - 1] + [last];
        LostReplyShiftsTheRest(pre, owners, front, more[..|more| - 1]);
        NewestMore(owners + more[..|more| - 1], last);
        OwnersFit(pre + front, owners + more[..|more| - 1]);
      } else {
        LostReplyShiftsTheRest(pre, owners, front, more);
      }
    }
  }

  lemma {:induction false} ArrivalsGrow(a: seq<Event>, b: seq<Event>)
    ensures Arrivals(a + b) >= Arrivals(a)
    decreases |b|
  {
    if b == [] {
      assert a + b == a;
    } else {
      assert (a + b)[..|a + b| - 1] == a + b[..|b| - 1];
      ArrivalsGrow(a, b[..|b| - 1]);
    }
  }

  /** A reply for a command behind the head of the queue starts such a lag: from it on no reply goes to its own command. */
  lemma SkippedReplyShiftsTheRest(pre: seq<Event>, owners: Owners, frame: Frame, owner: nat, post: seq<Event>, more: Owners)
    requires |owners| == Arrivals(pre) && ReplyOf(frame).Some? && Taken(pre) < owner < |Issues(pre)|
    requires Owned((pre + [Arrived(frame)]) + post, (owners + [Some(owner)]) + more)
    requires forall e :: e in post ==> !e.WasReset?
    requires forall o :: o in more ==> o.Some?
    ensures var all := (owners + [Some(owner)]) + more;
      forall a :: a in Answers((pre + [Arrived(frame)]) + post) ==>
        a in Answers(pre) || (a.wire < |all| && all[a.wire].Some? && a.index < all[a.wire].value)
  {
    hide ReplyOf, Issues, Taken, Answers, Arrivals, Newest, Owned, Run;
    OneMore(pre, Arrived(frame));
    NewestMore(owners, Some(owner));
    LostReplyShiftsTheRest(pre + [Arrived(frame)], owners + [Some(owner)], post, more);
    assert ((owners + [Some(owner)]) + more)[|owners|] == Some(owner);
  }

  /** A process is killed with its command unanswered; the next command's reply is given to that one, and it waits itself. */
  lemma KilledProcessShiftsReplies(a: Command, b: Command, frame: Frame)
    requires ReplyOf(frame).Some?
    ensures var events := [Issued(a.id, a.command, a.source)] + [Issued(b.id, b.command, b.source)] + [Arrived(frame)];
      && Owned(events, [Some(1)]) && !RightFor(events, [Some(1)])
      && Issues(events) == [a, b] && Answers(events) == [Answer(0, 0, ReplyOf(frame).value)] && Taken(events) == 1
  {
    var e1, e2, reply := Issued(a.id, a.command, a.source), Issued(b.id, b.command, b.source), Arrived(frame);
    hide ReplyOf, Issues, Taken, Answers, Arrivals, Run, Owned, Disturbed, Base, Newest;
    NoEvents();
    NothingOwned();
    assert [] + [e1] == [e1] && [] + [Some(1 as nat)] == [Some(1 as nat)];
    OneMore([], e1);
    OneMoreOwned([], e1, []);
    OneMore([e1], e2);
    OneMoreOwned([e1], e2, []);
    OneMore([e1] + [e2], reply);
    OneReplyMore([e1] + [e2], reply, [], Some(1));
    var answer := Answer(0, 0, ReplyOf(frame).value);
    assert Answers([e1] + [e2] + [reply]) == [answer] && answer in [answer];
  }

  /** The exchange of a context command with the reply that is its own. */
  ghost predicate OwnExchange(events: seq<Event>, owners: Owners, k: nat, x: Exchange) {
    k < Arrivals(events) && k < |owners| && owners[k].Some? && owners[k].value < |Issues(events)| &&
    var c := Issues(events)[owners[k].value];
    c.source.Context? && x == Exchange(c.id, XmlOf(c.command, Replies(events)[k]))
  }

  /** When no reply comes out of turn, every exchange holds the reply of its own command. */
  lemma ExchangesAreTheirOwn(events: seq<Event>, owners: Owners)
    requires Owned(events, owners) && !Disturbed(events, owners)
    ensures forall x :: x in ExchangesOf(events) ==> exists k :: OwnExchange(events, owners, k, x)
  {
    hide Owned, Disturbed, Issues, Answers, Exchanges, XmlOf, Replies, Arrivals;
    AttributionRightIff(events, owners);
    AnswersFit(events);
    ExchangesAreContext(Issues(events), Answers(events));
    forall x | x in ExchangesOf(events) ensures exists k :: OwnExchange(events, owners, k, x) {
      var a :| a in Answers(events) && AnsweredContext(Issues(events), a, x);
      assert OwnExchange(events, owners, a.wire, x);
    }
  }

  /** So does every exchange that a user message carried, a reset discarded, or that is still pending. */
  lemma MessagesCarryTheirOwn(events: seq<Event>, owners: Owners)
    requires Owned(events, owners) && !Disturbed(events, owners)
    ensures forall x :: x in Batches(Fates(events)) + Run(events).exchanges ==> exists k :: OwnExchange(events, owners, k, x)
  {
    hide Owned, Disturbed, OwnExchange, Issues, Answers, Exchanges, Batches, Fates, Run, Payloads, Composed, Waits;
    RunLedger(events);
    ExchangesAreTheirOwn(events, owners);
    assert Batches(Fates(events)) + Run(events).exchanges == ExchangesOf(events);
  }

  // ---------- side-channel output in an exchange ----------

  /** A context command was given the reply of a side-channel command. */
  ghost predicate GivenSideChannel(issues: seq<Command>, owners: Owners, a: Answer) {
    a.index < |issues| && issues[a.index].source.Context? && a.wire < |owners| && IsSideChannel(issues, owners[a.wire])
  }

  predicate IsSideChannel(issues: seq<Command>, owner: Option<nat>) {
    owner.Some? && owner.value < |issues| && issues[owner.value].source.SideChannel?
  }

  ghost predicate Leaks(events: seq<Event>, owners: Owners) {
    exists a :: a in Answers(events) && GivenSideChannel(Issues(events), owners, a)
  }

  /** Some reply of a side-channel command arrived while the head of the queue was a context command. */
  ghost predicate MeetsContext(events: seq<Event>, owners: Owners)
    requires |owners| == Arrivals(events)
  {
    events != [] &&
    (var before, e := events[..|events| - 1], events[|events| - 1];
     if !IsReply(e) then MeetsContext(before, owners)
     else
       var front, owner := owners[..|owners| - 1], owners[|owners| - 1];
       MeetsContext(before, front)
       || (Taken(before) < |Issues(before)| && Issues(before)[Taken(before)].source.Context? && IsSideChannel(Issues(before), owner)))
  }

  /** An exchange holds side-channel output if and only if such a reply arrived while a context command was next in the queue. */
  lemma {:induction false} SideChannelLeaksIff(events: seq<Event>, owners: Owners)
    requires Owned(events, owners)
    ensures Leaks(events, owners) <==> MeetsContext(events, owners)
  {
    hide ReplyOf, Owned, IsSideChannel, GivenSideChannel, Issues, Taken, Answers;
    if events == [] {
      assert Answers([]) == [] by { NoEvents(); }
    } else {
      var before, e := events[..|events| - 1], events[|events| - 1];
      OwnedBefore(events, owners);
      assert before + [e] == events;
      if IsReply(e) {
        var front, owner := owners[..|owners| - 1], owners[|owners| - 1];
        SideChannelLeaksIff(before, front);
        OwnersFit(before, front);
        LeaksMore(before, e, front, owner);
        assert front + [owner] == owners;
      } else {
        SideChannelLeaksIff(before, owners);
        LeaksSame(before, e, owners);
      }
    }
  }

  lemma LeaksSame(events: seq<Event>, e: Event, owners: Owners)
    requires !IsReply(e) && Owned(events, owners)
    ensures Leaks(events + [e], owners) <==> Leaks(events, owners)
  {
    hide ReplyOf, Issues, Taken, Answers, Armed, Overtaken, OnTheWire, Arrivals;
    OneMore(events, e);
    AnswersFit(events);
    OwnersFit(events, owners);
    forall a | a in Answers(events)
      ensures GivenSideChannel(Issues(events + [e]), owners, a) <==> GivenSideChannel(Issues(events), owners, a)
    {
      assert a.index < |Issues(events)| && Issues(events + [e])[a.index] == Issues(events)[a.index];
      assert owners[a.wire].Some? ==> Issues(events + [e])[owners[a.wire].value] == Issues(events)[owners[a.wire].value];
    }
    assert Answers(events + [e]) == Answers(events);
  }

  lemma LeaksMore(events: seq<Event>, e: Event, owners: Owners, owner: Option<nat>)
    requires IsReply(e) && |owners| == Arrivals(events)
    ensures Leaks(events + [e], owners + [owner]) <==>
      Leaks(events, owners)
      || (Taken(events) < |Issues(events)| && Issues(events)[Taken(events)].source.Context? && IsSideChannel(Issues(events), owner))
  {
    hide ReplyOf, Issues, Taken, Answers, Armed, Overtaken, OnTheWire, Arrivals, IsSideChannel;
    OneMore(events, e);
    AnswersFit(events);
    var all := owners + [owner];
    assert Issues(events + [e]) == Issues(events);
    forall a | a in Answers(events)
      ensures GivenSideChannel(Issues(events), all, a) <==> GivenSideChannel(Issues(events), owners, a)
    {
      assert all[a.wire] == owners[a.wire];
    }
    if Taken(events) < |Issues(events)| {
      var a := Answer(Taken(events), Arrivals(events), ReplyOf(e.frame).value);
      assert a in Answers(events + [e]) && all[a.wire] == owner;
    }
  }

  lemma {:induction false} OwnersFit(events: seq<Event>, owners: Owners)
    requires Owned(events, owners)
    ensures |owners| == Arrivals(events)
    ensures forall k :: 0 <= k < |owners| && owners[k].Some? ==> owners[k].value < |Issues(events)|
  {
    hide ReplyOf;
    if events != [] {
      var before, e := events[..|events| - 1], events[|events| - 1];
      OwnersFit(before, if IsReply(e) then owners[..|owners| - 1] else owners);
    }
  }

  /**
   It does happen: a side-channel command, a reset, a context command, and then the first command's reply. Its output
   is the pending exchange that the next user message carries.
   */
  lemma SideChannelReachesAMessage(a: Command, b: Command, frame: Frame, text: string)
    requires ReplyOf(frame).Some? && a.source.SideChannel? && b.source.Context?
    ensures var events := [Issued(a.id, a.command, a.source)] + [WasReset] + [Issued(b.id, b.command, b.source)] + [Arrived(frame)];
      var exchange := Exchange(b.id, XmlOf(b.command, ReplyOf(frame).value));
      && Owned(events, [Some(0)]) && Leaks(events, [Some(0)])
      && Run(events).exchanges == [exchange]
      && UserText(Compose([exchange], text)) in Run(events + [UserSends(text)]).outbox
  {
    var e1, e3, reply := Issued(a.id, a.command, a.source), Issued(b.id, b.command, b.source), Arrived(frame);
    hide ReplyOf, Run, Owned, Leaks, Replay, Compose, XmlOf, SendUser;
    LeakingHistory(a, b, frame);
    var run := [e1] + [WasReset] + [e3];
    WaitingAlone(a, b);
    OneMore(run, reply);
    OneMore(run + [reply], UserSends(text));
    FirstExchange(Run(run), frame, text);
  }

  lemma LeakingHistory(a: Command, b: Command, frame: Frame)
    requires ReplyOf(frame).Some? && a.source.SideChannel? && b.source.Context?
    ensures var events := [Issued(a.id, a.command, a.source)] + [WasReset] + [Issued(b.id, b.command, b.source)] + [Arrived(frame)];
      Owned(events, [Some(0)]) && Leaks(events, [Some(0)])
  {
    var e1, e3, reply := Issued(a.id, a.command, a.source), Issued(b.id, b.command, b.source), Arrived(frame);
    var one, two := [e1], [e1] + [WasReset];
    var run := two + [e3];
    hide ReplyOf, Issues, Taken, Answers, Arrivals, Run, Step, Owned, Disturbed, Base, Newest, Leaks;
    NoEvents();
    NothingOwned();
    assert [] + [e1] == one && [] + [Some(0 as nat)] == [Some(0 as nat)];
    OneMore([], e1);
    OneMoreOwned([], e1, []);
    OneMore(one, WasReset);
    OneMoreOwned(one, WasReset, []);
    OneMore(two, e3);
    OneMoreOwned(two, e3, []);
    OneReplyMore(run, reply, [], Some(0));
    assert Issues(run) == [a, b] && Taken(run) == 1;
    LeaksMore(run, reply, [], Some(0));
  }

  lemma WaitingAlone(a: Command, b: Command)
    ensures var s := Run([Issued(a.id, a.command, a.source)] + [WasReset] + [Issued(b.id, b.command, b.source)]);
      s.captures == [Capture(b.id, b.command, b.source, false)] && s.exchanges == [] && s.followUps == map[]
  {
    var e1, e3 := Issued(a.id, a.command, a.source), Issued(b.id, b.command, b.source);
    hide Run;
    NoEvents();
    assert [] + [e1] == [e1];
    OneMore([], e1);
    OneMore([e1], WasReset);
    OneMore([e1] + [WasReset], e3);
  }

  lemma FirstExchange(s: State, frame: Frame, text: string)
    requires ReplyOf(frame).Some? && |s.captures| == 1 && s.captures[0].source.Context?
    requires s.exchanges == [] && s.followUps == map[]
    ensures var cap, t := s.captures[0], Replay(s, frame);
      var exchange := Exchange(cap.entryId, XmlOf(cap.command, ReplyOf(frame).value));
      && t.exchanges == [exchange]
      && UserText(Compose([exchange], text)) in SendUser(t, text).outbox
  {
    hide Compose, XmlOf, BashXml.ParseBashFrame;
  }

  // ---------- when no reply is lost ----------

  /** At every moment no more replies have arrived than commands were issued: the k-th reply is the k-th command's. */
  ghost predicate OnTheWire(events: seq<Event>) {
    events == [] || (OnTheWire(events[..|events| - 1]) && Arrivals(events) <= |Issues(events)|)
  }

  /** How many replies to dropped commands are still to come. */
  function Late(events: seq<Event>): int {
    Taken(events) - Arrivals(events)
  }

  /** Every reply was given to the command it belongs to. */
  ghost predicate AllRight(events: seq<Event>) {
    forall a :: a in Answers(events) ==> a.index == a.wire
  }

  /** Since the last reset a command was issued while replies to dropped commands were still to come. */
  ghost predicate Armed(events: seq<Event>) {
    events != [] &&
    (var before, e := events[..|events| - 1], events[|events| - 1];
     !e.WasReset? && (Armed(before) || (e.Issued? && Late(before) > 0)))
  }

  /** A reply arrived after such a command, before another reset. */
  ghost predicate Overtaken(events: seq<Event>) {
    events != [] &&
    (var before, e := events[..|events| - 1], events[|events| - 1];
     Overtaken(before) || (IsReply(e) && Armed(before)))
  }

  /** Late replies are never fewer than none, and late replies with a waiting command mean the run is armed, and conversely. */
  lemma {:induction false} ArmedIff(events: seq<Event>)
    requires OnTheWire(events)
    ensures Late(events) >= 0
    ensures Taken(events) < |Issues(events)| && Late(events) > 0 ==> Armed(events)
    ensures !Overtaken(events) && Armed(events) ==> Taken(events) < |Issues(events)| && Late(events) > 0
  {
    if events != [] { ArmedIff(events[..|events| - 1]); }
  }

  /**
   Without losses: replies go to their own commands if and only if none arrives between a command issued while replies
   to dropped commands are outstanding and the next reset.
   */
  lemma {:induction false} LosslessAttributionIff(events: seq<Event>)
    requires OnTheWire(events)
    ensures AllRight(events) <==> !Overtaken(events)
  {
    if events != [] {
      var before, e := events[..|events| - 1], events[|events| - 1];
      LosslessAttributionIff(before);
      ArmedIff(before);
      AnswersFit(before);
      if IsReply(e) && Taken(before) < |Issues(before)| {
        var a := Answer(Taken(before), Arrivals(before), ReplyOf(e.frame).value);
        assert a in Answers(events);
        assert forall b :: b in Answers(events) <==> b in Answers(before) || b == a;
      } else {
        assert Answers(events) == Answers(before);
      }
    }
  }

  /**
   The misattribution without losses: with late replies and a command waiting, the next reply belongs to an earlier,
   dropped command, and its output becomes the waiting one's, and its exchange if that is a context command.
   */
  lemma LateReplyIsMisattributed(events: seq<Event>, frame: Frame)
    requires OnTheWire(events + [Arrived(frame)]) && ReplyOf(frame).Some?
    requires Taken(events) < |Issues(events)| && Late(events) > 0
    ensures var s, issues, own := Run(events), Issues(events), Arrivals(events);
      && own < own + Late(events) < |issues|
      && s.captures != []
      && Command(s.captures[0].entryId, s.captures[0].command, s.captures[0].source) == issues[own + Late(events)]
      && Answers(events + [Arrived(frame)]) == Answers(events) + [Answer(own + Late(events), own, ReplyOf(frame).value)]
      && var head := issues[own + Late(events)];
         ExchangesOf(events + [Arrived(frame)]) == ExchangesOf(events)
           + (if head.source.Context? then [Exchange(head.id, XmlOf(head.command, ReplyOf(frame).value))] else [])
  {
    hide ReplyOf, Run, Issues, Taken, Answers, OnTheWire, Arrivals, XmlOf, ExchangesOf;
    ReplyGoesToTheHead(events, frame);
    HeadWaits(events);
  }

  /** A reset alone does no harm: when the late reply comes before the next command, it finds the queue empty. */
  lemma LateReplyIgnored(events: seq<Event>, frame: Frame)
    requires ReplyOf(frame).Some? && Taken(events) == |Issues(events)|
    ensures Run(events + [Arrived(frame)]) == Run(events)
    ensures Answers(events + [Arrived(frame)]) == Answers(events)
    ensures Late(events + [Arrived(frame)]) == Late(events) - 1
  {
    hide ReplyOf, HistoryOf, Exchanges, Batches, Payloads, Composed;
    assert (events + [Arrived(frame)])[..|events|] == events;
    EmptyQueue(events);
    assert ReplyOf(frame).Some? ==> Parsed(frame).Some? by { ReplyIsParsed(frame); }
  }

  lemma ReplyIsParsed(frame: Frame)
    ensures ReplyOf(frame).Some? ==> Parsed(frame).Some?
  {
    hide BashXml.ParseBashFrame;
  }

  lemma EmptyQueue(events: seq<Event>)
    ensures Run(events).captures == [] <==> Taken(events) == |Issues(events)|
  {
    hide Run, Exchanges, Batches, Payloads, Composed;
    RunLedger(events);
  }

  lemma OneMoreLossless(events: seq<Event>, e: Event)
    ensures var all := events + [e];
      && (Armed(all) <==> !e.WasReset? && (Armed(events) || (e.Issued? && Late(events) > 0)))
      && (Overtaken(all) <==> Overtaken(events) || (IsReply(e) && Armed(events)))
      && (OnTheWire(all) <==> OnTheWire(events) && Arrivals(all) <= |Issues(all)|)
  {
    assert (events + [e])[..|events|] == events;
  }

  /** A reset that drops a waiting command, and replies behind it, with every reply given to its own command. */
  lemma DroppingResetMayBeHarmless(a: Command, b: Command, frame: Frame)
    requires ReplyOf(frame).Some?
    ensures var one := [Issued(a.id, a.command, a.source)];
      var events := one + [WasReset] + [Arrived(frame)] + [Issued(b.id, b.command, b.source)] + [Arrived(frame)];
      OnTheWire(events) && Run(one).captures != [] && AllRight(events) && |Answers(events)| == 1
  {
    var e1, e4, reply := Issued(a.id, a.command, a.source), Issued(b.id, b.command, b.source), Arrived(frame);
    var one, two, three := [e1], [e1] + [WasReset], [e1] + [WasReset] + [reply];
    hide ReplyOf, Run, Issues, Taken, Answers, Armed, Overtaken, OnTheWire, Arrivals;
    NoEvents();
    NothingLossless();
    assert [] + [e1] == one;
    OneMore([], e1);
    OneMoreLossless([], e1);
    HeadWaits(one);
    OneMore(one, WasReset);
    OneMoreLossless(one, WasReset);
    OneMore(two, reply);
    OneMoreLossless(two, reply);
    OneMore(three, e4);
    OneMoreLossless(three, e4);
    OneMore(three + [e4], reply);
    OneMoreLossless(three + [e4], reply);
    LosslessAttributionIff(three + [e4] + [reply]);
  }

  lemma NothingLossless()
    ensures !Armed([]) && !Overtaken([]) && OnTheWire([])
  {
  }

  /** Without losses the k-th reply is the k-th command's. */
  function InOrder(n: nat): Owners {
    seq(n, (k: nat) => Some(k))
  }

  lemma NewestInOrder(n: nat)
    ensures Newest(InOrder(n)) == n - 1
    ensures n > 0 ==> InOrder(n) == InOrder(n - 1) + [Some(n - 1 as nat)]
  {
  }

  /** Runs without losses are runs with these owners, so both conditions for right attribution say the same of them. */
  lemma {:induction false} LosslessIsInOrder(events: seq<Event>)
    requires OnTheWire(events)
    ensures Owned(events, InOrder(Arrivals(events)))
    ensures RightFor(events, InOrder(Arrivals(events))) <==> AllRight(events)
    ensures Disturbed(events, InOrder(Arrivals(events))) <==> Overtaken(events)
  {
    hide RightFor, AllRight, Disturbed, Overtaken, ReplyOf;
    LosslessOwned(events);
    AnswersFit(events);
    assert RightFor(events, InOrder(Arrivals(events))) <==> AllRight(events) by { RightInOrder(events); }
    AttributionRightIff(events, InOrder(Arrivals(events)));
    LosslessAttributionIff(events);
  }

  lemma RightInOrder(events: seq<Event>)
    ensures RightFor(events, InOrder(Arrivals(events))) <==> AllRight(events)
  {
    hide Answers, Arrivals;
    AnswersFit(events);
  }

  lemma {:induction false} LosslessOwned(events: seq<Event>)
    requires OnTheWire(events)
    ensures Owned(events, InOrder(Arrivals(events)))
  {
    hide ReplyOf, Newest, InOrder;
    if events == [] {
      NothingOwned();
      assert InOrder(0) == [] by { NoOwners(); }
    } else {
      var before, e := events[..|events| - 1], events[|events| - 1];
      LosslessOwned(before);
      NewestInOrder(Arrivals(before));
      NewestInOrder(Arrivals(events));
    }
  }

  lemma NoOwners()
    ensures InOrder(0) == []
  {
  }
}
