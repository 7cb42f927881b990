/**
 Matching control requests with their replies (packages/protocol/src/client/correlate.ts), and the events of
 one intent of the client (packages/protocol/src/client/index.ts).
 */
module Correlator {
  import opened Prelude
  import opened Frames

  /** How a request's promise ends. A missing payload resolves it with null. */
  datatype Outcome =
    | Resolved(value: Option<Json>)
    | TimedOut(subtype: string, requestId: string)
    | Failed(subtype: string, message: string)
    | Aborted(message: string)

  /** The n-th call of register makes the n-th promise and the n-th timer. */
  datatype Call = Call(requestId: string, subtype: string)

  datatype Pending = Pending(call: nat, subtype: string)

  datatype State = State(calls: seq<Call>, pending: map<string, Pending>, timers: set<nat>, outcomes: map<nat, Outcome>)

  const EMPTY := State([], map[], {}, map[])

  // ---------- the steps ----------

  /** A promise that is settled stays as it is. */
  function Settled(outcomes: map<nat, Outcome>, call: nat, o: Outcome): map<nat, Outcome> {
    if call in outcomes then outcomes else outcomes[call := o]
  }

  function Registered(s: State, requestId: string, subtype: string): State {
    var n := |s.calls|;
    s.(calls := s.calls + [Call(requestId, subtype)], pending := s.pending[requestId := Pending(n, subtype)], timers := s.timers + {n})
  }

  /** The timer of the n-th call fires, if nothing cleared it. */
  function Fired(s: State, n: nat): State {
    if n !in s.timers || n >= |s.calls| then s
    else
      var c := s.calls[n];
      s.(pending := s.pending - {c.requestId}, timers := s.timers - {n},
         outcomes := Settled(s.outcomes, n, TimedOut(c.subtype, c.requestId)))
  }

  function ReplyOutcome(subtype: string, r: Response): Outcome {
    match r.subtype
    case SuccessResponse => Resolved(r.response)
    case ErrorResponse => Failed(subtype, ValueOr(r.error, "control_response/error"))
    case OtherResponse => Resolved(Some(r.whole))
  }

  /** The response a frame carries for a named request. */
  function ResponseIn(f: Frame): Option<Response> {
    if f.body.ControlResponse? && f.body.response.Some? && f.body.response.value.requestId != "" then f.body.response else None
  }

  function Replied(s: State, f: Frame): State {
    match ResponseIn(f)
    case None => s
    case Some(r) =>
      if r.requestId !in s.pending then s
      else
        var p := s.pending[r.requestId];
        s.(pending := s.pending - {r.requestId}, timers := s.timers - {p.call},
           outcomes := Settled(s.outcomes, p.call, ReplyOutcome(p.subtype, r)))
  }

  function CallsOf(pending: map<string, Pending>): set<nat> {
    set id | id in pending :: pending[id].call
  }

  function AllRejected(s: State, message: string): State {
    var open := CallsOf(s.pending);
    s.(pending := map[], timers := s.timers - open,
       outcomes := map n | n in s.outcomes.Keys + open :: if n in s.outcomes then s.outcomes[n] else Aborted(message))
  }

  // ---------- the correlator ----------

  /** The timers and promises it hands to the runtime are the fields timers and outcomes. */
  class RequestIdCorrelator {
    var calls: seq<Call>
    var pending: map<string, Pending>
    var timers: set<nat>
    var outcomes: map<nat, Outcome>

    function Model(): State reads this { State(calls, pending, timers, outcomes) }

    constructor ()
      ensures Model() == EMPTY
    {
      calls, pending, timers, outcomes := [], map[], {}, map[];
    }

    method Settle(call: nat, o: Outcome)
      modifies this`outcomes
      ensures outcomes == Settled(old(outcomes), call, o)
    {
      if call !in outcomes {
        outcomes := outcomes[call := o];
      }
    }

    method Register(requestId: string, subtype: string) returns (promise: nat)
      modifies this
      ensures promise == |old(calls)| && Model() == Registered(old(Model()), requestId, subtype)
    {
      promise := |calls|;
      calls := calls + [Call(requestId, subtype)];
      timers := timers + {promise};
      pending := pending[requestId := Pending(promise, subtype)];
    }

    method OnTimeout(n: nat)
      requires n < |calls| && n in timers
      modifies this
      ensures Model() == Fired(old(Model()), n)
    {
      timers := timers - {n};
      pending := pending - {calls[n].requestId};
      Settle(n, TimedOut(calls[n].subtype, calls[n].requestId));
    }

    method TryResolve(frame: Frame) returns (matched: bool)
      modifies this
      ensures Model() == Replied(old(Model()), frame)
      ensures matched <==> ResponseIn(frame).Some? && ResponseIn(frame).value.requestId in old(pending)
    {
      if !frame.body.ControlResponse? || frame.body.response.None? {
        return false;
      }
      var r := frame.body.response.value;
      if r.requestId == "" || r.requestId !in pending {
        return false;
      }
      var p := pending[r.requestId];
      pending := pending - {r.requestId};
      timers := timers - {p.call};
      match r.subtype {
        case SuccessResponse => Settle(p.call, Resolved(r.response));
        case ErrorResponse => Settle(p.call, Failed(p.subtype, ValueOr(r.error, "control_response/error")));
        case OtherResponse => Settle(p.call, Resolved(Some(r.whole)));
      }
      matched := true;
    }

    method RejectAll(message: string)
      modifies this
      ensures Model() == AllRejected(old(Model()), message)
    {
      ghost var before := Model();
      Unstarted(before, message);
      while pending != map[]
        invariant Midway(before, Model(), message)
        decreases |pending|
      {
        assert pending.Keys != {};
        var id :| id in pending;
        MidwayMore(before, Model(), id, message);
        var p := pending[id];
        timers := timers - {p.call};
        Settle(p.call, Aborted(message));
        pending := pending - {id};
      }
      Finished(before, Model(), message);
    }
  }

  /** Some of the entries waiting before are still waiting, and the others are rejected. */
  ghost predicate Midway(before: State, now: State, message: string) {
    && now.calls == before.calls && now.pending.Keys <= before.pending.Keys
    && (forall id :: id in now.pending ==> now.pending[id] == before.pending[id])
    && now.timers == before.timers - GoneFrom(before.pending, now.pending)
    && now.outcomes.Keys == before.outcomes.Keys + GoneFrom(before.pending, now.pending)
    && forall n :: n in now.outcomes ==> now.outcomes[n] == if n in before.outcomes then before.outcomes[n] else Aborted(message)
  }

  lemma Unstarted(s: State, message: string)
    ensures Midway(s, s, message)
  {
    assert GoneFrom(s.pending, s.pending) == {};
  }

  lemma MidwayMore(before: State, now: State, id: string, message: string)
    requires Midway(before, now, message) && id in now.pending
    ensures var n := now.pending[id].call;
      Midway(before, now.(pending := now.pending - {id}, timers := now.timers - {n},
                          outcomes := Settled(now.outcomes, n, Aborted(message))), message)
    ensures |now.pending - {id}| < |now.pending|
  {
    hide GoneFrom;
    GoneMore(before.pending, now.pending, id);
  }

  lemma Finished(before: State, now: State, message: string)
    requires Midway(before, now, message) && now.pending == map[]
    ensures now == AllRejected(before, message)
  {
    assert GoneFrom(before.pending, map[]) == CallsOf(before.pending);
  }

  ghost function GoneFrom(before: map<string, Pending>, now: map<string, Pending>): set<nat> {
    set id | id in before && id !in now :: before[id].call
  }

  lemma GoneMore(before: map<string, Pending>, now: map<string, Pending>, id: string)
    requires id in now && now.Keys <= before.Keys && now[id] == before[id]
    ensures GoneFrom(before, now - {id}) == GoneFrom(before, now) + {before[id].call}
    ensures |now - {id}| < |now|
  {
    assert (now - {id}).Keys == now.Keys - {id};
    assert forall k :: k in before && k !in now ==> k !in now - {id};
    assert id in before && id !in now - {id};
  }

  // ---------- runs ----------

  datatype Event =
    | Register(requestId: string, subtype: string)
    | Timeout(call: nat)
    | Inbound(frame: Frame)
    | RejectAll(message: string)

  function Step(s: State, e: Event): State {
    match e
    case Register(id, subtype) => Registered(s, id, subtype)
    case Timeout(n) => Fired(s, n)
    case Inbound(f) => Replied(s, f)
    case RejectAll(message) => AllRejected(s, message)
  }

  function Run(events: seq<Event>): State {
    if events == [] then EMPTY else Step(Run(events[..|events| - 1]), events[|events| - 1])
  }

  /** The n-th call is the one its request id waits for. */
  predicate Waits(s: State, n: nat) {
    n < |s.calls| && s.calls[n].requestId in s.pending && s.pending[s.calls[n].requestId] == Pending(n, s.calls[n].subtype)
  }

  /** Pending and settled calls partition the registered ones, and the live timers are those of the pending calls. */
  ghost predicate Inv(s: State) {
    && (forall id :: id in s.pending ==> Waits(s, s.pending[id].call) && s.calls[s.pending[id].call].requestId == id)
    && (forall n: nat :: n in s.timers <==> Waits(s, n))
    && (forall n: nat :: n in s.outcomes <==> n < |s.calls| && !Waits(s, n))
  }

  /** The event registers no id that is waiting. */
  predicate Clean(s: State, e: Event) {
    e.Register? ==> e.requestId !in s.pending
  }

  lemma RegisterKeeps(s: State, id: string, subtype: string)
    requires Inv(s)
    ensures var t := Registered(s, id, subtype);
      Inv(t) <==> id !in s.pending
  {
    var t, n := Registered(s, id, subtype), |s.calls|;
    assert forall m: nat :: m < n ==> t.calls[m] == s.calls[m];
    if id in s.pending {
      var old_ := s.pending[id].call;
      assert Waits(s, old_) && old_ in t.timers && !Waits(t, old_);
    } else {
      assert Waits(t, n);
      forall m: nat | m < n ensures Waits(t, m) <==> Waits(s, m) { }
    }
  }

  /** Taking one id off the waiting ones, with its timer cleared and its promise settled. */
  lemma EndKeeps(s: State, id: string, o: Outcome)
    requires Inv(s) && id in s.pending
    ensures var n := s.pending[id].call;
      Inv(s.(pending := s.pending - {id}, timers := s.timers - {n}, outcomes := Settled(s.outcomes, n, o)))
  {
    var n := s.pending[id].call;
    var t := s.(pending := s.pending - {id}, timers := s.timers - {n}, outcomes := Settled(s.outcomes, n, o));
    assert Waits(s, n);
    forall m: nat ensures Waits(t, m) <==> Waits(s, m) && m != n { }
  }

  lemma RejectKeeps(s: State, message: string)
    requires Inv(s)
    ensures Inv(AllRejected(s, message))
    ensures forall n: nat :: n in CallsOf(s.pending) <==> Waits(s, n)
  {
    forall n | n in CallsOf(s.pending) ensures Waits(s, n) { }
    forall n: nat | Waits(s, n) ensures n in CallsOf(s.pending) { }
  }

  /** Each step keeps the partition, except a registration under an id that is still waiting, which always breaks it. */
  lemma StepKeepsInvIff(s: State, e: Event)
    requires Inv(s)
    ensures Inv(Step(s, e)) <==> Clean(s, e)
  {
    hide Inv, Waits;
    match e
    case Register(id, subtype) => RegisterKeeps(s, id, subtype);
    case Timeout(n) =>
      TimerOwner(s, n);
      if n in s.timers && n < |s.calls| { EndKeeps(s, s.calls[n].requestId, TimedOut(s.calls[n].subtype, s.calls[n].requestId)); }
    case Inbound(f) =>
      if ResponseIn(f).Some? && ResponseIn(f).value.requestId in s.pending {
        var r := ResponseIn(f).value;
        EndKeeps(s, r.requestId, ReplyOutcome(s.pending[r.requestId].subtype, r));
      }
    case RejectAll(message) => RejectKeeps(s, message);
  }

  lemma TimerOwner(s: State, n: nat)
    requires Inv(s)
    ensures n in s.timers ==> n < |s.calls| && s.calls[n].requestId in s.pending && s.pending[s.calls[n].requestId].call == n
  {
  }

  ghost predicate CleanRun(events: seq<Event>) {
    events == [] || (CleanRun(events[..|events| - 1]) && Clean(Run(events[..|events| - 1]), events[|events| - 1]))
  }

  lemma {:induction false} RunPartitions(events: seq<Event>)
    requires CleanRun(events)
    ensures Inv(Run(events))
  {
    hide Inv, Step;
    if events == [] {
      EmptyInv();
    } else {
      RunPartitions(events[..|events| - 1]);
      StepKeepsInvIff(Run(events[..|events| - 1]), events[|events| - 1]);
    }
  }

  lemma EmptyInv()
    ensures Inv(EMPTY)
  {
  }

  /** The ids the events register. */
  function Ids(events: seq<Event>): seq<string> {
    if events == [] then []
    else
      var e := events[|events| - 1];
      Ids(events[..|events| - 1]) + if e.Register? then [e.requestId] else []
  }

  lemma {:induction false} WaitingIdsAreRegistered(events: seq<Event>)
    ensures forall id :: id in Run(events).pending ==> id in Ids(events)
  {
    if events != [] { WaitingIdsAreRegistered(events[..|events| - 1]); }
  }

  /** Unique ids never clash with a waiting one. */
  lemma {:induction false} UniqueIdsAreClean(events: seq<Event>)
    requires forall i, j :: 0 <= i < j < |Ids(events)| ==> Ids(events)[i] != Ids(events)[j]
    ensures CleanRun(events)
  {
    hide Step;
    if events != [] {
      var before, e := events[..|events| - 1], events[|events| - 1];
      forall i, j | 0 <= i < j < |Ids(before)| ensures Ids(before)[i] != Ids(before)[j] {
        assert Ids(events)[i] == Ids(before)[i] && Ids(events)[j] == Ids(before)[j];
      }
      UniqueIdsAreClean(before);
      WaitingIdsAreRegistered(before);
      if e.Register? {
        forall i | 0 <= i < |Ids(before)| ensures Ids(before)[i] != e.requestId {
          assert Ids(events)[i] == Ids(before)[i] && Ids(events)[|Ids(before)|] == e.requestId;
        }
      }
    }
  }

  // ---------- exactly once ----------

  /** No event changes a settled promise, whatever ids are used. */
  lemma SettledForGood(s: State, e: Event, n: nat)
    requires n in s.outcomes
    ensures n in Step(s, e).outcomes && Step(s, e).outcomes[n] == s.outcomes[n]
  {
  }

  /** What the event makes of a call that waits under this id. */
  function Ending(e: Event, n: nat, c: Call): Option<Outcome> {
    match e
    case Register(_, _) => None
    case Timeout(m) => if m == n then Some(TimedOut(c.subtype, c.requestId)) else None
    case Inbound(f) =>
      var r := ResponseIn(f);
      if r.Some? && r.value.requestId == c.requestId then Some(ReplyOutcome(c.subtype, r.value)) else None
    case RejectAll(message) => Some(Aborted(message))
  }

  /** The first of the events to end the call. */
  function FirstEnding(events: seq<Event>, n: nat, c: Call): Option<Outcome> {
    if events == [] then None
    else
      var before := FirstEnding(events[..|events| - 1], n, c);
      if before.Some? then before else Ending(events[|events| - 1], n, c)
  }

  function OutcomeOf(s: State, n: nat): Option<Outcome> {
    if n in s.outcomes then Some(s.outcomes[n]) else None
  }

  /** A waiting call is settled by the events that end it, and left waiting by all others. */
  lemma StepEnds(s: State, e: Event, n: nat)
    requires Inv(s) && Clean(s, e) && n < |s.calls|
    ensures Step(s, e).calls[..|s.calls|] == s.calls && |s.calls| <= |Step(s, e).calls|
    ensures OutcomeOf(Step(s, e), n) == if OutcomeOf(s, n).Some? then OutcomeOf(s, n) else Ending(e, n, s.calls[n])
  {
    if n !in s.outcomes {
      assert Waits(s, n);
      match e
      case Register(id, subtype) =>
      case Timeout(m) =>
      case Inbound(f) =>
        var r := ResponseIn(f);
        if r.Some? && r.value.requestId in s.pending { assert Waits(s, s.pending[r.value.requestId].call); }
      case RejectAll(message) => RejectKeeps(s, message);
    } else {
      SettledForGood(s, e, n);
    }
  }

  /** Each registered promise settles with the first reply, timeout or abort that ends it, and with nothing else. */
  lemma {:induction false} SettlesOnceByFirstEnding(pre: seq<Event>, id: string, subtype: string, post: seq<Event>)
    requires CleanRun(pre + [Register(id, subtype)] + post)
    ensures var n, s := |Run(pre).calls|, Run(pre + [Register(id, subtype)] + post);
      && n < |s.calls| && s.calls[n] == Call(id, subtype)
      && OutcomeOf(s, n) == FirstEnding(post, n, Call(id, subtype))
      && (n in s.timers <==> FirstEnding(post, n, Call(id, subtype)).None?)
    decreases |post|
  {
    hide Step, Inv, Waits;
    var events, n := pre + [Register(id, subtype)] + post, |Run(pre).calls|;
    var e := events[|events| - 1];
    var before := events[..|events| - 1];
    RunPartitions(events);
    RunPartitions(before);
    if post == [] {
      assert before == pre && e == Register(id, subtype);
      JustRegistered(Run(pre), id, subtype);
    } else {
      assert before == pre + [Register(id, subtype)] + post[..|post| - 1] && e == post[|post| - 1];
      SettlesOnceByFirstEnding(pre, id, subtype, post[..|post| - 1]);
      StepEnds(Run(before), e, n);
    }
    TimersAreUnsettled(Run(events), n);
  }

  lemma JustRegistered(s: State, id: string, subtype: string)
    requires Inv(s)
    ensures Step(s, Register(id, subtype)).calls == s.calls + [Call(id, subtype)]
    ensures OutcomeOf(Step(s, Register(id, subtype)), |s.calls|) == None
  {
  }

  lemma TimersAreUnsettled(s: State, n: nat)
    requires Inv(s) && n < |s.calls|
    ensures n in s.timers <==> OutcomeOf(s, n).None?
  {
  }

  // ---------- intent ----------

  /** The client's request: it registers, then sends; `during` are the frames a synchronous transport delivers inside send. */
  function IntentEvents(id: string, subtype: string, during: seq<Frame>): seq<Event> {
    [Register(id, subtype)] + Map(during, (f: Frame) => Inbound(f))
  }

  function RunFrom(s: State, events: seq<Event>): State {
    if events == [] then s else Step(RunFrom(s, events[..|events| - 1]), events[|events| - 1])
  }

  /** A reply delivered inside send settles the promise, and a later failure of that send does not change it. */
  lemma SynchronousReplyIsKept(s: State, id: string, subtype: string, f: Frame, message: string)
    requires Inv(s) && id !in s.pending && ResponseIn(f).Some? && ResponseIn(f).value.requestId == id
    ensures var n, t := |s.calls|, RunFrom(s, IntentEvents(id, subtype, [f]));
      && OutcomeOf(t, n) == Some(ReplyOutcome(subtype, ResponseIn(f).value))
      && OutcomeOf(Step(t, RejectAll(message)), n) == Some(ReplyOutcome(subtype, ResponseIn(f).value))
  {
    hide Step, Inv;
    var reg := Register(id, subtype);
    var events := IntentEvents(id, subtype, [f]);
    assert events == [reg, Inbound(f)] && events[..1] == [reg] && [reg][..0] == [];
    StepKeepsInvIff(s, reg);
    JustRegistered(s, id, subtype);
    StepEnds(Step(s, reg), Inbound(f), |s.calls|);
    assert RunFrom(s, events) == Step(Step(s, reg), Inbound(f)) by {
      assert RunFrom(s, [reg]) == Step(RunFrom(s, []), reg);
    }
    SettledForGood(RunFrom(s, events), RejectAll(message), |s.calls|);
  }
}
