/** How the client ties the correlator and the session model together (packages/protocol/src/client/index.ts). */
module Client {
  import opened Prelude
  import opened Frames
  import C = Correlator
  import R = StateRouting
  import SR = SessionRuns

  /** An inbound frame, with what the session model reads while handling it. */
  datatype Delivery = Delivery(frame: Frame, env: R.Env)

  /** A delivery, with what a synchronous transport delivers inside the send of the follow-up it releases, if it does. */
  datatype Inflow = Inflow(d: Delivery, inside: seq<Inflow>)

  /** `wired`: a low-level permission callback is set. */
  datatype State = State(correlator: C.State, session: R.State, wired: bool)

  /**
   The frames that arrive inside send are the deliveries that follow an intent or an issued command; a conversation
   frame inside whose own handling others may arrive is two events.
   */
  datatype Event =
    | Intended(id: string, subtype: string)
    | SendFailed(message: string)
    | Delivered(d: Delivery)
    | Sniffed(d: Delivery)
    | Routed(d: Delivery)
    | TimedOut(call: nat)
    | Aborted(message: string)
    | CallbackSet(wired: bool)
    | SessionEvent(e: SR.Event) // anything but an inbound frame

  predicate OwnedByCallback(s: State, d: Delivery) {
    s.wired && R.IsPermissionRequest(d.frame)
  }

  /** What the correlator and the session model see of an event. */
  function CorrelatorSees(e: Event): seq<C.Event> {
    match e
    case Intended(id, subtype) => [C.Register(id, subtype)]
    case SendFailed(message) => [C.RejectAll(message)]
    case Delivered(d) => [C.Inbound(d.frame)]
    case Sniffed(d) => [C.Inbound(d.frame)]
    case TimedOut(call) => [C.Timeout(call)]
    case Aborted(message) => [C.RejectAll(message)]
    case _ => []
  }

  function SessionSees(s: State, e: Event): seq<SR.Event> {
    match e
    case Delivered(d) => if OwnedByCallback(s, d) then [SR.PermissionSeen] else [SR.Inbound(d.frame, d.env)]
    case Sniffed(d) => if R.IsConversation(d.frame) then [SR.FrameSniffed(d.frame, d.env)] else []
    case Routed(d) => if R.IsConversation(d.frame) then [SR.FrameRouted(d.frame, d.env)] else []
    case SessionEvent(e') => if IsFrame(e') then [] else [e']
    case _ => []
  }

  predicate IsFrame(e: SR.Event) {
    e.Inbound? || e.FrameSniffed? || e.FrameRouted?
  }

  function Step(s: State, e: Event, cfg: R.Config): State {
    match e
    case Intended(id, subtype) => s.(correlator := C.Registered(s.correlator, id, subtype))
    case SendFailed(message) => s.(correlator := C.AllRejected(s.correlator, message))
    case Delivered(d) =>
      if OwnedByCallback(s, d) then s.(session := s.session.(session := R.RequiresAction))
      else s.(correlator := C.Replied(s.correlator, d.frame), session := R.Applied(s.session, d.frame, d.env, cfg))
    case TimedOut(call) => s.(correlator := C.Fired(s.correlator, call))
    case Aborted(message) => s.(correlator := C.AllRejected(s.correlator, message))
    case CallbackSet(wired) => s.(wired := wired)
    case Sniffed(d) => s.(correlator := C.Replied(s.correlator, d.frame), session := R.Sniffed(s.session, d.frame, d.env))
    case Routed(d) => s.(session := R.Routed(s.session, d.frame, d.env, cfg))
    case SessionEvent(e') => if IsFrame(e') then s else s.(session := SR.Step(s.session, e', cfg))
  }

  function RunFrom(s: State, events: seq<Event>, cfg: R.Config): State {
    if events == [] then s else Step(RunFrom(s, events[..|events| - 1], cfg), events[|events| - 1], cfg)
  }

  function Start(wired: bool): State {
    State(C.EMPTY, R.EMPTY, wired)
  }

  lemma {:induction false} RunMore(s: State, a: seq<Event>, b: seq<Event>, cfg: R.Config)
    ensures RunFrom(s, a + b, cfg) == RunFrom(RunFrom(s, a, cfg), b, cfg)
    decreases |b|
  {
    hide Step;
    if b == [] {
      assert a + b == a;
    } else {
      assert (a + b)[..|a + b| - 1] == a + b[..|b| - 1];
      RunMore(s, a, b[..|b| - 1], cfg);
    }
  }

  lemma RunOne(s: State, e: Event, cfg: R.Config)
    ensures RunFrom(s, [e], cfg) == Step(s, e, cfg) && RunFrom(s, [], cfg) == s
  {
    hide Step;
    assert [e][..0] == [];
  }

  /** The events of an inflow that meets state s, in order: what arrives inside comes before the frame is routed. */
  function Flow(s: State, x: Inflow, cfg: R.Config): seq<Event>
    decreases x, 0
  {
    if !R.IsConversation(x.d.frame) then [Delivered(x.d)]
    else
      [Sniffed(x.d)]
      + (if SR.S.FollowUpFor(s.session.shell, x.d.frame).Some? then Flows(Step(s, Sniffed(x.d), cfg), x.inside, cfg) else [])
      + [Routed(x.d)]
  }

  function Flows(s: State, xs: seq<Inflow>, cfg: R.Config): seq<Event>
    decreases xs, |xs|
  {
    if xs == [] then []
    else
      var first := Flow(s, xs[0], cfg);
      first + Flows(RunFrom(s, first, cfg), xs[1..], cfg)
  }

  /** Handling an inflow, step by step. */
  lemma FlowRuns(s: State, x: Inflow, cfg: R.Config)
    ensures var sniffed := Step(s, Sniffed(x.d), cfg);
      RunFrom(s, Flow(s, x, cfg), cfg) ==
        if !R.IsConversation(x.d.frame) then Step(s, Delivered(x.d), cfg)
        else if SR.S.FollowUpFor(s.session.shell, x.d.frame).None? then Step(sniffed, Routed(x.d), cfg)
        else Step(RunFrom(sniffed, Flows(sniffed, x.inside, cfg), cfg), Routed(x.d), cfg)
  {
    hide Step, RunFrom, Flows, SR.S.FollowUpFor;
    var sniffed := Step(s, Sniffed(x.d), cfg);
    RunOne(s, Delivered(x.d), cfg);
    RunOne(s, Sniffed(x.d), cfg);
    var inside := if SR.S.FollowUpFor(s.session.shell, x.d.frame).Some? then Flows(sniffed, x.inside, cfg) else [];
    RunMore(s, [Sniffed(x.d)], inside, cfg);
    RunMore(s, [Sniffed(x.d)] + inside, [Routed(x.d)], cfg);
    RunOne(sniffed, Routed(x.d), cfg);
    RunOne(RunFrom(sniffed, inside, cfg), Routed(x.d), cfg);
  }

  /** An intent with what a synchronous transport delivers inside send. */
  function IntentEvents(s: State, id: string, subtype: string, during: seq<Inflow>, cfg: R.Config): seq<Event> {
    [Intended(id, subtype)] + Flows(Step(s, Intended(id, subtype), cfg), during, cfg)
  }

  /** A context command with what a synchronous transport delivers inside send. */
  function ContextEvents(s: State, id: string, command: string, followUp: string, during: seq<Inflow>, cfg: R.Config): seq<Event> {
    var issued := SessionEvent(SR.Issued(id, command, SR.S.Context));
    [issued] + Flows(Step(s, issued, cfg), during, cfg) + [SessionEvent(SR.FollowUpRecorded(id, followUp))]
  }

  // ---------- the client ----------

  class ClaudeClient {
    const correlator: C.RequestIdCorrelator
    const holder: R.StateHolder
    var wired: bool

    ghost predicate Valid() {
      holder.Valid()
    }

    function Model(): State
      reads this, correlator, holder, holder.messages, holder.tasks, holder.shell
    {
      State(correlator.Model(), holder.Model(), wired)
    }

    constructor (cfg: R.Config, wired: bool)
      ensures Valid() && holder.cfg == cfg && Model() == Start(wired)
      ensures fresh(correlator) && fresh(holder) && fresh(holder.messages) && fresh(holder.tasks) && fresh(holder.shell)
    {
      this.wired := wired;
      correlator := new C.RequestIdCorrelator();
      holder := new R.StateHolder(cfg);
    }

    method SetPermissionCallback(wired: bool)
      requires Valid()
      modifies this
      ensures Model() == Step(old(Model()), CallbackSet(wired), holder.cfg)
    {
      this.wired := wired;
    }

    method HandleInbound(x: Inflow)
      requires Valid()
      modifies correlator, holder, holder.messages, holder.tasks, holder.shell
      ensures Model() == RunFrom(old(Model()), Flow(old(Model()), x, holder.cfg), holder.cfg)
      decreases x, 0
    {
      hide R.Applied, R.Sniffed, R.Routed, C.Replied, Flow, Flows, RunFrom, SR.S.FollowUpFor;
      var d := x.d;
      FlowRuns(Model(), x, holder.cfg);
      if R.IsPermissionRequest(d.frame) && wired {
        holder.sessionState := R.RequiresAction;
        return;
      }
      var _ := correlator.TryResolve(d.frame);
      if !R.IsConversation(d.frame) {
        var _ := holder.ApplyInbound(d.frame, d.env);
        return;
      }
      var followUp := holder.Sniff(d.frame, d.env);
      if followUp.Some? {
        HandleAll(x.inside);
      }
      var _ := holder.Route(d.frame, d.env);
    }

    /** What arrives inside one send, in order. */
    method HandleAll(xs: seq<Inflow>)
      requires Valid()
      modifies correlator, holder, holder.messages, holder.tasks, holder.shell
      ensures Model() == RunFrom(old(Model()), Flows(old(Model()), xs, holder.cfg), holder.cfg)
      decreases xs, |xs|
    {
      hide Step, Flow;
      if xs != [] {
        ghost var start := Model();
        HandleInbound(xs[0]);
        ghost var first, next := Flow(start, xs[0], holder.cfg), Model();
        HandleAll(xs[1..]);
        RunMore(start, first, Flows(next, xs[1..], holder.cfg), holder.cfg);
      }
    }

    /** `during` is what a synchronous transport delivers inside send. */
    method Intent(id: string, subtype: string, during: seq<Inflow>) returns (promise: nat)
      requires Valid()
      modifies correlator, holder, holder.messages, holder.tasks, holder.shell
      ensures promise == |old(correlator.calls)|
      ensures Model() == RunFrom(old(Model()), IntentEvents(old(Model()), id, subtype, during, holder.cfg), holder.cfg)
    {
      hide Flows, RunFrom;
      ghost var start := Model();
      promise := correlator.Register(id, subtype);
      RunOne(start, Intended(id, subtype), holder.cfg);
      RunMore(start, [Intended(id, subtype)], Flows(Model(), during, holder.cfg), holder.cfg);
      HandleAll(during);
    }

    /** The rejection handler of an intent's send. */
    method OnSendFailed(message: string)
      requires Valid()
      modifies correlator
      ensures Model() == Step(old(Model()), SendFailed(message), holder.cfg)
    {
      correlator.RejectAll(message);
    }

    method AbortAllIntents(message: string)
      requires Valid()
      modifies correlator
      ensures Model() == Step(old(Model()), Aborted(message), holder.cfg)
    {
      correlator.RejectAll(message);
    }

    /** `during` is what a synchronous transport delivers inside send. */
    method SendShellContext(id: string, command: string, followUp: string, during: seq<Inflow>)
      requires Valid()
      modifies correlator, holder, holder.messages, holder.tasks, holder.shell
      ensures Model() == RunFrom(old(Model()), ContextEvents(old(Model()), id, command, followUp, during, holder.cfg), holder.cfg)
    {
      hide Flows, RunFrom, SR.S.Issue, SR.S.Record;
      ghost var start, issued, recorded := Model(), SessionEvent(SR.Issued(id, command, SR.S.Context)),
                                           SessionEvent(SR.FollowUpRecorded(id, followUp));
      holder.shell.IssueContext(id, command);
      assert Model() == Step(start, issued, holder.cfg);
      ghost var inside := Flows(Model(), during, holder.cfg);
      RunOne(start, issued, holder.cfg);
      RunMore(start, [issued], inside, holder.cfg);
      HandleAll(during);
      RunOne(Model(), recorded, holder.cfg);
      RunMore(start, [issued] + inside, [recorded], holder.cfg);
      holder.shell.RecordFollowUp(id, followUp);
    }
  }
}
