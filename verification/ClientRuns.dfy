/** Whole runs of the client (packages/protocol/src/client/index.ts). */
module ClientRuns {
  import opened Prelude
  import opened Frames
  import opened Client
  import C = Correlator
  import R = StateRouting
  import SR = SessionRuns

  function Run(wired: bool, events: seq<Event>, cfg: R.Config): State {
    RunFrom(Start(wired), events, cfg)
  }

  /** What reaches the correlator in a run, in order. */
  function CorrelatorRun(events: seq<Event>): seq<C.Event> {
    if events == [] then [] else CorrelatorRun(events[..|events| - 1]) + CorrelatorSees(events[|events| - 1])
  }

  /** What reaches the session model. */
  function SessionRun(wired: bool, events: seq<Event>, cfg: R.Config): seq<SR.Event> {
    if events == [] then []
    else
      var before := events[..|events| - 1];
      SessionRun(wired, before, cfg) + SessionSees(Run(wired, before, cfg), events[|events| - 1])
  }

  // ---------- both parts run by themselves ----------

  /** A permission request answers no intent. */
  lemma RequestsResolveNothing(s: C.State, f: Frame)
    requires R.IsPermissionRequest(f)
    ensures C.Replied(s, f) == s
  {
  }

  lemma StepProjects(s: State, e: Event, cfg: R.Config)
    ensures var t, c, r := Step(s, e, cfg), CorrelatorSees(e), SessionSees(s, e);
      && t.correlator == (if c == [] then s.correlator else C.Step(s.correlator, c[0]))
      && t.session == (if r == [] then s.session else SR.Step(s.session, r[0], cfg))
      && |c| <= 1 && |r| <= 1
  {
    hide R.Applied, C.AllRejected, C.Fired, C.Registered;
    if e.Delivered? && R.IsPermissionRequest(e.d.frame) { RequestsResolveNothing(s.correlator, e.d.frame); }
  }

  lemma CorrelatorAppend(events: seq<C.Event>, more: seq<C.Event>)
    requires |more| <= 1
    ensures C.Run(events + more) == if more == [] then C.Run(events) else C.Step(C.Run(events), more[0])
  {
    hide C.Step;
    if more == [] { assert events + more == events; } else { assert (events + more)[..|events|] == events; }
  }

  lemma SessionAppend(events: seq<SR.Event>, more: seq<SR.Event>, cfg: R.Config)
    requires |more| <= 1
    ensures SR.Run(events + more, cfg) == if more == [] then SR.Run(events, cfg) else SR.Step(SR.Run(events, cfg), more[0], cfg)
  {
    hide SR.Step;
    if more == [] { assert events + more == events; } else { assert (events + more)[..|events|] == events; }
  }

  /**
   In every run of the client the correlator and the session model behave like runs of their own, so that whatever
   holds over their runs holds here.
   */
  lemma {:induction false} RunProjects(wired: bool, events: seq<Event>, cfg: R.Config)
    ensures Run(wired, events, cfg).correlator == C.Run(CorrelatorRun(events))
    ensures Run(wired, events, cfg).session == SR.Run(SessionRun(wired, events, cfg), cfg)
  {
    hide Step, CorrelatorSees, SessionSees, C.Step, SR.Step;
    if events != [] {
      var before, e := events[..|events| - 1], events[|events| - 1];
      var s := Run(wired, before, cfg);
      RunProjects(wired, before, cfg);
      StepProjects(s, e, cfg);
      CorrelatorAppend(CorrelatorRun(before), CorrelatorSees(e));
      SessionAppend(SessionRun(wired, before, cfg), SessionSees(s, e), cfg);
    }
  }

  lemma {:induction false} CorrelatorRunAppend(a: seq<Event>, b: seq<Event>)
    ensures CorrelatorRun(a + b) == CorrelatorRun(a) + CorrelatorRun(b)
    decreases |b|
  {
    hide CorrelatorSees;
    if b == [] {
      assert a + b == a;
    } else {
      assert (a + b)[..|a + b| - 1] == a + b[..|b| - 1];
      CorrelatorRunAppend(a, b[..|b| - 1]);
    }
  }

  lemma RegisterSeen(id: string, subtype: string)
    ensures CorrelatorRun([Intended(id, subtype)]) == [C.Register(id, subtype)]
  {
    assert [Intended(id, subtype)][..0] == [];
  }

  // ---------- intents settle exactly once ----------

  /**
   An intent of any run, with unique ids: its promise settles with the first of the events behind it that ends it, be
   that a reply delivered inside its own send, a later reply, its timeout, an abort, or the failure of any send; it
   is pending, with its timer running, exactly until then.
   */
  lemma IntentSettlesOnce(wired: bool, pre: seq<Event>, id: string, subtype: string, post: seq<Event>, cfg: R.Config)
    requires C.CleanRun(CorrelatorRun(pre + [Intended(id, subtype)] + post))
    ensures var n, c := |Run(wired, pre, cfg).correlator.calls|, Run(wired, pre + [Intended(id, subtype)] + post, cfg).correlator;
      && n < |c.calls| && c.calls[n] == C.Call(id, subtype)
      && C.OutcomeOf(c, n) == C.FirstEnding(CorrelatorRun(post), n, C.Call(id, subtype))
      && (n in c.timers <==> C.FirstEnding(CorrelatorRun(post), n, C.Call(id, subtype)).None?)
  {
    hide Run, C.Run, C.CleanRun, C.FirstEnding, C.OutcomeOf, CorrelatorRun;
    var events := pre + [Intended(id, subtype)] + post;
    RunProjects(wired, pre, cfg);
    RunProjects(wired, events, cfg);
    CorrelatorRunAppend(pre, [Intended(id, subtype)]);
    CorrelatorRunAppend(pre + [Intended(id, subtype)], post);
    RegisterSeen(id, subtype);
    C.SettlesOnceByFirstEnding(CorrelatorRun(pre), id, subtype, CorrelatorRun(post));
  }

  /** The first event that ends a call decides, whatever follows. */
  lemma {:induction false} FirstDecides(a: seq<C.Event>, b: seq<C.Event>, n: nat, c: C.Call)
    requires C.FirstEnding(a, n, c).Some?
    ensures C.FirstEnding(a + b, n, c) == C.FirstEnding(a, n, c)
    decreases |b|
  {
    hide C.Ending;
    if b == [] {
      assert a + b == a;
    } else {
      assert (a + b)[..|a + b| - 1] == a + b[..|b| - 1];
      FirstDecides(a, b[..|b| - 1], n, c);
    }
  }

  /**
   A failed send rejects every intent that is still waiting, its own and all others, and no other: one whose reply came
   inside the send keeps that reply.
   */
  lemma FailedSendSparesTheAnswered(wired: bool, pre: seq<Event>, id: string, subtype: string, inside: seq<Event>, message: string,
                                    post: seq<Event>, cfg: R.Config)
    requires C.CleanRun(CorrelatorRun(pre + [Intended(id, subtype)] + (inside + [SendFailed(message)] + post)))
    ensures var n, call := |Run(wired, pre, cfg).correlator.calls|, C.Call(id, subtype);
      var end := C.FirstEnding(CorrelatorRun(inside), n, call);
      C.OutcomeOf(Run(wired, pre + [Intended(id, subtype)] + (inside + [SendFailed(message)] + post), cfg).correlator, n)
        == if end.Some? then end else Some(C.Aborted(message))
  {
    hide Run, C.Run, C.CleanRun, C.OutcomeOf, CorrelatorRun;
    var n, call, fail := |Run(wired, pre, cfg).correlator.calls|, C.Call(id, subtype), [SendFailed(message)];
    IntentSettlesOnce(wired, pre, id, subtype, inside + fail + post, cfg);
    CorrelatorRunAppend(inside, fail);
    CorrelatorRunAppend(inside + fail, post);
    var a := CorrelatorRun(inside);
    assert CorrelatorRun(fail) == [C.RejectAll(message)] by { FailureSeen(message); }
    assert (a + [C.RejectAll(message)])[..|a|] == a;
    FirstDecides(a + [C.RejectAll(message)], CorrelatorRun(post), n, call);
  }

  lemma FailureSeen(message: string)
    ensures CorrelatorRun([SendFailed(message)]) == [C.RejectAll(message)]
  {
    assert [SendFailed(message)][..0] == [];
  }

  // ---------- what a promise ends with ----------

  /** A control response for a request. */
  function ReplyFrame(r: Response): Frame {
    Frame(ControlResponse(Some(r)), None)
  }

  /**
   What a promise ends with, by the event that comes first behind its intent: the payload of a success, if it has one;
   the failure of an error, with its message or the default one; the whole of any other response; the timeout of its own
   request; or the abort.
   */
  lemma PromiseEndsWith(wired: bool, pre: seq<Event>, id: string, subtype: string, e: Event, post: seq<Event>, cfg: R.Config)
    requires C.CleanRun(CorrelatorRun(pre + [Intended(id, subtype)] + ([e] + post))) && id != ""
    ensures var n := |Run(wired, pre, cfg).correlator.calls|;
      var o := C.OutcomeOf(Run(wired, pre + [Intended(id, subtype)] + ([e] + post), cfg).correlator, n);
      && (forall r: Response :: e.Delivered? && e.d.frame == ReplyFrame(r) && r.requestId == id ==>
            && (r.subtype.SuccessResponse? ==> o == Some(C.Resolved(r.response)))
            && (r.subtype.ErrorResponse? && r.error.Some? ==> o == Some(C.Failed(subtype, r.error.value)))
            && (r.subtype.ErrorResponse? && r.error.None? ==> o == Some(C.Failed(subtype, "control_response/error")))
            && (r.subtype.OtherResponse? ==> o == Some(C.Resolved(Some(r.whole)))))
      && (e == TimedOut(n) ==> o == Some(C.TimedOut(subtype, id)))
      && (forall message :: e == Aborted(message) || e == SendFailed(message) ==> o == Some(C.Aborted(message)))
  {
    hide Run, C.Run, C.CleanRun, C.OutcomeOf, CorrelatorRun;
    var n, call := |Run(wired, pre, cfg).correlator.calls|, C.Call(id, subtype);
    IntentSettlesOnce(wired, pre, id, subtype, [e] + post, cfg);
    CorrelatorRunAppend([e], post);
    OneSeen(e);
    var seen := CorrelatorSees(e);
    if seen != [] {
      assert seen == [seen[0]] && [seen[0]][..0] == [];
      assert C.FirstEnding(seen, n, call) == C.Ending(seen[0], n, call);
      if C.Ending(seen[0], n, call).Some? { FirstDecides(seen, CorrelatorRun(post), n, call); }
    }
  }

  lemma OneSeen(e: Event)
    ensures CorrelatorRun([e]) == CorrelatorSees(e)
  {
    assert [e][..0] == [];
  }

  // ---------- permission requests ----------

  /** The permission requests delivered while no callback was set. */
  function Unowned(wired: bool, events: seq<Event>, cfg: R.Config): seq<Frame> {
    if events == [] then []
    else
      var before, e := events[..|events| - 1], events[|events| - 1];
      Unowned(wired, before, cfg)
      + if e.Delivered? && R.IsPermissionRequest(e.d.frame) && !Run(wired, before, cfg).wired then [e.d.frame] else []
  }

  lemma SessionQueue(s: R.State, e: SR.Event, cfg: R.Config)
    ensures forall p :: p in SR.Step(s, e, cfg).permissions ==>
      p in s.permissions || (e.Inbound? && R.IsPermissionRequest(e.frame) && p.frame == e.frame)
  {
    hide R.UserSent, R.SessionAfter, SR.M.RunFrom, R.RunTasks, SR.S.RunFrom, SR.T.Step;
    if e.Inbound? { assert R.Applied(s, e.frame, e.env, cfg).permissions == R.Queued(s.permissions, e.frame, cfg.hasCallback); }
    if e.UserSends? { assert R.UserSent(s, e.text, e.id).permissions == s.permissions by { SentKeepsQueue(s, e.text, e.id); } }
  }

  lemma SentKeepsQueue(s: R.State, text: string, id: string)
    ensures R.UserSent(s, text, id).permissions == s.permissions
  {
  }

  lemma StepQueue(s: State, e: Event, cfg: R.Config)
    ensures forall p :: p in Step(s, e, cfg).session.permissions ==>
      p in s.session.permissions || (e.Delivered? && R.IsPermissionRequest(e.d.frame) && !s.wired && p.frame == e.d.frame)
  {
    hide R.Applied, SR.Step, Step;
    StepProjects(s, e, cfg);
    var r := SessionSees(s, e);
    if r != [] { SessionQueue(s.session, r[0], cfg); }
  }

  /** Over every run the queue holds only requests that arrived while no low-level callback was set. */
  lemma {:induction false} QueueHoldsUnowned(wired: bool, events: seq<Event>, cfg: R.Config)
    ensures forall p :: p in Run(wired, events, cfg).session.permissions ==> p.frame in Unowned(wired, events, cfg)
  {
    hide Step;
    if events != [] {
      var before, e := events[..|events| - 1], events[|events| - 1];
      QueueHoldsUnowned(wired, before, cfg);
      StepQueue(Run(wired, before, cfg), e, cfg);
    }
  }

  lemma {:induction false} WiredOwnsAll(events: seq<Event>, cfg: R.Config)
    requires forall e :: e in events && e.CallbackSet? ==> e.wired
    ensures Run(true, events, cfg).wired && Unowned(true, events, cfg) == []
  {
    hide R.Applied, SR.Step;
    if events != [] { WiredOwnsAll(events[..|events| - 1], cfg); }
  }

  /** With the callback set from the start and never removed, no permission request is ever queued. */
  lemma WiredQueueIsEmpty(events: seq<Event>, cfg: R.Config)
    requires forall e :: e in events && e.CallbackSet? ==> e.wired
    ensures Run(true, events, cfg).session.permissions == []
  {
    hide Run, Unowned;
    QueueHoldsUnowned(true, events, cfg);
    WiredOwnsAll(events, cfg);
    SomeMember(Run(true, events, cfg).session.permissions);
  }

  lemma SomeMember<T>(s: seq<T>)
    ensures s == [] || exists x :: x in s
  {
    if s != [] { assert s[0] in s; }
  }

  /**
   A low-level callback takes permission requests and no other frame: of these the model sees nothing but the wait, and
   everything else is handled as without the callback.
   */
  lemma CallbackTakesRequestsOnly(s: State, d: Delivery, cfg: R.Config)
    requires s.wired
    ensures Step(s, Delivered(d), cfg) ==
      if d.frame.body.ControlRequest? && d.frame.body.subtype == "can_use_tool"
      then s.(session := s.session.(session := R.RequiresAction))
      else Step(s.(wired := false), Delivered(d), cfg).(wired := true)
  {
    hide R.Applied, C.Replied;
  }

  // ---------- frames inside a follow-up's send ----------

  /** When nothing arrives inside, the two halves of handling a frame make up the whole. */
  lemma NothingInside(s: State, d: Delivery, cfg: R.Config)
    ensures RunFrom(s, Flow(s, Inflow(d, []), cfg), cfg) == Step(s, Delivered(d), cfg)
  {
    hide Flow, RunFrom, R.Applied, R.Sniffed, R.Routed, C.Replied, SR.S.FollowUpFor;
    FlowRuns(s, Inflow(d, []), cfg);
    var sniffed := Step(s, Sniffed(d), cfg);
    assert Flows(sniffed, [], cfg) == [];
    RunOne(sniffed, Sniffed(d), cfg);
    if R.IsConversation(d.frame) { R.AppliedConversation(s.session, d.frame, d.env, cfg); }
  }
}
