/** Whole runs of the session model (packages/protocol/src/client/state.ts). */
module SessionRuns {
  import opened Prelude
  import opened Frames
  import opened StateRouting
  import M = Messages
  import T = Tasks
  import S = Shell
  import H = ShellRuns
  import N = Attribution
  import P = Persistence

  datatype Event =
    | Inbound(frame: Frame, env: Env)
    | FrameSniffed(frame: Frame, env: Env) // a conversation frame up to the send of its follow-up
    | FrameRouted(frame: Frame, env: Env)  // the same frame after that send
    | UserSends(text: string, id: string)
    | Issued(id: string, command: string, source: S.Source)
    | FollowUpRecorded(id: string, followUp: string)
    | BlocksSent(blocks: Json)
    | Dismissed(id: string)
    | Restored(entries: seq<M.Entry>)
    | Reset
    | Respond(id: string)
    | QueueCleared
    | MarkedEnded
    | PermissionSeen // a request that a low-level callback answers

  function Step(s: State, e: Event, cfg: Config): State {
    match e
    case Inbound(f, env) => Applied(s, f, env, cfg)
    case FrameSniffed(f, env) => Sniffed(s, f, env)
    case FrameRouted(f, env) => Routed(s, f, env, cfg)
    case UserSends(text, id) => UserSent(s, text, id)
    case Issued(id, command, source) => s.(shell := S.Issue(s.shell, id, command, source))
    case FollowUpRecorded(id, followUp) => s.(shell := S.Record(s.shell, id, followUp))
    case BlocksSent(blocks) => s.(shell := s.shell.(outbox := s.shell.outbox + [S.UserBlocks(blocks)]))
    case Dismissed(id) => s.(shell := S.Dismiss(s.shell, id))
    case Restored(entries) => s.(messages := M.Hydrated(s.messages, entries))
    case Reset => TimelineReset(s)
    case Respond(id) => Answered(s, id)
    case QueueCleared => s.(permissions := [])
    case MarkedEnded => s.(session := Ended)
    case PermissionSeen => s.(session := RequiresAction)
  }

  function Run(events: seq<Event>, cfg: Config): State {
    if events == [] then EMPTY else Step(Run(events[..|events| - 1], cfg), events[|events| - 1], cfg)
  }

  // ---------- each part runs by itself ----------

  function TimelineOf(s: State, e: Event): seq<M.Event> {
    match e
    case Inbound(f, env) => TimelineEvents(f, s.shell, env)
    case FrameSniffed(f, env) => if IsConversation(f) then AnnounceEvents(f, s.shell, env) else []
    case FrameRouted(f, env) => if IsConversation(f) then LandEvents(f, env) else []
    case UserSends(text, id) => if S.Sends(s.shell, text) then [M.PushLocalUser(text, id)] else []
    case Restored(entries) => [M.Restore(entries)]
    case Reset => [M.Clear]
    case _ => []
  }

  function TasksOf(e: Event): seq<T.Event> {
    match e
    case Inbound(f, env) => TaskEvents(f, env)
    case FrameRouted(f, env) => if IsConversation(f) then TaskEvents(f, env) else []
    case Reset => [T.Cleared]
    case _ => []
  }

  function ShellOf(e: Event): seq<S.Event> {
    match e
    case Inbound(f, _) => ShellEvents(f)
    case FrameSniffed(f, _) => if IsConversation(f) then [S.Arrived(f)] else []
    case UserSends(text, _) => [S.UserSends(text)]
    case Issued(id, command, source) => [S.Issued(id, command, source)]
    case FollowUpRecorded(id, followUp) => [S.FollowUpRecorded(id, followUp)]
    case BlocksSent(blocks) => [S.BlocksSent(blocks)]
    case Dismissed(id) => [S.Dismissed(id)]
    case Reset => [S.WasReset]
    case _ => []
  }

  function TimelineRun(events: seq<Event>, cfg: Config): seq<M.Event> {
    if events == [] then []
    else
      var before := events[..|events| - 1];
      TimelineRun(before, cfg) + TimelineOf(Run(before, cfg), events[|events| - 1])
  }

  function TasksRun(events: seq<Event>): seq<T.Event> {
    if events == [] then [] else TasksRun(events[..|events| - 1]) + TasksOf(events[|events| - 1])
  }

  function ShellRun(events: seq<Event>): seq<S.Event> {
    if events == [] then [] else ShellRun(events[..|events| - 1]) + ShellOf(events[|events| - 1])
  }

  lemma {:induction false} MessagesExtend(a: seq<M.Event>, b: seq<M.Event>, parse: M.Parser)
    ensures M.Run(a + b, parse) == M.RunFrom(M.Run(a, parse), b, parse)
    decreases |b|
  {
    hide M.Step;
    if b == [] {
      assert a + b == a;
    } else {
      assert (a + b)[..|a + b| - 1] == a + b[..|b| - 1];
      MessagesExtend(a, b[..|b| - 1], parse);
    }
  }

  lemma {:induction false} TasksExtend(a: seq<T.Event>, b: seq<T.Event>, cfg: Config)
    ensures T.Run(a + b, cfg.taskCap, cfg.orphanTtl) == RunTasks(T.Run(a, cfg.taskCap, cfg.orphanTtl), b, cfg)
    decreases |b|
  {
    hide T.Step;
    if b == [] {
      assert a + b == a;
    } else {
      assert (a + b)[..|a + b| - 1] == a + b[..|b| - 1];
      TasksExtend(a, b[..|b| - 1], cfg);
    }
  }

  lemma {:induction false} ShellExtend(a: seq<S.Event>, b: seq<S.Event>)
    ensures S.Run(a + b) == S.RunFrom(S.Run(a), b)
    decreases |b|
  {
    hide S.Step;
    if b == [] {
      assert a + b == a;
    } else {
      assert (a + b)[..|a + b| - 1] == a + b[..|b| - 1];
      ShellExtend(a, b[..|b| - 1]);
    }
  }

  lemma StepTimeline(s: State, e: Event, cfg: Config)
    ensures Step(s, e, cfg).messages == M.RunFrom(s.messages, TimelineOf(s, e), cfg.parse)
  {
    hide TimelineEvents, TaskEvents, ShellEvents, M.PushLocal, M.Hydrated, M.Cleared, S.SendUser, T.Step, S.Step;
    hide AnnounceEvents, LandEvents, Announced, Landed, S.FollowUpFor, S.Replay, T.FrameStep;
    var m := TimelineOf(s, e);
    if e.FrameSniffed? || e.FrameRouted? {
      AnnounceIs(s.messages, e.frame, s.shell, e.env, cfg.parse);
      LandIs(s.messages, e.frame, e.env, cfg.parse);
    } else if !e.Inbound? {
      if |m| == 1 { assert m == [m[0]]; OneMessage(s.messages, m[0], cfg.parse); }
    }
  }

  lemma AnnounceIs(m: M.State, f: Frame, shell: S.State, env: Env, parse: M.Parser)
    ensures M.RunFrom(m, AnnounceEvents(f, shell, env), parse) == Announced(m, S.FollowUpFor(shell, f), env.localId)
    ensures M.RunFrom(m, [], parse) == m
  {
    hide M.RunFrom, S.FollowUpFor, M.PushLocal;
    MessageEvents(m, f, ValueOr(S.FollowUpFor(shell, f), ""), env, parse);
  }

  lemma LandIs(m: M.State, f: Frame, env: Env, parse: M.Parser)
    ensures M.RunFrom(m, LandEvents(f, env), parse) == Landed(m, f, env.id, parse)
  {
    hide M.RunFrom, M.PushFrame, M.IngestFrame, M.Consumes;
    MessageEvents(m, f, "", env, parse);
  }

  lemma StepTasks(s: State, e: Event, cfg: Config)
    ensures Step(s, e, cfg).tasks == RunTasks(s.tasks, TasksOf(e), cfg)
  {
    hide TimelineEvents, ShellEvents, M.RunFrom, S.SendUser, S.Step, Applied, Landed, Announced;
    OneTaskEvent(s.tasks, T.Cleared, cfg);
    match e
    case Inbound(f, env) => AppliedTasks(s, f, env, cfg);
    case FrameRouted(f, env) => OneTaskEvent(s.tasks, T.FrameArrives(f, env.at), cfg); FrameArrivalIs(s.tasks, f, env, cfg);
    case _ =>
  }

  lemma AppliedTasks(s: State, f: Frame, env: Env, cfg: Config)
    ensures Applied(s, f, env, cfg).tasks == RunTasks(s.tasks, TaskEvents(f, env), cfg)
  {
    hide TimelineEvents, TaskEvents, ShellEvents, M.RunFrom, RunTasks;
  }

  lemma StepShell(s: State, e: Event, cfg: Config)
    ensures Step(s, e, cfg).shell == S.RunFrom(s.shell, ShellOf(e))
  {
    hide TimelineEvents, TaskEvents, ShellEvents, M.RunFrom, M.PushLocal, T.Step, S.Issue, S.Record, S.Dismiss;
    if !e.Inbound? && |ShellOf(e)| == 1 {
      assert ShellOf(e) == [ShellOf(e)[0]];
      OneShellEvent(s.shell, ShellOf(e)[0]);
    }
  }

  /** One event moves the timeline, the tasks and the shell by the events they see of it. */
  lemma StepProjects(s: State, e: Event, cfg: Config)
    ensures Step(s, e, cfg).messages == M.RunFrom(s.messages, TimelineOf(s, e), cfg.parse)
    ensures Step(s, e, cfg).tasks == RunTasks(s.tasks, TasksOf(e), cfg)
    ensures Step(s, e, cfg).shell == S.RunFrom(s.shell, ShellOf(e))
  {
    hide Step, TimelineOf, TasksOf, ShellOf;
    StepTimeline(s, e, cfg);
    StepTasks(s, e, cfg);
    StepShell(s, e, cfg);
  }

  lemma OneMessage(s: M.State, e: M.Event, parse: M.Parser)
    ensures M.RunFrom(s, [e], parse) == M.Step(s, e, parse)
  {
    assert [e][..0] == [];
  }

  /** In any run the timeline, the tasks and the shell behave like runs of their own, over the events that reach them. */
  lemma {:induction false} RunProjects(events: seq<Event>, cfg: Config)
    ensures Run(events, cfg).messages == M.Run(TimelineRun(events, cfg), cfg.parse)
    ensures Run(events, cfg).tasks == T.Run(TasksRun(events), cfg.taskCap, cfg.orphanTtl)
    ensures Run(events, cfg).shell == S.Run(ShellRun(events))
  {
    hide Step, TimelineOf, TasksOf, ShellOf;
    if events != [] {
      var before, e := events[..|events| - 1], events[|events| - 1];
      RunProjects(before, cfg);
      StepProjects(Run(before, cfg), e, cfg);
      MessagesExtend(TimelineRun(before, cfg), TimelineOf(Run(before, cfg), e), cfg.parse);
      TasksExtend(TasksRun(before), TasksOf(e), cfg);
      ShellExtend(ShellRun(before), ShellOf(e));
    }
  }

  // ---------- where a frame is kept ----------

  datatype Sink = MainTimeline | TaskStore | HookRing | PermissionQueue

  /** The one place that keeps the frame, if any does. */
  function Home(f: Frame, shell: S.State, cfg: Config): Option<Sink> {
    match f.body
    case System(_) => if IsHook(f) then Some(HookRing) else if Diverted(f, shell) then None else Some(MainTimeline)
    case ControlResponse(_) => None
    case ControlRequest(_, _) => if IsPermissionRequest(f) && !cfg.hasCallback then Some(PermissionQueue) else None
    case _ =>
      if HasParent(f) then Some(TaskStore)
      else if f.body.RateLimit? || (f.body.StreamEventBody? && f.body.event.Some?) then None
      else Some(MainTimeline)
  }

  function Tally(b: bool): nat { if b then 1 else 0 }

  function InTimeline(messages: seq<M.Entry>, f: Frame): nat {
    if messages == [] then 0
    else Tally(messages[0].FrameEntry? && messages[0].frame == f) + InTimeline(messages[1..], f)
  }

  function InHooks(hooks: seq<HookEntry>, f: Frame): nat {
    if hooks == [] then 0 else Tally(hooks[0].frame == f) + InHooks(hooks[1..], f)
  }

  function InQueue(permissions: seq<Permission>, f: Frame): nat {
    if permissions == [] then 0 else Tally(permissions[0].frame == f) + InQueue(permissions[1..], f)
  }

  /** Transcripts and orphan buffers. */
  ghost function InTasks(s: T.State, f: Frame): nat {
    T.InTranscripts(s.tasks, f) + T.InBuffers(s.buffers, f)
  }

  lemma {:induction false} TimelineAppend(a: seq<M.Entry>, b: seq<M.Entry>, f: Frame)
    ensures InTimeline(a + b, f) == InTimeline(a, f) + InTimeline(b, f)
  {
    if a == [] {
      assert a + b == b;
    } else {
      assert (a + b)[1..] == a[1..] + b;
      TimelineAppend(a[1..], b, f);
    }
  }

  lemma TimelinePush(a: seq<M.Entry>, e: M.Entry, f: Frame)
    ensures InTimeline(a + [e], f) == InTimeline(a, f) + Tally(e.FrameEntry? && e.frame == f)
  {
    TimelineAppend(a, [e], f);
    assert [e][1..] == [];
  }

  lemma {:induction false} TimelineWithout(messages: seq<M.Entry>, id: string, f: Frame)
    ensures InTimeline(M.WithoutStream(messages, id), f) == InTimeline(messages, f)
  {
    if messages != [] { TimelineWithout(messages[1..], id, f); }
  }

  lemma {:induction false} TimelineShow(messages: seq<M.Entry>, i: nat, e: M.Entry, f: Frame)
    requires i < |messages| && messages[i].Streaming? && e.Streaming?
    ensures InTimeline(messages[i := e], f) == InTimeline(messages, f)
  {
    if i > 0 {
      assert messages[i := e][1..] == messages[1..][i - 1 := e];
      TimelineShow(messages[1..], i - 1, e, f);
    } else {
      assert messages[i := e][1..] == messages[1..];
    }
  }

  lemma UpdateCount(s: M.State, id: string, msg: M.InFlight, f: Frame)
    ensures InTimeline(M.Update(s, id, msg).messages, f) == InTimeline(s.messages, f)
  {
    var i := M.ShownAt(s.messages, id);
    if i >= 0 && s.messages[i].Streaming? { TimelineShow(s.messages, i, s.messages[i].(msg := msg), f); }
  }

  lemma PushCount(s: M.State, g: Frame, id: string, f: Frame)
    ensures InTimeline(M.PushFrame(s, g, id).messages, f) == InTimeline(s.messages, f) + Tally(g == f)
  {
    TimelinePush(s.messages, M.FrameEntry(id, g, s.counter), f);
  }

  lemma IngestCount(s: M.State, g: Frame, id: string, parse: M.Parser, f: Frame)
    requires M.Consumes(g)
    ensures InTimeline(M.IngestFrame(s, g, id, parse).messages, f) == InTimeline(s.messages, f) + Tally(g.body.Assistant? && g == f)
  {
    hide M.Update, M.Assemble, InTimeline;
    if g.body.StreamEventBody? {
      var ev := g.body.event.value;
      if ev.MessageStart? {
        if ev.id != "" {
          TimelinePush(s.messages, M.Streaming(ev.id, M.InFlight(ev.id, ev.model, map[], false, s.counter), s.counter), f);
        }
      } else if !ev.OtherEvent? && s.active.Some? && s.active.value in s.streaming {
        UpdateCount(s, s.active.value, M.Assemble(s.streaming[s.active.value], ev, parse), f);
      }
    } else {
      var mid := g.body.messageId;
      TimelineWithout(s.messages, mid, f);
      PushCount(if mid in s.streaming then M.Drop(s, mid) else s, g, id, f);
    }
  }

  lemma LandedCount(m: M.State, g: Frame, followUp: Option<string>, env: Env, shell: S.State, cfg: Config, f: Frame)
    requires IsConversation(g)
    ensures InTimeline(Landed(Announced(m, followUp, env.localId), g, env.id, cfg.parse).messages, f)
         == InTimeline(m.messages, f) + Tally(g == f && Home(g, shell, cfg) == Some(MainTimeline))
  {
    hide M.IngestFrame, M.PushFrame, InTimeline;
    var m' := Announced(m, followUp, env.localId);
    if followUp.Some? { TimelinePush(m.messages, M.LocalUser(env.localId, followUp.value, m.counter), f); }
    if !HasParent(g) {
      if M.Consumes(g) { IngestCount(m', g, env.id, cfg.parse, f); } else { PushCount(m', g, env.id, f); }
    }
  }

  lemma {:induction false} HooksSuffix(hooks: seq<HookEntry>, e: HookEntry, f: Frame)
    ensures InHooks(hooks + [e], f) == InHooks(hooks, f) + Tally(e.frame == f)
  {
    if hooks == [] {
      assert hooks + [e] == [e] && [e][1..] == [];
    } else {
      assert (hooks + [e])[1..] == hooks[1..] + [e];
      HooksSuffix(hooks[1..], e, f);
    }
  }

  lemma {:induction false} HooksDrop(hooks: seq<HookEntry>, k: nat, f: Frame)
    requires k <= |hooks|
    ensures InHooks(hooks[..k], f) + InHooks(hooks[k..], f) == InHooks(hooks, f)
    decreases k
  {
    if k > 0 {
      HooksDrop(hooks, k - 1, f);
      assert hooks[..k] == hooks[..k - 1] + [hooks[k - 1]] && hooks[k - 1..][1..] == hooks[k..];
      HooksSuffix(hooks[..k - 1], hooks[k - 1], f);
    } else {
      assert hooks[0..] == hooks && hooks[..0] == [];
    }
  }

  lemma {:induction false} QueueAppend(permissions: seq<Permission>, p: Permission, f: Frame)
    ensures InQueue(permissions + [p], f) == InQueue(permissions, f) + Tally(p.frame == f)
  {
    if permissions == [] {
      assert permissions + [p] == [p] && [p][1..] == [];
    } else {
      assert (permissions + [p])[1..] == permissions[1..] + [p];
      QueueAppend(permissions[1..], p, f);
    }
  }

  lemma {:induction false} QueueFilter(permissions: seq<Permission>, id: string, f: Frame)
    ensures InQueue(Filter(permissions, (p: Permission) => p.id != id), f) <= InQueue(permissions, f)
  {
    if permissions != [] { QueueFilter(permissions[1..], id, f); }
  }

  /** Copies of f that a task event lets go of: expired orphans and transcripts of evicted tasks. */
  ghost function TaskLosses(s: T.State, e: T.Event, cfg: Config, f: Frame): nat {
    var l := T.Record(s, T.Ledger(0, 0, 0, 0), e, cfg.taskCap, cfg.orphanTtl, f);
    l.expired + l.evicted
  }

  lemma TasksCount(s: T.State, e: T.Event, cfg: Config, f: Frame)
    requires !e.Cleared?
    ensures InTasks(T.Step(s, e, cfg.taskCap, cfg.orphanTtl), f) + TaskLosses(s, e, cfg, f)
         == InTasks(s, f) + Tally(e.FrameArrives? && HasParent(e.frame) && e.frame == f)
  {
    hide T.Step, T.InTranscripts, T.InBuffers;
    T.StepConserves(s, T.Ledger(InTasks(s, f), 0, 0, 0), e, cfg.taskCap, cfg.orphanTtl, f);
  }

  /** Copies of f that an inbound frame makes the task store let go of. */
  ghost function StoreLosses(s: T.State, g: Frame, env: Env, cfg: Config, f: Frame): nat {
    var es := TaskEvents(g, env);
    if es == [] then 0 else TaskLosses(s, es[0], cfg, f)
  }

  /** The hook entries that a frame pushes out of the ring. */
  function PushedOut(hooks: seq<HookEntry>, g: Frame, env: Env, cap: nat): seq<HookEntry> {
    var all := hooks + [HookEntry(env.id, env.at, g)];
    if IsHook(g) && |all| > cap then all[..|all| - cap] else []
  }

  /**
   Each inbound frame is added to its home and nowhere else. What is in the timeline or the queue stays; the hook ring
   lets go of its oldest entries beyond its bound, the task store of expired frames and evicted tasks.
   */
  lemma OneHome(s: State, g: Frame, env: Env, cfg: Config, f: Frame)
    ensures var t, home := Applied(s, g, env, cfg), Home(g, s.shell, cfg);
      && InTimeline(t.messages.messages, f) == InTimeline(s.messages.messages, f) + Tally(g == f && home == Some(MainTimeline))
      && InQueue(t.permissions, f) == InQueue(s.permissions, f) + Tally(g == f && home == Some(PermissionQueue))
      && InHooks(t.hooks, f) + InHooks(PushedOut(s.hooks, g, env, cfg.hookCap), f)
         == InHooks(s.hooks, f) + Tally(g == f && home == Some(HookRing))
      && InTasks(t.tasks, f) + StoreLosses(s.tasks, g, env, cfg, f)
         == InTasks(s.tasks, f) + Tally(g == f && home == Some(TaskStore))
  {
    hide Applied, Landed, Announced, InTimeline, InQueue, InHooks, InTasks, T.Step, M.PushFrame, TaskLosses;
    ApplyHooks(s.hooks, g, env, cfg, f);
    if g.body.System? {
      AppliedSystem(s, g, env, cfg);
      if !Diverted(g, s.shell) { PushCount(s.messages, g, env.id, f); }
      if g.body.payload.TaskLifecycle? {
        TasksCount(s.tasks, T.TaskArrives(g.body.payload.event, env.at, env.flushAt), cfg, f);
        TaskArrivalIs(s.tasks, g.body.payload.event, env, cfg);
      }
    } else if IsConversation(g) {
      AppliedConversation(s, g, env, cfg);
      LandedCount(s.messages, g, S.FollowUpFor(s.shell, g), env, s.shell, cfg, f);
      TasksCount(s.tasks, T.FrameArrives(g, env.at), cfg, f);
      FrameArrivalIs(s.tasks, g, env, cfg);
    } else {
      AppliedControl(s, g, env, cfg);
      QueueAppend(s.permissions, Permission(if g.body.ControlRequest? then g.body.requestId else "", g), f);
    }
  }

  lemma SniffedStores(s: State, g: Frame, env: Env, f: Frame)
    ensures var t := Sniffed(s, g, env);
      && InTimeline(t.messages.messages, f) == InTimeline(s.messages.messages, f)
      && t.permissions == s.permissions && t.hooks == s.hooks && t.tasks == s.tasks
  {
    hide InTimeline, S.FollowUpFor, S.Replay;
    var followUp := S.FollowUpFor(s.shell, g);
    if followUp.Some? { TimelinePush(s.messages.messages, M.LocalUser(env.localId, followUp.value, s.messages.counter), f); }
  }

  /** What arrives inside a follow-up's send changes nothing about that: routed after it, the frame has the same one home. */
  lemma RoutedHome(s: State, g: Frame, env: Env, cfg: Config, f: Frame)
    ensures var t, home := Routed(s, g, env, cfg), Home(g, s.shell, cfg);
      && InTimeline(t.messages.messages, f)
         == InTimeline(s.messages.messages, f) + Tally(IsConversation(g) && g == f && home == Some(MainTimeline))
      && t.permissions == s.permissions && t.hooks == s.hooks
      && InTasks(t.tasks, f) + (if IsConversation(g) then StoreLosses(s.tasks, g, env, cfg, f) else 0)
         == InTasks(s.tasks, f) + Tally(IsConversation(g) && g == f && home == Some(TaskStore))
  {
    hide Landed, InTimeline, InTasks, T.Step, TaskLosses, T.FrameStep;
    if IsConversation(g) {
      LandedCount(s.messages, g, None, env, s.shell, cfg, f);
      TasksCount(s.tasks, T.FrameArrives(g, env.at), cfg, f);
      FrameArrivalIs(s.tasks, g, env, cfg);
    }
  }

  lemma ApplyHooks(hooks: seq<HookEntry>, g: Frame, env: Env, cfg: Config, f: Frame)
    ensures InHooks(Hooked(hooks, g, env, cfg.hookCap), f) + InHooks(PushedOut(hooks, g, env, cfg.hookCap), f)
         == InHooks(hooks, f) + Tally(g == f && IsHook(g))
    ensures !IsHook(g) ==> Hooked(hooks, g, env, cfg.hookCap) == hooks && PushedOut(hooks, g, env, cfg.hookCap) == []
  {
    var all := hooks + [HookEntry(env.id, env.at, g)];
    HooksSuffix(hooks, HookEntry(env.id, env.at, g), f);
    if |all| > cfg.hookCap { HooksDrop(all, |all| - cfg.hookCap, f); }
  }

  lemma TaskArrivalIs(s: T.State, ev: TaskEvent, env: Env, cfg: Config)
    ensures T.Step(s, T.TaskArrives(ev, env.at, env.flushAt), cfg.taskCap, cfg.orphanTtl)
         == T.TaskStep(s, ev, env.at, env.flushAt, cfg.taskCap)
  {
  }

  lemma FrameArrivalIs(s: T.State, g: Frame, env: Env, cfg: Config)
    ensures T.Step(s, T.FrameArrives(g, env.at), cfg.taskCap, cfg.orphanTtl)
         == if HasParent(g) then T.FrameStep(s, g, env.at, cfg.orphanTtl) else s
  {
  }

  lemma AppliedControl(s: State, g: Frame, env: Env, cfg: Config)
    requires !g.body.System? && !IsConversation(g)
    ensures var t := Applied(s, g, env, cfg);
      t.messages == s.messages && t.tasks == s.tasks && t.shell == s.shell && t.hooks == s.hooks
      && t.permissions == Queued(s.permissions, g, cfg.hasCallback)
  {
    MessageEvents(s.messages, g, "", env, cfg.parse);
    OneTaskEvent(s.tasks, T.Cleared, cfg);
    OneShellEvent(s.shell, S.UserSends(""));
  }

  ghost function Stored(s: State, f: Frame): nat {
    InTimeline(s.messages.messages, f) + InQueue(s.permissions, f) + InHooks(s.hooks, f) + InTasks(s.tasks, f)
  }

  /** How often an event brings the frame in: as an arrival, or in a restored timeline. */
  function Brought(e: Event, f: Frame): nat {
    match e
    case Inbound(g, _) => Tally(g == f)
    case FrameRouted(g, _) => Tally(g == f)
    case Restored(entries) => InTimeline(M.Persisted(entries), f)
    case _ => 0
  }

  function BroughtBy(events: seq<Event>, f: Frame): nat {
    if events == [] then 0 else BroughtBy(events[..|events| - 1], f) + Brought(events[|events| - 1], f)
  }

  lemma StepStores(s: State, e: Event, cfg: Config, f: Frame)
    ensures Stored(Step(s, e, cfg), f) <= Stored(s, f) + Brought(e, f)
  {
    hide Applied, InTimeline, InQueue, InHooks, InTasks, S.SendUser, S.Issue, S.Record, S.Dismiss;
    match e
    case Inbound(g, env) => OneHome(s, g, env, cfg, f);
    case FrameSniffed(g, env) => SniffedStores(s, g, env, f);
    case FrameRouted(g, env) => RoutedHome(s, g, env, cfg, f);
    case UserSends(text, id) => TimelinePush(s.messages.messages, M.LocalUser(id, text, s.messages.counter), f);
    case Respond(id) => QueueFilter(s.permissions, id, f);
    case Reset => NothingKept(f);
    case QueueCleared => NothingKept(f);
    case _ =>
  }

  lemma NothingKept(f: Frame)
    ensures InTimeline([], f) == InQueue([], f) == InHooks([], f) == InTasks(T.EMPTY, f) == 0
  {
  }

  /**
   Over every run the copies of a frame in all five places together are no more than its arrivals: a frame that arrives
   once, and is in no restored timeline, is kept in at most one of them.
   */
  lemma {:induction false} StoredAtMostOnce(events: seq<Event>, cfg: Config, f: Frame)
    ensures Stored(Run(events, cfg), f) <= BroughtBy(events, f)
  {
    hide Step, Stored, Brought;
    if events == [] {
      assert Stored(EMPTY, f) == 0 by { EmptyStores(f); }
    } else {
      StoredAtMostOnce(events[..|events| - 1], cfg, f);
      StepStores(Run(events[..|events| - 1], cfg), events[|events| - 1], cfg, f);
    }
  }

  lemma EmptyStores(f: Frame)
    ensures Stored(EMPTY, f) == 0
  {
  }

  // ---------- no sub-agent frame in the main timeline ----------

  ghost predicate NoSubAgents(messages: seq<M.Entry>) {
    forall e :: e in messages && e.FrameEntry? && HasParent(e.frame) ==> e.frame.body.System?
  }

  lemma UpdateAddsNothing(s: M.State, id: string, msg: M.InFlight)
    requires NoSubAgents(s.messages)
    ensures NoSubAgents(M.Update(s, id, msg).messages)
  {
    var t := M.Update(s, id, msg);
    forall e | e in t.messages && e.FrameEntry? ensures e in s.messages {
      var j :| 0 <= j < |t.messages| && t.messages[j] == e;
      assert s.messages[j] in s.messages;
    }
  }

  lemma LandedAddsNoSubAgent(m: M.State, g: Frame, followUp: Option<string>, env: Env, parse: M.Parser)
    requires NoSubAgents(m.messages)
    ensures NoSubAgents(Landed(Announced(m, followUp, env.localId), g, env.id, parse).messages)
  {
    hide M.Update, M.Assemble;
    var m' := Announced(m, followUp, env.localId);
    if !HasParent(g) && M.Consumes(g) && g.body.StreamEventBody? {
      var ev := g.body.event.value;
      if !ev.MessageStart? && !ev.OtherEvent? && m'.active.Some? && m'.active.value in m'.streaming {
        UpdateAddsNothing(m', m'.active.value, M.Assemble(m'.streaming[m'.active.value], ev, parse));
      }
    }
  }

  /** Each step keeps sub-agent frames out, except a restore of entries that hold one. */
  lemma StepKeepsSubAgentsOutIff(s: State, e: Event, cfg: Config)
    requires NoSubAgents(s.messages.messages)
    ensures NoSubAgents(Step(s, e, cfg).messages.messages) <==> (e.Restored? ==> NoSubAgents(M.Persisted(e.entries)))
  {
    hide Applied, Landed, T.Step, T.FrameStep, S.SendUser, S.Replay, S.FollowUpFor;
    if e.Inbound? {
      var g, env := e.frame, e.env;
      if g.body.System? {
        AppliedSystem(s, g, env, cfg);
      } else if IsConversation(g) {
        AppliedConversation(s, g, env, cfg);
        LandedAddsNoSubAgent(s.messages, g, S.FollowUpFor(s.shell, g), env, cfg.parse);
      } else {
        AppliedControl(s, g, env, cfg);
      }
    }
    if e.FrameRouted? { LandedAddsNoSubAgent(s.messages, e.frame, None, e.env, cfg.parse); }
    if e.FrameSniffed? { AnnouncedAddsNoFrame(s.messages, S.FollowUpFor(s.shell, e.frame), e.env.localId); }
  }

  lemma AnnouncedAddsNoFrame(m: M.State, followUp: Option<string>, id: string)
    ensures NoSubAgents(Announced(m, followUp, id).messages) <==> NoSubAgents(m.messages)
  {
    if followUp.Some? { assert forall e :: e in m.messages ==> e in Announced(m, followUp, id).messages; }
  }

  ghost predicate CleanRestores(events: seq<Event>) {
    forall e :: e in events && e.Restored? ==> NoSubAgents(M.Persisted(e.entries))
  }

  /** Given restored entries without sub-agent frames, no reachable timeline has one; what the classifier relies on. */
  lemma {:induction false} RunKeepsSubAgentsOut(events: seq<Event>, cfg: Config)
    requires CleanRestores(events)
    ensures NoSubAgents(Run(events, cfg).messages.messages)
  {
    hide Step, NoSubAgents;
    if events == [] {
      assert NoSubAgents(EMPTY.messages.messages) by { NoneInEmpty(); }
    } else {
      RunKeepsSubAgentsOut(events[..|events| - 1], cfg);
      StepKeepsSubAgentsOutIff(Run(events[..|events| - 1], cfg), events[|events| - 1], cfg);
    }
  }

  lemma NoneInEmpty()
    ensures NoSubAgents(EMPTY.messages.messages)
  {
  }

  /** What is saved from such a timeline may be restored. */
  lemma SavedIsClean(messages: seq<M.Entry>, maxMessages: int)
    requires NoSubAgents(messages)
    ensures NoSubAgents(M.Persisted(P.Saved(messages, maxMessages)))
  {
  }

  // ---------- the parts' invariants in the whole system ----------

  /** The sub-agent frames among the arrivals. */
  function SubAgentArrivals(events: seq<Event>, f: Frame): nat {
    if events == [] then 0
    else
      var e := events[|events| - 1];
      SubAgentArrivals(events[..|events| - 1], f)
      + Tally((e.Inbound? || e.FrameRouted?) && e.frame == f && IsConversation(f) && HasParent(f))
  }

  lemma {:induction false} ArrivalsExtend(a: seq<T.Event>, b: seq<T.Event>, f: Frame)
    ensures T.Arrivals(a + b, f) == T.Arrivals(a, f) + T.Arrivals(b, f)
    decreases |b|
  {
    if b == [] {
      assert a + b == a;
    } else {
      assert (a + b)[..|a + b| - 1] == a + b[..|b| - 1];
      ArrivalsExtend(a, b[..|b| - 1], f);
    }
  }

  lemma ArrivalsOne(e: Event, f: Frame)
    ensures T.Arrivals(TasksOf(e), f) == Tally((e.Inbound? || e.FrameRouted?) && e.frame == f && IsConversation(f) && HasParent(f))
  {
    var es := TasksOf(e);
    if |es| == 1 { assert es[..0] == []; }
  }

  lemma {:induction false} ArrivalsMatch(events: seq<Event>, f: Frame)
    ensures T.Arrivals(TasksRun(events), f) == SubAgentArrivals(events, f)
  {
    hide TasksOf;
    if events != [] {
      var before, e := events[..|events| - 1], events[|events| - 1];
      ArrivalsMatch(before, f);
      ArrivalsExtend(TasksRun(before), TasksOf(e), f);
      ArrivalsOne(e, f);
    }
  }

  /**
   In the whole system, whatever else happens in between: the task table keeps its invariants, and every sub-agent frame
   that arrived is in a transcript or a buffer, or was expired, evicted or cleared.
   */
  lemma SubAgentFramesAreConserved(events: seq<Event>, cfg: Config, f: Frame)
    ensures T.Inv(Run(events, cfg).tasks, cfg.taskCap)
    ensures var l := T.RunLedger(TasksRun(events), cfg.taskCap, cfg.orphanTtl, f);
      SubAgentArrivals(events, f) == InTasks(Run(events, cfg).tasks, f) + l.expired + l.evicted + l.cleared
  {
    hide T.Inv, Run, T.Run, T.InTranscripts, T.InBuffers;
    RunProjects(events, cfg);
    T.RunKeepsInv(TasksRun(events), cfg.taskCap, cfg.orphanTtl);
    T.FramesAreConserved(TasksRun(events), cfg.taskCap, cfg.orphanTtl, f);
    T.AcceptedAreArrivals(TasksRun(events), cfg.taskCap, cfg.orphanTtl, f);
    ArrivalsMatch(events, f);
  }

  /** In the whole system the timeline is numbered in arrival order and mirrors the stream records. */
  lemma TimelineIsSound(events: seq<Event>, cfg: Config)
    requires M.OrderedRestores(TimelineRun(events, cfg)) && M.FreshStarts(TimelineRun(events, cfg), cfg.parse)
    ensures M.Numbered(Run(events, cfg).messages) && M.Mirrors(Run(events, cfg).messages)
  {
    hide M.Numbered, M.Mirrors, Run, M.Run, M.FreshStarts, M.OrderedRestores;
    RunProjects(events, cfg);
    M.RunNumbered(TimelineRun(events, cfg), cfg.parse);
    M.RunMirrors(TimelineRun(events, cfg), cfg.parse);
  }

  /** In the whole system, resets included, shell exchanges are delivered, discarded or pending exactly once, in issue order. */
  lemma ExchangesDeliveredOnce(events: seq<Event>, cfg: Config)
    ensures var s, run := Run(events, cfg).shell, ShellRun(events);
      var h := H.HistoryOf(run);
      && H.ValidHistory(h)
      && H.Batches(h.fates) + s.exchanges == H.Exchanges(h.issues, h.answers)
      && H.Payloads(s.outbox) == H.Composed(h.fates)
      && H.Waits(s.captures, h.issues[h.taken..])
  {
    hide Run, S.Run, H.HistoryOf, H.Exchanges, H.Batches, H.Payloads, H.Composed, H.AnsweredContext;
    RunProjects(events, cfg);
    H.DeliveredExactlyOnce(ShellRun(events));
  }

  /**
   In the whole system, whatever replies are lost: all go to their own commands if and only if none comes out of turn,
   and then no exchange, carried, discarded or pending, holds another command's output.
   */
  lemma ExchangesAreTheirOwn(events: seq<Event>, cfg: Config, owners: N.Owners)
    requires N.Owned(ShellRun(events), owners)
    ensures N.RightFor(ShellRun(events), owners) <==> !N.Disturbed(ShellRun(events), owners)
    ensures !N.Disturbed(ShellRun(events), owners) ==>
      forall x :: x in H.Batches(H.Fates(ShellRun(events))) + Run(events, cfg).shell.exchanges ==>
        exists k :: N.OwnExchange(ShellRun(events), owners, k, x)
  {
    hide Run, ShellRun, S.Run, H.Batches, H.Fates, H.Arrivals, N.Owned, N.Disturbed, N.RightFor, N.OwnExchange;
    var run := ShellRun(events);
    RunProjects(events, cfg);
    N.OwnersFit(run, owners);
    N.AttributionRightIff(run, owners);
    if !N.Disturbed(run, owners) { N.MessagesCarryTheirOwn(run, owners); }
  }
}
