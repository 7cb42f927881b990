/**
 The session model (packages/protocol/src/client/state.ts): where each inbound frame goes, over the timeline, the
 tasks, the shell, the hook ring (hooks.ts) and the permission queue (permissions.ts).
 */
module StateRouting {
  import opened Prelude
  import opened Frames
  import M = Messages
  import T = Tasks
  import S = Shell

  datatype Config = Config(parse: M.Parser, taskCap: int, orphanTtl: int, hookCap: nat, hasCallback: bool)

  datatype HookEntry = HookEntry(id: string, ts: int, frame: Frame)

  datatype Permission = Permission(id: string, frame: Frame)

  datatype Session = Unknown | Idle | Busy | RequiresAction | Ended

  datatype State = State(messages: M.State, tasks: T.State, shell: S.State, hooks: seq<HookEntry>,
                         permissions: seq<Permission>, session: Session, initSeen: bool)

  const EMPTY := State(M.EMPTY, T.EMPTY, S.EMPTY, [], [], Unknown, false)

  /** What one call reads from the clock, twice if a flush follows, and from the id factory. */
  datatype Env = Env(at: int, flushAt: int, localId: string, id: string)

  // ---------- what each aggregator sees of a frame ----------

  predicate IsConversation(f: Frame) {
    !f.body.System? && !f.body.ControlResponse? && !f.body.ControlRequest?
  }

  predicate IsPermissionRequest(f: Frame) {
    f.body.ControlRequest? && f.body.subtype == "can_use_tool"
  }

  predicate IsHook(f: Frame) {
    f.body.System? && f.body.payload.Hook?
  }

  /** The system frames that other aggregators consume; local command output only while a command is captured. */
  predicate Diverted(f: Frame, shell: S.State)
    requires f.body.System?
  {
    match f.body.payload
    case SessionStateChanged(_) => true
    case Hook(_) => true
    case TaskLifecycle(_) => true
    case LocalCommandOutput(_) => shell.captures != []
    case _ => false
  }

  /** The local message of the follow-up that a conversation frame releases. */
  function AnnounceEvents(f: Frame, shell: S.State, env: Env): seq<M.Event> {
    var followUp := S.FollowUpFor(shell, f);
    if followUp.Some? then [M.PushLocalUser(followUp.value, env.localId)] else []
  }

  /** The conversation frame itself. */
  function LandEvents(f: Frame, env: Env): seq<M.Event> {
    if HasParent(f) then []
    else if M.Consumes(f) then [M.Arrive(f, env.id)]
    else if f.body.RateLimit? then [] else [M.Push(f, env.id)]
  }

  function TimelineEvents(f: Frame, shell: S.State, env: Env): seq<M.Event> {
    if f.body.System? then if Diverted(f, shell) then [] else [M.Push(f, env.id)]
    else if !IsConversation(f) then []
    else AnnounceEvents(f, shell, env) + LandEvents(f, env)
  }

  function TaskEvents(f: Frame, env: Env): seq<T.Event> {
    if f.body.System? && f.body.payload.TaskLifecycle? then [T.TaskArrives(f.body.payload.event, env.at, env.flushAt)]
    else if IsConversation(f) && HasParent(f) then [T.FrameArrives(f, env.at)]
    else []
  }

  function ShellEvents(f: Frame): seq<S.Event> {
    if f.body.System? && f.body.payload.LocalCommandOutput? then [S.LocalOutputArrived(ValueOr(f.body.payload.content, ""))]
    else if IsConversation(f) then [S.Arrived(f)]
    else []
  }

  /** Array of at most `cap` entries: the last ones. */
  function CapRing<A>(s: seq<A>, cap: nat): seq<A> {
    if |s| > cap then s[|s| - cap..] else s
  }

  function Hooked(hooks: seq<HookEntry>, f: Frame, env: Env, cap: nat): seq<HookEntry> {
    if IsHook(f) then CapRing(hooks + [HookEntry(env.id, env.at, f)], cap) else hooks
  }

  function Queued(permissions: seq<Permission>, f: Frame, hasCallback: bool): seq<Permission> {
    if IsPermissionRequest(f) && !hasCallback then permissions + [Permission(f.body.requestId, f)] else permissions
  }

  function SessionAfter(s: State, f: Frame): Session {
    if IsPermissionRequest(f) then RequiresAction
    else if !f.body.System? then s.session
    else
      match f.body.payload
      case Init => if s.initSeen then s.session else Busy
      case SessionStateChanged(state) =>
        if state == "idle" then Idle else if state == "running" then Busy
        else if state == "requires_action" then RequiresAction else s.session
      case _ => s.session
  }

  function RunTasks(s: T.State, events: seq<T.Event>, cfg: Config): T.State {
    if events == [] then s else T.Step(RunTasks(s, events[..|events| - 1], cfg), events[|events| - 1], cfg.taskCap, cfg.orphanTtl)
  }

  /** The state after an inbound frame. */
  function Applied(s: State, f: Frame, env: Env, cfg: Config): State {
    State(M.RunFrom(s.messages, TimelineEvents(f, s.shell, env), cfg.parse), RunTasks(s.tasks, TaskEvents(f, env), cfg),
          S.RunFrom(s.shell, ShellEvents(f)), Hooked(s.hooks, f, env, cfg.hookCap),
          Queued(s.permissions, f, cfg.hasCallback), SessionAfter(s, f),
          s.initSeen || (f.body.System? && f.body.payload.Init?))
  }

  /** The first part of handling a conversation frame: the shell sees it, and a follow-up is sent. */
  function Sniffed(s: State, f: Frame, env: Env): State {
    if !IsConversation(f) then s
    else s.(messages := Announced(s.messages, S.FollowUpFor(s.shell, f), env.localId), shell := S.Replay(s.shell, f))
  }

  /** The second part, after that send has returned: the frame goes to the tasks or the timeline. */
  function Routed(s: State, f: Frame, env: Env, cfg: Config): State {
    if !IsConversation(f) then s
    else s.(messages := Landed(s.messages, f, env.id, cfg.parse),
            tasks := if HasParent(f) then T.FrameStep(s.tasks, f, env.at, cfg.orphanTtl) else s.tasks)
  }

  function UserSent(s: State, text: string, id: string): State {
    if S.Sends(s.shell, text) then s.(messages := M.PushLocal(s.messages, text, id), shell := S.SendUser(s.shell, text)) else s
  }

  function Answered(s: State, id: string): State {
    var left := Filter(s.permissions, (p: Permission) => p.id != id);
    s.(permissions := left, session := if left == [] && s.session.RequiresAction? then Busy else s.session)
  }

  function TimelineReset(s: State): State {
    State(M.Cleared(s.messages), T.EMPTY, S.Cleared(s.shell), [], s.permissions, s.session, false)
  }

  /** An aggregator claimed the frame. */
  predicate Claimed(f: Frame) {
    && !f.body.ControlResponse? && (f.body.ControlRequest? ==> IsPermissionRequest(f))
    && (f.body.RateLimit? ==> HasParent(f))
  }

  // ---------- a frame's effect in closed form ----------

  lemma MessageEvents(s: M.State, f: Frame, text: string, env: Env, parse: M.Parser)
    ensures M.RunFrom(s, [], parse) == s
    ensures M.RunFrom(s, [M.Push(f, env.id)], parse) == M.PushFrame(s, f, env.id)
    ensures M.RunFrom(s, [M.Arrive(f, env.id)], parse) == M.IngestFrame(s, f, env.id, parse)
    ensures M.RunFrom(s, [M.PushLocalUser(text, env.localId)], parse) == M.PushLocal(s, text, env.localId)
  {
    hide M.PushFrame, M.IngestFrame, M.PushLocal;
    assert [M.Push(f, env.id)][..0] == [] && [M.Arrive(f, env.id)][..0] == [] && [M.PushLocalUser(text, env.localId)][..0] == [];
  }

  lemma SecondEvent(s: M.State, e: M.Event, e': M.Event, parse: M.Parser)
    ensures M.RunFrom(s, [e] + [e'], parse) == M.RunFrom(M.RunFrom(s, [e], parse), [e'], parse)
  {
    hide M.Step;
    var two, mid := [e] + [e'], M.RunFrom(s, [e], parse);
    assert two[..1] == [e] && two[1] == e' && [e'][..0] == [];
    assert M.RunFrom(mid, [], parse) == mid;
    assert M.RunFrom(mid, [e'], parse) == M.Step(mid, e', parse);
  }

  function Announced(m: M.State, followUp: Option<string>, localId: string): M.State {
    if followUp.Some? then M.PushLocal(m, followUp.value, localId) else m
  }

  function Landed(m: M.State, f: Frame, id: string, parse: M.Parser): M.State {
    if HasParent(f) || (f.body.RateLimit? && !M.Consumes(f)) then m
    else if M.Consumes(f) then M.IngestFrame(m, f, id, parse) else M.PushFrame(m, f, id)
  }

  lemma ConversationMessages(m: M.State, f: Frame, shell: S.State, env: Env, parse: M.Parser)
    requires IsConversation(f)
    ensures M.RunFrom(m, TimelineEvents(f, shell, env), parse)
         == Landed(Announced(m, S.FollowUpFor(shell, f), env.localId), f, env.id, parse)
  {
    hide M.RunFrom, M.PushFrame, M.IngestFrame, M.PushLocal, S.FollowUpFor, M.Consumes;
    var followUp := S.FollowUpFor(shell, f);
    MessageEvents(m, f, "", env, parse);
    if followUp.Some? {
      var e := M.PushLocalUser(followUp.value, env.localId);
      MessageEvents(m, f, followUp.value, env, parse);
      MessageEvents(Announced(m, followUp, env.localId), f, "", env, parse);
      SecondEvent(m, e, M.Push(f, env.id), parse);
      SecondEvent(m, e, M.Arrive(f, env.id), parse);
      assert [e] + [] == [e];
    } else {
      var none: seq<M.Event> := [];
      assert none + none == none;
      assert [] + [M.Push(f, env.id)] == [M.Push(f, env.id)] && [] + [M.Arrive(f, env.id)] == [M.Arrive(f, env.id)];
    }
  }

  lemma OneTaskEvent(s: T.State, e: T.Event, cfg: Config)
    ensures RunTasks(s, [], cfg) == s && RunTasks(s, [e], cfg) == T.Step(s, e, cfg.taskCap, cfg.orphanTtl)
  {
    assert [e][..0] == [];
  }

  lemma OneShellEvent(s: S.State, e: S.Event)
    ensures S.RunFrom(s, []) == s && S.RunFrom(s, [e]) == S.Step(s, e)
  {
    assert [e][..0] == [];
  }

  lemma AppliedConversation(s: State, f: Frame, env: Env, cfg: Config)
    requires IsConversation(f)
    ensures Applied(s, f, env, cfg) ==
      s.(messages := Landed(Announced(s.messages, S.FollowUpFor(s.shell, f), env.localId), f, env.id, cfg.parse),
         tasks := if HasParent(f) then T.FrameStep(s.tasks, f, env.at, cfg.orphanTtl) else s.tasks,
         shell := S.Replay(s.shell, f))
    ensures Applied(s, f, env, cfg) == Routed(Sniffed(s, f, env), f, env, cfg)
  {
    hide M.RunFrom, TimelineEvents, Landed, Announced, T.FrameStep, S.Replay, S.FollowUpFor;
    ConversationMessages(s.messages, f, s.shell, env, cfg.parse);
    OneTaskEvent(s.tasks, T.FrameArrives(f, env.at), cfg);
    OneShellEvent(s.shell, S.Arrived(f));
  }

  lemma AppliedSystem(s: State, f: Frame, env: Env, cfg: Config)
    requires f.body.System?
    ensures var t, p := Applied(s, f, env, cfg), f.body.payload;
      && t.messages == (if Diverted(f, s.shell) then s.messages else M.PushFrame(s.messages, f, env.id))
      && t.tasks == (if p.TaskLifecycle? then T.TaskStep(s.tasks, p.event, env.at, env.flushAt, cfg.taskCap) else s.tasks)
      && t.shell == (if p.LocalCommandOutput? then S.LocalOutput(s.shell, ValueOr(p.content, "")) else s.shell)
      && t.hooks == Hooked(s.hooks, f, env, cfg.hookCap) && t.permissions == s.permissions
      && t.session == SessionAfter(s, f) && t.initSeen == (s.initSeen || p.Init?)
  {
    hide T.TaskStep, S.LocalOutput, M.RunFrom, M.PushFrame, Diverted, Hooked;
    var p := f.body.payload;
    MessageEvents(s.messages, f, "", env, cfg.parse);
    OneTaskEvent(s.tasks, if p.TaskLifecycle? then T.TaskArrives(p.event, env.at, env.flushAt) else T.Cleared, cfg);
    OneShellEvent(s.shell, S.LocalOutputArrived(if p.LocalCommandOutput? then ValueOr(p.content, "") else ""));
  }

  // ---------- the holder ----------

  class StateHolder {
    const cfg: Config
    const messages: M.MessagesAggregator
    const tasks: T.TasksAggregator
    const shell: S.ShellClient
    var hookEvents: seq<HookEntry>
    var pendingPermissions: seq<Permission>
    var sessionState: Session
    var initSeen: bool

    ghost predicate Valid() {
      messages.parse == cfg.parse && tasks.cap == cfg.taskCap && tasks.orphanTtl == cfg.orphanTtl
    }

    function Model(): State
      reads this, messages, tasks, shell
    {
      State(messages.Model(), tasks.Model(), shell.Model(), hookEvents, pendingPermissions, sessionState, initSeen)
    }

    constructor (cfg: Config)
      ensures this.cfg == cfg && Valid() && Model() == EMPTY
      ensures fresh(messages) && fresh(tasks) && fresh(shell)
    {
      this.cfg := cfg;
      messages := new M.MessagesAggregator(cfg.parse);
      tasks := new T.TasksAggregator(cfg.taskCap, cfg.orphanTtl);
      shell := new S.ShellClient();
      hookEvents, pendingPermissions, sessionState, initSeen := [], [], Unknown, false;
    }

    method IngestHook(f: Frame, env: Env)
      requires IsHook(f)
      modifies this`hookEvents
      ensures hookEvents == Hooked(old(hookEvents), f, env, cfg.hookCap)
    {
      var all := hookEvents + [HookEntry(env.id, env.at, f)];
      hookEvents := if |all| > cfg.hookCap then all[|all| - cfg.hookCap..] else all;
    }

    method ApplySystem(f: Frame, env: Env) returns (claimed: bool)
      requires Valid() && f.body.System?
      modifies this, messages, tasks, shell
      ensures Model() == Applied(old(Model()), f, env, cfg) && claimed
    {
      hide Applied, T.TaskStep;
      AppliedSystem(Model(), f, env, cfg);
      match f.body.payload {
        case Init =>
          if initSeen {
            messages.Push(f, env.id);
            return true;
          }
          initSeen := true;
          sessionState := Busy;
          messages.Push(f, env.id);
          return true;
        case SessionStateChanged(state) =>
          if state == "idle" || state == "running" || state == "requires_action" {
            sessionState := if state == "idle" then Idle else if state == "running" then Busy else RequiresAction;
          }
          return true;
        case Hook(_) =>
          IngestHook(f, env);
          return true;
        case TaskLifecycle(ev) =>
          var _ := tasks.HandleTaskEvent(ev, env.at, env.flushAt);
          return true;
        case LocalCommandOutput(content) =>
          var handled := shell.HandleLocalCommandOutput(content);
          if handled {
            return true;
          }
        case _ =>
      }
      messages.Push(f, env.id);
      return true;
    }

    method ApplyInbound(f: Frame, env: Env) returns (claimed: bool)
      requires Valid()
      modifies this, messages, tasks, shell
      ensures Model() == Applied(old(Model()), f, env, cfg)
      ensures claimed == Claimed(f)
    {
      hide M.Step, T.Step, S.Step;
      if f.body.System? {
        claimed := ApplySystem(f, env);
        return;
      }
      if f.body.ControlResponse? {
        return false;
      }
      if f.body.ControlRequest? && f.body.subtype == "can_use_tool" {
        sessionState := RequiresAction;
        if !cfg.hasCallback {
          pendingPermissions := pendingPermissions + [Permission(f.body.requestId, f)];
        }
        return true;
      }
      if f.body.ControlRequest? {
        return false;
      }
      claimed := ApplyConversation(f, env);
    }

    /** Also returns the follow-up it handed to send. */
    method Sniff(f: Frame, env: Env) returns (followUp: Option<string>)
      requires Valid() && IsConversation(f)
      modifies this, messages, shell
      ensures Model() == Sniffed(old(Model()), f, env)
      ensures followUp == S.FollowUpFor(old(Model()).shell, f)
    {
      hide S.FollowUpFor, S.Replay;
      followUp := shell.HandleShellReplay(f);
      if followUp.Some? {
        messages.PushLocalUser(followUp.value, env.localId);
      }
    }

    method Route(f: Frame, env: Env) returns (claimed: bool)
      requires Valid() && IsConversation(f)
      modifies this, messages, tasks
      ensures Model() == Routed(old(Model()), f, env, cfg)
      ensures claimed == Claimed(f)
    {
      hide T.FrameStep;
      var routed := tasks.HandleSubAgentFrame(f, env.at);
      if routed {
        return true;
      }
      if f.body.StreamEventBody? || f.body.Assistant? {
        var consumed := messages.Ingest(f, env.id);
        if consumed {
          return true;
        }
      }
      if f.body.RateLimit? {
        return false;
      }
      messages.Push(f, env.id);
      return true;
    }

    /** A conversation frame when nothing arrives inside the send of its follow-up. */
    method ApplyConversation(f: Frame, env: Env) returns (claimed: bool)
      requires Valid() && IsConversation(f)
      modifies this, messages, tasks, shell
      ensures Model() == Applied(old(Model()), f, env, cfg)
      ensures claimed == Claimed(f)
    {
      hide Applied, Sniffed, Routed;
      AppliedConversation(Model(), f, env, cfg);
      var _ := Sniff(f, env);
      claimed := Route(f, env);
    }

    /** The client's sendUserMessage, up to the call of transport.send. */
    method SendUserMessage(text: string, id: string)
      requires Valid()
      modifies this, messages, tasks, shell
      ensures Model() == UserSent(old(Model()), text, id)
    {
      if Trim(text) == "" && shell.pendingBashExchanges == [] {
        return;
      }
      shell.SendUserMessage(text);
      messages.PushLocalUser(text, id);
    }

    method RespondToPermission(id: string)
      requires Valid()
      modifies this
      ensures Model() == Answered(old(Model()), id)
    {
      if exists p :: p in pendingPermissions && p.id == id {
        pendingPermissions := Filter(pendingPermissions, (p: Permission) => p.id != id);
      } else {
        FilterAll(pendingPermissions, (p: Permission) => p.id != id);
      }
      if pendingPermissions == [] && sessionState == RequiresAction {
        sessionState := Busy;
      }
    }

    method ResetTimeline()
      requires Valid()
      modifies this, messages, tasks, shell
      ensures Model() == TimelineReset(old(Model()))
    {
      initSeen := false;
      messages.Reset();
      tasks.Reset();
      shell.Reset();
      hookEvents := [];
    }

    method HydrateMessages(entries: seq<M.Entry>)
      requires Valid()
      modifies messages
      ensures Model() == old(Model()).(messages := M.Hydrated(old(messages.Model()), entries))
    {
      messages.Hydrate(entries);
    }
  }
}
