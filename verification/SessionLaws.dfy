/** What each kind of frame and each call does to the session model (packages/protocol/src/client/state.ts), spelled out. */
module SessionLaws {
  import opened Prelude
  import opened Frames
  import opened StateRouting
  import opened SessionRuns

  function SystemFrame(p: SystemPayload, parent: Option<string>): Frame {
    Frame(System(p), parent)
  }

  /** Nothing but the session state may differ. */
  ghost predicate OnlySession(s: State, t: State) {
    t == s.(session := t.session)
  }

  /** The frame becomes the last entry of the timeline; of the rest only the session state may differ, and whether init was seen. */
  ghost predicate Pushed(s: State, t: State, f: Frame, id: string) {
    && t.messages.messages == s.messages.messages + [M.FrameEntry(id, f, s.messages.counter)]
    && t.messages.streaming == s.messages.streaming && t.messages.active == s.messages.active
    && t == s.(messages := t.messages, session := t.session, initSeen := t.initSeen)
  }

  // ---------- system frames ----------

  /** An announced state sets the session, if it is one of the three known, and changes nothing else. */
  lemma AnnouncedState(s: State, state: string, parent: Option<string>, env: Env, cfg: Config)
    ensures var t := Applied(s, SystemFrame(SessionStateChanged(state), parent), env, cfg);
      && OnlySession(s, t)
      && (state == "idle" ==> t.session == Idle)
      && (state == "running" ==> t.session == Busy)
      && (state == "requires_action" ==> t.session == RequiresAction)
      && (state != "idle" && state != "running" && state != "requires_action" ==> t.session == s.session)
  {
    hide Applied;
    AppliedSystem(s, SystemFrame(SessionStateChanged(state), parent), env, cfg);
  }

  /** The first init makes the session busy; a later one does not; both go to the timeline. */
  lemma InitSeen(s: State, parent: Option<string>, env: Env, cfg: Config)
    ensures var f := SystemFrame(Init, parent);
      var t := Applied(s, f, env, cfg);
      Pushed(s, t, f, env.id) && t.initSeen && t.session == if s.initSeen then s.session else Busy
  {
    hide Applied;
    AppliedSystem(s, SystemFrame(Init, parent), env, cfg);
  }

  /** Status and unknown system frames go to the timeline and change nothing else. */
  lemma OtherSystemFrames(s: State, p: SystemPayload, parent: Option<string>, env: Env, cfg: Config)
    requires p.Status? || p.OtherSystem?
    ensures var f := SystemFrame(p, parent);
      var t := Applied(s, f, env, cfg);
      Pushed(s, t, f, env.id) && t.session == s.session && t.initSeen == s.initSeen
  {
    hide Applied;
    AppliedSystem(s, SystemFrame(p, parent), env, cfg);
  }

  /** Captured output goes to the shell and not to the timeline, and with nothing to capture it the other way round. */
  lemma CapturedOutput(s: State, content: Option<string>, parent: Option<string>, env: Env, cfg: Config)
    ensures var f := SystemFrame(LocalCommandOutput(content), parent);
      var t := Applied(s, f, env, cfg);
      if s.shell.captures == [] then Pushed(s, t, f, env.id) && t.session == s.session && t.initSeen == s.initSeen
      else t == s.(shell := S.LocalOutput(s.shell, ValueOr(content, "")))
  {
    hide Applied;
    AppliedSystem(s, SystemFrame(LocalCommandOutput(content), parent), env, cfg);
  }

  /** A hook frame goes to the ring, the newest last, and the oldest leaves when the ring is full; nothing else changes. */
  lemma HookFrames(s: State, subtype: string, parent: Option<string>, env: Env, cfg: Config)
    ensures var f := SystemFrame(Hook(subtype), parent);
      var t := Applied(s, f, env, cfg);
      && t == s.(hooks := t.hooks)
      && (cfg.hookCap > 0 && |s.hooks| <= cfg.hookCap ==>
            t.hooks == (if |s.hooks| == cfg.hookCap then s.hooks[1..] else s.hooks) + [HookEntry(env.id, env.at, f)])
  {
    hide Applied;
    AppliedSystem(s, SystemFrame(Hook(subtype), parent), env, cfg);
  }

  /** A task event reaches the tasks, with both clock readings, and nothing else. */
  lemma TaskFrames(s: State, ev: TaskEvent, parent: Option<string>, env: Env, cfg: Config)
    ensures var t := Applied(s, SystemFrame(TaskLifecycle(ev), parent), env, cfg);
      t == s.(tasks := T.TaskStep(s.tasks, ev, env.at, env.flushAt, cfg.taskCap))
  {
    hide Applied, T.TaskStep;
    AppliedSystem(s, SystemFrame(TaskLifecycle(ev), parent), env, cfg);
  }

  // ---------- control frames ----------

  /** A request for permission makes the session wait and joins the queue, unless a callback answers it. */
  lemma PermissionRequested(s: State, requestId: string, parent: Option<string>, env: Env, cfg: Config)
    ensures var f := Frame(ControlRequest(requestId, "can_use_tool"), parent);
      Applied(s, f, env, cfg)
      == s.(session := RequiresAction,
            permissions := s.permissions + if cfg.hasCallback then [] else [Permission(requestId, f)])
  {
    hide Applied;
    var f := Frame(ControlRequest(requestId, "can_use_tool"), parent);
    ControlIs(s, f, env, cfg);
    assert s.permissions + [] == s.permissions;
  }

  lemma ControlIs(s: State, f: Frame, env: Env, cfg: Config)
    requires f.body.ControlRequest? || f.body.ControlResponse?
    ensures Applied(s, f, env, cfg) == s.(permissions := Queued(s.permissions, f, cfg.hasCallback), session := SessionAfter(s, f))
  {
    AppliedControl(s, f, env, cfg);
  }

  /** Other control requests, and all control responses, change nothing. */
  lemma OtherControlFrames(s: State, f: Frame, env: Env, cfg: Config)
    requires f.body.ControlResponse? || (f.body.ControlRequest? && f.body.subtype != "can_use_tool")
    ensures Applied(s, f, env, cfg) == s
  {
    hide Applied;
    ControlIs(s, f, env, cfg);
  }

  /** An answered request leaves the queue, the others stay in order, and with the last one the wait ends. */
  lemma PermissionAnswered(s: State, id: string)
    ensures var t := Answered(s, id);
      && t.permissions == Filter(s.permissions, (p: Permission) => p.id != id)
      && t == s.(permissions := t.permissions, session := t.session)
      && t.session == if t.permissions == [] && s.session == RequiresAction then Busy else s.session
  {
  }

  // ---------- conversation frames ----------

  /** A frame that names a parent goes to the tasks and not to the timeline, whatever it is. */
  lemma SubAgentFrames(s: State, f: Frame, env: Env, cfg: Config)
    requires IsConversation(f) && f.parent.Some? && f.parent.value != ""
    ensures Routed(s, f, env, cfg) == s.(tasks := T.FrameStep(s.tasks, f, env.at, cfg.orphanTtl))
  {
    hide T.FrameStep;
  }

  /** User messages, results and unknown frames of the main conversation end the timeline; rate limits do not show. */
  lemma MainFrames(s: State, f: Frame, env: Env, cfg: Config)
    requires f.parent.None? || f.parent.value == ""
    ensures f.body.User? || f.body.Result? || f.body.OtherType? || f.body.Untyped? ==>
      Pushed(s, Routed(s, f, env, cfg), f, env.id)
      && Routed(s, f, env, cfg).session == s.session && Routed(s, f, env, cfg).initSeen == s.initSeen
    ensures f.body.RateLimit? ==> Routed(s, f, env, cfg) == s
    ensures f.body.Assistant? && f.body.messageId == "" ==> Pushed(s, Routed(s, f, env, cfg), f, env.id)
    ensures f.body.StreamEventBody? && f.body.event.None? ==> Pushed(s, Routed(s, f, env, cfg), f, env.id)
  {
  }

  /** Assistant replies with an id and stream events are the timeline's own business. */
  lemma StreamedFrames(s: State, f: Frame, env: Env, cfg: Config)
    requires f.parent.None? || f.parent.value == ""
    requires (f.body.Assistant? && f.body.messageId != "") || (f.body.StreamEventBody? && f.body.event.Some?)
    ensures Routed(s, f, env, cfg) == s.(messages := M.Step(s.messages, M.Arrive(f, env.id), cfg.parse))
  {
    hide M.IngestFrame;
  }

  /** Whether a part claims a frame. */
  lemma ClaimedIff(f: Frame)
    ensures Claimed(f) <==>
      !(f.body.ControlResponse? || (f.body.ControlRequest? && f.body.subtype != "can_use_tool")
        || (f.body.RateLimit? && (f.parent.None? || f.parent.value == "")))
  {
  }

  /** The follow-up that a reply releases is announced in front of the reply's own entry. */
  lemma AnnouncedFirst(s: State, f: Frame, env: Env, cfg: Config)
    requires f.body.User? && (f.parent.None? || f.parent.value == "") && S.FollowUpFor(s.shell, f).Some?
    ensures Applied(s, f, env, cfg).messages.messages == s.messages.messages
      + [M.LocalUser(env.localId, S.FollowUpFor(s.shell, f).value, s.messages.counter),
         M.FrameEntry(env.id, f, s.messages.counter + 1)]
  {
    hide Applied, S.FollowUpFor, S.Replay;
    AppliedConversation(s, f, env, cfg);
    var text := S.FollowUpFor(s.shell, f).value;
    var local, own := M.LocalUser(env.localId, text, s.messages.counter), M.FrameEntry(env.id, f, s.messages.counter + 1);
    assert s.messages.messages + [local] + [own] == s.messages.messages + [local, own];
  }

  // ---------- calls ----------

  /** A text, or pending exchanges, are sent and the text is announced; without either nothing happens. */
  lemma TextSent(s: State, text: string, id: string)
    ensures var t := UserSent(s, text, id);
      if Trim(text) == "" && s.shell.exchanges == [] then t == s
      else
        && t.messages.messages == s.messages.messages + [M.LocalUser(id, text, s.messages.counter)]
        && t.shell.exchanges == [] && t.shell.captures == s.shell.captures && t.shell.followUps == s.shell.followUps
        && t == s.(messages := t.messages, shell := t.shell)
  {
  }

  /** A reset empties timeline, tasks, shell and ring and forgets the init; the queue, the session and what was sent stay. */
  lemma ResetLeaves(s: State)
    ensures var t := TimelineReset(s);
      && t.messages.messages == [] && t.messages.streaming == map[] && t.messages.active == None && t.messages.counter == 0
      && t.tasks.tasks == [] && t.tasks.buffers == map[]
      && t.shell == S.State([], [], [], map[], s.shell.outbox)
      && t.hooks == [] && !t.initSeen && t.permissions == s.permissions && t.session == s.session
  {
  }

  // ---------- the shell's entries ----------

  /** A command gets an entry of its own behind the others, pending if its exchange is to be sent, and waits last. */
  lemma CommandIssued(s: S.State, id: string, command: string, source: S.Source)
    ensures var t := S.Issue(s, id, command, source);
      && t.entries == s.entries + [S.ShellEntry(id, command, source, [], source == S.Context)]
      && |t.captures| == |s.captures| + 1 && t.captures[..|s.captures|] == s.captures
      && t.captures[|s.captures|].entryId == id && t.captures[|s.captures|].command == command
      && t.captures[|s.captures|].source == source && !t.captures[|s.captures|].sawInputEcho
      && t.outbox == s.outbox + [S.BashCommand(command)] && t.exchanges == s.exchanges && t.followUps == s.followUps
  {
  }

  /** Sending takes the entries of the exchanges it carries away, and no other. */
  lemma SentEntriesGo(s: S.State, text: string)
    requires s.exchanges != []
    ensures var t := S.SendUser(s, text);
      && t.entries == Filter(s.entries, (e: S.ShellEntry) => !exists x :: x in s.exchanges && x.entryId == e.id)
      && |t.outbox| == |s.outbox| + 1 && t.outbox[..|s.outbox|] == s.outbox && t.outbox[|s.outbox|].UserText?
  {
    hide S.Compose;
  }

  /** A dismissed entry goes; what it stands for still waits, and its exchange is still sent. */
  lemma DismissedGoes(s: S.State, id: string)
    ensures var t := S.Dismiss(s, id);
      t.entries == Filter(s.entries, (e: S.ShellEntry) => e.id != id) && t == s.(entries := t.entries)
  {
  }

  /** The echo of a command is noted at the head of the queue and changes nothing else. */
  lemma EchoNoted(s: S.State, f: Frame)
    requires S.Parsed(f).Some? && S.Parsed(f).value.Input?
    ensures var t := S.Replay(s, f);
      if s.captures == [] then t == s
      else t == s.(captures := [s.captures[0].(sawInputEcho := true)] + s.captures[1..])
  {
    hide S.Parsed;
  }
}
