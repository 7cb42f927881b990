/** What the events of a task say of it (packages/protocol/src/client/tasks.ts). */
module TaskFields {
  import opened Prelude
  import opened Frames
  import opened Tasks

  // ---------- where a task comes from ----------

  /** Alike but for the transcript and the clock reading a flush leaves. */
  ghost predicate Alike(a: Task, b: Task) {
    a.(transcript := b.transcript, lastUpdate := b.lastUpdate) == b
  }

  /** x is a task of the table as the event left it, or the one the event introduced. */
  ghost predicate ComesFrom(tasks: seq<Task>, ev: TaskEvent, at: int, x: Task) {
    || (exists t :: t in tasks && t.taskId == x.taskId && Alike(if x.taskId == ev.taskId then Mutate(ev, t, at) else t, x))
    || (x.taskId == ev.taskId && Create(ev, at).Some? && Alike(Mutate(ev, Create(ev, at).value, at), x)
        && forall t :: t in tasks ==> t.taskId != x.taskId)
  }

  lemma UpsertedComesFrom(tasks: seq<Task>, ev: TaskEvent, at: int, x: Task)
    requires x in Upserted(tasks, ev, at) && UniqueIds(tasks)
    ensures ComesFrom(tasks, ev, at, x)
  {
    hide Mutate, Create;
    var all, idx := Upserted(tasks, ev, at), IndexOfTask(tasks, ev.taskId);
    MutateKeepsId(ev, at);
    var j :| 0 <= j < |all| && all[j] == x;
    if j < |tasks| {
      assert tasks[j] in tasks && tasks[j].taskId == x.taskId;
      if j != idx { assert x == tasks[j] && x.taskId != ev.taskId; }
    }
  }

  lemma MutateKeepsId(ev: TaskEvent, at: int)
    ensures forall t :: Mutate(ev, t, at).taskId == t.taskId
    ensures Create(ev, at).Some? ==> Create(ev, at).value.taskId == ev.taskId
  {
  }

  lemma FlushedAlike(s: State, parent: string, at: int, x: Task)
    requires x in Flush(s, parent, at).tasks
    ensures exists t :: t in s.tasks && Alike(t, x)
  {
    var r := Flush(s, parent, at).tasks;
    var j :| 0 <= j < |r| && r[j] == x;
    assert s.tasks[j] in s.tasks && Alike(s.tasks[j], x);
  }

  /** Every task of the table after a task event. */
  lemma TaskComesFrom(s: State, ev: TaskEvent, at: int, flushAt: int, cap: int, x: Task)
    requires Inv(s, cap) && ev.taskId != "" && (ev.Updated? ==> ev.hasPatch)
    requires x in TaskStep(s, ev, at, flushAt, cap).tasks
    ensures ComesFrom(s.tasks, ev, at, x)
  {
    hide Mutate, Create, Flush, Upserted, Cap, Inv;
    assert UniqueIds(s.tasks) by { InvIsUnique(s, cap); }
    var up := s.(tasks := Upsert(s.tasks, ev, at, cap));
    var y := x;
    if ev.Started? && ev.toolUseId.Some? && ev.toolUseId.value != "" {
      FlushedAlike(up, ev.toolUseId.value, flushAt, x);
      y :| y in up.tasks && Alike(y, x);
    }
    if IndexOfTask(s.tasks, ev.taskId) < 0 && Create(ev, at).None? {
      assert y in s.tasks && Alike(y, x);
    } else {
      var all := Upserted(s.tasks, ev, at);
      assert y in all by { if all != [] { CapMembers(all, cap); } else { NothingCapped(cap); } }
      UpsertedComesFrom(s.tasks, ev, at, y);
    }
  }

  lemma NothingCapped(cap: int)
    ensures Cap([], cap) == []
  {
  }

  lemma InvIsUnique(s: State, cap: int)
    requires Inv(s, cap)
    ensures UniqueIds(s.tasks)
  {
  }

  // ---------- the status, over every run ----------

  /** The status a task has by its last word: running when started, what a notification or a patch says after that. */
  function StatusOf(events: seq<Event>, id: string): Option<TaskStatus> {
    if events == [] then None
    else
      var before, e := events[..|events| - 1], events[|events| - 1];
      match e
      case Cleared => None
      case FrameArrives(_, _) => StatusOf(before, id)
      case TaskArrives(ev, _, _) => if ev.taskId != id then StatusOf(before, id) else StatusBy(ev, StatusOf(before, id))
  }

  /** What one event of the task makes of its status. */
  function StatusBy(ev: TaskEvent, before: Option<TaskStatus>): Option<TaskStatus> {
    match ev
    case Started(_, _, _, _, _, _) => Some(Running)
    case Progress(_, _, _, _, _) => before
    case Notification(_, _, status, _, _, _) =>
      Some(match status case Some("failed") => Failed case Some("stopped") => Stopped case _ => Completed)
    case Updated(_, hasPatch, status) =>
      if !hasPatch then before
      else
        match status
        case Some("killed") => Some(Stopped)
        case Some("stopped") => Some(Stopped)
        case Some("completed") => Some(Completed)
        case Some("failed") => Some(Failed)
        case _ => before
  }

  ghost predicate StatusesAre(tasks: seq<Task>, events: seq<Event>) {
    forall t :: t in tasks ==> t.taskId != "" && StatusOf(events, t.taskId) == Some(t.status)
  }

  lemma StepStatuses(s: State, events: seq<Event>, e: Event, cap: int, ttl: int)
    requires Inv(s, cap) && StatusesAre(s.tasks, events)
    ensures StatusesAre(Step(s, e, cap, ttl).tasks, events + [e])
  {
    hide TaskStep, FrameStep, Inv, Mutate, Create;
    var r := Step(s, e, cap, ttl).tasks;
    assert (events + [e])[..|events|] == events;
    forall x | x in r ensures x.taskId != "" && StatusOf(events + [e], x.taskId) == Some(x.status) {
      match e
      case TaskArrives(ev, at, flushAt) => TaskEventStatus(s, events, ev, at, flushAt, cap, x);
      case FrameArrives(frame, at) =>
        if HasParent(frame) {
          FrameStepAlike(s, frame, at, ttl, x);
          var t :| t in s.tasks && Alike(t, x);
        }
    }
  }

  lemma FrameStepAlike(s: State, frame: Frame, at: int, ttl: int, x: Task)
    requires HasParent(frame) && x in FrameStep(s, frame, at, ttl).tasks
    ensures exists t :: t in s.tasks && Alike(t, x)
  {
    var r := FrameStep(s, frame, at, ttl).tasks;
    var j :| 0 <= j < |r| && r[j] == x;
    assert s.tasks[j] in s.tasks && Alike(s.tasks[j], x);
  }

  lemma TaskEventStatus(s: State, events: seq<Event>, ev: TaskEvent, at: int, flushAt: int, cap: int, x: Task)
    requires Inv(s, cap) && StatusesAre(s.tasks, events) && x in TaskStep(s, ev, at, flushAt, cap).tasks
    ensures x.taskId != ""
    ensures (if ev.taskId != x.taskId then StatusOf(events, x.taskId) else StatusBy(ev, StatusOf(events, x.taskId))) == Some(x.status)
  {
    if ev.taskId == "" || (ev.Updated? && !ev.hasPatch) {
      assert x in s.tasks;
    } else {
      hide Inv, TaskStep, StatusBy, StatusOf, Mutate, Create;
      TaskComesFrom(s, ev, at, flushAt, cap, x);
      MutateKeepsId(ev, at);
      if exists t :: t in s.tasks && t.taskId == x.taskId && Alike(if x.taskId == ev.taskId then Mutate(ev, t, at) else t, x) {
        var t :| t in s.tasks && t.taskId == x.taskId && Alike(if x.taskId == ev.taskId then Mutate(ev, t, at) else t, x);
        MutateStatus(ev, t, at);
      } else {
        CreateStatus(ev, at, StatusOf(events, x.taskId));
      }
    }
  }

  lemma MutateStatus(ev: TaskEvent, t: Task, at: int)
    requires ev.Updated? ==> ev.hasPatch
    ensures StatusBy(ev, Some(t.status)) == Some(Mutate(ev, t, at).status)
  {
  }

  lemma CreateStatus(ev: TaskEvent, at: int, before: Option<TaskStatus>)
    requires Create(ev, at).Some?
    ensures StatusBy(ev, before) == Some(Mutate(ev, Create(ev, at).value, at).status)
  {
  }

  /** Over every run each task in the table has the status of its last word. */
  lemma {:induction false} RunStatuses(events: seq<Event>, cap: int, ttl: int)
    ensures StatusesAre(Run(events, cap, ttl).tasks, events)
  {
    hide Step, StatusesAre, Inv;
    if events == [] {
      assert StatusesAre([], []) by { NoStatuses(); }
    } else {
      var before, e := events[..|events| - 1], events[|events| - 1];
      RunStatuses(before, cap, ttl);
      RunKeepsInv(before, cap, ttl);
      StepStatuses(Run(before, cap, ttl), before, e, cap, ttl);
      assert before + [e] == events;
    }
  }

  lemma NoStatuses()
    ensures StatusesAre([], [])
  {
  }

  // ---------- the other fields ----------

  /** A value that is given replaces the old one, and the old one stays when none is given. */
  ghost predicate Given<T>(given: Option<T>, before: Option<T>, after: Option<T>) {
    if given.Some? then after == given else after == before
  }

  /** Each figure of the usage by itself. */
  ghost predicate UsageGiven(given: Option<UsageBlock>, before: Option<UsageBlock>, after: Option<UsageBlock>) {
    if given.None? then after == before
    else
      after.Some?
      && Given(given.value.totalTokens, if before.Some? then before.value.totalTokens else None, after.value.totalTokens)
      && Given(given.value.toolUses, if before.Some? then before.value.toolUses else None, after.value.toolUses)
      && Given(given.value.durationMs, if before.Some? then before.value.durationMs else None, after.value.durationMs)
  }

  /** Nothing but these fields, the status, the transcript and the last update may differ. */
  ghost predicate OnlyDetails(a: Task, b: Task) {
    a.taskId == b.taskId && a.startTime == b.startTime
  }

  ghost predicate Says(ev: TaskEvent, t: Task, x: Task) {
    && OnlyDetails(t, x)
    && (ev.Started? ==>
          Given(ev.toolUseId, t.toolUseId, x.toolUseId) && Given(ev.taskType, t.taskType, x.taskType)
          && Given(ev.description, Some(t.description), Some(x.description))
          && Given(ev.workflowName, t.workflowName, x.workflowName) && Given(ev.prompt, t.prompt, x.prompt)
          && x.lastToolName == t.lastToolName && x.summary == t.summary && x.outputFile == t.outputFile && x.usage == t.usage)
    && (!ev.Started? ==>
          x.toolUseId == t.toolUseId && x.taskType == t.taskType && x.workflowName == t.workflowName && x.prompt == t.prompt)
    && (ev.Progress? ==>
          Given(ev.description, Some(t.description), Some(x.description)) && Given(ev.lastToolName, t.lastToolName, x.lastToolName)
          && Given(ev.summary, t.summary, x.summary) && UsageGiven(ev.usage, t.usage, x.usage) && x.outputFile == t.outputFile)
    && (ev.Notification? ==>
          Given(ev.summary, t.summary, x.summary) && Given(ev.outputFile, t.outputFile, x.outputFile)
          && UsageGiven(ev.usage, t.usage, x.usage) && x.description == t.description && x.lastToolName == t.lastToolName)
    && (ev.Updated? ==>
          x.description == t.description && x.lastToolName == t.lastToolName && x.summary == t.summary
          && x.outputFile == t.outputFile && x.usage == t.usage)
  }

  /** A task the event introduces: what the event gives, and nothing else. */
  ghost predicate Introduces(ev: TaskEvent, at: int, x: Task) {
    && (ev.Started? || ev.Notification?) && x.taskId == ev.taskId && x.startTime == at && x.toolUseId == ev.toolUseId
    && x.lastToolName.None?
    && (ev.Started? ==>
          x.taskType == ev.taskType && x.workflowName == ev.workflowName && x.prompt == ev.prompt
          && x.description == ValueOr(ev.description, "") && x.summary.None? && x.outputFile.None? && x.usage.None?)
    && (ev.Notification? ==>
          x.taskType.None? && x.workflowName.None? && x.prompt.None?
          && x.description == ValueOr(ev.summary, "") && x.summary == ev.summary && x.outputFile == ev.outputFile
          && UsageGiven(ev.usage, None, x.usage))
  }

  /** After a task event each task is one of before, untouched or changed as the event says, or the one it introduced. */
  lemma EventSays(s: State, ev: TaskEvent, at: int, flushAt: int, cap: int, x: Task)
    requires Inv(s, cap) && ev.taskId != "" && (ev.Updated? ==> ev.hasPatch)
    requires x in TaskStep(s, ev, at, flushAt, cap).tasks
    ensures
      || (exists t :: t in s.tasks && t.taskId == x.taskId && if x.taskId == ev.taskId then Says(ev, t, x) else Alike(t, x))
      || (Introduces(ev, at, x) && forall t :: t in s.tasks ==> t.taskId != x.taskId)
  {
    hide Inv, TaskStep, Says, Introduces, Mutate, Create;
    TaskComesFrom(s, ev, at, flushAt, cap, x);
    MutateKeepsId(ev, at);
    if exists t :: t in s.tasks && t.taskId == x.taskId && Alike(if x.taskId == ev.taskId then Mutate(ev, t, at) else t, x) {
      var t :| t in s.tasks && t.taskId == x.taskId && Alike(if x.taskId == ev.taskId then Mutate(ev, t, at) else t, x);
      if x.taskId == ev.taskId { MutateSays(ev, t, at, x); }
    } else {
      CreateIntroduces(ev, at, x);
    }
  }

  lemma MutateSays(ev: TaskEvent, t: Task, at: int, x: Task)
    requires Alike(Mutate(ev, t, at), x)
    ensures Says(ev, t, x)
  {
  }

  lemma CreateIntroduces(ev: TaskEvent, at: int, x: Task)
    requires Create(ev, at).Some? && Alike(Mutate(ev, Create(ev, at).value, at), x)
    ensures Introduces(ev, at, x)
  {
  }

  // ---------- the clock ----------

  /** The task an event names bears the time of the event; every other task keeps its own. */
  lemma EventClock(tasks: seq<Task>, ev: TaskEvent, at: int, x: Task)
    requires UniqueIds(tasks) && x in Upserted(tasks, ev, at)
    ensures x.taskId == ev.taskId ==> x.lastUpdate == at
    ensures x.taskId != ev.taskId ==> x in tasks
  {
    var all, idx := Upserted(tasks, ev, at), IndexOfTask(tasks, ev.taskId);
    var j :| 0 <= j < |all| && all[j] == x;
    if j < |tasks| && j != idx { assert x == tasks[j]; }
  }
}
