/**
 Task lifecycle and sub-agent routing (packages/protocol/src/client/tasks.ts): a capped task table, and
 a buffer for frames whose task is not known yet.
 */
module Tasks {
  import opened Prelude
  import opened Frames

  datatype TaskStatus = Running | Completed | Failed | Stopped

  datatype TranscriptEntry = TranscriptEntry(frame: Frame, arrivalIdx: nat)

  datatype Task = Task(
    taskId: string, toolUseId: Option<string>, taskType: Option<string>, description: string,
    workflowName: Option<string>, prompt: Option<string>, status: TaskStatus, startTime: int, lastUpdate: int,
    lastToolName: Option<string>, summary: Option<string>, outputFile: Option<string>, usage: Option<UsageBlock>,
    transcript: seq<TranscriptEntry>)

  datatype Pending = Pending(frame: Frame, addedAt: int)

  type Buffers = map<string, seq<Pending>>

  datatype State = State(tasks: seq<Task>, buffers: Buffers)

  const EMPTY := State([], map[])

  // ---------- specification functions ----------

  function MapTaskUsage(u: Option<UsageBlock>, prev: Option<UsageBlock>): Option<UsageBlock> {
    match u
    case None => prev
    case Some(b) =>
      var p := ValueOr(prev, UsageBlock(None, None, None));
      Some(UsageBlock(OrElse(b.totalTokens, p.totalTokens), OrElse(b.toolUses, p.toolUses),
                      OrElse(b.durationMs, p.durationMs)))
  }

  function PatchedStatus(raw: Option<string>, current: TaskStatus): TaskStatus {
    if raw == Some("killed") || raw == Some("stopped") then Stopped
    else if raw == Some("completed") then Completed
    else if raw == Some("failed") then Failed
    else current
  }

  function NotifiedStatus(raw: Option<string>): TaskStatus {
    if raw == Some("failed") then Failed else if raw == Some("stopped") then Stopped else Completed
  }

  /** What an event does to the task it names. */
  function Mutate(ev: TaskEvent, t: Task, at: int): Task {
    match ev
    case Started(_, toolUseId, taskType, description, workflowName, prompt) =>
      t.(toolUseId := OrElse(toolUseId, t.toolUseId), taskType := OrElse(taskType, t.taskType),
         description := ValueOr(description, t.description), workflowName := OrElse(workflowName, t.workflowName),
         prompt := OrElse(prompt, t.prompt), status := Running, lastUpdate := at)
    case Progress(_, description, lastToolName, summary, usage) =>
      t.(description := ValueOr(description, t.description), lastToolName := OrElse(lastToolName, t.lastToolName),
         summary := OrElse(summary, t.summary), usage := MapTaskUsage(usage, t.usage), lastUpdate := at)
    case Updated(_, _, status) =>
      t.(status := PatchedStatus(status, t.status), lastUpdate := at)
    case Notification(_, _, status, summary, outputFile, usage) =>
      t.(status := NotifiedStatus(status), summary := OrElse(summary, t.summary),
         outputFile := OrElse(outputFile, t.outputFile), usage := MapTaskUsage(usage, t.usage), lastUpdate := at)
  }

  /** The entry an event creates when the table has no task of that id; progress and updates create none. */
  function Create(ev: TaskEvent, at: int): Option<Task> {
    match ev
    case Started(id, toolUseId, taskType, description, workflowName, prompt) =>
      Some(Task(id, toolUseId, taskType, ValueOr(description, ""), workflowName, prompt, Running, at, at,
                None, None, None, None, []))
    case Notification(id, toolUseId, status, summary, _, _) =>
      Some(Task(id, toolUseId, None, ValueOr(summary, ""), None, None, NotifiedStatus(status), at, at,
                None, None, None, None, []))
    case _ => None
  }

  function IndexOfTask(tasks: seq<Task>, id: string): int {
    FindIndex(tasks, (t: Task) => t.taskId == id)
  }

  function IndexOfToolUse(tasks: seq<Task>, parent: string): int {
    FindIndex(tasks, (t: Task) => t.toolUseId == Some(parent))
  }

  /** Drops the first `budget` tasks that are not running. */
  function Evict(tasks: seq<Task>, budget: int): seq<Task> {
    if tasks == [] then []
    else if budget > 0 && !tasks[0].status.Running? then Evict(tasks[1..], budget - 1)
    else [tasks[0]] + Evict(tasks[1..], budget)
  }

  function Cap(tasks: seq<Task>, cap: int): seq<Task> {
    if |tasks| <= cap then tasks else Evict(tasks, |tasks| - cap)
  }

  /** The table before the cap is applied. */
  function Upserted(tasks: seq<Task>, ev: TaskEvent, at: int): seq<Task> {
    var idx := IndexOfTask(tasks, ev.taskId);
    if idx >= 0 then tasks[idx := Mutate(ev, tasks[idx], at)]
    else if Create(ev, at).Some? then tasks + [Mutate(ev, Create(ev, at).value, at)]
    else tasks
  }

  function Upsert(tasks: seq<Task>, ev: TaskEvent, at: int, cap: int): seq<Task> {
    if IndexOfTask(tasks, ev.taskId) < 0 && Create(ev, at).None? then tasks
    else Cap(Upserted(tasks, ev, at), cap)
  }

  function Kept(buf: seq<Pending>, at: int, ttl: int): seq<Pending> {
    Filter(buf, (p: Pending) => at - p.addedAt < ttl)
  }

  function Gc(buffers: Buffers, at: int, ttl: int): Buffers {
    map p | p in buffers && (Kept(buffers[p], at, ttl) != [] || buffers[p] == []) :: Kept(buffers[p], at, ttl)
  }

  function Entries(buf: seq<Pending>, from: nat): (r: seq<TranscriptEntry>)
    ensures |r| == |buf|
  {
    seq(|buf|, i requires 0 <= i < |buf| => TranscriptEntry(buf[i].frame, from + i))
  }

  function Flush(s: State, parent: string, at: int): State {
    if parent !in s.buffers || s.buffers[parent] == [] then s
    else
      var idx := IndexOfToolUse(s.tasks, parent);
      var rest := s.buffers - {parent};
      if idx < 0 then State(s.tasks, rest)
      else
        var t := s.tasks[idx];
        State(s.tasks[idx := t.(transcript := t.transcript + Entries(s.buffers[parent], |t.transcript|),
                                lastUpdate := at)], rest)
  }

  /** `at` is the clock when the event is applied, `flushAt` when a flush reads it again. */
  function TaskStep(s: State, ev: TaskEvent, at: int, flushAt: int, cap: int): State {
    if ev.taskId == "" || (ev.Updated? && !ev.hasPatch) then s
    else
      var s' := s.(tasks := Upsert(s.tasks, ev, at, cap));
      if ev.Started? && ev.toolUseId.Some? && ev.toolUseId.value != "" then Flush(s', ev.toolUseId.value, flushAt)
      else s'
  }

  function FrameStep(s: State, frame: Frame, at: int, ttl: int): State
    requires HasParent(frame)
  {
    var parent := frame.parent.value;
    var buffers := Gc(s.buffers, at, ttl);
    var idx := IndexOfToolUse(s.tasks, parent);
    if idx < 0 then
      var buf := if parent in buffers then buffers[parent] else [];
      State(s.tasks, buffers[parent := buf + [Pending(frame, at)]])
    else
      var t := s.tasks[idx];
      State(s.tasks[idx := t.(transcript := t.transcript + [TranscriptEntry(frame, |t.transcript|)],
                              lastUpdate := at)], buffers)
  }

  // ---------- the aggregator ----------

  method CapTasksKeepRunning(arr: seq<Task>, cap: int) returns (out: seq<Task>)
    ensures out == Cap(arr, cap)
  {
    if |arr| <= cap {
      return arr;
    }
    out := [];
    var evictBudget := |arr| - cap;
    for i := 0 to |arr|
      invariant Evict(arr, |arr| - cap) == out + Evict(arr[i..], evictBudget)
    {
      var t := arr[i];
      if evictBudget > 0 && !t.status.Running? {
        evictBudget := evictBudget - 1;
      } else {
        out := out + [t];
      }
    }
  }

  class TasksAggregator {
    const cap: int
    const orphanTtl: int
    var tasks: seq<Task>
    var pendingByParent: Buffers

    constructor (cap: int, orphanTtl: int)
      ensures this.cap == cap && this.orphanTtl == orphanTtl && Model() == EMPTY
    {
      this.cap, this.orphanTtl := cap, orphanTtl;
      tasks, pendingByParent := [], map[];
    }

    function Model(): State
      reads this
    {
      State(tasks, pendingByParent)
    }

    method GcPending(at: int)
      modifies this
      ensures Model() == State(old(tasks), Gc(old(pendingByParent), at, orphanTtl))
    {
      hide Kept;
      var todo := pendingByParent.Keys;
      ghost var was, gc := pendingByParent, Gc(pendingByParent, at, orphanTtl);
      while todo != {}
        invariant todo <= was.Keys && pendingByParent.Keys <= was.Keys && tasks == old(tasks)
        invariant forall p :: p in todo ==> p in pendingByParent && pendingByParent[p] == was[p]
        invariant forall p :: p in was && p !in todo ==> (p in pendingByParent <==> p in gc)
        invariant forall p :: p in gc && p !in todo ==> pendingByParent[p] == gc[p]
      {
        var parent :| parent in todo;
        var buf := pendingByParent[parent];
        var kept := Kept(buf, at, orphanTtl);
        if |kept| == |buf| {
          FilterSameSize(buf, at, orphanTtl);
        } else if |kept| == 0 {
          pendingByParent := pendingByParent - {parent};
        } else {
          pendingByParent := pendingByParent[parent := kept];
        }
        todo := todo - {parent};
      }
      assert pendingByParent == gc;
    }

    method FlushPendingFor(parent: string, at: int)
      modifies this
      ensures Model() == Flush(old(Model()), parent, at)
    {
      if parent !in pendingByParent || |pendingByParent[parent]| == 0 {
        return;
      }
      var buf := pendingByParent[parent];
      pendingByParent := pendingByParent - {parent};
      var idx := IndexOfToolUse(tasks, parent);
      if idx == -1 {
        return;
      }
      var cur := tasks[idx];
      var appended: seq<TranscriptEntry> := [];
      for i := 0 to |buf|
        invariant appended == Entries(buf, |cur.transcript|)[..i]
      {
        appended := appended + [TranscriptEntry(buf[i].frame, |cur.transcript| + i)];
      }
      assert appended == Entries(buf, |cur.transcript|);
      tasks := tasks[idx := cur.(transcript := cur.transcript + appended, lastUpdate := at)];
    }

    method UpsertTask(ev: TaskEvent, at: int)
      modifies this
      ensures Model() == old(Model()).(tasks := Upsert(old(tasks), ev, at, cap))
    {
      var idx := IndexOfTask(tasks, ev.taskId);
      if idx == -1 {
        var init := Create(ev, at);
        if init.None? {
          return;
        }
        tasks := CapTasksKeepRunning(tasks + [Mutate(ev, init.value, at)], cap);
      } else {
        var next := tasks[idx := Mutate(ev, tasks[idx], at)];
        tasks := CapTasksKeepRunning(next, cap);
      }
    }

    method HandleTaskEvent(ev: TaskEvent, at: int, flushAt: int) returns (handled: bool)
      modifies this
      ensures Model() == TaskStep(old(Model()), ev, at, flushAt, cap)
      ensures handled <==> ev.taskId != "" && (ev.Updated? ==> ev.hasPatch)
    {
      if ev.taskId == "" || (ev.Updated? && !ev.hasPatch) {
        return false;
      }
      UpsertTask(ev, at);
      if ev.Started? && ev.toolUseId.Some? && ev.toolUseId.value != "" {
        FlushPendingFor(ev.toolUseId.value, flushAt);
      }
      return true;
    }

    method HandleSubAgentFrame(frame: Frame, at: int) returns (handled: bool)
      modifies this
      ensures handled <==> HasParent(frame)
      ensures Model() == if HasParent(frame) then FrameStep(old(Model()), frame, at, orphanTtl) else old(Model())
    {
      if !HasParent(frame) {
        return false;
      }
      var parent := frame.parent.value;
      GcPending(at);
      var idx := IndexOfToolUse(tasks, parent);
      if idx == -1 {
        var buf := if parent in pendingByParent then pendingByParent[parent] else [];
        pendingByParent := pendingByParent[parent := buf + [Pending(frame, at)]];
        return true;
      }
      var cur := tasks[idx];
      tasks := tasks[idx := cur.(transcript := cur.transcript + [TranscriptEntry(frame, |cur.transcript|)],
                                 lastUpdate := at)];
      return true;
    }

    method Reset()
      modifies this
      ensures Model() == EMPTY
    {
      tasks, pendingByParent := [], map[];
    }
  }

  lemma {:induction false} FilterSameSize(buf: seq<Pending>, at: int, ttl: int)
    requires |Kept(buf, at, ttl)| == |buf|
    ensures Kept(buf, at, ttl) == buf
  {
    if buf != [] {
      FilterSameSize(buf[1..], at, ttl);
      assert buf == [buf[0]] + buf[1..];
    }
  }

  // ---------- eviction ----------

  function CountDone(tasks: seq<Task>): nat {
    if tasks == [] then 0
    else CountDone(tasks[..|tasks| - 1]) + if tasks[|tasks| - 1].status.Running? then 0 else 1
  }

  lemma {:induction false} CountDoneFront(tasks: seq<Task>)
    requires tasks != []
    ensures CountDone(tasks) == (if tasks[0].status.Running? then 0 else 1) + CountDone(tasks[1..])
  {
    if |tasks| > 1 {
      var front := tasks[..|tasks| - 1];
      CountDoneFront(front);
      assert tasks[1..][..|tasks[1..]| - 1] == front[1..];
    }
  }

  ghost predicate Survives(tasks: seq<Task>, i: nat, overflow: int)
    requires i < |tasks|
  {
    tasks[i].status.Running? || CountDone(tasks[..i]) >= overflow
  }

  lemma SurvivesTail(tasks: seq<Task>, i: nat, budget: int)
    requires 0 < i < |tasks|
    ensures Survives(tasks, i, budget) <==>
      Survives(tasks[1..], i - 1, if tasks[0].status.Running? then budget else budget - 1)
  {
    CountDoneFront(tasks[..i]);
    assert tasks[..i][1..] == tasks[1..][..i - 1];
  }

  function Shift(s: seq<nat>): (r: seq<nat>)
    ensures |r| == |s| && forall i :: 0 <= i < |s| ==> r[i] == s[i] + 1
  {
    Map(s, (x: nat) => x + 1)
  }

  lemma ShiftMembers(s: seq<nat>, x: nat)
    ensures x in Shift(s) <==> x > 0 && x - 1 in s
  {
    if x > 0 && x - 1 in s {
      var j :| 0 <= j < |s| && s[j] == x - 1;
      assert Shift(s)[j] == x;
    }
  }

  /** The positions eviction keeps. */
  function Survivors(tasks: seq<Task>, budget: int): seq<nat> {
    if tasks == [] then []
    else if budget > 0 && !tasks[0].status.Running? then Shift(Survivors(tasks[1..], budget - 1))
    else [0] + Shift(Survivors(tasks[1..], budget))
  }

  lemma {:induction false} SurvivorsMatch(tasks: seq<Task>, budget: int)
    ensures var r := Survivors(tasks, budget);
      && |r| == |Evict(tasks, budget)|
      && (forall j :: 0 <= j < |r| ==> r[j] < |tasks| && tasks[r[j]] == Evict(tasks, budget)[j])
      && (forall j, k :: 0 <= j < k < |r| ==> r[j] < r[k])
  {
    if tasks != [] {
      var rest, budget' := tasks[1..], if budget > 0 && !tasks[0].status.Running? then budget - 1 else budget;
      SurvivorsMatch(rest, budget');
      ShiftMatches(tasks, Survivors(rest, budget'), Evict(rest, budget'));
    }
  }

  /** Positions in the tail, shifted, are positions in the whole table, with or without its first task. */
  lemma ShiftMatches(tasks: seq<Task>, r: seq<nat>, kept: seq<Task>)
    requires tasks != [] && |r| == |kept|
    requires forall j :: 0 <= j < |r| ==> r[j] < |tasks[1..]| && tasks[1..][r[j]] == kept[j]
    requires forall j, k :: 0 <= j < k < |r| ==> r[j] < r[k]
    ensures var q := Shift(r);
      && (forall j :: 0 <= j < |q| ==> q[j] < |tasks| && tasks[q[j]] == kept[j])
      && (forall j, k :: 0 <= j < k < |q| ==> q[j] < q[k])
    ensures var q, all := [0] + Shift(r), [tasks[0]] + kept;
      && (forall j :: 0 <= j < |q| ==> q[j] < |tasks| && tasks[q[j]] == all[j])
      && (forall j, k :: 0 <= j < k < |q| ==> q[j] < q[k])
  {
  }

  lemma {:induction false} SurvivorsExact(tasks: seq<Task>, budget: int, i: nat)
    requires i < |tasks|
    ensures i in Survivors(tasks, budget) <==> Survives(tasks, i, budget)
  {
    var rest := if budget > 0 && !tasks[0].status.Running? then budget - 1 else budget;
    ShiftMembers(Survivors(tasks[1..], rest), i);
    if i > 0 {
      SurvivesTail(tasks, i, budget);
      SurvivorsExact(tasks[1..], rest, i - 1);
    }
  }

  lemma {:induction false} EvictCount(tasks: seq<Task>, budget: nat)
    ensures |Evict(tasks, budget)| == |tasks| - if budget <= CountDone(tasks) then budget else CountDone(tasks)
  {
    if tasks != [] {
      CountDoneFront(tasks);
      EvictCount(tasks[1..], if budget > 0 && !tasks[0].status.Running? then budget - 1 else budget);
    }
  }

  /**
   Capping keeps a subsequence: every running task, and of the others exactly those with at least
   `overflow` finished tasks in front of them, so the oldest min(overflow, finished) are evicted.
   */
  lemma CapExact(tasks: seq<Task>, cap: int) returns (kept: seq<nat>)
    ensures |kept| == |Cap(tasks, cap)|
    ensures forall j :: 0 <= j < |kept| ==> kept[j] < |tasks| && Cap(tasks, cap)[j] == tasks[kept[j]]
    ensures forall j, k :: 0 <= j < k < |kept| ==> kept[j] < kept[k]
    ensures forall i :: 0 <= i < |tasks| ==> (i in kept <==> Survives(tasks, i, |tasks| - cap))
    ensures var overflow, done := |tasks| - cap, CountDone(tasks);
      |kept| == |tasks| - (if overflow <= 0 then 0 else if overflow <= done then overflow else done)
    ensures |Cap(tasks, cap)| <= cap || forall t :: t in Cap(tasks, cap) ==> t.status.Running?
  {
    if |tasks| <= cap {
      kept := seq(|tasks|, i => i);
      assert forall i :: 0 <= i < |tasks| ==> kept[i] == i;
    } else {
      kept := Survivors(tasks, |tasks| - cap);
      SurvivorsMatch(tasks, |tasks| - cap);
      EvictCount(tasks, |tasks| - cap);
      forall i | 0 <= i < |tasks| ensures i in kept <==> Survives(tasks, i, |tasks| - cap) {
        SurvivorsExact(tasks, |tasks| - cap, i);
      }
      if |kept| > cap {
        forall t | t in Cap(tasks, cap) ensures t.status.Running? {
          var j :| 0 <= j < |kept| && Cap(tasks, cap)[j] == t;
          assert kept[j] in kept;
          if !t.status.Running? {
            CountDonePrefix(tasks, kept[j]);
          }
        }
      }
    }
  }

  lemma {:induction false} CountDonePrefix(tasks: seq<Task>, i: nat)
    requires i < |tasks| && !tasks[i].status.Running?
    ensures CountDone(tasks[..i]) < CountDone(tasks)
  {
    var front := tasks[..|tasks| - 1];
    if i < |front| {
      CountDonePrefix(front, i);
      assert front[..i] == tasks[..i];
    }
  }

  // ---------- invariants of the table ----------

  ghost predicate UniqueIds(tasks: seq<Task>) {
    forall i, j :: 0 <= i < j < |tasks| ==> tasks[i].taskId != tasks[j].taskId
  }

  ghost predicate Indexed(transcript: seq<TranscriptEntry>) {
    forall i :: 0 <= i < |transcript| ==> transcript[i].arrivalIdx == i
  }

  ghost predicate Bounded(tasks: seq<Task>, cap: int) {
    |tasks| <= cap || forall t :: t in tasks ==> t.status.Running?
  }

  ghost predicate Inv(s: State, cap: int) {
    && UniqueIds(s.tasks)
    && Bounded(s.tasks, cap)
    && (forall t :: t in s.tasks ==> Indexed(t.transcript))
    && (forall p :: p in s.buffers ==> s.buffers[p] != [])
    && (forall p, x :: p in s.buffers && x in s.buffers[p] ==> x.frame.parent == Some(p))
  }

  datatype Event = TaskArrives(ev: TaskEvent, at: int, flushAt: int) | FrameArrives(frame: Frame, at: int) | Cleared

  function Step(s: State, e: Event, cap: int, ttl: int): State {
    match e
    case TaskArrives(ev, at, flushAt) => TaskStep(s, ev, at, flushAt, cap)
    case FrameArrives(frame, at) => if HasParent(frame) then FrameStep(s, frame, at, ttl) else s
    case Cleared => EMPTY
  }

  function Run(events: seq<Event>, cap: int, ttl: int): State {
    if events == [] then EMPTY
    else Step(Run(events[..|events| - 1], cap, ttl), events[|events| - 1], cap, ttl)
  }

  lemma UpsertedKeeps(tasks: seq<Task>, ev: TaskEvent, at: int)
    requires UniqueIds(tasks) && forall t :: t in tasks ==> Indexed(t.transcript)
    ensures UniqueIds(Upserted(tasks, ev, at))
    ensures forall t :: t in Upserted(tasks, ev, at) ==> Indexed(t.transcript)
  {
    var idx, all := IndexOfTask(tasks, ev.taskId), Upserted(tasks, ev, at);
    forall t | t in all ensures Indexed(t.transcript) {
      var j :| 0 <= j < |all| && all[j] == t;
      if idx >= 0 { assert all[j].transcript == tasks[j].transcript && tasks[j] in tasks; }
      else if j < |tasks| { assert tasks[j] in tasks; }
    }
    if idx >= 0 {
      assert forall j :: 0 <= j < |tasks| ==> all[j].taskId == tasks[j].taskId;
    }
  }

  lemma CapKeeps(tasks: seq<Task>, cap: int)
    requires UniqueIds(tasks) && forall t :: t in tasks ==> Indexed(t.transcript)
    ensures UniqueIds(Cap(tasks, cap)) && Bounded(Cap(tasks, cap), cap)
    ensures forall t :: t in Cap(tasks, cap) ==> t in tasks && Indexed(t.transcript)
  {
    var kept := CapExact(tasks, cap);
    forall t | t in Cap(tasks, cap) ensures t in tasks {
      var j :| 0 <= j < |kept| && Cap(tasks, cap)[j] == t;
    }
  }

  lemma UpsertKeepsInv(s: State, ev: TaskEvent, at: int, cap: int)
    requires Inv(s, cap)
    ensures Inv(s.(tasks := Upsert(s.tasks, ev, at, cap)), cap)
  {
    UpsertedKeeps(s.tasks, ev, at);
    CapKeeps(Upserted(s.tasks, ev, at), cap);
  }

  lemma FlushKeepsInv(s: State, parent: string, at: int, cap: int)
    requires Inv(s, cap)
    ensures Inv(Flush(s, parent, at), cap)
  {
    var r := Flush(s, parent, at);
    assert |r.tasks| == |s.tasks| && forall i :: 0 <= i < |s.tasks| ==>
      r.tasks[i].taskId == s.tasks[i].taskId && r.tasks[i].status == s.tasks[i].status;
  }

  lemma FrameStepKeepsInv(s: State, frame: Frame, at: int, cap: int, ttl: int)
    requires Inv(s, cap) && HasParent(frame)
    ensures Inv(FrameStep(s, frame, at, ttl), cap)
  {
    var r := FrameStep(s, frame, at, ttl);
    assert |r.tasks| == |s.tasks| && forall i :: 0 <= i < |s.tasks| ==>
      r.tasks[i].taskId == s.tasks[i].taskId && r.tasks[i].status == s.tasks[i].status;
  }

  lemma StepKeepsInv(s: State, e: Event, cap: int, ttl: int)
    requires Inv(s, cap)
    ensures Inv(Step(s, e, cap, ttl), cap)
  {
    hide Upsert, Flush, FrameStep;
    match e
    case TaskArrives(ev, at, flushAt) =>
      UpsertKeepsInv(s, ev, at, cap);
      if ev.Started? && ev.toolUseId.Some? {
        FlushKeepsInv(s.(tasks := Upsert(s.tasks, ev, at, cap)), ev.toolUseId.value, flushAt, cap);
      }
    case FrameArrives(frame, at) =>
      if HasParent(frame) { FrameStepKeepsInv(s, frame, at, cap, ttl); }
    case Cleared =>
  }

  /** Invariants of every run: unique ids, the bound, dense transcripts, buffers keyed by their frames' parent. */
  lemma {:induction false} RunKeepsInv(events: seq<Event>, cap: int, ttl: int)
    ensures Inv(Run(events, cap, ttl), cap)
  {
    if events != [] {
      RunKeepsInv(events[..|events| - 1], cap, ttl);
      StepKeepsInv(Run(events[..|events| - 1], cap, ttl), events[|events| - 1], cap, ttl);
    }
  }

  /** Same tasks in the same places, with the same statuses. */
  ghost predicate SameStatuses(a: seq<Task>, b: seq<Task>) {
    |a| == |b| && forall i :: 0 <= i < |a| ==> a[i].taskId == b[i].taskId && a[i].status == b[i].status
  }

  lemma SameStatusOf(a: seq<Task>, b: seq<Task>, t: Task, t': Task)
    requires SameStatuses(a, b) && UniqueIds(a) && t in a && t' in b && t.taskId == t'.taskId
    ensures t.status == t'.status
  {
    var k :| 0 <= k < |b| && b[k] == t';
    assert a[k].taskId == t.taskId;
  }

  /** Which task stands at a position after the upsert, before the cap. */
  lemma UpsertedAt(tasks: seq<Task>, ev: TaskEvent, at: int, j: nat)
    requires j < |Upserted(tasks, ev, at)|
    ensures var t := Upserted(tasks, ev, at)[j];
      if j < |tasks| then t.taskId == tasks[j].taskId
        && (t.status == tasks[j].status || (tasks[j].taskId == ev.taskId && t.status == Mutate(ev, tasks[j], at).status))
      else t.taskId == ev.taskId && forall x :: x in tasks ==> x.taskId != ev.taskId
  {
  }

  lemma UpsertStatus(tasks: seq<Task>, ev: TaskEvent, at: int, cap: int, t: Task, t': Task)
    requires UniqueIds(tasks) && (forall x :: x in tasks ==> Indexed(x.transcript))
    requires t in tasks && t' in Upsert(tasks, ev, at, cap) && t.taskId == t'.taskId
    ensures t'.status == t.status || (ev.taskId == t.taskId && t'.status == Mutate(ev, t, at).status)
  {
    hide Cap, Indexed, Create, Upserted, Mutate, UniqueIds;
    var all := Upserted(tasks, ev, at);
    UpsertedKeeps(tasks, ev, at);
    CapKeeps(all, cap);
    if Upsert(tasks, ev, at, cap) != tasks {
      var j :| 0 <= j < |all| && all[j] == t';
      UpsertedAt(tasks, ev, at, j);
      if j < |tasks| { UniqueMember(tasks, j, t); }
    } else {
      var j :| 0 <= j < |tasks| && tasks[j] == t';
      UniqueMember(tasks, j, t);
    }
  }

  lemma UniqueMember(tasks: seq<Task>, j: nat, t: Task)
    requires UniqueIds(tasks) && t in tasks && j < |tasks| && tasks[j].taskId == t.taskId
    ensures tasks[j] == t
  {
  }

  lemma TaskStepStatuses(s: State, ev: TaskEvent, at: int, flushAt: int, cap: int)
    ensures var r := TaskStep(s, ev, at, flushAt, cap).tasks;
      r == s.tasks || SameStatuses(Upsert(s.tasks, ev, at, cap), r)
  {
  }

  lemma TaskStepStatus(s: State, ev: TaskEvent, at: int, flushAt: int, cap: int, t: Task, t': Task)
    requires Inv(s, cap) && t in s.tasks && t' in TaskStep(s, ev, at, flushAt, cap).tasks && t.taskId == t'.taskId
    ensures t'.status == t.status || (ev.taskId == t.taskId && t'.status == Mutate(ev, t, at).status)
  {
    var r, up := TaskStep(s, ev, at, flushAt, cap).tasks, Upsert(s.tasks, ev, at, cap);
    TaskStepStatuses(s, ev, at, flushAt, cap);
    if r != s.tasks {
      var k :| 0 <= k < |r| && r[k] == t';
      UpsertStatus(s.tasks, ev, at, cap, t, up[k]);
    }
  }

  /** A task that is not running is running after a step only if that step is its own task_started. */
  lemma OnlyStartedRevives(s: State, e: Event, cap: int, ttl: int, t: Task, t': Task)
    requires Inv(s, cap) && t in s.tasks && t' in Step(s, e, cap, ttl).tasks
    requires t.taskId == t'.taskId && !t.status.Running? && t'.status.Running?
    ensures e.TaskArrives? && e.ev.Started? && e.ev.taskId == t.taskId
  {
    match e
    case TaskArrives(ev, at, flushAt) => TaskStepStatus(s, ev, at, flushAt, cap, t, t');
    case FrameArrives(frame, at) => SameStatusOf(s.tasks, Step(s, e, cap, ttl).tasks, t, t');
    case Cleared =>
  }

  // ---------- conservation of sub-agent frames ----------

  // Every count below is the number of copies of one frame f.

  function InTranscript(transcript: seq<TranscriptEntry>, f: Frame): nat {
    if transcript == [] then 0 else (if transcript[0].frame == f then 1 else 0) + InTranscript(transcript[1..], f)
  }

  function InBuffer(buf: seq<Pending>, f: Frame): nat {
    if buf == [] then 0 else (if buf[0].frame == f then 1 else 0) + InBuffer(buf[1..], f)
  }

  function InTranscripts(tasks: seq<Task>, f: Frame): nat {
    if tasks == [] then 0 else InTranscript(tasks[0].transcript, f) + InTranscripts(tasks[1..], f)
  }

  ghost function AnyParent(m: Buffers): (p: string)
    requires m != map[]
    ensures p in m
  {
    var p :| p in m; p
  }

  ghost function InBuffers(m: Buffers, f: Frame): nat {
    if m == map[] then 0 else InBuffer(m[AnyParent(m)], f) + InBuffers(m - {AnyParent(m)}, f)
  }

  /** The part of a buffer a collection at time `at` drops: the frames of age at least the TTL. */
  function Overdue(buf: seq<Pending>, at: int, ttl: int): seq<Pending> {
    Filter(buf, (x: Pending) => at - x.addedAt >= ttl)
  }

  function Expired(m: Buffers, at: int, ttl: int): Buffers {
    map p | p in m :: Overdue(m[p], at, ttl)
  }

  /** The tasks eviction removes; none of them is running. */
  function Evicted(tasks: seq<Task>, budget: int): seq<Task> {
    if tasks == [] then []
    else if budget > 0 && !tasks[0].status.Running? then [tasks[0]] + Evicted(tasks[1..], budget - 1)
    else Evicted(tasks[1..], budget)
  }

  function UpsertEvicted(tasks: seq<Task>, ev: TaskEvent, at: int, cap: int): seq<Task> {
    if IndexOfTask(tasks, ev.taskId) < 0 && Create(ev, at).None? then []
    else
      var all := Upserted(tasks, ev, at);
      Evicted(all, |all| - cap)
  }

  /** How often f was accepted, and how often it left through each of the three exits. */
  datatype Ledger = Ledger(accepted: nat, expired: nat, evicted: nat, cleared: nat)

  ghost function Record(s: State, l: Ledger, e: Event, cap: int, ttl: int, f: Frame): Ledger {
    match e
    case TaskArrives(ev, at, _) =>
      if ev.taskId == "" || (ev.Updated? && !ev.hasPatch) then l
      else l.(evicted := l.evicted + InTranscripts(UpsertEvicted(s.tasks, ev, at, cap), f))
    case FrameArrives(frame, at) =>
      if !HasParent(frame) then l
      else l.(accepted := l.accepted + (if frame == f then 1 else 0),
              expired := l.expired + InBuffers(Expired(s.buffers, at, ttl), f))
    case Cleared => l.(cleared := l.cleared + InTranscripts(s.tasks, f) + InBuffers(s.buffers, f))
  }

  ghost function RunLedger(events: seq<Event>, cap: int, ttl: int, f: Frame): Ledger {
    if events == [] then Ledger(0, 0, 0, 0)
    else
      var before := events[..|events| - 1];
      Record(Run(before, cap, ttl), RunLedger(before, cap, ttl, f), events[|events| - 1], cap, ttl, f)
  }

  ghost predicate Conserved(s: State, l: Ledger, f: Frame) {
    l.accepted == InTranscripts(s.tasks, f) + InBuffers(s.buffers, f) + l.expired + l.evicted + l.cleared
  }

  lemma {:induction false} PickBuffer(m: Buffers, k: string, f: Frame)
    requires k in m
    ensures InBuffers(m, f) == InBuffer(m[k], f) + InBuffers(m - {k}, f)
    decreases |m|
  {
    var k0 := AnyParent(m);
    if k0 != k {
      PickBuffer(m - {k0}, k, f);
      PickBuffer(m - {k}, k0, f);
      assert m - {k0} - {k} == m - {k} - {k0};
    }
  }

  lemma {:induction false} TranscriptsAppend(a: seq<Task>, b: seq<Task>, f: Frame)
    ensures InTranscripts(a + b, f) == InTranscripts(a, f) + InTranscripts(b, f)
  {
    if a == [] {
      assert a + b == b;
    } else {
      assert (a + b)[1..] == a[1..] + b;
      TranscriptsAppend(a[1..], b, f);
    }
  }

  lemma {:induction false} TranscriptsUpdate(tasks: seq<Task>, i: nat, t: Task, f: Frame)
    requires i < |tasks|
    ensures InTranscripts(tasks[i := t], f)
      == InTranscripts(tasks, f) - InTranscript(tasks[i].transcript, f) + InTranscript(t.transcript, f)
  {
    if i > 0 {
      assert tasks[i := t][1..] == tasks[1..][i - 1 := t];
      TranscriptsUpdate(tasks[1..], i - 1, t, f);
    } else {
      assert tasks[i := t][1..] == tasks[1..];
    }
  }

  lemma {:induction false} BufferAppend(a: seq<Pending>, b: seq<Pending>, f: Frame)
    ensures InBuffer(a + b, f) == InBuffer(a, f) + InBuffer(b, f)
  {
    if a == [] {
      assert a + b == b;
    } else {
      assert (a + b)[1..] == a[1..] + b;
      BufferAppend(a[1..], b, f);
    }
  }

  lemma {:induction false} TranscriptAppend(a: seq<TranscriptEntry>, b: seq<TranscriptEntry>, f: Frame)
    ensures InTranscript(a + b, f) == InTranscript(a, f) + InTranscript(b, f)
  {
    if a == [] {
      assert a + b == b;
    } else {
      assert (a + b)[1..] == a[1..] + b;
      TranscriptAppend(a[1..], b, f);
    }
  }

  lemma {:induction false} EntriesKeepFrames(buf: seq<Pending>, from: nat, f: Frame)
    ensures InTranscript(Entries(buf, from), f) == InBuffer(buf, f)
  {
    if buf != [] {
      assert Entries(buf, from)[1..] == Entries(buf[1..], from + 1);
      EntriesKeepFrames(buf[1..], from + 1, f);
    }
  }

  // ---------- eviction and expiry ----------

  lemma {:induction false} EvictConserves(tasks: seq<Task>, budget: int, f: Frame)
    ensures InTranscripts(tasks, f) == InTranscripts(Evict(tasks, budget), f) + InTranscripts(Evicted(tasks, budget), f)
  {
    if tasks != [] {
      EvictConserves(tasks[1..], if budget > 0 && !tasks[0].status.Running? then budget - 1 else budget, f);
    }
  }

  lemma {:induction false} NothingEvicted(tasks: seq<Task>, budget: int)
    requires budget <= 0
    ensures Evict(tasks, budget) == tasks
  {
    if tasks != [] { NothingEvicted(tasks[1..], budget); assert tasks == [tasks[0]] + tasks[1..]; }
  }

  lemma CapConserves(tasks: seq<Task>, cap: int, f: Frame)
    ensures InTranscripts(tasks, f)
      == InTranscripts(Cap(tasks, cap), f) + InTranscripts(Evicted(tasks, |tasks| - cap), f)
  {
    if |tasks| <= cap { NothingEvicted(tasks, |tasks| - cap); }
    EvictConserves(tasks, |tasks| - cap, f);
  }

  lemma {:induction false} SplitByAge(buf: seq<Pending>, at: int, ttl: int, f: Frame)
    ensures InBuffer(buf, f) == InBuffer(Kept(buf, at, ttl), f) + InBuffer(Overdue(buf, at, ttl), f)
  {
    if buf != [] {
      var rest := buf[1..];
      SplitByAge(rest, at, ttl, f);
      if at - buf[0].addedAt < ttl {
        assert ([buf[0]] + Kept(rest, at, ttl))[1..] == Kept(rest, at, ttl);
      } else {
        assert ([buf[0]] + Overdue(rest, at, ttl))[1..] == Overdue(rest, at, ttl);
      }
    }
  }

  lemma GcWithout(m: Buffers, k: string, at: int, ttl: int)
    ensures Gc(m, at, ttl) - {k} == Gc(m - {k}, at, ttl)
    ensures Expired(m, at, ttl) - {k} == Expired(m - {k}, at, ttl)
  {
  }

  lemma PickKept(m: Buffers, k: string, at: int, ttl: int, f: Frame)
    requires k in m
    ensures InBuffers(Gc(m, at, ttl), f) == InBuffer(Kept(m[k], at, ttl), f) + InBuffers(Gc(m, at, ttl) - {k}, f)
  {
    var gc := Gc(m, at, ttl);
    if k in gc {
      PickBuffer(gc, k, f);
    } else {
      assert gc - {k} == gc && Kept(m[k], at, ttl) == [];
    }
  }

  lemma {:induction false} GcConserves(m: Buffers, at: int, ttl: int, f: Frame)
    ensures InBuffers(m, f) == InBuffers(Gc(m, at, ttl), f) + InBuffers(Expired(m, at, ttl), f)
    decreases |m|
  {
    if m == map[] {
      assert Gc(m, at, ttl) == map[] && Expired(m, at, ttl) == map[];
    } else {
      var k :| k in m;
      GcConserves(m - {k}, at, ttl, f);
      GcWithout(m, k, at, ttl);
      PickBuffer(m, k, f);
      PickBuffer(Expired(m, at, ttl), k, f);
      SplitByAge(m[k], at, ttl, f);
      PickKept(m, k, at, ttl, f);
    }
  }

  // ---------- steps ----------

  /** After task_started some task carries its tool use id, so flushing finds a transcript to append to. */
  lemma FlushFindsStartedTask(s: State, ev: TaskEvent, at: int, cap: int)
    requires ev.Started? && ev.toolUseId.Some?
    ensures IndexOfToolUse(Upsert(s.tasks, ev, at, cap), ev.toolUseId.value) >= 0
  {
    var all := Upserted(s.tasks, ev, at);
    var idx := IndexOfTask(s.tasks, ev.taskId);
    var i := if idx >= 0 then idx else |s.tasks|;
    assert all[i].status.Running? && all[i].toolUseId == ev.toolUseId;
    var kept := CapExact(all, cap);
    assert Survives(all, i, |all| - cap) && i in kept;
    var j :| 0 <= j < |kept| && kept[j] == i;
    assert Cap(all, cap)[j].toolUseId == Some(ev.toolUseId.value);
  }

  lemma FlushConserves(s: State, parent: string, at: int, f: Frame)
    requires IndexOfToolUse(s.tasks, parent) >= 0
    ensures var r := Flush(s, parent, at);
      InTranscripts(r.tasks, f) + InBuffers(r.buffers, f) == InTranscripts(s.tasks, f) + InBuffers(s.buffers, f)
  {
    if parent in s.buffers && s.buffers[parent] != [] {
      var idx := IndexOfToolUse(s.tasks, parent);
      var t, buf := s.tasks[idx], s.buffers[parent];
      var added := Entries(buf, |t.transcript|);
      EntriesKeepFrames(buf, |t.transcript|, f);
      TranscriptAppend(t.transcript, added, f);
      TranscriptsUpdate(s.tasks, idx, t.(transcript := t.transcript + added, lastUpdate := at), f);
      PickBuffer(s.buffers, parent, f);
    }
  }

  lemma UpsertConserves(tasks: seq<Task>, ev: TaskEvent, at: int, cap: int, f: Frame)
    ensures InTranscripts(tasks, f)
      == InTranscripts(Upsert(tasks, ev, at, cap), f) + InTranscripts(UpsertEvicted(tasks, ev, at, cap), f)
  {
    var idx := IndexOfTask(tasks, ev.taskId);
    if idx >= 0 {
      TranscriptsUpdate(tasks, idx, Mutate(ev, tasks[idx], at), f);
    } else if Create(ev, at).Some? {
      TranscriptsAppend(tasks, [Mutate(ev, Create(ev, at).value, at)], f);
    }
    CapConserves(Upserted(tasks, ev, at), cap, f);
  }

  lemma AddToBuffer(m: Buffers, parent: string, x: Pending, f: Frame)
    ensures var buf := if parent in m then m[parent] else [];
      InBuffers(m[parent := buf + [x]], f) == InBuffers(m, f) + if x.frame == f then 1 else 0
  {
    var buf := if parent in m then m[parent] else [];
    var m' := m[parent := buf + [x]];
    BufferAppend(buf, [x], f);
    PickBuffer(m', parent, f);
    assert m' - {parent} == m - {parent};
    if parent in m { PickBuffer(m, parent, f); } else { assert m - {parent} == m; }
  }

  lemma FrameStepConserves(s: State, frame: Frame, at: int, ttl: int, f: Frame)
    requires HasParent(frame)
    ensures var r := FrameStep(s, frame, at, ttl);
      InTranscripts(r.tasks, f) + InBuffers(r.buffers, f) + InBuffers(Expired(s.buffers, at, ttl), f)
      == InTranscripts(s.tasks, f) + InBuffers(s.buffers, f) + if frame == f then 1 else 0
  {
    var parent, idx := frame.parent.value, IndexOfToolUse(s.tasks, frame.parent.value);
    GcConserves(s.buffers, at, ttl, f);
    if idx < 0 {
      AddToBuffer(Gc(s.buffers, at, ttl), parent, Pending(frame, at), f);
    } else {
      var t, x := s.tasks[idx], TranscriptEntry(frame, |s.tasks[idx].transcript|);
      TranscriptAppend(t.transcript, [x], f);
      TranscriptsUpdate(s.tasks, idx, t.(transcript := t.transcript + [x], lastUpdate := at), f);
    }
  }

  lemma TaskStepConserves(s: State, ev: TaskEvent, at: int, flushAt: int, cap: int, f: Frame)
    requires ev.taskId != "" && (ev.Updated? ==> ev.hasPatch)
    ensures var r := TaskStep(s, ev, at, flushAt, cap);
      InTranscripts(r.tasks, f) + InBuffers(r.buffers, f) + InTranscripts(UpsertEvicted(s.tasks, ev, at, cap), f)
      == InTranscripts(s.tasks, f) + InBuffers(s.buffers, f)
  {
    UpsertConserves(s.tasks, ev, at, cap, f);
    if ev.Started? && ev.toolUseId.Some? && ev.toolUseId.value != "" {
      FlushFindsStartedTask(s, ev, at, cap);
      FlushConserves(s.(tasks := Upsert(s.tasks, ev, at, cap)), ev.toolUseId.value, flushAt, f);
    }
  }

  lemma StepConserves(s: State, l: Ledger, e: Event, cap: int, ttl: int, f: Frame)
    requires Conserved(s, l, f)
    ensures Conserved(Step(s, e, cap, ttl), Record(s, l, e, cap, ttl, f), f)
  {
    match e
    case TaskArrives(ev, at, flushAt) =>
      if ev.taskId != "" && (ev.Updated? ==> ev.hasPatch) { TaskStepConserves(s, ev, at, flushAt, cap, f); }
    case FrameArrives(frame, at) =>
      if HasParent(frame) { FrameStepConserves(s, frame, at, ttl, f); }
    case Cleared =>
  }

  /**
   Over every run, each acceptance of a frame is accounted for exactly once: by a transcript, a buffer, or
   one of the three exits in the ledger. A flush is not one of them.
   */
  lemma {:induction false} FramesAreConserved(events: seq<Event>, cap: int, ttl: int, f: Frame)
    ensures Conserved(Run(events, cap, ttl), RunLedger(events, cap, ttl, f), f)
  {
    if events != [] {
      var before := events[..|events| - 1];
      FramesAreConserved(before, cap, ttl, f);
      StepConserves(Run(before, cap, ttl), RunLedger(before, cap, ttl, f), events[|events| - 1], cap, ttl, f);
    }
  }

  /** The arrivals that name a parent. */
  function Arrivals(events: seq<Event>, f: Frame): nat {
    if events == [] then 0
    else
      var e := events[|events| - 1];
      Arrivals(events[..|events| - 1], f) + if e.FrameArrives? && HasParent(e.frame) && e.frame == f then 1 else 0
  }

  lemma {:induction false} AcceptedAreArrivals(events: seq<Event>, cap: int, ttl: int, f: Frame)
    ensures RunLedger(events, cap, ttl, f).accepted == Arrivals(events, f)
  {
    if events != [] { AcceptedAreArrivals(events[..|events| - 1], cap, ttl, f); }
  }

  /** A frame that arrives once is in at most one transcript position or buffer position. */
  lemma OneHomePerFrame(events: seq<Event>, cap: int, ttl: int, f: Frame)
    requires Arrivals(events, f) == 1
    ensures var s, l := Run(events, cap, ttl), RunLedger(events, cap, ttl, f);
      InTranscripts(s.tasks, f) + InBuffers(s.buffers, f) + l.expired + l.evicted + l.cleared == 1
  {
    FramesAreConserved(events, cap, ttl, f);
    AcceptedAreArrivals(events, cap, ttl, f);
  }

  /** After a sub-agent frame every frame still waiting is younger than the TTL, or arrived just now. */
  lemma WaitingFramesAreYoung(s: State, frame: Frame, at: int, ttl: int, p: string, x: Pending)
    requires HasParent(frame)
    requires p in FrameStep(s, frame, at, ttl).buffers && x in FrameStep(s, frame, at, ttl).buffers[p]
    ensures at - x.addedAt < ttl || x == Pending(frame, at)
  {
    assert forall q :: q in Gc(s.buffers, at, ttl) ==> Gc(s.buffers, at, ttl)[q] == Kept(s.buffers[q], at, ttl);
  }

  // ---------- frames that wait although their task is known ----------

  /** No frame waits for a tool use that a task in the table carries. */
  ghost predicate NoneStranded(s: State) {
    forall p :: p in s.buffers ==> p != "" && IndexOfToolUse(s.tasks, p) < 0
  }

  /** A notification introduces a task whose frames are waiting, and the cap does not remove that task at once. */
  ghost predicate Strands(s: State, e: Event, cap: int) {
    && e.TaskArrives? && e.ev.Notification? && e.ev.taskId != "" && IndexOfTask(s.tasks, e.ev.taskId) < 0
    && e.ev.toolUseId.Some? && e.ev.toolUseId.value in s.buffers
    && CountDone(s.tasks) >= |s.tasks| + 1 - cap
  }

  /** A task the cap keeps was in the table; the newest one is kept if it runs or enough older ones can go. */
  lemma CapMembers(all: seq<Task>, cap: int)
    requires all != []
    ensures forall t :: t in Cap(all, cap) ==> t in all
    ensures var n := |all| - 1;
      if Survives(all, n, |all| - cap) then all[n] in Cap(all, cap) else forall t :: t in Cap(all, cap) ==> t in all[..n]
  {
    hide Cap, Survives;
    var n := |all| - 1;
    var kept := CapExact(all, cap);
    assert Survives(all, n, |all| - cap) <==> n in kept;
    forall t | t in Cap(all, cap) ensures t in all && (n in kept || t in all[..n]) {
      var j :| 0 <= j < |kept| && Cap(all, cap)[j] == t;
      assert kept[j] in kept && (kept[j] == n || all[..n][kept[j]] == t);
    }
    if n in kept {
      var j :| 0 <= j < |kept| && kept[j] == n;
      assert Cap(all, cap)[j] == all[n];
    }
  }

  /** No member carries the tool use p. */
  ghost predicate Unknown(tasks: seq<Task>, p: string) {
    forall t :: t in tasks ==> t.toolUseId != Some(p)
  }

  lemma UnknownIff(tasks: seq<Task>, p: string)
    ensures Unknown(tasks, p) <==> IndexOfToolUse(tasks, p) < 0
  {
  }

  /** An event makes a tool use known only by carrying it, in a start or in the introduction of a task. */
  lemma UpsertUnknown(s: State, ev: TaskEvent, at: int, cap: int, p: string)
    requires Unknown(s.tasks, p)
    requires ev.Started? || (ev.Notification? && IndexOfTask(s.tasks, ev.taskId) < 0) ==> ev.toolUseId != Some(p)
    ensures Unknown(Upsert(s.tasks, ev, at, cap), p)
  {
    var all, idx := Upserted(s.tasks, ev, at), IndexOfTask(s.tasks, ev.taskId);
    forall t | t in all ensures t.toolUseId != Some(p) {
      var j :| 0 <= j < |all| && all[j] == t;
      if j < |s.tasks| { assert s.tasks[j] in s.tasks; }
    }
    if all != [] { CapMembers(all, cap); }
  }

  /** What the introduction of a task by a notification makes known. */
  lemma IntroducedKnown(s: State, ev: TaskEvent, at: int, cap: int)
    requires ev.Notification? && IndexOfTask(s.tasks, ev.taskId) < 0 && ev.toolUseId.Some? && Unknown(s.tasks, ev.toolUseId.value)
    ensures Unknown(Upsert(s.tasks, ev, at, cap), ev.toolUseId.value) <==> CountDone(s.tasks) < |s.tasks| + 1 - cap
  {
    var all, n := Upserted(s.tasks, ev, at), |s.tasks|;
    CapMembers(all, cap);
    assert all[..n] == s.tasks && all[n].toolUseId == ev.toolUseId && !all[n].status.Running?;
  }

  lemma FrameStepStrandsNone(s: State, frame: Frame, at: int, ttl: int)
    requires HasParent(frame) && NoneStranded(s)
    ensures NoneStranded(FrameStep(s, frame, at, ttl))
  {
    var t := FrameStep(s, frame, at, ttl);
    forall p | p in t.buffers ensures p != "" && IndexOfToolUse(t.tasks, p) < 0 {
      assert p == frame.parent.value || p in s.buffers;
      UnknownIff(s.tasks, p);
      UnknownIff(t.tasks, p);
    }
  }

  lemma TaskStepStrandsNone(s: State, ev: TaskEvent, at: int, flushAt: int, cap: int, ttl: int)
    requires Inv(s, cap) && NoneStranded(s) && !Strands(s, TaskArrives(ev, at, flushAt), cap)
    ensures NoneStranded(TaskStep(s, ev, at, flushAt, cap))
  {
    hide Upsert;
    if ev.taskId != "" && (ev.Updated? ==> ev.hasPatch) {
      var tasks, t := Upsert(s.tasks, ev, at, cap), TaskStep(s, ev, at, flushAt, cap);
      if ev.Started? && ev.toolUseId.Some? { FlushFindsStartedTask(s, ev, at, cap); }
      forall p | p in t.buffers ensures p != "" && IndexOfToolUse(t.tasks, p) < 0 {
        UnknownIff(s.tasks, p);
        UnknownIff(tasks, p);
        UnknownIff(t.tasks, p);
        if ev.Notification? && IndexOfTask(s.tasks, ev.taskId) < 0 && ev.toolUseId == Some(p) {
          IntroducedKnown(s, ev, at, cap);
        } else {
          UpsertUnknown(s, ev, at, cap, p);
        }
      }
    }
  }

  /** Every step leaves no frame waiting for a known task, except the one kind of event that always does. */
  lemma StepStrandsIff(s: State, e: Event, cap: int, ttl: int)
    requires Inv(s, cap) && NoneStranded(s)
    ensures NoneStranded(Step(s, e, cap, ttl)) <==> !Strands(s, e, cap)
  {
    match e
    case Cleared =>
    case FrameArrives(frame, at) => if HasParent(frame) { FrameStepStrandsNone(s, frame, at, ttl); }
    case TaskArrives(ev, at, flushAt) =>
      if Strands(s, e, cap) {
        UnknownIff(s.tasks, ev.toolUseId.value);
        IntroducedKnown(s, ev, at, cap);
        UnknownIff(Upsert(s.tasks, ev, at, cap), ev.toolUseId.value);
      } else {
        TaskStepStrandsNone(s, ev, at, flushAt, cap, ttl);
      }
  }

  ghost predicate NeverStrands(events: seq<Event>, cap: int, ttl: int) {
    events == [] ||
    (var before := events[..|events| - 1];
     NeverStrands(before, cap, ttl) && !Strands(Run(before, cap, ttl), events[|events| - 1], cap))
  }

  /** Without such events no frame ever waits while a task with its tool use is in the table. */
  lemma {:induction false} RunStrandsNone(events: seq<Event>, cap: int, ttl: int)
    requires NeverStrands(events, cap, ttl)
    ensures NoneStranded(Run(events, cap, ttl))
  {
    hide Step, Strands, Inv;
    if events != [] {
      var before := events[..|events| - 1];
      RunStrandsNone(before, cap, ttl);
      RunKeepsInv(before, cap, ttl);
      StepStrandsIff(Run(before, cap, ttl), events[|events| - 1], cap, ttl);
    }
  }
}
