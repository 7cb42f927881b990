/** The order of a sub-agent's frames, and what task events say of a task (packages/protocol/src/client/tasks.ts). */
module TaskOrder {
  import opened Prelude
  import opened Frames
  import opened Tasks

  // ---------- one flush ----------

  /** The first task that carries the tool use. */
  ghost predicate Carries(tasks: seq<Task>, i: nat, parent: string) {
    i < |tasks| && tasks[i].toolUseId == Some(parent) && forall j :: 0 <= j < i ==> tasks[j].toolUseId != Some(parent)
  }

  lemma CarriesIs(tasks: seq<Task>, i: nat, parent: string)
    requires Carries(tasks, i, parent)
    ensures IndexOfToolUse(tasks, parent) == i
  {
  }

  /** A flush that finds a task appends the waiting frames to its transcript one by one, and nothing else changes. */
  lemma FlushAppends(s: State, parent: string, at: int, idx: nat)
    requires parent in s.buffers && s.buffers[parent] != [] && Carries(s.tasks, idx, parent)
    ensures var t, buf := Flush(s, parent, at), s.buffers[parent];
      var old', new' := s.tasks[idx].transcript, t.tasks[idx].transcript;
      && |t.tasks| == |s.tasks| && (forall j :: 0 <= j < |s.tasks| && j != idx ==> t.tasks[j] == s.tasks[j])
      && t.tasks[idx] == s.tasks[idx].(transcript := new', lastUpdate := at)
      && |new'| == |old'| + |buf|
      && (forall i :: 0 <= i < |old'| ==> new'[i] == old'[i])
      && (forall i :: 0 <= i < |buf| ==> new'[|old'| + i].frame == buf[i].frame && new'[|old'| + i].arrivalIdx == |old'| + i)
      && parent !in t.buffers && (forall p :: p in s.buffers && p != parent ==> p in t.buffers && t.buffers[p] == s.buffers[p])
      && t.buffers.Keys <= s.buffers.Keys
  {
    CarriesIs(s.tasks, idx, parent);
  }

  /** A flush that finds none lets the waiting frames go. */
  lemma FlushWithoutTask(s: State, parent: string, at: int)
    requires parent in s.buffers && s.buffers[parent] != [] && Unknown(s.tasks, parent)
    ensures Flush(s, parent, at) == State(s.tasks, map p | p in s.buffers && p != parent :: s.buffers[p])
  {
    UnknownIff(s.tasks, parent);
    assert s.buffers - {parent} == map p | p in s.buffers && p != parent :: s.buffers[p];
  }

  /** A frame whose task is known goes behind its transcript. */
  lemma KnownFrameGoesLast(s: State, frame: Frame, at: int, ttl: int, idx: nat)
    requires HasParent(frame) && Carries(s.tasks, idx, frame.parent.value)
    ensures var t, old' := FrameStep(s, frame, at, ttl), s.tasks[idx].transcript;
      t.tasks == s.tasks[idx := s.tasks[idx].(lastUpdate := at, transcript := old' + [TranscriptEntry(frame, |old'|)])]
  {
    hide Gc;
    CarriesIs(s.tasks, idx, frame.parent.value);
  }

  /** A frame whose task is not known waits, behind those that wait for the same task and are still young. */
  lemma UnknownFrameWaits(s: State, frame: Frame, at: int, ttl: int)
    requires HasParent(frame) && Unknown(s.tasks, frame.parent.value)
    ensures var t, parent := FrameStep(s, frame, at, ttl), frame.parent.value;
      && t.tasks == s.tasks && parent in t.buffers
      && t.buffers[parent] == Filter(if parent in s.buffers then s.buffers[parent] else [], (x: Pending) => at - x.addedAt < ttl)
                              + [Pending(frame, at)]
  {
    UnknownIff(s.tasks, frame.parent.value);
  }

  /** Every sub-agent frame, known or not, makes the other buffers drop what is as old as the limit, and only that. */
  lemma OthersKeepTheYoung(s: State, frame: Frame, at: int, ttl: int, parent: string)
    requires HasParent(frame) && (parent != frame.parent.value || !Unknown(s.tasks, parent))
    ensures var kept := Filter(if parent in s.buffers then s.buffers[parent] else [], (x: Pending) => at - x.addedAt < ttl);
      var t := FrameStep(s, frame, at, ttl);
      (if parent in t.buffers then t.buffers[parent] else []) == kept
  {
    UnknownIff(s.tasks, frame.parent.value);
  }

  // ---------- in order ----------

  /** a is A with some members left out. */
  predicate Sub(a: seq<Frame>, A: seq<Frame>) {
    a == [] || (A != [] && ((a[|a| - 1] == A[|A| - 1] && Sub(a[..|a| - 1], A[..|A| - 1])) || Sub(a, A[..|A| - 1])))
  }

  lemma SubMore(a: seq<Frame>, A: seq<Frame>, f: Frame)
    requires Sub(a, A)
    ensures Sub(a, A + [f]) && Sub(a + [f], A + [f])
  {
    assert (A + [f])[..|A|] == A && (a + [f])[..|a|] == a;
  }

  lemma {:induction false} SubSelf(a: seq<Frame>)
    ensures Sub(a, a)
  {
    if a != [] { SubSelf(a[..|a| - 1]); }
  }

  lemma {:induction false} SubTransitive(a: seq<Frame>, b: seq<Frame>, A: seq<Frame>)
    requires Sub(a, b) && Sub(b, A)
    ensures Sub(a, A)
    decreases |A| + |b|
  {
    if a != [] {
      if b[|b| - 1] == A[|A| - 1] && Sub(b[..|b| - 1], A[..|A| - 1]) {
        if a[|a| - 1] == b[|b| - 1] && Sub(a[..|a| - 1], b[..|b| - 1]) {
          SubTransitive(a[..|a| - 1], b[..|b| - 1], A[..|A| - 1]);
        } else {
          SubTransitive(a, b[..|b| - 1], A[..|A| - 1]);
        }
      } else {
        SubTransitive(a, b, A[..|A| - 1]);
      }
    }
  }

  lemma {:induction false} SubFront(a: seq<Frame>, b: seq<Frame>)
    ensures Sub(a, a + b)
    decreases |b|
  {
    if b == [] {
      assert a + b == a;
      SubSelf(a);
    } else {
      assert a + b == (a + b[..|b| - 1]) + [b[|b| - 1]];
      SubFront(a, b[..|b| - 1]);
      SubMore(a, a + b[..|b| - 1], b[|b| - 1]);
    }
  }

  lemma {:induction false} SubBack(a: seq<Frame>, b: seq<Frame>, c: seq<Frame>)
    requires Sub(b, c)
    ensures Sub(a + b, a + c)
    decreases |c|
  {
    if b == [] {
      assert a + b == a;
      SubFront(a, c);
    } else {
      assert (a + c)[..|a + c| - 1] == a + c[..|c| - 1] && (a + b)[..|a + b| - 1] == a + b[..|b| - 1];
      if b[|b| - 1] == c[|c| - 1] && Sub(b[..|b| - 1], c[..|c| - 1]) {
        SubBack(a, b[..|b| - 1], c[..|c| - 1]);
      } else {
        SubBack(a, b, c[..|c| - 1]);
      }
    }
  }

  lemma {:induction false} SubSize(a: seq<Frame>, A: seq<Frame>)
    requires Sub(a, A)
    ensures |a| <= |A| && (|a| == |A| ==> a == A)
    decreases |A|
  {
    if a != [] {
      if a[|a| - 1] == A[|A| - 1] && Sub(a[..|a| - 1], A[..|A| - 1]) {
        SubSize(a[..|a| - 1], A[..|A| - 1]);
      } else {
        SubSize(a, A[..|A| - 1]);
      }
    }
  }

  // ---------- the frames of one parent ----------

  /** The frames that name a parent, in the order of their arrival since the last reset. */
  function ArrivedFor(events: seq<Event>, parent: string): seq<Frame> {
    if events == [] then []
    else
      var before, e := ArrivedFor(events[..|events| - 1], parent), events[|events| - 1];
      if e.Cleared? then []
      else if e.FrameArrives? && e.frame.parent == Some(parent) then before + [e.frame]
      else before
  }

  /** The frames of a transcript that name the parent. */
  function Shown(transcript: seq<TranscriptEntry>, parent: string): seq<Frame> {
    if transcript == [] then []
    else
      var last := transcript[|transcript| - 1].frame;
      Shown(transcript[..|transcript| - 1], parent) + if last.parent == Some(parent) then [last] else []
  }

  function FramesOf(buf: seq<Pending>): seq<Frame> {
    if buf == [] then [] else FramesOf(buf[..|buf| - 1]) + [buf[|buf| - 1].frame]
  }

  /** The frames that wait for a task with that tool use. */
  function Waiting(s: State, parent: string): seq<Frame> {
    if parent in s.buffers then FramesOf(s.buffers[parent]) else []
  }

  ghost predicate InOrder(s: State, events: seq<Event>, parent: string) {
    && Sub(Waiting(s, parent), ArrivedFor(events, parent))
    && forall t :: t in s.tasks ==> Sub(Shown(t.transcript, parent) + Waiting(s, parent), ArrivedFor(events, parent))
  }

  lemma {:induction false} ShownAppend(a: seq<TranscriptEntry>, b: seq<TranscriptEntry>, parent: string)
    ensures Shown(a + b, parent) == Shown(a, parent) + Shown(b, parent)
    decreases |b|
  {
    if b == [] {
      assert a + b == a;
    } else {
      assert (a + b)[..|a + b| - 1] == a + b[..|b| - 1];
      ShownAppend(a, b[..|b| - 1], parent);
    }
  }

  lemma ShownOne(x: TranscriptEntry, parent: string)
    ensures Shown([x], parent) == if x.frame.parent == Some(parent) then [x.frame] else []
  {
    assert [x][..0] == [];
  }

  /** Flushed entries show the frames that waited for this parent, and none of another. */
  lemma {:induction false} FlushedShow(buf: seq<Pending>, from: nat, owner: string, parent: string)
    requires forall x :: x in buf ==> x.frame.parent == Some(owner)
    ensures Shown(Entries(buf, from), parent) == if owner == parent then FramesOf(buf) else []
  {
    if buf != [] {
      var front, last := buf[..|buf| - 1], buf[|buf| - 1];
      FlushedShow(front, from, owner, parent);
      assert Entries(buf, from)[..|buf| - 1] == Entries(front, from);
      assert last in buf;
    }
  }

  lemma FramesMore(buf: seq<Pending>, x: Pending)
    ensures FramesOf(buf + [x]) == FramesOf(buf) + [x.frame]
  {
    assert (buf + [x])[..|buf|] == buf;
  }

  lemma YoungMore(front: seq<Pending>, last: Pending, at: int, ttl: int)
    ensures Filter(front + [last], (x: Pending) => at - x.addedAt < ttl)
         == Filter(front, (x: Pending) => at - x.addedAt < ttl) + if at - last.addedAt < ttl then [last] else []
  {
    FilterAppend(front, [last], (x: Pending) => at - x.addedAt < ttl);
    assert [last][1..] == [];
  }

  lemma {:induction false} KeptSub(buf: seq<Pending>, at: int, ttl: int)
    ensures Sub(FramesOf(Filter(buf, (x: Pending) => at - x.addedAt < ttl)), FramesOf(buf))
  {
    hide Sub;
    if buf == [] {
      SubNothing([]);
    } else {
      var front, last := buf[..|buf| - 1], buf[|buf| - 1];
      var kept := Filter(front, (x: Pending) => at - x.addedAt < ttl);
      KeptSub(front, at, ttl);
      YoungMore(front, last, at, ttl);
      assert buf == front + [last] && kept + [] == kept;
      SubMore(FramesOf(kept), FramesOf(front), last.frame);
      FramesMore(kept, last);
    }
  }

  // ---------- every step keeps the order ----------

  lemma ArrivedMore(events: seq<Event>, e: Event, parent: string)
    ensures ArrivedFor(events + [e], parent) ==
      if e.Cleared? then []
      else if e.FrameArrives? && e.frame.parent == Some(parent) then ArrivedFor(events, parent) + [e.frame]
      else ArrivedFor(events, parent)
  {
    assert (events + [e])[..|events|] == events;
  }

  /** When fewer frames wait, order is kept. */
  lemma FewerWaiting(shown: seq<Frame>, fewer: seq<Frame>, waiting: seq<Frame>, A: seq<Frame>)
    requires Sub(shown + waiting, A) && Sub(fewer, waiting)
    ensures Sub(shown + fewer, A)
  {
    SubBack(shown, fewer, waiting);
    SubTransitive(shown + fewer, shown + waiting, A);
  }

  lemma OtherFrameKeepsOrder(s: State, events: seq<Event>, frame: Frame, at: int, ttl: int, parent: string)
    requires HasParent(frame) && frame.parent != Some(parent) && InOrder(s, events, parent)
    ensures InOrder(FrameStep(s, frame, at, ttl), events + [FrameArrives(frame, at)], parent)
  {
    hide Sub, Shown, ArrivedFor, FramesOf;
    var t, q := FrameStep(s, frame, at, ttl), frame.parent.value;
    ArrivedMore(events, FrameArrives(frame, at), parent);
    OthersKeepTheYoung(s, frame, at, ttl, parent);
    KeptSub(if parent in s.buffers then s.buffers[parent] else [], at, ttl);
    assert FramesOf([]) == [] by { NoFrames(); }
    assert Sub(Waiting(t, parent), Waiting(s, parent));
    SubTransitive(Waiting(t, parent), Waiting(s, parent), ArrivedFor(events, parent));
    forall x | x in t.tasks ensures Sub(Shown(x.transcript, parent) + Waiting(t, parent), ArrivedFor(events, parent)) {
      var i :| 0 <= i < |t.tasks| && t.tasks[i] == x;
      assert s.tasks[i] in s.tasks;
      SameShown(s, frame, at, ttl, i, parent);
      FewerWaiting(Shown(x.transcript, parent), Waiting(t, parent), Waiting(s, parent), ArrivedFor(events, parent));
    }
  }

  lemma NoFrames()
    ensures FramesOf([]) == []
  {
  }

  lemma SameShown(s: State, frame: Frame, at: int, ttl: int, i: nat, parent: string)
    requires HasParent(frame) && i < |s.tasks|
    ensures var t := FrameStep(s, frame, at, ttl);
      && |t.tasks| == |s.tasks|
      && (frame.parent != Some(parent) || IndexOfToolUse(s.tasks, parent) != i ==>
            Shown(t.tasks[i].transcript, parent) == Shown(s.tasks[i].transcript, parent))
      && (frame.parent == Some(parent) && IndexOfToolUse(s.tasks, parent) == i ==>
            Shown(t.tasks[i].transcript, parent) == Shown(s.tasks[i].transcript, parent) + [frame])
  {
    hide Shown, Gc;
    var x := TranscriptEntry(frame, |s.tasks[i].transcript|);
    ShownAppend(s.tasks[i].transcript, [x], parent);
    ShownOne(x, parent);
    assert Shown(s.tasks[i].transcript, parent) + [] == Shown(s.tasks[i].transcript, parent);
  }

  lemma UnknownFrameKeepsOrder(s: State, events: seq<Event>, frame: Frame, at: int, ttl: int, parent: string)
    requires HasParent(frame) && frame.parent == Some(parent) && InOrder(s, events, parent) && Unknown(s.tasks, parent)
    ensures InOrder(FrameStep(s, frame, at, ttl), events + [FrameArrives(frame, at)], parent)
  {
    hide Sub, Shown, ArrivedFor, FramesOf, FrameStep, Filter;
    var t, A := FrameStep(s, frame, at, ttl), ArrivedFor(events, parent);
    ArrivedMore(events, FrameArrives(frame, at), parent);
    NoFrames();
    UnknownFrameWaits(s, frame, at, ttl);
    var kept := Filter(if parent in s.buffers then s.buffers[parent] else [], (x: Pending) => at - x.addedAt < ttl);
    KeptSub(if parent in s.buffers then s.buffers[parent] else [], at, ttl);
    FramesMore(kept, Pending(frame, at));
    SubTransitive(FramesOf(kept), Waiting(s, parent), A);
    SubMore(FramesOf(kept), A, frame);
    var young := FramesOf(kept);
    assert Waiting(t, parent) == young + [frame] && t.tasks == s.tasks;
    forall x | x in t.tasks ensures Sub(Shown(x.transcript, parent) + Waiting(t, parent), A + [frame]) {
      BehindTheYoung(Shown(x.transcript, parent), young, Waiting(s, parent), A, frame);
    }
  }

  lemma BehindTheYoung(shown: seq<Frame>, young: seq<Frame>, waiting: seq<Frame>, A: seq<Frame>, frame: Frame)
    requires Sub(shown + waiting, A) && Sub(young, waiting)
    ensures Sub(shown + (young + [frame]), A + [frame])
  {
    hide Sub;
    FewerWaiting(shown, young, waiting, A);
    SubMore(shown + young, A, frame);
    assert shown + young + [frame] == shown + (young + [frame]);
  }

  lemma KnownFrameKeepsOrder(s: State, events: seq<Event>, frame: Frame, at: int, ttl: int, parent: string)
    requires HasParent(frame) && frame.parent == Some(parent) && InOrder(s, events, parent)
    requires !Unknown(s.tasks, parent) && parent !in s.buffers
    ensures InOrder(FrameStep(s, frame, at, ttl), events + [FrameArrives(frame, at)], parent)
  {
    hide Sub, Shown, ArrivedFor, FramesOf, FrameStep, Filter;
    var t, A := FrameStep(s, frame, at, ttl), ArrivedFor(events, parent);
    ArrivedMore(events, FrameArrives(frame, at), parent);
    NoFrames();
    assert Waiting(s, parent) == [];
    NoneWaits(s, frame, at, ttl, parent);
    SubNothing(A + [frame]);
    SameSize(s, frame, at, ttl);
    forall x | x in t.tasks ensures Sub(Shown(x.transcript, parent) + Waiting(t, parent), A + [frame]) {
      var i :| 0 <= i < |t.tasks| && t.tasks[i] == x;
      assert s.tasks[i] in s.tasks && Shown(s.tasks[i].transcript, parent) + [] == Shown(s.tasks[i].transcript, parent);
      KnownFrameAt(s, frame, at, ttl, i, parent, A);
      assert Shown(x.transcript, parent) + [] == Shown(x.transcript, parent);
    }
  }

  lemma NoneWaits(s: State, frame: Frame, at: int, ttl: int, parent: string)
    requires HasParent(frame) && !Unknown(s.tasks, parent) && parent !in s.buffers
    ensures Waiting(FrameStep(s, frame, at, ttl), parent) == []
  {
    hide FrameStep;
    OthersKeepTheYoung(s, frame, at, ttl, parent);
    NoFrames();
  }

  lemma KnownFrameAt(s: State, frame: Frame, at: int, ttl: int, i: nat, parent: string, A: seq<Frame>)
    requires HasParent(frame) && frame.parent == Some(parent) && i < |s.tasks| == |FrameStep(s, frame, at, ttl).tasks|
    requires Sub(Shown(s.tasks[i].transcript, parent), A)
    ensures Sub(Shown(FrameStep(s, frame, at, ttl).tasks[i].transcript, parent), A + [frame])
  {
    hide Sub, Shown, FrameStep;
    SameShown(s, frame, at, ttl, i, parent);
    SubMore(Shown(s.tasks[i].transcript, parent), A, frame);
  }

  lemma SameSize(s: State, frame: Frame, at: int, ttl: int)
    requires HasParent(frame)
    ensures |FrameStep(s, frame, at, ttl).tasks| == |s.tasks|
  {
  }

  lemma OwnFrameKeepsOrder(s: State, events: seq<Event>, frame: Frame, at: int, ttl: int, parent: string)
    requires HasParent(frame) && frame.parent == Some(parent) && InOrder(s, events, parent) && NoneStranded(s)
    ensures InOrder(FrameStep(s, frame, at, ttl), events + [FrameArrives(frame, at)], parent)
  {
    hide InOrder, FrameStep;
    UnknownIff(s.tasks, parent);
    if Unknown(s.tasks, parent) {
      UnknownFrameKeepsOrder(s, events, frame, at, ttl, parent);
    } else {
      KnownFrameKeepsOrder(s, events, frame, at, ttl, parent);
    }
  }

  /** Each task of the table after an upsert has the transcript of one before, or none yet. */
  lemma UpsertKeepsTranscripts(tasks: seq<Task>, ev: TaskEvent, at: int, cap: int, x: Task)
    requires x in Upsert(tasks, ev, at, cap)
    ensures x.transcript == [] || exists t :: t in tasks && t.transcript == x.transcript
  {
    hide Cap;
    if Upsert(tasks, ev, at, cap) != tasks {
      var all := Upserted(tasks, ev, at);
      if all != [] { CapMembers(all, cap); }
      assert x in all by { CappedMember(all, cap, x); }
      var j :| 0 <= j < |all| && all[j] == x;
      if j < |tasks| { assert tasks[j] in tasks && tasks[j].transcript == x.transcript; }
    } else {
      assert x in tasks;
    }
  }

  lemma CappedMember(all: seq<Task>, cap: int, x: Task)
    requires x in Cap(all, cap)
    ensures x in all
  {
    if all != [] { CapMembers(all, cap); }
  }

  lemma UpsertKeepsOrder(s: State, events: seq<Event>, ev: TaskEvent, at: int, flushAt: int, cap: int, parent: string)
    requires InOrder(s, events, parent)
    ensures InOrder(s.(tasks := Upsert(s.tasks, ev, at, cap)), events + [TaskArrives(ev, at, flushAt)], parent)
  {
    hide Sub, Upsert;
    var tasks, A := Upsert(s.tasks, ev, at, cap), ArrivedFor(events, parent);
    ArrivedMore(events, TaskArrives(ev, at, flushAt), parent);
    forall x | x in tasks ensures Sub(Shown(x.transcript, parent) + Waiting(s, parent), A) {
      UpsertKeepsTranscripts(s.tasks, ev, at, cap, x);
      if x.transcript == [] {
        assert Shown(x.transcript, parent) + Waiting(s, parent) == Waiting(s, parent);
      }
    }
  }

  lemma FlushKeepsOrder(s: State, events: seq<Event>, owner: string, at: int, parent: string)
    requires InOrder(s, events, parent) && IndexOfToolUse(s.tasks, owner) >= 0
    requires forall x :: owner in s.buffers && x in s.buffers[owner] ==> x.frame.parent == Some(owner)
    ensures InOrder(Flush(s, owner, at), events, parent)
  {
    hide Sub, Shown, ArrivedFor, FramesOf;
    if owner in s.buffers && s.buffers[owner] != [] {
      var t, A, idx := Flush(s, owner, at), ArrivedFor(events, parent), IndexOfToolUse(s.tasks, owner);
      var tr, buf := s.tasks[idx].transcript, s.buffers[owner];
      FlushedShow(buf, |tr|, owner, parent);
      ShownAppend(tr, Entries(buf, |tr|), parent);
      NoFrames();
      SubNothing(Waiting(s, parent));
      SubNothing(A);
      forall x | x in t.tasks ensures Sub(Shown(x.transcript, parent) + Waiting(t, parent), A) {
        var i :| 0 <= i < |t.tasks| && t.tasks[i] == x;
        assert s.tasks[i] in s.tasks;
        var old' := Shown(s.tasks[i].transcript, parent);
        if owner == parent && i != idx { FewerWaiting(old', [], Waiting(s, parent), A); }
        assert old' + [] == old' && Shown(x.transcript, parent) + [] == Shown(x.transcript, parent);
      }
    }
  }

  lemma SubNothing(A: seq<Frame>)
    ensures Sub([], A)
  {
  }

  lemma StepKeepsOrder(s: State, events: seq<Event>, e: Event, cap: int, ttl: int, parent: string)
    requires Inv(s, cap) && NoneStranded(s) && InOrder(s, events, parent) && parent != ""
    ensures InOrder(Step(s, e, cap, ttl), events + [e], parent)
  {
    hide Sub, Upsert, Flush, FrameStep, InOrder;
    match e
    case Cleared => assert InOrder(EMPTY, events + [e], parent) by { EmptyInOrder(events + [e], parent); }
    case FrameArrives(frame, at) =>
      if !HasParent(frame) {
        SameOrder(s, events, e, parent);
      } else if frame.parent == Some(parent) {
        OwnFrameKeepsOrder(s, events, frame, at, ttl, parent);
      } else {
        OtherFrameKeepsOrder(s, events, frame, at, ttl, parent);
      }
    case TaskArrives(ev, at, flushAt) =>
      if ev.taskId == "" || (ev.Updated? && !ev.hasPatch) {
        SameOrder(s, events, e, parent);
      } else {
        UpsertKeepsOrder(s, events, ev, at, flushAt, cap, parent);
        if ev.Started? && ev.toolUseId.Some? && ev.toolUseId.value != "" {
          FlushFindsStartedTask(s, ev, at, cap);
          FlushKeepsOrder(s.(tasks := Upsert(s.tasks, ev, at, cap)), events + [e], ev.toolUseId.value, flushAt, parent);
        }
      }
  }

  lemma EmptyInOrder(events: seq<Event>, parent: string)
    ensures InOrder(EMPTY, events, parent)
  {
  }

  lemma SameOrder(s: State, events: seq<Event>, e: Event, parent: string)
    requires InOrder(s, events, parent) && !e.Cleared? && (e.FrameArrives? ==> e.frame.parent != Some(parent))
    ensures InOrder(s, events + [e], parent)
  {
    ArrivedMore(events, e, parent);
  }

  /**
   Over every run in which no frame is stranded: for each parent the frames in any one transcript, and behind them those
   that wait, are in the order of their arrival.
   */
  lemma {:induction false} RunKeepsOrder(events: seq<Event>, cap: int, ttl: int, parent: string)
    requires NeverStrands(events, cap, ttl) && parent != ""
    ensures InOrder(Run(events, cap, ttl), events, parent)
  {
    hide Step, Strands, Inv, InOrder, NoneStranded;
    if events == [] {
      EmptyInOrder(events, parent);
    } else {
      var before, e := events[..|events| - 1], events[|events| - 1];
      RunKeepsOrder(before, cap, ttl, parent);
      RunKeepsInv(before, cap, ttl);
      RunStrandsNone(before, cap, ttl);
      StepKeepsOrder(Run(before, cap, ttl), before, e, cap, ttl, parent);
      assert before + [e] == events;
    }
  }

  // ---------- all of them ----------

  lemma {:induction false} ShownCount(transcript: seq<TranscriptEntry>, parent: string, f: Frame)
    requires f.parent == Some(parent)
    ensures multiset(Shown(transcript, parent))[f] == InTranscript(transcript, f)
  {
    if transcript != [] {
      var front, last := transcript[..|transcript| - 1], transcript[|transcript| - 1];
      ShownCount(front, parent, f);
      TranscriptAppend(front, [last], f);
      assert front + [last] == transcript && [last][1..] == [];
    }
  }

  lemma {:induction false} WaitingCount(buf: seq<Pending>, f: Frame)
    ensures multiset(FramesOf(buf))[f] == InBuffer(buf, f)
  {
    if buf != [] {
      var front, last := buf[..|buf| - 1], buf[|buf| - 1];
      WaitingCount(front, f);
      BufferAppend(front, [last], f);
      assert front + [last] == buf && [last][1..] == [];
    }
  }

  lemma {:induction false} OtherBuffersCount(m: Buffers, f: Frame)
    requires forall q: string, x: Pending :: q in m && x in m[q] ==> x.frame != f
    ensures InBuffers(m, f) == 0
    decreases |m|
  {
    if m != map[] {
      var k := AnyParent(m);
      NoneInBuffer(m[k], f);
      OtherBuffersCount(m - {k}, f);
    }
  }

  lemma {:induction false} NoneInBuffer(buf: seq<Pending>, f: Frame)
    requires forall x :: x in buf ==> x.frame != f
    ensures InBuffer(buf, f) == 0
  {
    if buf != [] {
      assert buf[0] in buf;
      NoneInBuffer(buf[1..], f);
    }
  }

  lemma BuffersCount(s: State, cap: int, parent: string, f: Frame)
    requires Inv(s, cap) && f.parent == Some(parent)
    ensures InBuffers(s.buffers, f) == multiset(Waiting(s, parent))[f]
  {
    var rest := s.buffers - {parent};
    forall q: string, x: Pending | q in rest && x in rest[q] ensures x.frame != f {
      assert q in s.buffers && x in s.buffers[q] && x.frame.parent == Some(q);
    }
    OtherBuffersCount(rest, f);
    if parent in s.buffers {
      PickBuffer(s.buffers, parent, f);
      WaitingCount(s.buffers[parent], f);
    } else {
      assert rest == s.buffers;
    }
  }

  lemma {:induction false} OneTranscriptCount(tasks: seq<Task>, i: nat, parent: string, f: Frame)
    requires i < |tasks| && f.parent == Some(parent)
    requires forall j :: 0 <= j < |tasks| && j != i ==> Shown(tasks[j].transcript, parent) == []
    ensures InTranscripts(tasks, f) == multiset(Shown(tasks[i].transcript, parent))[f]
  {
    hide Shown;
    ShownCount(tasks[0].transcript, parent, f);
    if i == 0 {
      forall j | 0 <= j < |tasks[1..]| ensures Shown(tasks[1..][j].transcript, parent) == [] { assert tasks[1..][j] == tasks[j + 1]; }
      NoTranscriptCount(tasks[1..], parent, f);
    } else {
      forall j | 0 <= j < |tasks[1..]| && j != i - 1 ensures Shown(tasks[1..][j].transcript, parent) == [] {
        assert tasks[1..][j] == tasks[j + 1];
      }
      OneTranscriptCount(tasks[1..], i - 1, parent, f);
    }
  }

  lemma {:induction false} NoTranscriptCount(tasks: seq<Task>, parent: string, f: Frame)
    requires f.parent == Some(parent) && forall j :: 0 <= j < |tasks| ==> Shown(tasks[j].transcript, parent) == []
    ensures InTranscripts(tasks, f) == 0
  {
    hide Shown;
    if tasks != [] {
      ShownCount(tasks[0].transcript, parent, f);
      NoTranscriptCount(tasks[1..], parent, f);
    }
  }

  lemma {:induction false} ArrivedCount(events: seq<Event>, parent: string, f: Frame)
    requires f.parent == Some(parent) && parent != "" && forall e :: e in events ==> !e.Cleared?
    ensures multiset(ArrivedFor(events, parent))[f] == Arrivals(events, f)
  {
    if events != [] {
      assert events[|events| - 1] in events;
      ArrivedCount(events[..|events| - 1], parent, f);
    }
  }

  lemma {:induction false} NamesParent(a: seq<TranscriptEntry>, parent: string)
    ensures forall f :: f in Shown(a, parent) ==> f.parent == Some(parent)
  {
    if a != [] { NamesParent(a[..|a| - 1], parent); }
  }

  lemma {:induction false} ArrivedNameParent(events: seq<Event>, parent: string)
    ensures forall f :: f in ArrivedFor(events, parent) ==> f.parent == Some(parent)
  {
    if events != [] { ArrivedNameParent(events[..|events| - 1], parent); }
  }

  /** No frame of the parent was let go of: none expired, none left with an evicted task. */
  ghost predicate NoneLost(events: seq<Event>, cap: int, ttl: int, parent: string) {
    forall f: Frame :: f.parent == Some(parent) ==>
      RunLedger(events, cap, ttl, f).expired == 0 && RunLedger(events, cap, ttl, f).evicted == 0
      && RunLedger(events, cap, ttl, f).cleared == 0
  }

  lemma SubSame(a: seq<Frame>, A: seq<Frame>)
    requires Sub(a, A) && multiset(a) == multiset(A)
    ensures a == A
  {
    SubSize(a, A);
    assert |a| == |multiset(a)| && |A| == |multiset(A)|;
  }

  /**
   When none was lost and one task alone shows frames of the parent, that task's transcript and the frames that wait are,
   one after the other, exactly the frames that arrived for it, in the order of their arrival.
   */
  lemma TranscriptIsTheArrivals(events: seq<Event>, cap: int, ttl: int, parent: string, i: nat)
    requires NeverStrands(events, cap, ttl) && parent != "" && (forall e :: e in events ==> !e.Cleared?)
    requires NoneLost(events, cap, ttl, parent) && i < |Run(events, cap, ttl).tasks|
    requires forall j :: 0 <= j < |Run(events, cap, ttl).tasks| && j != i ==>
      Shown(Run(events, cap, ttl).tasks[j].transcript, parent) == []
    ensures Shown(Run(events, cap, ttl).tasks[i].transcript, parent) + Waiting(Run(events, cap, ttl), parent)
         == ArrivedFor(events, parent)
  {
    hide Run, RunLedger, Shown, ArrivedFor, FramesOf, Sub, NeverStrands, InTranscripts, InBuffers, Arrivals;
    var s := Run(events, cap, ttl);
    var a, A := Shown(s.tasks[i].transcript, parent) + Waiting(s, parent), ArrivedFor(events, parent);
    RunKeepsOrder(events, cap, ttl, parent);
    RunKeepsInv(events, cap, ttl);
    assert s.tasks[i] in s.tasks && Sub(a, A);
    forall f: Frame ensures multiset(a)[f] == multiset(A)[f] {
      if f.parent == Some(parent) {
        FramesAreConserved(events, cap, ttl, f);
        AcceptedAreArrivals(events, cap, ttl, f);
        ArrivedCount(events, parent, f);
        BuffersCount(s, cap, parent, f);
        OneTranscriptCount(s.tasks, i, parent, f);
      } else {
        NoneElse(s, cap, i, parent, f);
        ArrivedNameParent(events, parent);
      }
    }
    SubSame(a, A);
  }

  lemma NoneElse(s: State, cap: int, i: nat, parent: string, f: Frame)
    requires Inv(s, cap) && i < |s.tasks| && f.parent != Some(parent)
    ensures f !in Shown(s.tasks[i].transcript, parent) + Waiting(s, parent)
  {
    NamesParent(s.tasks[i].transcript, parent);
    if parent in s.buffers { FramesNameParent(s.buffers[parent], parent); }
  }

  lemma {:induction false} FramesNameParent(buf: seq<Pending>, parent: string)
    requires forall x :: x in buf ==> x.frame.parent == Some(parent)
    ensures forall f :: f in FramesOf(buf) ==> f.parent == Some(parent)
  {
    if buf != [] { FramesNameParent(buf[..|buf| - 1], parent); }
  }

  // ---------- the condition is needed ----------

  /** A frame left waiting when a notification introduced its task comes behind a later one once the task starts. */
  lemma StrandedComesLate(first: Frame, second: Frame, parent: string, id: string, at: int, cap: int, ttl: int)
    requires first.parent == second.parent == Some(parent) && parent != "" && id != "" && cap >= 1 && ttl > 0
    ensures var s0 := FrameStep(EMPTY, first, at, ttl);
      var noticed := Notification(id, Some(parent), None, None, None, None);
      var started := Started(id, Some(parent), None, None, None, None);
      var s := TaskStep(FrameStep(TaskStep(s0, noticed, at, at, cap), second, at, ttl), started, at, at, cap);
      && Strands(s0, TaskArrives(noticed, at, at), cap)
      && |s.tasks| == 1 && Shown(s.tasks[0].transcript, parent) == [second, first] && Waiting(s, parent) == []
  {
    hide FrameStep, TaskStep, Shown;
    var noticed := Notification(id, Some(parent), None, None, None, None);
    var started := Started(id, Some(parent), None, None, None, None);
    var s0 := FrameStep(EMPTY, first, at, ttl);
    UnknownFrameWaits(EMPTY, first, at, ttl);
    assert s0.tasks == [] && s0.buffers[parent] == [Pending(first, at)];
    var s1 := TaskStep(s0, noticed, at, at, cap);
    NoticeIntroduces(s0, parent, id, at, cap);
    var s2 := FrameStep(s1, second, at, ttl);
    KnownFrameGoesLast(s1, second, at, ttl, 0);
    OthersKeepTheYoung(s1, second, at, ttl, parent);
    assert parent in s2.buffers && s2.buffers[parent] == [Pending(first, at)];
    StartFlushes(s2, parent, id, at, cap, first);
    var one, two := TranscriptEntry(second, 0), TranscriptEntry(first, 1);
    assert s2.tasks[0].transcript == [one] && [one] + [two] == [one, two];
    ShownAppend([one], [two], parent);
    ShownOne(one, parent);
    ShownOne(two, parent);
  }

  lemma NoticeIntroduces(s: State, parent: string, id: string, at: int, cap: int)
    requires s.tasks == [] && id != "" && cap >= 1 && parent in s.buffers
    ensures var noticed := Notification(id, Some(parent), None, None, None, None);
      var t := TaskStep(s, noticed, at, at, cap);
      && Strands(s, TaskArrives(noticed, at, at), cap)
      && t.buffers == s.buffers && |t.tasks| == 1
      && t.tasks[0].taskId == id && t.tasks[0].toolUseId == Some(parent) && t.tasks[0].transcript == []
  {
  }

  lemma StartFlushes(s: State, parent: string, id: string, at: int, cap: int, f: Frame)
    requires |s.tasks| == 1 && s.tasks[0].taskId == id && s.tasks[0].toolUseId == Some(parent) && cap >= 1 && id != "" && parent != ""
    requires parent in s.buffers && s.buffers[parent] == [Pending(f, at)]
    ensures var t := TaskStep(s, Started(id, Some(parent), None, None, None, None), at, at, cap);
      && |t.tasks| == 1 && parent !in t.buffers
      && t.tasks[0].transcript == s.tasks[0].transcript + [TranscriptEntry(f, |s.tasks[0].transcript|)]
  {
    var ev := Started(id, Some(parent), None, None, None, None);
    var up := s.(tasks := Upsert(s.tasks, ev, at, cap));
    assert |up.tasks| == 1 && up.tasks[0].toolUseId == Some(parent) && up.tasks[0].transcript == s.tasks[0].transcript;
    FlushAppends(up, parent, at, 0);
  }
}
