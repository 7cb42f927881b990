/**
 The timeline classifier (packages/element/src/lib/classify.ts): a stateless pass from message entries to
 rows, and a memoising one that must agree with it while the timeline changes underneath.
 */
module Classifier {
  import opened Prelude
  import opened Frames
  import BashXml

  datatype Entry =
    | LocalUser(id: string, text: string)
    | Streaming(id: string, content: Json)
    | FrameEntry(id: string, frame: Frame)

  datatype Shell = Shell(command: string, chunks: seq<string>)

  datatype Row =
    | LocalUserRow(id: string, text: string)
    | UserRow(id: string, text: string)
    | AssistantRow(id: string, content: Json)
    | StreamingRow(id: string, content: Json)
    | ToolResultRow(id: string, blocks: seq<UserBlock>)
    | ResultRow(id: string, result: Json)
    | SystemRow(id: string, payload: SystemPayload)
    | ModeChangeRow(id: string, mode: string)
    | BashRow(id: string, command: string, stdout: string, stderr: string, exit: string)
    | LiveBashRow(id: string, command: string, chunks: seq<string>, pending: bool)

  datatype Analysis = Analysis(rows: seq<Row>, consumed: nat, shellsDependent: bool)

  // ---------- specification ----------

  function TextOf(b: UserBlock): seq<string> {
    if b.TextBlock? && b.text.Some? then [b.text.value] else []
  }

  function UserText(content: UserContent): string {
    match content
    case PlainText(text) => text
    case NoContent => ""
    case Blocks(blocks) => Join(Concat(Map(blocks, TextOf)), "\n")
  }

  predicate IsToolResultOnly(content: UserContent) {
    content.Blocks? && content.blocks != [] && forall b :: b in content.blocks ==> b.ToolResultBlock?
  }

  predicate IsUserFrame(e: Entry) {
    e.FrameEntry? && e.frame.body.User?
  }

  /** The first user frame at or after `from`, or -1. */
  function NextUserFrameAt(arr: seq<Entry>, from: nat): (j: int)
    ensures j == -1 || (from <= j < |arr| && IsUserFrame(arr[j]))
    ensures forall k :: from <= k < (if j >= 0 then j else |arr|) ==> !IsUserFrame(arr[k])
    decreases |arr| - from
  {
    if from >= |arr| then -1
    else if IsUserFrame(arr[from]) then from
    else NextUserFrameAt(arr, from + 1)
  }

  predicate HiddenSystem(p: SystemPayload) {
    p.Init? || p.SessionStateChanged? || p.TaskLifecycle? || p.Hook?
  }

  /** The last shell entry of that command. */
  function LiveShell(shells: seq<Shell>, command: string): Option<Shell> {
    if shells == [] then None
    else if shells[|shells| - 1].command == command then Some(shells[|shells| - 1])
    else LiveShell(shells[..|shells| - 1], command)
  }

  function Plain(rows: seq<Row>): Analysis {
    Analysis(rows, 0, false)
  }

  function LiveRow(id: string, command: string, shells: seq<Shell>): Row {
    var live := LiveShell(shells, command);
    if live.None? then LiveBashRow(id, command, [], true)
    else LiveBashRow(id, command, live.value.chunks, live.value.chunks == [])
  }

  /** The output frame that completes the bash input at position i. */
  function PairedOutput(messages: seq<Entry>, i: nat): Option<BashXml.BashFrame>
    requires i < |messages|
  {
    var j := NextUserFrameAt(messages, i + 1);
    if j < 0 then None
    else
      var text := UserText(messages[j].frame.body.content);
      var parsed := if text == "" then None else BashXml.ParseBashFrame(text);
      if parsed.Some? && parsed.value.Output? then parsed else None
  }

  function AnalyzeUser(messages: seq<Entry>, i: nat, shells: seq<Shell>): Analysis
    requires i < |messages| && IsUserFrame(messages[i])
  {
    var id, content := messages[i].id, messages[i].frame.body.content;
    var text := UserText(content);
    match BashXml.ParseBashFrame(text)
    case Some(Merged(command, stdout, stderr, exit, trailing)) =>
      Plain([BashRow(id + ":bash", command, stdout, stderr, exit)]
            + if trailing != "" then [UserRow(id + ":text", trailing)] else [])
    case Some(Input(command)) =>
      var out := PairedOutput(messages, i);
      if out.Some? then
        Analysis([BashRow(id, command, out.value.stdout, out.value.stderr, out.value.exit)],
                 NextUserFrameAt(messages, i + 1) - i, false)
      else Analysis([LiveRow(id, command, shells)], 0, true)
    case Some(Output(stdout, stderr, exit)) => Plain([BashRow(id, "(shell)", stdout, stderr, exit)])
    case None =>
      if IsToolResultOnly(content) then Plain([ToolResultRow(id, content.blocks)])
      else Plain(if text != "" then [UserRow(id, text)] else [])
  }

  function AnalyzeEntry(messages: seq<Entry>, i: nat, shells: seq<Shell>): Analysis
    requires i < |messages|
  {
    match messages[i]
    case LocalUser(id, text) => Plain([LocalUserRow(id, text)])
    case Streaming(id, content) => Plain([StreamingRow(id, content)])
    case FrameEntry(id, frame) =>
      match frame.body
      case User(_, _) => AnalyzeUser(messages, i, shells)
      case Assistant(_, reply) => Plain([AssistantRow(id, reply)])
      case Result(result) => Plain([ResultRow(id, result)])
      case System(payload) =>
        if HiddenSystem(payload) then Plain([])
        else if payload.Status? && payload.permissionMode.Some? then Plain([ModeChangeRow(id, payload.permissionMode.value)])
        else Plain([SystemRow(id, payload)])
      case _ => Plain([])
  }

  /** The rows from position i on. */
  function RowsFrom(messages: seq<Entry>, i: nat, shells: seq<Shell>): seq<Row>
    decreases |messages| - i
  {
    if i >= |messages| then []
    else
      var a := AnalyzeEntry(messages, i, shells);
      a.rows + RowsFrom(messages, i + 1 + a.consumed, shells)
  }

  method ClassifyMessages(messages: seq<Entry>, shells: seq<Shell>) returns (out: seq<Row>)
    ensures out == RowsFrom(messages, 0, shells)
  {
    hide AnalyzeEntry;
    out := [];
    var i := 0;
    while i < |messages|
      invariant i >= 0 && RowsFrom(messages, 0, shells) == out + RowsFrom(messages, i, shells)
      decreases |messages| - i
    {
      var a := AnalyzeEntry(messages, i, shells);
      ghost var rest := RowsFrom(messages, i + 1 + a.consumed, shells);
      assert out + (a.rows + rest) == (out + a.rows) + rest;
      out := out + a.rows;
      i := i + 1 + a.consumed;
    }
  }

  // ---------- the memoising classifier ----------

  type Cache = map<string, Analysis>

  /** The key an entry is memoised under: streaming entries and the empty id have none. */
  function CacheKey(e: Entry): string {
    if e.Streaming? then "" else e.id
  }

  datatype Pass = Pass(rows: seq<Row>, cache: Cache, seen: set<string>)

  /** One memoised pass from position i on, before the cache is trimmed. */
  function MemoFrom(messages: seq<Entry>, i: nat, shells: seq<Shell>, cache: Cache, seen: set<string>): Pass
    decreases |messages| - i
  {
    if i >= |messages| then Pass([], cache, seen)
    else
      var key := CacheKey(messages[i]);
      var (a, cache') := Recall(messages, i, shells, cache);
      var rest := MemoFrom(messages, i + 1 + a.consumed, shells, cache', if key != "" then seen + {key} else seen);
      rest.(rows := a.rows + rest.rows)
  }

  /** One entry's analysis, taken from the cache or computed and stored there. */
  function Recall(messages: seq<Entry>, i: nat, shells: seq<Shell>, cache: Cache): (Analysis, Cache)
    requires i < |messages|
  {
    var key := CacheKey(messages[i]);
    if key != "" && key in cache && !cache[key].shellsDependent then (cache[key], cache)
    else
      var a := AnalyzeEntry(messages, i, shells);
      (a, if key != "" && !a.shellsDependent then cache[key := a] else cache)
  }

  function Gc(cache: Cache, seen: set<string>): Cache {
    if |cache| <= |seen| + 16 then cache else map id | id in cache && id in seen :: cache[id]
  }

  /** One round of the memoised pass. */
  lemma MemoNext(messages: seq<Entry>, i: nat, shells: seq<Shell>, cache: Cache, seen: set<string>, out: seq<Row>)
    requires i < |messages|
    ensures var (a, cache') := Recall(messages, i, shells, cache);
      var key := CacheKey(messages[i]);
      var r := MemoFrom(messages, i, shells, cache, seen);
      var rest := MemoFrom(messages, i + 1 + a.consumed, shells, cache', if key != "" then seen + {key} else seen);
      r.(rows := out + r.rows) == rest.(rows := (out + a.rows) + rest.rows)
  {
    hide Recall, CacheKey;
  }

  lemma MemoEnds(messages: seq<Entry>, i: nat, shells: seq<Shell>, cache: Cache, seen: set<string>)
    requires i >= |messages|
    ensures MemoFrom(messages, i, shells, cache, seen) == Pass([], cache, seen)
  {
  }

  class MemoClassifier {
    var cache: Cache

    constructor ()
      ensures cache == map[]
    {
      cache := map[];
    }

    method Classify(messages: seq<Entry>, shells: seq<Shell>) returns (out: seq<Row>)
      modifies this
      ensures var pass := MemoFrom(messages, 0, shells, old(cache), {});
        out == pass.rows && cache == Gc(pass.cache, pass.seen)
    {
      hide AnalyzeEntry, CacheKey, MemoFrom;
      out := [];
      var seen: set<string> := {};
      var i := 0;
      ghost var pass := MemoFrom(messages, 0, shells, cache, {});
      while i < |messages|
        invariant i >= 0
        invariant var rest := MemoFrom(messages, i, shells, cache, seen);
          pass == rest.(rows := out + rest.rows)
        decreases |messages| - i
      {
        var key := CacheKey(messages[i]);
        MemoNext(messages, i, shells, cache, seen, out);
        if key != "" {
          seen := seen + {key};
        }
        ghost var before := cache;
        var a: Analysis;
        if key != "" && key in cache && !cache[key].shellsDependent {
          a := cache[key];
        } else {
          a := AnalyzeEntry(messages, i, shells);
          if key != "" && !a.shellsDependent {
            cache := cache[key := a];
          }
        }
        assert (a, cache) == Recall(messages, i, shells, before);
        out := out + a.rows;
        i := i + 1 + a.consumed;
      }
      MemoEnds(messages, i, shells, cache, seen);
      Trim(seen);
    }

    method Trim(seen: set<string>)
      modifies this
      ensures cache == Gc(old(cache), seen)
    {
      if |cache| <= |seen| + 16 {
        return;
      }
      ghost var was := cache;
      var todo := cache.Keys;
      while todo != {}
        invariant todo <= was.Keys && cache.Keys <= was.Keys
        invariant forall id :: id in was ==> (id in cache <==> id in todo || id in seen)
        invariant forall id :: id in cache ==> cache[id] == was[id]
      {
        var id :| id in todo;
        if id !in seen {
          cache := cache - {id};
        }
        todo := todo - {id};
      }
      assert cache == Gc(was, seen);
    }

    method Reset()
      modifies this
      ensures cache == map[]
    {
      cache := map[];
    }
  }

  // ---------- when an analysis may be reused ----------

  predicate IsInput(e: Entry) {
    IsUserFrame(e) && BashXml.ParseBashFrame(UserText(e.frame.body.content)).Some?
    && BashXml.ParseBashFrame(UserText(e.frame.body.content)).value.Input?
  }

  /** What an analysis reads of the timeline: the entry and, for a bash input, the next user frame and its distance. */
  datatype View = View(entry: Entry, next: Option<(int, Entry)>)

  function ViewAt(messages: seq<Entry>, i: nat): View
    requires i < |messages|
  {
    var n := NextUserFrameAt(messages, i + 1);
    View(messages[i], if IsInput(messages[i]) && n >= 0 then Some((n - i, messages[n])) else None)
  }

  lemma SamePair(a: seq<Entry>, i: nat, b: seq<Entry>, j: nat)
    requires i < |a| && j < |b| && ViewAt(a, i) == ViewAt(b, j) && IsInput(a[i])
    ensures PairedOutput(a, i) == PairedOutput(b, j)
    ensures PairedOutput(a, i).Some? ==> NextUserFrameAt(a, i + 1) - i == NextUserFrameAt(b, j + 1) - j
  {
    hide NextUserFrameAt, IsInput, UserText, BashXml.ParseBashFrame;
  }

  lemma SameUser(a: seq<Entry>, i: nat, b: seq<Entry>, j: nat, shells: seq<Shell>)
    requires i < |a| && j < |b| && ViewAt(a, i) == ViewAt(b, j) && IsUserFrame(a[i])
    ensures AnalyzeUser(a, i, shells) == AnalyzeUser(b, j, shells)
  {
    hide NextUserFrameAt, PairedOutput, UserText, BashXml.ParseBashFrame, LiveRow;
    if IsInput(a[i]) { SamePair(a, i, b, j); }
  }

  lemma SameViewSameAnalysis(a: seq<Entry>, i: nat, b: seq<Entry>, j: nat, shells: seq<Shell>)
    requires i < |a| && j < |b| && ViewAt(a, i) == ViewAt(b, j)
    ensures AnalyzeEntry(a, i, shells) == AnalyzeEntry(b, j, shells)
  {
    hide NextUserFrameAt, AnalyzeUser, IsInput;
    if IsUserFrame(a[i]) { SameUser(a, i, b, j, shells); }
  }

  /** An analysis that is not marked dependent does not read the shells. */
  lemma IndependentOfShells(messages: seq<Entry>, i: nat, shells: seq<Shell>, shells': seq<Shell>)
    requires i < |messages| && !AnalyzeEntry(messages, i, shells).shellsDependent
    ensures AnalyzeEntry(messages, i, shells') == AnalyzeEntry(messages, i, shells)
  {
  }

  /** What the cache holds for an entry of the timeline is that entry's analysis, under any shells. */
  ghost predicate Sound(cache: Cache, messages: seq<Entry>) {
    forall i :: 0 <= i < |messages| && CacheKey(messages[i]) != "" && CacheKey(messages[i]) in cache ==>
      SoundAt(cache[CacheKey(messages[i])], messages, i)
  }

  ghost predicate SoundAt(a: Analysis, messages: seq<Entry>, i: nat)
    requires i < |messages|
  {
    !a.shellsDependent && forall shells :: AnalyzeEntry(messages, i, shells) == a
  }

  ghost predicate DistinctKeys(messages: seq<Entry>) {
    forall i, j :: 0 <= i < j < |messages| && CacheKey(messages[i]) != "" ==>
      CacheKey(messages[i]) != CacheKey(messages[j])
  }

  /** Every cached analysis is right for whatever looks as its entry looked when it was cached. */
  ghost predicate Right(cache: Cache, views: map<string, View>) {
    forall id :: id in cache ==> id in views && !cache[id].shellsDependent && RightFor(cache[id], views[id])
  }

  ghost predicate RightFor(a: Analysis, v: View) {
    forall messages, i :: 0 <= i < |messages| && ViewAt(messages, i) == v ==> SoundAt(a, messages, i)
  }

  // ---------- the memoising pass refines the stateless one ----------

  lemma RecallIsSound(messages: seq<Entry>, i: nat, shells: seq<Shell>, cache: Cache)
    requires i < |messages| && DistinctKeys(messages) && Sound(cache, messages)
    ensures var (a, cache') := Recall(messages, i, shells, cache);
      a == AnalyzeEntry(messages, i, shells) && Sound(cache', messages)
  {
    hide AnalyzeEntry;
    var a := AnalyzeEntry(messages, i, shells);
    if !a.shellsDependent {
      forall shells' ensures AnalyzeEntry(messages, i, shells') == a {
        IndependentOfShells(messages, i, shells, shells');
      }
      assert SoundAt(a, messages, i);
    }
  }

  /** With a sound cache and distinct ids the memoising pass returns the stateless rows and leaves a sound cache. */
  lemma {:induction false} MemoRefines(messages: seq<Entry>, i: nat, shells: seq<Shell>, cache: Cache, seen: set<string>)
    requires DistinctKeys(messages) && Sound(cache, messages)
    ensures var pass := MemoFrom(messages, i, shells, cache, seen);
      && pass.rows == RowsFrom(messages, i, shells)
      && Sound(pass.cache, messages)
    decreases |messages| - i
  {
    hide AnalyzeEntry, Recall, CacheKey, Sound, DistinctKeys;
    if i < |messages| {
      RecallIsSound(messages, i, shells, cache);
      var (a, cache') := Recall(messages, i, shells, cache);
      var key := CacheKey(messages[i]);
      MemoRefines(messages, i + 1 + a.consumed, shells, cache', if key != "" then seen + {key} else seen);
    }
  }

  /** Trimming leaves at most the seen entries plus sixteen, and only drops entries. */
  lemma GcBounds(cache: Cache, seen: set<string>)
    ensures |Gc(cache, seen)| <= |seen| + 16
    ensures forall id :: id in Gc(cache, seen) ==> id in cache && Gc(cache, seen)[id] == cache[id]
    ensures forall id :: id in cache && id in seen ==> id in Gc(cache, seen)
  {
    if |cache| > |seen| + 16 {
      assert Gc(cache, seen).Keys <= seen;
      SubsetSize(Gc(cache, seen).Keys, seen);
    }
  }

  lemma SubsetSize(a: set<string>, b: set<string>)
    requires a <= b
    ensures |a| <= |b|
  {
    assert b == a + (b - a);
  }

  // ---------- timeline changes ----------

  datatype Change =
    | Append(e: Entry)                       // a push
    | Restream(k: nat, content: Json)        // a streaming delta
    | DropStream(k: nat)                     // the canonical reply replaces the streaming entry
    | Render(shells: seq<Shell>)             // a classify call
    | ResetTimeline                          // the aggregator is reset, the classifier lives on
    | Restore(entries: seq<Entry>)           // saved entries replace the timeline
    | ResetCache

  /** The timeline, the classifier's cache, and how each cached entry looked when it was cached. */
  datatype World = World(messages: seq<Entry>, cache: Cache, views: map<string, View>)

  /** A cached pair whose input is before position k and whose output is after it. */
  ghost predicate Spans(cache: Cache, messages: seq<Entry>, i: nat, k: nat)
    requires i < |messages|
  {
    CacheKey(messages[i]) != "" && CacheKey(messages[i]) in cache && i < k <= i + cache[CacheKey(messages[i])].consumed
  }

  ghost predicate Allowed(w: World, c: Change) {
    match c
    case Append(e) => CacheKey(e) == "" || (CacheKey(e) !in w.cache && AbsentKey(w.messages, CacheKey(e)))
    case Restream(k, _) => k < |w.messages| && w.messages[k].Streaming?
    case DropStream(k) =>
      k < |w.messages| && w.messages[k].Streaming?
      && forall i :: 0 <= i < |w.messages| ==> !Spans(w.cache, w.messages, i, k)
    case Restore(entries) => DistinctKeys(entries) && LooksAsCached(w.cache, w.views, entries)
    case Render(_) => true
    case ResetTimeline => true
    case ResetCache => true
  }

  ghost predicate AbsentKey(messages: seq<Entry>, key: string) {
    forall i :: 0 <= i < |messages| ==> CacheKey(messages[i]) != key
  }

  /** Entries with ids that are still cached look as they did when they were cached; others may look anyhow. */
  ghost predicate LooksAsCached(cache: Cache, views: map<string, View>, entries: seq<Entry>) {
    forall i :: 0 <= i < |entries| && CacheKey(entries[i]) != "" && CacheKey(entries[i]) in cache ==>
      CacheKey(entries[i]) in views && ViewAt(entries, i) == views[CacheKey(entries[i])]
  }

  /** Of the ids in the new cache, those not in the old one were cached from this timeline. */
  ghost function Recorded(views: map<string, View>, before: Cache, after: Cache, messages: seq<Entry>): map<string, View> {
    map id | id in after && (if id in before then id in views else !AbsentKey(messages, id)) ::
      if id in before then views[id] else ViewAt(messages, PlaceOf(messages, id))
  }

  ghost function PlaceOf(messages: seq<Entry>, key: string): (i: nat)
    requires !AbsentKey(messages, key)
    ensures i < |messages| && CacheKey(messages[i]) == key
  {
    var i :| 0 <= i < |messages| && CacheKey(messages[i]) == key;
    i
  }

  function Without(messages: seq<Entry>, k: nat): seq<Entry>
    requires k < |messages|
  {
    messages[..k] + messages[k + 1..]
  }

  ghost function Apply(w: World, c: Change): World
    requires Allowed(w, c)
  {
    match c
    case Append(e) => w.(messages := w.messages + [e])
    case Restream(k, content) => w.(messages := w.messages[k := w.messages[k].(content := content)])
    case DropStream(k) => w.(messages := Without(w.messages, k))
    case Render(shells) =>
      var pass := MemoFrom(w.messages, 0, shells, w.cache, {});
      var cache' := Gc(pass.cache, pass.seen);
      World(w.messages, cache', Recorded(w.views, w.cache, cache', w.messages))
    case ResetTimeline => w.(messages := [])
    case Restore(entries) => w.(messages := entries)
    case ResetCache => w.(cache := map[])
  }

  ghost predicate Inv(w: World) {
    DistinctKeys(w.messages) && Sound(w.cache, w.messages) && Right(w.cache, w.views)
  }

  /** The next user frame keeps its place when entries are appended. */
  lemma NextStable(messages: seq<Entry>, from: nat, e: Entry)
    requires NextUserFrameAt(messages, from) >= 0
    ensures NextUserFrameAt(messages + [e], from) == NextUserFrameAt(messages, from)
  {
    var j, j' := NextUserFrameAt(messages, from), NextUserFrameAt(messages + [e], from);
    assert forall k :: 0 <= k < |messages| ==> (messages + [e])[k] == messages[k];
  }

  /** A sound entry of the cache that belongs to a bash input is a pair. */
  lemma SoundInputIsPaired(messages: seq<Entry>, i: nat, a: Analysis)
    requires i < |messages| && SoundAt(a, messages, i) && IsInput(messages[i])
    ensures NextUserFrameAt(messages, i + 1) >= 0 && a.consumed == NextUserFrameAt(messages, i + 1) - i
  {
    assert AnalyzeEntry(messages, i, []) == a;
  }

  /** The view of a cached entry survives when its pair, if it has one, keeps its distance. */
  lemma SoundMoves(a: seq<Entry>, i: nat, b: seq<Entry>, j: nat, x: Analysis)
    requires i < |a| && j < |b| && ViewAt(a, i) == ViewAt(b, j) && SoundAt(x, a, i)
    ensures SoundAt(x, b, j)
  {
    forall shells ensures AnalyzeEntry(b, j, shells) == x {
      SameViewSameAnalysis(a, i, b, j, shells);
    }
  }

  lemma AppendKeepsInv(w: World, e: Entry)
    requires Inv(w) && Allowed(w, Append(e))
    ensures Inv(Apply(w, Append(e)))
  {
    hide AnalyzeEntry, IsInput, NextUserFrameAt;
    var m, m' := w.messages, w.messages + [e];
    forall i | 0 <= i < |m'| && CacheKey(m'[i]) != "" && CacheKey(m'[i]) in w.cache
      ensures SoundAt(w.cache[CacheKey(m'[i])], m', i)
    {
      if i < |m| {
        if IsInput(m[i]) {
          SoundInputIsPaired(m, i, w.cache[CacheKey(m[i])]);
          NextStable(m, i + 1, e);
        }
        SoundMoves(m, i, m', i, w.cache[CacheKey(m[i])]);
      }
    }
  }

  /** Streaming entries are no user frames, so replacing one moves nothing. */
  lemma NextIgnoresStreams(a: seq<Entry>, b: seq<Entry>, k: nat, from: nat)
    requires k < |a| == |b| && !IsUserFrame(a[k]) && !IsUserFrame(b[k])
    requires forall i :: 0 <= i < |a| && i != k ==> a[i] == b[i]
    ensures NextUserFrameAt(a, from) == NextUserFrameAt(b, from)
  {
  }

  lemma RestreamKeepsInv(w: World, k: nat, content: Json)
    requires Inv(w) && Allowed(w, Restream(k, content))
    ensures Inv(Apply(w, Restream(k, content)))
  {
    hide AnalyzeEntry, IsInput, NextUserFrameAt;
    var m, m' := w.messages, w.messages[k := w.messages[k].(content := content)];
    assert forall i :: 0 <= i < |m| ==> CacheKey(m'[i]) == CacheKey(m[i]);
    forall i | 0 <= i < |m'| && CacheKey(m'[i]) != "" && CacheKey(m'[i]) in w.cache
      ensures SoundAt(w.cache[CacheKey(m'[i])], m', i)
    {
      NextIgnoresStreams(m, m', k, i + 1);
      if IsInput(m[i]) { SoundInputIsPaired(m, i, w.cache[CacheKey(m[i])]); }
      SoundMoves(m, i, m', i, w.cache[CacheKey(m[i])]);
    }
  }

  // ---------- dropping a streaming entry ----------

  /** Where position i of the shorter timeline came from. */
  function Origin(i: nat, k: nat): nat {
    if i < k then i else i + 1
  }

  lemma NextAfterDrop(messages: seq<Entry>, k: nat, i: nat)
    requires k < |messages| && !IsUserFrame(messages[k]) && i < |messages| - 1
    ensures var n, n' := NextUserFrameAt(messages, Origin(i, k) + 1), NextUserFrameAt(Without(messages, k), i + 1);
      (n < 0 <==> n' < 0) && (n >= 0 ==> n == Origin(n', k) && n != k)
  {
    var m' := Without(messages, k);
    assert forall j :: 0 <= j < |m'| ==> m'[j] == messages[Origin(j, k)];
    var n, n' := NextUserFrameAt(messages, Origin(i, k) + 1), NextUserFrameAt(m', i + 1);
    if n' >= 0 { assert IsUserFrame(messages[Origin(n', k)]); }
    if n >= 0 && n != k {
      var j := if n < k then n else n - 1;
      assert m'[j] == messages[n] && i < j;
    }
  }

  lemma UnspannedAt(messages: seq<Entry>, k: nat, i: nat, a: Analysis)
    requires k < |messages| && !IsUserFrame(messages[k]) && i < |messages| - 1
    requires SoundAt(a, messages, Origin(i, k)) && !(Origin(i, k) < k <= Origin(i, k) + a.consumed)
    ensures SoundAt(a, Without(messages, k), i)
  {
    hide AnalyzeEntry, IsInput, NextUserFrameAt;
    if IsInput(messages[Origin(i, k)]) {
      SoundInputIsPaired(messages, Origin(i, k), a);
      NextAfterDrop(messages, k, i);
    }
    SoundMoves(messages, Origin(i, k), Without(messages, k), i, a);
  }

  /** Dropping a streaming entry that no cached pair spans keeps every cached analysis valid. */
  lemma UnspannedDropSound(w: World, k: nat)
    requires Inv(w) && k < |w.messages| && w.messages[k].Streaming?
    requires forall i :: 0 <= i < |w.messages| ==> !Spans(w.cache, w.messages, i, k)
    ensures Sound(w.cache, Without(w.messages, k))
  {
    hide AnalyzeEntry, IsInput, NextUserFrameAt, SoundAt;
    var m, m' := w.messages, Without(w.messages, k);
    forall i | 0 <= i < |m'| && CacheKey(m'[i]) != "" && CacheKey(m'[i]) in w.cache
      ensures SoundAt(w.cache[CacheKey(m'[i])], m', i)
    {
      assert m'[i] == m[Origin(i, k)] && !Spans(w.cache, m, Origin(i, k), k);
      UnspannedAt(m, k, i, w.cache[CacheKey(m'[i])]);
    }
  }

  /** If a cached pair spans the dropped entry, its recorded distance is one too long afterwards. */
  lemma SpannedDropUnsound(w: World, k: nat, i: nat)
    requires Inv(w) && k < |w.messages| && w.messages[k].Streaming?
    requires i < |w.messages| && Spans(w.cache, w.messages, i, k)
    ensures !Sound(w.cache, Without(w.messages, k))
  {
    var m, m' := w.messages, Without(w.messages, k);
    var a := w.cache[CacheKey(m[i])];
    ConsumingIsInput(m, i, a);
    SoundInputIsPaired(m, i, a);
    NextAfterDrop(m, k, i);
    assert m'[i] == m[i] && CacheKey(m'[i]) in w.cache;
    if SoundAt(a, m', i) {
      SoundInputIsPaired(m', i, a);
    }
  }

  lemma ConsumingIsInput(messages: seq<Entry>, i: nat, a: Analysis)
    requires i < |messages| && SoundAt(a, messages, i) && a.consumed > 0
    ensures IsInput(messages[i])
  {
    assert AnalyzeEntry(messages, i, []) == a;
  }

  /**
   Removing a streaming entry leaves the cache sound if and only if no cached input-output pair spans it.
   (The aggregator does remove streaming entries, when the canonical reply arrives.)
   */
  lemma DropSoundIffUnspanned(w: World, k: nat)
    requires Inv(w) && k < |w.messages| && w.messages[k].Streaming?
    ensures Sound(w.cache, Without(w.messages, k)) <==>
      forall i :: 0 <= i < |w.messages| ==> !Spans(w.cache, w.messages, i, k)
  {
    if forall i :: 0 <= i < |w.messages| ==> !Spans(w.cache, w.messages, i, k) {
      UnspannedDropSound(w, k);
    } else {
      var i :| 0 <= i < |w.messages| && Spans(w.cache, w.messages, i, k);
      SpannedDropUnsound(w, k, i);
    }
  }

  lemma DropKeepsInv(w: World, k: nat)
    requires Inv(w) && Allowed(w, DropStream(k))
    ensures Inv(Apply(w, DropStream(k)))
  {
    hide AnalyzeEntry, IsInput, NextUserFrameAt;
    var m, m' := w.messages, Without(w.messages, k);
    UnspannedDropSound(w, k);
    assert forall i :: 0 <= i < |m'| ==> m'[i] == m[Origin(i, k)];
  }

  /** The new cache keeps what the old one held, and adds nothing but entries of the timeline. */
  ghost predicate Grows(messages: seq<Entry>, before: Cache, after: Cache) {
    && (forall id :: id in before ==> id in after && after[id] == before[id])
    && (forall id :: id in after && id !in before ==> id != "" && !AbsentKey(messages, id))
    && (forall id :: id in after ==> !after[id].shellsDependent)
  }

  lemma RecallGrows(messages: seq<Entry>, i: nat, shells: seq<Shell>, cache: Cache)
    requires i < |messages| && forall id :: id in cache ==> !cache[id].shellsDependent
    ensures Grows(messages, cache, Recall(messages, i, shells, cache).1)
  {
    hide AnalyzeEntry, CacheKey;
  }

  lemma {:induction false} MemoGrows(messages: seq<Entry>, i: nat, shells: seq<Shell>, cache: Cache, seen: set<string>)
    requires forall id :: id in cache ==> !cache[id].shellsDependent
    ensures Grows(messages, cache, MemoFrom(messages, i, shells, cache, seen).cache)
    decreases |messages| - i
  {
    hide AnalyzeEntry, Recall, CacheKey, AbsentKey;
    if i < |messages| {
      RecallGrows(messages, i, shells, cache);
      var (a, cache') := Recall(messages, i, shells, cache);
      var key := CacheKey(messages[i]);
      MemoGrows(messages, i + 1 + a.consumed, shells, cache', if key != "" then seen + {key} else seen);
    }
  }

  lemma SoundIsRightFor(a: Analysis, messages: seq<Entry>, i: nat)
    requires i < |messages| && SoundAt(a, messages, i)
    ensures RightFor(a, ViewAt(messages, i))
  {
    hide ViewAt, SoundAt;
    forall other, j | 0 <= j < |other| && ViewAt(other, j) == ViewAt(messages, i) ensures SoundAt(a, other, j) {
      SoundMoves(messages, i, other, j, a);
    }
  }

  lemma RecordedIsRight(w: World, after: Cache)
    requires Inv(w) && Sound(after, w.messages)
    requires forall id :: id in after && id in w.cache ==> after[id] == w.cache[id]
    requires forall id :: id in after && id !in w.cache ==> id != "" && !AbsentKey(w.messages, id)
    ensures Right(after, Recorded(w.views, w.cache, after, w.messages))
  {
    hide ViewAt, RightFor, AbsentKey, CacheKey, DistinctKeys;
    var views := Recorded(w.views, w.cache, after, w.messages);
    forall id | id in after ensures id in views && !after[id].shellsDependent && RightFor(after[id], views[id]) {
      if id !in w.cache {
        var i := PlaceOf(w.messages, id);
        assert SoundAt(after[id], w.messages, i);
        SoundIsRightFor(after[id], w.messages, i);
      }
    }
  }

  lemma RenderKeepsInv(w: World, shells: seq<Shell>)
    requires Inv(w)
    ensures Inv(Apply(w, Render(shells)))
  {
    hide MemoFrom, Gc, SoundAt, RightFor, Recorded, AbsentKey;
    var pass := MemoFrom(w.messages, 0, shells, w.cache, {});
    MemoRefines(w.messages, 0, shells, w.cache, {});
    MemoGrows(w.messages, 0, shells, w.cache, {});
    GcBounds(pass.cache, pass.seen);
    RecordedIsRight(w, Gc(pass.cache, pass.seen));
  }

  lemma RestoreKeepsInv(w: World, entries: seq<Entry>)
    requires Inv(w) && Allowed(w, Restore(entries))
    ensures Inv(Apply(w, Restore(entries)))
  {
    hide ViewAt, SoundAt;
  }

  lemma ChangeKeepsInv(w: World, c: Change)
    requires Inv(w) && Allowed(w, c)
    ensures Inv(Apply(w, c))
  {
    hide AnalyzeEntry, MemoFrom;
    match c
    case Append(e) => AppendKeepsInv(w, e);
    case Restream(k, content) => RestreamKeepsInv(w, k, content);
    case DropStream(k) => DropKeepsInv(w, k);
    case Render(shells) => RenderKeepsInv(w, shells);
    case ResetTimeline =>
    case Restore(entries) => RestoreKeepsInv(w, entries);
    case ResetCache =>
  }

  /** w' is reached from w by a sequence of allowed changes. */
  ghost predicate Reaches(w: World, changes: seq<Change>, w': World)
    decreases |changes|
  {
    if changes == [] then w' == w
    else Allowed(w, changes[0]) && Reaches(Apply(w, changes[0]), changes[1..], w')
  }

  /**
   Refinement over whole runs: however the timeline was changed and rendered since the classifier was created,
   the next memoised pass returns exactly the stateless rows, for any shells.
   */
  lemma {:induction false} EveryPassIsStateless(w: World, changes: seq<Change>, w': World, shells: seq<Shell>)
    requires Inv(w) && Reaches(w, changes, w')
    ensures Inv(w')
    ensures MemoFrom(w'.messages, 0, shells, w'.cache, {}).rows == RowsFrom(w'.messages, 0, shells)
    decreases |changes|
  {
    hide AnalyzeEntry, MemoFrom, Apply;
    if changes == [] {
      MemoRefines(w.messages, 0, shells, w.cache, {});
    } else {
      ChangeKeepsInv(w, changes[0]);
      EveryPassIsStateless(Apply(w, changes[0]), changes[1..], w', shells);
    }
  }

  /** A new classifier satisfies the invariant on any timeline with distinct ids. */
  lemma FreshCacheInv(messages: seq<Entry>)
    requires DistinctKeys(messages)
    ensures Inv(World(messages, map[], map[]))
  {
  }

  /**
   The condition on dropping cannot be lifted. Take a cached pair at position 0 whose output is the last entry: when
   the canonical reply replaces the streaming entry inside it, that reply is missing from the memoised rows.
   */
  lemma SpannedDropHidesReply(w: World, k: nat, x: Entry, shells: seq<Shell>)
    requires Inv(w) && k < |w.messages| && w.messages[k].Streaming? && Spans(w.cache, w.messages, 0, k)
    requires w.cache[CacheKey(w.messages[0])].consumed == |w.messages| - 1
    requires x.FrameEntry? && x.frame.body.Assistant?
    ensures var m := Without(w.messages, k) + [x];
      RowsFrom(m, 0, shells) == MemoFrom(m, 0, shells, w.cache, {}).rows + [AssistantRow(x.id, x.frame.body.reply)]
  {
    hide AnalyzeEntry, IsInput, NextUserFrameAt;
    var m, m' := w.messages, Without(w.messages, k);
    var a, n := w.cache[CacheKey(m[0])], |m'|;
    assert m'[0] == m[0] && (m' + [x])[0] == m[0] && (m' + [x])[n] == x;
    ConsumingIsInput(m, 0, a);
    SoundInputIsPaired(m, 0, a);
    NextAfterDrop(m, k, 0);
    NextStable(m', 1, x);
    ShorterPair(m, m' + [x], a, shells);
    assert RowsFrom(m' + [x], n, shells) == [AssistantRow(x.id, x.frame.body.reply)] by { LastRow(m' + [x], shells); }
    assert MemoFrom(m' + [x], 0, shells, w.cache, {}).rows == a.rows + [];
  }

  lemma LastRow(messages: seq<Entry>, shells: seq<Shell>)
    requires messages != [] && messages[|messages| - 1].FrameEntry? && messages[|messages| - 1].frame.body.Assistant?
    ensures var x := messages[|messages| - 1];
      RowsFrom(messages, |messages| - 1, shells) == [AssistantRow(x.id, x.frame.body.reply)]
  {
  }

  predicate IsOutput(e: Entry) {
    IsUserFrame(e) && UserText(e.frame.body.content) != ""
    && BashXml.ParseBashFrame(UserText(e.frame.body.content)).Some?
    && BashXml.ParseBashFrame(UserText(e.frame.body.content)).value.Output?
  }

  /** Such a world is reached by rendering a bash input, a streaming entry and the output once. */
  lemma RenderingSpans(input: Entry, stream: Entry, output: Entry)
    requires IsInput(input) && stream.Streaming? && IsOutput(output)
    requires input.id != "" && input.id != output.id
    ensures var w := Apply(World([input, stream, output], map[], map[]), Render([]));
      && Inv(w) && w.messages == [input, stream, output] && Spans(w.cache, w.messages, 0, 1)
      && w.cache[CacheKey(input)].consumed == 2
  {
    hide Inv, MemoFrom, Gc, IsInput, IsOutput, AnalyzeEntry, Recorded;
    var m := [input, stream, output];
    assert DistinctKeys(m) && CacheKey(input) == input.id by { DistinctThree(input, stream, output); }
    FreshCacheInv(m);
    RenderKeepsInv(World(m, map[], map[]), []);
    FirstPass(m);
  }

  lemma DistinctThree(input: Entry, stream: Entry, output: Entry)
    requires IsInput(input) && stream.Streaming? && input.id != output.id
    ensures DistinctKeys([input, stream, output]) && CacheKey(input) == input.id
  {
    hide BashXml.ParseBashFrame, UserText;
  }

  lemma FirstPass(m: seq<Entry>)
    requires |m| == 3 && IsInput(m[0]) && m[1].Streaming? && IsOutput(m[2]) && m[0].id != ""
    ensures var pass, id := MemoFrom(m, 0, [], map[], {}), m[0].id;
      var cache := Gc(pass.cache, pass.seen);
      CacheKey(m[0]) == id && id in cache && cache[id].consumed == 2
  {
    PairAtFront(m);
    assert CacheKey(m[0]) == m[0].id by { InputKey(m[0]); }
    hide AnalyzeEntry, IsInput, IsOutput, CacheKey;
    var a := AnalyzeEntry(m, 0, []);
    assert MemoFrom(m, 0, [], map[], {}) == MemoFrom(m, 3, [], map[][m[0].id := a], {m[0].id}).(rows := a.rows + []);
    assert |map[m[0].id := a]| == 1;
  }

  lemma InputKey(e: Entry)
    requires IsInput(e)
    ensures CacheKey(e) == e.id
  {
  }

  lemma PairAtFront(m: seq<Entry>)
    requires |m| == 3 && IsInput(m[0]) && m[1].Streaming? && IsOutput(m[2])
    ensures var a := AnalyzeEntry(m, 0, []); a.consumed == 2 && !a.shellsDependent && |a.rows| == 1
  {
    hide UserText, BashXml.ParseBashFrame;
    assert NextUserFrameAt(m, 1) == 2;
  }

  /** Together: after one pass over the three, the reply that replaces the stream does not show. */
  lemma CanonicalReplyDisappears(input: Entry, stream: Entry, output: Entry, reply: Entry, shells: seq<Shell>)
    requires IsInput(input) && stream.Streaming? && IsOutput(output)
    requires input.id != "" && input.id != output.id
    requires reply.FrameEntry? && reply.frame.body.Assistant?
    ensures var w, m := Apply(World([input, stream, output], map[], map[]), Render([])), [input, output, reply];
      RowsFrom(m, 0, shells) == MemoFrom(m, 0, shells, w.cache, {}).rows + [AssistantRow(reply.id, reply.frame.body.reply)]
  {
    hide RowsFrom, MemoFrom, Apply, IsInput, IsOutput;
    RenderingSpans(input, stream, output);
    var w := Apply(World([input, stream, output], map[], map[]), Render([]));
    SpannedDropHidesReply(w, 1, reply, shells);
    assert Without(w.messages, 1) + [reply] == [input, output, reply];
  }

  lemma ShorterPair(a: seq<Entry>, b: seq<Entry>, x: Analysis, shells: seq<Shell>)
    requires a != [] && b != [] && a[0] == b[0] && IsInput(a[0]) && SoundAt(x, a, 0)
    requires var n, m := NextUserFrameAt(a, 1), NextUserFrameAt(b, 1); n == m + 1 && m >= 0 && a[n] == b[m]
    ensures AnalyzeEntry(b, 0, shells).rows == x.rows && AnalyzeEntry(b, 0, shells).consumed + 1 == x.consumed
  {
    assert AnalyzeEntry(a, 0, shells) == x;
  }
}
