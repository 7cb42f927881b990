/** Which rows the entries of a timeline show (packages/element/src/lib/classify.ts), in terms of their contents. */
module Rows {
  import opened Prelude
  import opened Frames
  import opened Classifier
  import BashXml
  import Replays

  // ---------- cutting a timeline in two ----------

  ghost predicate LastUserAt(a: seq<Entry>, i: int) {
    0 <= i < |a| && IsUserFrame(a[i]) && forall k :: i < k < |a| ==> !IsUserFrame(a[k])
  }

  ghost predicate FirstUserAt(a: seq<Entry>, i: int) {
    0 <= i < |a| && IsUserFrame(a[i]) && forall k :: 0 <= k < i ==> !IsUserFrame(a[k])
  }

  /** A bash input at the end of a, but for entries that are no user frames, has its output at the start of b likewise. */
  ghost predicate Bridges(a: seq<Entry>, b: seq<Entry>) {
    exists i, j :: LastUserAt(a, i) && FirstUserAt(b, j) && IsInput(a[i]) && IsOutput(b[j])
  }

  lemma NextShifts(a: seq<Entry>, b: seq<Entry>, j: nat)
    requires j <= |b|
    ensures var n := NextUserFrameAt(b, j); NextUserFrameAt(a + b, |a| + j) == if n < 0 then -1 else |a| + n
  {
    hide IsUserFrame;
    var n := NextUserFrameAt(b, j);
    forall k | |a| <= k < |a + b| ensures IsUserFrame((a + b)[k]) == IsUserFrame(b[k - |a|]) { assert (a + b)[k] == b[k - |a|]; }
    NextIs(a + b, |a| + j, if n < 0 then -1 else |a| + n);
  }

  lemma NextStays(a: seq<Entry>, b: seq<Entry>, i: nat)
    requires i <= |a|
    ensures NextUserFrameAt(a, i) >= 0 ==> NextUserFrameAt(a + b, i) == NextUserFrameAt(a, i)
    ensures NextUserFrameAt(a, i) < 0 ==>
      NextUserFrameAt(a + b, i) == if NextUserFrameAt(b, 0) < 0 then -1 else |a| + NextUserFrameAt(b, 0)
  {
    hide IsUserFrame;
    assert forall k :: 0 <= k < |a| ==> IsUserFrame((a + b)[k]) == IsUserFrame(a[k]);
    forall k | 0 <= k < |b| ensures IsUserFrame((a + b)[|a| + k]) == IsUserFrame(b[k]) {
      assert (a + b)[|a| + k] == b[k];
    }
    NextIs(a + b, i, NextUserFrameAt(a, i));
    if NextUserFrameAt(a, i) < 0 {
      var f := NextUserFrameAt(b, 0);
      forall k | |a| <= k < |a| + (if f < 0 then |b| else f) ensures !IsUserFrame((a + b)[k]) { assert (a + b)[k] == b[k - |a|]; }
      NextIs(a + b, i, if f < 0 then -1 else |a| + f);
    }
  }

  /** The next user frame is where one is and none before it. */
  lemma NextIs(m: seq<Entry>, i: nat, n: int)
    ensures i <= n < |m| && IsUserFrame(m[n]) && (forall k :: i <= k < n ==> !IsUserFrame(m[k])) ==> NextUserFrameAt(m, i) == n
    ensures n == -1 && (forall k :: i <= k < |m| ==> !IsUserFrame(m[k])) ==> NextUserFrameAt(m, i) == -1
  {
  }

  lemma ConsumedWithin(a: seq<Entry>, i: nat, shells: seq<Shell>)
    requires i < |a|
    ensures i + 1 + AnalyzeEntry(a, i, shells).consumed <= |a|
    ensures !IsInput(a[i]) ==> AnalyzeEntry(a, i, shells).consumed == 0
  {
    hide UserText, BashXml.ParseBashFrame, LiveRow;
  }

  /** Behind any entries, the rest shows what it shows by itself. */
  lemma {:induction false} Behind(a: seq<Entry>, b: seq<Entry>, j: nat, shells: seq<Shell>)
    requires j <= |b|
    ensures RowsFrom(a + b, |a| + j, shells) == RowsFrom(b, j, shells)
    decreases |b| - j
  {
    hide AnalyzeEntry, IsInput, NextUserFrameAt;
    if j < |b| {
      assert (a + b)[|a| + j] == b[j];
      NextShifts(a, b, j + 1);
      assert ViewAt(a + b, |a| + j) == ViewAt(b, j);
      SameViewSameAnalysis(a + b, |a| + j, b, j, shells);
      ConsumedWithin(b, j, shells);
      Behind(a, b, j + 1 + AnalyzeEntry(b, j, shells).consumed, shells);
    }
  }

  lemma UnpairedIsLive(m: seq<Entry>, i: nat, shells: seq<Shell>)
    requires i < |m| && IsInput(m[i])
    requires NextUserFrameAt(m, i + 1) >= 0 ==> !IsOutput(m[NextUserFrameAt(m, i + 1)])
    ensures var c := BashXml.ParseBashFrame(UserText(m[i].frame.body.content)).value.command;
      AnalyzeEntry(m, i, shells) == Analysis([LiveRow(m[i].id, c, shells)], 0, true)
  {
    hide NextUserFrameAt, UserText, BashXml.ParseBashFrame, LiveRow;
  }

  /** An entry in the first part is analysed as without the second, unless the two parts are bridged. */
  lemma AnalysisStays(a: seq<Entry>, b: seq<Entry>, i: nat, shells: seq<Shell>)
    requires i < |a| && !Bridges(a, b)
    ensures AnalyzeEntry(a + b, i, shells) == AnalyzeEntry(a, i, shells)
  {
    hide AnalyzeEntry, IsInput, IsOutput, NextUserFrameAt, LiveRow;
    assert (a + b)[i] == a[i];
    NextStays(a, b, i + 1);
    if IsInput(a[i]) && NextUserFrameAt(a, i + 1) < 0 {
      LastOne(a, i);
      var f := NextUserFrameAt(b, 0);
      if f >= 0 {
        FirstOne(b);
        assert !IsOutput(b[f]);
        assert (a + b)[|a| + f] == b[f];
      }
      UnpairedIsLive(a, i, shells);
      UnpairedIsLive(a + b, i, shells);
    } else {
      if IsInput(a[i]) { assert (a + b)[NextUserFrameAt(a, i + 1)] == a[NextUserFrameAt(a, i + 1)]; }
      SameViewSameAnalysis(a + b, i, a, i, shells);
    }
  }

  lemma LastOne(a: seq<Entry>, i: nat)
    requires i < |a| && IsInput(a[i]) && NextUserFrameAt(a, i + 1) < 0
    ensures LastUserAt(a, i)
  {
    hide UserText, BashXml.ParseBashFrame;
  }

  lemma FirstOne(b: seq<Entry>)
    requires NextUserFrameAt(b, 0) >= 0
    ensures FirstUserAt(b, NextUserFrameAt(b, 0))
  {
  }

  lemma {:induction false} SplitFrom(a: seq<Entry>, b: seq<Entry>, i: nat, shells: seq<Shell>)
    requires i <= |a| && !Bridges(a, b)
    ensures RowsFrom(a + b, i, shells) == RowsFrom(a, i, shells) + RowsFrom(b, 0, shells)
    decreases |a| - i
  {
    hide AnalyzeEntry, Bridges, IsInput, NextUserFrameAt;
    if i == |a| {
      Behind(a, b, 0, shells);
    } else {
      var x := AnalyzeEntry(a, i, shells);
      AnalysisStays(a, b, i, shells);
      ConsumedWithin(a, i, shells);
      SplitFrom(a, b, i + 1 + x.consumed, shells);
      assert x.rows + (RowsFrom(a, i + 1 + x.consumed, shells) + RowsFrom(b, 0, shells))
          == x.rows + RowsFrom(a, i + 1 + x.consumed, shells) + RowsFrom(b, 0, shells);
    }
  }

  /** The rows of a timeline. */
  function RowsOf(messages: seq<Entry>, shells: seq<Shell>): seq<Row> {
    RowsFrom(messages, 0, shells)
  }

  /** Two parts that are not bridged show what each shows, one after the other. */
  lemma PartsShow(a: seq<Entry>, b: seq<Entry>, shells: seq<Shell>)
    requires !Bridges(a, b)
    ensures RowsOf(a + b, shells) == RowsOf(a, shells) + RowsOf(b, shells)
  {
    SplitFrom(a, b, 0, shells);
  }

  // ---------- one entry ----------

  /** The first entry, if it is no bash input, shows its own rows in front of the others. */
  lemma FrontShows(e: Entry, after: seq<Entry>, own: seq<Row>, shells: seq<Shell>)
    requires !IsInput(e) && AnalyzeEntry([e], 0, shells).rows == own
    ensures RowsOf([e] + after, shells) == own + RowsOf(after, shells)
  {
    hide AnalyzeEntry, IsInput, NextUserFrameAt;
    var m := [e] + after;
    assert m[0] == e && ViewAt(m, 0) == ViewAt([e], 0);
    SameViewSameAnalysis(m, 0, [e], 0, shells);
    ConsumedWithin(m, 0, shells);
    Behind([e], after, 0, shells);
  }

  lemma EntryShows(before: seq<Entry>, e: Entry, after: seq<Entry>, own: seq<Row>, shells: seq<Shell>)
    requires !IsInput(e) && AnalyzeEntry([e], 0, shells).rows == own && !Bridges(before, [e] + after)
    ensures RowsOf(before + [e] + after, shells) == RowsOf(before, shells) + own + RowsOf(after, shells)
  {
    hide AnalyzeEntry, IsInput, Bridges;
    assert before + [e] + after == before + ([e] + after);
    PartsShow(before, [e] + after, shells);
    FrontShows(e, after, own, shells);
    assert RowsOf(before, shells) + (own + RowsOf(after, shells)) == RowsOf(before, shells) + own + RowsOf(after, shells);
  }

  /** A user frame that is no output is never bridged over. */
  lemma UserStopsBridge(before: seq<Entry>, e: Entry, after: seq<Entry>)
    requires IsUserFrame(e) && !IsOutput(e)
    ensures !Bridges(before, [e] + after)
  {
    hide IsOutput, IsInput;
    forall j | FirstUserAt([e] + after, j) ensures ([e] + after)[j] == e {
      assert ([e] + after)[0] == e;
    }
  }

  /** An entry that is no user frame neither starts nor ends a pair. */
  lemma OthersDoNotBridge(before: seq<Entry>, e: Entry, after: seq<Entry>)
    requires !IsUserFrame(e)
    ensures Bridges(before, [e] + after) <==> Bridges(before, after)
  {
    hide IsOutput, IsInput, IsUserFrame;
    var m := [e] + after;
    forall j ensures FirstUserAt(after, j) <==> FirstUserAt(m, j + 1) && m[0] == e {
      FirstBehind(e, after, j);
    }
    if Bridges(before, after) {
      var i, j :| LastUserAt(before, i) && FirstUserAt(after, j) && IsInput(before[i]) && IsOutput(after[j]);
      assert FirstUserAt(m, j + 1) && m[j + 1] == after[j];
    }
    if Bridges(before, m) {
      var i, j :| LastUserAt(before, i) && FirstUserAt(m, j) && IsInput(before[i]) && IsOutput(m[j]);
      assert j != 0 by { assert m[0] == e; }
      assert FirstUserAt(after, j - 1) && m[j] == after[j - 1];
    }
  }

  lemma FirstBehind(e: Entry, after: seq<Entry>, j: int)
    requires !IsUserFrame(e)
    ensures FirstUserAt(after, j) <==> FirstUserAt([e] + after, j + 1)
  {
    hide IsUserFrame;
    var m := [e] + after;
    assert forall k :: 0 <= k < |after| ==> m[k + 1] == after[k];
    if FirstUserAt(m, j + 1) {
      assert m[0] == e && j >= 0;
      forall k | 0 <= k < j ensures !IsUserFrame(after[k]) { assert m[k + 1] == after[k]; }
    }
    if FirstUserAt(after, j) {
      forall k | 0 <= k < j + 1 ensures !IsUserFrame(m[k]) { assert m[k] == if k == 0 then e else after[k - 1]; }
    }
  }

  // ---------- user messages ----------

  /** The texts of the text blocks. */
  function BlockTexts(blocks: seq<UserBlock>): seq<string> {
    if blocks == [] then []
    else if blocks[0].TextBlock? && blocks[0].text.Some? then [blocks[0].text.value] + BlockTexts(blocks[1..])
    else BlockTexts(blocks[1..])
  }

  /** What a user message says: its text, or its text blocks one a line. */
  function Said(content: UserContent): string {
    match content
    case PlainText(text) => text
    case NoContent => ""
    case Blocks(blocks) => Join(BlockTexts(blocks), "\n")
  }

  predicate OnlyToolResults(content: UserContent) {
    content.Blocks? && content.blocks != [] && forall i :: 0 <= i < |content.blocks| ==> content.blocks[i].ToolResultBlock?
  }

  lemma {:induction false} BlockTextsAre(blocks: seq<UserBlock>)
    ensures BlockTexts(blocks) == Concat(Map(blocks, TextOf))
  {
    if blocks != [] {
      BlockTextsAre(blocks[1..]);
      assert Map(blocks, TextOf)[1..] == Map(blocks[1..], TextOf);
    }
  }

  lemma SaidIs(content: UserContent)
    ensures UserText(content) == Said(content)
    ensures OnlyToolResults(content) <==> IsToolResultOnly(content)
    ensures OnlyToolResults(content) ==> Said(content) == ""
  {
    if content.Blocks? {
      BlockTextsAre(content.blocks);
      if OnlyToolResults(content) { NoTexts(content.blocks); }
      assert forall b :: b in content.blocks ==> exists i :: 0 <= i < |content.blocks| && content.blocks[i] == b;
    }
  }

  lemma {:induction false} NoTexts(blocks: seq<UserBlock>)
    requires forall i :: 0 <= i < |blocks| ==> blocks[i].ToolResultBlock?
    ensures BlockTexts(blocks) == []
  {
    if blocks != [] { NoTexts(blocks[1..]); }
  }

  /** No bash tag opens in the text. */
  ghost predicate Untagged(text: string) {
    forall i: nat :: !BashXml.OccursAt(text, "<bash-", i)
  }

  function UserEntry(id: string, content: UserContent, isReplay: bool, parent: Option<string>): Entry {
    FrameEntry(id, Frame(User(content, isReplay), parent))
  }

  /** An ordinary user message shows as its text, wherever it stands, between the rows of what is before and behind it. */
  lemma TextShows(before: seq<Entry>, after: seq<Entry>, id: string, content: UserContent, isReplay: bool, parent: Option<string>,
                  shells: seq<Shell>)
    requires Untagged(Said(content)) && !OnlyToolResults(content)
    ensures var e := UserEntry(id, content, isReplay, parent);
      RowsOf(before + [e] + after, shells)
      == RowsOf(before, shells) + (if Said(content) != "" then [UserRow(id, Said(content))] else []) + RowsOf(after, shells)
  {
    hide BashXml.ParseBashFrame, UserText, NextUserFrameAt, Said, Untagged, BashXml.OccursAt, IsToolResultOnly, OnlyToolResults;
    var e := UserEntry(id, content, isReplay, parent);
    SaidIs(content);
    NoFrame(Said(content));
    UserStopsBridge(before, e, after);
    EntryShows(before, e, after, if Said(content) != "" then [UserRow(id, Said(content))] else [], shells);
  }

  lemma NoFrame(text: string)
    requires Untagged(text)
    ensures BashXml.ParseBashFrame(text).None?
  {
    Replays.UntaggedIsNone(text);
  }

  lemma EmptyUntagged()
    ensures Untagged("")
  {
    assert |"<bash-"| == 6;
  }

  /** A message of tool results alone shows as these. */
  lemma ToolResultsShow(before: seq<Entry>, after: seq<Entry>, id: string, blocks: seq<UserBlock>, isReplay: bool,
                        parent: Option<string>, shells: seq<Shell>)
    requires OnlyToolResults(Blocks(blocks))
    ensures var e := UserEntry(id, Blocks(blocks), isReplay, parent);
      RowsOf(before + [e] + after, shells) == RowsOf(before, shells) + [ToolResultRow(id, blocks)] + RowsOf(after, shells)
  {
    hide BashXml.ParseBashFrame, UserText, NextUserFrameAt, Said, Untagged, BashXml.OccursAt, IsToolResultOnly, OnlyToolResults;
    var e := UserEntry(id, Blocks(blocks), isReplay, parent);
    SaidIs(Blocks(blocks));
    EmptyUntagged();
    NoFrame("");
    UserStopsBridge(before, e, after);
    EntryShows(before, e, after, [ToolResultRow(id, blocks)], shells);
  }

  // ---------- bash messages ----------

  function TextEntry(id: string, text: string, isReplay: bool, parent: Option<string>): Entry {
    UserEntry(id, PlainText(text), isReplay, parent)
  }

  /** The first of the following user frames, if there is one, is no bash output. */
  ghost predicate NoOutputNext(after: seq<Entry>) {
    forall j :: FirstUserAt(after, j) ==> !IsOutput(after[j])
  }

  /**
   A bash input and the next user frame, its output, show as one row in place of the input, with that command and that
   output; the entries between them do not show.
   */
  lemma PairShows(before: seq<Entry>, mid: seq<Entry>, after: seq<Entry>, id: string, command: string, glue: string,
                  outId: string, out: Option<string>, err: Option<string>, exit: Option<string>, shells: seq<Shell>)
    requires BashXml.Free(glue, '<') && (out.Some? || err.Some? || exit.Some?)
    requires forall k :: 0 <= k < |mid| ==> !IsUserFrame(mid[k])
    ensures var input := TextEntry(id, Replays.InputText(command, glue), true, None);
      var output := TextEntry(outId, Replays.ReplayText(out, err, exit, glue), true, None);
      RowsOf(before + ([input] + mid + [output]) + after, shells)
      == RowsOf(before, shells) + [BashRow(id, command, ValueOr(out, ""), ValueOr(err, ""), ValueOr(exit, ""))] + RowsOf(after, shells)
  {
    hide BashXml.ParseBashFrame, Replays.InputText, Replays.ReplayText, NextUserFrameAt, AnalyzeEntry, Bridges, BashXml.Free;
    var input := TextEntry(id, Replays.InputText(command, glue), true, None);
    var output := TextEntry(outId, Replays.ReplayText(out, err, exit, glue), true, None);
    Replays.InputReadsBack(command, glue);
    Replays.ReplayReadsBack(out, err, exit, glue);
    OutputHasText(out, err, exit, glue);
    var pair := [input] + mid + [output];
    assert before + pair + after == before + ([input] + (mid + [output] + after));
    assert pair + after == [input] + (mid + [output] + after);
    UserStopsBridge(before, input, mid + [output] + after);
    PartsShow(before, pair + after, shells);
    PairAnalysis(input, mid, output, after, shells);
    Behind(pair, after, 0, shells);
    var own := [BashRow(id, command, ValueOr(out, ""), ValueOr(err, ""), ValueOr(exit, ""))];
    assert RowsOf(pair + after, shells) == own + RowsOf(after, shells);
    assert RowsOf(before, shells) + (own + RowsOf(after, shells)) == RowsOf(before, shells) + own + RowsOf(after, shells);
  }

  lemma OutputHasText(out: Option<string>, err: Option<string>, exit: Option<string>, glue: string)
    requires out.Some? || err.Some? || exit.Some?
    ensures Replays.ReplayText(out, err, exit, glue) != ""
  {
    hide BashXml.EscapeXml;
    var text := Replays.ReplayText(out, err, exit, glue);
    assert |text| >= |Replays.Piece("bash-stdout", out)| + |Replays.Piece("bash-stderr", err)|
                     + |Replays.Piece("bash-exit-code", exit)|;
  }

  lemma PairAnalysis(input: Entry, mid: seq<Entry>, output: Entry, after: seq<Entry>, shells: seq<Shell>)
    requires IsInput(input) && IsOutput(output) && forall k :: 0 <= k < |mid| ==> !IsUserFrame(mid[k])
    ensures var c := BashXml.ParseBashFrame(UserText(input.frame.body.content)).value.command;
      var o := BashXml.ParseBashFrame(UserText(output.frame.body.content)).value;
      AnalyzeEntry([input] + mid + [output] + after, 0, shells)
      == Analysis([BashRow(input.id, c, o.stdout, o.stderr, o.exit)], 1 + |mid|, false)
  {
    hide BashXml.ParseBashFrame, UserText;
    var m := [input] + mid + [output] + after;
    assert m[0] == input && m[1 + |mid|] == output;
    assert forall k :: 1 <= k < 1 + |mid| ==> m[k] == mid[k - 1];
    assert NextUserFrameAt(m, 1) == 1 + |mid|;
  }

  /** An input whose output has not come shows with what the last shell entry of its command has collected so far. */
  lemma LiveShows(before: seq<Entry>, after: seq<Entry>, id: string, command: string, glue: string, shells: seq<Shell>)
    requires BashXml.Free(glue, '<') && NoOutputNext(after)
    ensures var e := TextEntry(id, Replays.InputText(command, glue), true, None);
      RowsOf(before + [e] + after, shells) == RowsOf(before, shells) + [LiveRow(id, command, shells)] + RowsOf(after, shells)
  {
    hide BashXml.ParseBashFrame, Replays.InputText, NextUserFrameAt, AnalyzeEntry, LiveRow, IsOutput, IsInput, UserText;
    var e := TextEntry(id, Replays.InputText(command, glue), true, None);
    InputIs(e, command, glue);
    var m := [e] + after;
    UserStopsBridge(before, e, after);
    assert before + [e] + after == before + m;
    PartsShow(before, m, shells);
    NextShifts([e], after, 0);
    if NextUserFrameAt(after, 0) >= 0 {
      FirstOne(after);
      assert m[1 + NextUserFrameAt(after, 0)] == after[NextUserFrameAt(after, 0)];
    }
    UnpairedIsLive(m, 0, shells);
    Behind([e], after, 0, shells);
    assert RowsOf(before, shells) + ([LiveRow(id, command, shells)] + RowsOf(after, shells))
        == RowsOf(before, shells) + [LiveRow(id, command, shells)] + RowsOf(after, shells);
  }

  lemma InputIs(e: Entry, command: string, glue: string)
    requires BashXml.Free(glue, '<') && e.FrameEntry? && e.frame.body.User?
    requires e.frame.body.content == PlainText(Replays.InputText(command, glue))
    ensures IsInput(e) && !IsOutput(e)
    ensures BashXml.ParseBashFrame(UserText(e.frame.body.content)) == Some(BashXml.Input(command))
  {
    hide BashXml.ParseBashFrame, Replays.InputText;
    Replays.InputReadsBack(command, glue);
  }

  /** The row of a running command: what the last shell entry of that command collected, pending while that is nothing. */
  lemma LiveRowIs(id: string, command: string, shells: seq<Shell>, k: int)
    requires -1 <= k < |shells| && (k >= 0 ==> shells[k].command == command)
    requires forall j :: k < j < |shells| ==> shells[j].command != command
    ensures LiveRow(id, command, shells) ==
      LiveBashRow(id, command, if k < 0 then [] else shells[k].chunks, k < 0 || shells[k].chunks == [])
  {
    LiveShellIs(command, shells, k);
  }

  lemma {:induction false} LiveShellIs(command: string, shells: seq<Shell>, k: int)
    requires -1 <= k < |shells| && (k >= 0 ==> shells[k].command == command)
    requires forall j :: k < j < |shells| ==> shells[j].command != command
    ensures LiveShell(shells, command) == if k < 0 then None else Some(shells[k])
  {
    if k < |shells| - 1 { LiveShellIs(command, shells[..|shells| - 1], k); }
  }

  /** An output without its input shows by itself. */
  lemma LoneOutputShows(before: seq<Entry>, after: seq<Entry>, id: string, out: Option<string>, err: Option<string>,
                        exit: Option<string>, glue: string, shells: seq<Shell>)
    requires BashXml.Free(glue, '<') && (out.Some? || err.Some? || exit.Some?)
    requires forall i :: LastUserAt(before, i) ==> !IsInput(before[i])
    ensures var e := TextEntry(id, Replays.ReplayText(out, err, exit, glue), true, None);
      RowsOf(before + [e] + after, shells)
      == RowsOf(before, shells) + [BashRow(id, "(shell)", ValueOr(out, ""), ValueOr(err, ""), ValueOr(exit, ""))]
         + RowsOf(after, shells)
  {
    hide BashXml.ParseBashFrame, Replays.ReplayText, NextUserFrameAt;
    var e := TextEntry(id, Replays.ReplayText(out, err, exit, glue), true, None);
    Replays.ReplayReadsBack(out, err, exit, glue);
    assert !Bridges(before, [e] + after);
    EntryShows(before, e, after, [BashRow(id, "(shell)", ValueOr(out, ""), ValueOr(err, ""), ValueOr(exit, ""))], shells);
  }

  /** A message with a command and its output shows these, and behind them the text it has besides. */
  lemma MergedShows(before: seq<Entry>, after: seq<Entry>, id: string, text: string, isReplay: bool, parent: Option<string>,
                    command: string, out: string, err: string, exit: string, trailing: string, shells: seq<Shell>)
    requires BashXml.ParseBashFrame(text) == Some(BashXml.Merged(command, out, err, exit, trailing))
    ensures var e := TextEntry(id, text, isReplay, parent);
      RowsOf(before + [e] + after, shells)
      == RowsOf(before, shells)
         + ([BashRow(id + ":bash", command, out, err, exit)] + if trailing != "" then [UserRow(id + ":text", trailing)] else [])
         + RowsOf(after, shells)
  {
    hide BashXml.ParseBashFrame, NextUserFrameAt;
    var e := TextEntry(id, text, isReplay, parent);
    UserStopsBridge(before, e, after);
    EntryShows(before, e, after,
               [BashRow(id + ":bash", command, out, err, exit)] + if trailing != "" then [UserRow(id + ":text", trailing)] else [],
               shells);
  }

  // ---------- entries that are no user messages ----------

  /** What an entry that is no user message shows when no pair spans it. */
  ghost predicate ShowsAs(e: Entry, own: seq<Row>) {
    match e
    case LocalUser(id, text) => own == [LocalUserRow(id, text)]
    case Streaming(id, content) => own == [StreamingRow(id, content)]
    case FrameEntry(id, frame) =>
      match frame.body
      case Assistant(_, reply) => own == [AssistantRow(id, reply)]
      case Result(result) => own == [ResultRow(id, result)]
      case System(Status(mode)) => own == [if mode.Some? then ModeChangeRow(id, mode.value) else SystemRow(id, frame.body.payload)]
      case System(LocalCommandOutput(_)) => own == [SystemRow(id, frame.body.payload)]
      case System(OtherSystem(_)) => own == [SystemRow(id, frame.body.payload)]
      case System(Init) => own == []
      case System(SessionStateChanged(_)) => own == []
      case System(Hook(_)) => own == []
      case System(TaskLifecycle(_)) => own == []
      case User(_, _) => false
      case _ => own == []
  }

  /** Such an entry shows, in its place, if no input and output around it are a pair, and does not show at all if they are. */
  lemma OtherShows(before: seq<Entry>, e: Entry, after: seq<Entry>, own: seq<Row>, shells: seq<Shell>)
    requires !IsUserFrame(e) && ShowsAs(e, own)
    ensures RowsOf(before + [e] + after, shells) ==
      if Bridges(before, after) then RowsOf(before + after, shells)
      else RowsOf(before, shells) + own + RowsOf(after, shells)
  {
    hide Bridges, RowsOf, NextUserFrameAt, AnalyzeUser;
    if Bridges(before, after) {
      SpannedIsHidden(before, e, after, shells);
    } else {
      OthersDoNotBridge(before, e, after);
      EntryShows(before, e, after, own, shells);
    }
  }

  lemma SpannedIsHidden(before: seq<Entry>, e: Entry, after: seq<Entry>, shells: seq<Shell>)
    requires !IsUserFrame(e) && Bridges(before, after)
    ensures RowsOf(before + [e] + after, shells) == RowsOf(before + after, shells)
  {
    hide IsInput, IsOutput, RowsOf, IsUserFrame, UserText, BashXml.ParseBashFrame;
    var i, j :| LastUserAt(before, i) && FirstUserAt(after, j) && IsInput(before[i]) && IsOutput(after[j]);
    var front, q := before[..i], before[i + 1..];
    var r, rest := after[..j], after[j + 1..];
    assert before == front + ([before[i]] + q) && after == r + ([after[j]] + rest);
    Regroup(front, before[i], q, e, r, after[j], rest);
    NoUsers(q, e, r);
    SpannedRows(front, before[i], q + [e] + r, after[j], rest, shells);
    SpannedRows(front, before[i], q + r, after[j], rest, shells);
  }

  lemma NoUsers(q: seq<Entry>, e: Entry, r: seq<Entry>)
    requires !IsUserFrame(e)
    requires (forall k :: 0 <= k < |q| ==> !IsUserFrame(q[k])) && (forall k :: 0 <= k < |r| ==> !IsUserFrame(r[k]))
    ensures forall k :: 0 <= k < |q + [e] + r| ==> !IsUserFrame((q + [e] + r)[k])
    ensures forall k :: 0 <= k < |q + r| ==> !IsUserFrame((q + r)[k])
  {
    hide IsUserFrame;
  }

  lemma Regroup(front: seq<Entry>, x: Entry, q: seq<Entry>, e: Entry, r: seq<Entry>, y: Entry, rest: seq<Entry>)
    ensures (front + ([x] + q)) + [e] + (r + ([y] + rest)) == front + (([x] + (q + [e] + r) + [y]) + rest)
    ensures (front + ([x] + q)) + (r + ([y] + rest)) == front + (([x] + (q + r) + [y]) + rest)
  {
  }

  /** The rows around a pair do not depend on what it spans. */
  lemma SpannedRows(front: seq<Entry>, input: Entry, mid: seq<Entry>, output: Entry, rest: seq<Entry>, shells: seq<Shell>)
    requires IsInput(input) && IsOutput(output) && forall k :: 0 <= k < |mid| ==> !IsUserFrame(mid[k])
    ensures var c := BashXml.ParseBashFrame(UserText(input.frame.body.content)).value.command;
      var o := BashXml.ParseBashFrame(UserText(output.frame.body.content)).value;
      RowsOf(front + (([input] + mid + [output]) + rest), shells)
      == RowsOf(front, shells) + ([BashRow(input.id, c, o.stdout, o.stderr, o.exit)] + RowsOf(rest, shells))
  {
    hide BashXml.ParseBashFrame, UserText, NextUserFrameAt, AnalyzeEntry, Bridges;
    var pair := [input] + mid + [output];
    assert pair + rest == [input] + (mid + [output] + rest);
    UserStopsBridge(front, input, mid + [output] + rest);
    PartsShow(front, pair + rest, shells);
    PairAnalysis(input, mid, output, rest, shells);
    Behind(pair, rest, 0, shells);
  }
}
