/** The replays a process sends for a bash command, read, shown and passed on (packages/protocol/src/client/shell.ts). */
module Replays {
  import opened Prelude
  import opened Frames
  import opened BashXml
  import S = Shell
  import H = ShellRuns

  // ---------- reading a replay ----------

  function Piece(tag: string, body: Option<string>): string {
    if body.None? then "" else "<" + tag + ">" + EscapeXml(body.value) + "</" + tag + ">"
  }

  /** Output, error and exit code, each if there is one, with text between and behind them. */
  function ReplayText(out: Option<string>, err: Option<string>, exit: Option<string>, glue: string): string {
    Piece("bash-stdout", out) + (glue + (Piece("bash-stderr", err) + (glue + (Piece("bash-exit-code", exit) + glue))))
  }

  function InputText(command: string, glue: string): string {
    "<bash-input>" + EscapeXml(command) + "</bash-input>" + glue
  }

  lemma PieceIsElement(tag: string, body: string)
    ensures Piece(tag, Some(body)) == Element(tag, EscapeXml(body))
  {
  }

  /** Looking for one tag, another tag's element and the text behind it are passed over. */
  lemma SeekPast(tag: string, body: Option<string>, glue: string, rest: string, sought: string, k: nat)
    requires Free(tag, '<') && Free(glue, '<') && k < |tag| && k < |sought| && tag[k] != sought[k] && sought[0] != '/'
    ensures var text := Piece(tag, body) + (glue + rest);
      && Content(text, sought) == Content(rest, sought)
      && (FindTag(text, sought).Some? <==> FindTag(rest, sought).Some?)
  {
    PassesPlain(glue, rest, sought);
    PassedParts(glue, rest, sought);
    if body.Some? {
      EscapedIsTagFree(body.value);
      PieceIsElement(tag, body.value);
      SeekPastElement(tag, EscapeXml(body.value), glue + rest, sought, k);
    } else {
      assert "" + (glue + rest) == glue + rest;
    }
  }

  /** Looking for a tag, its own element gives its body; without one the search goes on behind it. */
  lemma SeekHere(tag: string, body: Option<string>, glue: string, rest: string)
    requires Free(tag, '<') && Free(glue, '<')
    ensures var text := Piece(tag, body) + (glue + rest);
      if body.Some? then FindTag(text, tag).Some? && Content(text, tag) == body.value
      else Content(text, tag) == Content(rest, tag) && (FindTag(text, tag).Some? <==> FindTag(rest, tag).Some?)
  {
    if body.Some? {
      EscapedIsTagFree(body.value);
      DecodeEscape(body.value);
      PieceIsElement(tag, body.value);
      FindTagHere(tag, EscapeXml(body.value), glue + rest);
    } else {
      assert "" + (glue + rest) == glue + rest;
      PassesPlain(glue, rest, tag);
      PassedParts(glue, rest, tag);
    }
  }

  lemma NothingFound(tag: string)
    ensures FindTag("", tag).None? && Content("", tag) == ""
  {
    assert |Open(tag)| >= 2;
  }

  /** Any output replay is read back: what it has exactly, and empty text for what it has not. */
  lemma ReplayReadsBack(out: Option<string>, err: Option<string>, exit: Option<string>, glue: string)
    requires Free(glue, '<') && (out.Some? || err.Some? || exit.Some?)
    ensures ParseBashFrame(ReplayText(out, err, exit, glue)) == Some(Output(ValueOr(out, ""), ValueOr(err, ""), ValueOr(exit, "")))
  {
    hide Content, FindTag, EscapeXml, Piece;
    var exitRest := Piece("bash-exit-code", exit) + (glue + "");
    assert glue + "" == glue;
    var errRest := Piece("bash-stderr", err) + (glue + exitRest);
    var text := Piece("bash-stdout", out) + (glue + errRest);
    assert text == ReplayText(out, err, exit, glue);
    NothingFound(INPUT);
    NothingFound(STDOUT);
    NothingFound(STDERR);
    NothingFound(EXIT);
    SeekPast("bash-stdout", out, glue, errRest, INPUT, 5);
    SeekPast("bash-stderr", err, glue, exitRest, INPUT, 5);
    SeekPast("bash-exit-code", exit, glue, "", INPUT, 5);
    SeekHere("bash-stdout", out, glue, errRest);
    SeekPast("bash-stderr", err, glue, exitRest, STDOUT, 8);
    SeekPast("bash-exit-code", exit, glue, "", STDOUT, 5);
    SeekPast("bash-stdout", out, glue, errRest, STDERR, 8);
    SeekHere("bash-stderr", err, glue, exitRest);
    SeekPast("bash-exit-code", exit, glue, "", STDERR, 5);
    SeekPast("bash-stdout", out, glue, errRest, EXIT, 5);
    SeekPast("bash-stderr", err, glue, exitRest, EXIT, 5);
    SeekHere("bash-exit-code", exit, glue, "");
  }

  /** The echo of a command is read back. */
  lemma InputReadsBack(command: string, glue: string)
    requires Free(glue, '<')
    ensures ParseBashFrame(InputText(command, glue)) == Some(Input(command))
  {
    hide Content, FindTag, EscapeXml;
    var text := Piece("bash-input", Some(command)) + (glue + "");
    assert text == InputText(command, glue);
    NothingFound(STDOUT);
    NothingFound(STDERR);
    NothingFound(EXIT);
    SeekHere("bash-input", Some(command), glue, "");
    SeekPast("bash-input", Some(command), glue, "", STDOUT, 5);
    SeekPast("bash-input", Some(command), glue, "", STDERR, 5);
    SeekPast("bash-input", Some(command), glue, "", EXIT, 5);
  }

  /** A text in which no bash tag opens is no bash frame. */
  lemma UntaggedIsNone(text: string)
    requires forall i: nat :: !OccursAt(text, "<bash-", i)
    ensures ParseBashFrame(text).None?
  {
    NoTag(text, INPUT);
    NoTag(text, STDOUT);
    NoTag(text, STDERR);
    NoTag(text, EXIT);
  }

  lemma NoTag(text: string, tag: string)
    requires (forall i: nat :: !OccursAt(text, "<bash-", i)) && |tag| >= 5 && tag[..5] == "bash-"
    ensures FindTag(text, tag).None?
  {
    if IndexOf(text, Open(tag), 0) >= 0 {
      FoundAt(text, Open(tag), 0);
      var i := IndexOf(text, Open(tag), 0);
      assert Open(tag)[..6] == "<bash-" by { assert Open(tag)[..6] == "<" + tag[..5]; }
      forall k | 0 <= k < 6 ensures "<bash-"[k] == text[i + k] { assert Open(tag)[k] == Open(tag)[..6][k]; }
      assert OccursAt(text, "<bash-", i);
    }
  }

  /** What the client prints for a context command, spelled out. */
  lemma PrintedIs(command: string, out: string, err: string)
    ensures BuildBashXml(command, EscapeXml(out), EscapeXml(err)) ==
      InputText(command, "\n") + Piece("bash-stdout", Some(out)) + Piece("bash-stderr", Some(err))
  {
    hide EscapeXml;
    PieceIsElement("bash-stdout", out);
    PieceIsElement("bash-stderr", err);
    assert InputText(command, "\n") == Element(INPUT, EscapeXml(command)) + "\n";
    assert BuildBashXml(command, EscapeXml(out), EscapeXml(err))
        == Element(INPUT, EscapeXml(command)) + "\n" + Element(STDOUT, EscapeXml(out)) + Element(STDERR, EscapeXml(err));
  }

  /** Command, output, error and exit code together, as a replay of an earlier session may hold them. */
  lemma MergedReadsBack(command: string, out: string, err: string, exit: string)
    ensures ParseBashFrame(InputText(command, "\n") + Piece("bash-stdout", Some(out)) + Piece("bash-stderr", Some(err))
                           + Piece("bash-exit-code", Some(exit)))
      == Some(Merged(command, out, err, exit, ""))
  {
    hide Content, FindTag, EscapeXml, RemoveTag, BuildBashXml;
    var rest := Piece("bash-exit-code", Some(exit));
    PrintedIs(command, out, err);
    ParsePrinted(command, out, err, rest);
    PieceIsElement("bash-exit-code", exit);
    EscapedIsTagFree(exit);
    DecodeEscape(exit);
    FindTagHere(EXIT, EscapeXml(exit), "");
    assert Element(EXIT, EscapeXml(exit)) + "" == rest;
    assert Trim("") == "";
  }

  // ---------- from the replay to the shell and to the model ----------

  /** A replay the process sends for a command. */
  function ReplayFrame(out: Option<string>, err: Option<string>, exit: Option<string>, glue: string, parent: Option<string>): Frame {
    Frame(User(PlainText(ReplayText(out, err, exit, glue)), true), parent)
  }

  lemma ReplayIsReply(out: Option<string>, err: Option<string>, exit: Option<string>, glue: string, parent: Option<string>)
    requires Free(glue, '<') && (out.Some? || err.Some? || exit.Some?)
    ensures S.ReplyOf(ReplayFrame(out, err, exit, glue, parent))
      == Some(S.Reply(ValueOr(out, ""), ValueOr(err, ""), ValueOr(exit, "")))
  {
    hide ReplayText, ParseBashFrame;
    ReplayReadsBack(out, err, exit, glue);
  }

  /** Only replayed plain-text user frames are replies. */
  lemma OthersAreNoReplies(f: Frame)
    requires !f.body.User? || !f.body.isReplay || !f.body.content.PlainText?
             || forall i: nat :: !OccursAt(f.body.content.text, "<bash-", i)
    ensures S.ReplyOf(f).None?
  {
    hide ParseBashFrame;
    if f.body.User? && f.body.isReplay && f.body.content.PlainText?
       && forall i: nat :: !OccursAt(f.body.content.text, "<bash-", i) {
      UntaggedIsNone(f.body.content.text);
    }
  }

  lemma JoinedLines(a: string, b: string, c: string)
    ensures Join([a], "\n") == a && Join([a, b], "\n") == a + "\n" + b && Join([a, b, c], "\n") == a + "\n" + (b + "\n" + c)
    ensures Join([], "\n") == ""
  {
    assert [a, b][1..] == [b] && [b, c][1..] == [c] && [a, b, c][1..] == [b, c];
    assert Join([c], "\n") == c;
    assert Join([b, c], "\n") == b + "\n" + c;
  }

  /** How a reply is shown: output, then error and exit code with their labels, a line each; nothing for what is empty or zero. */
  lemma ShownAs(out: string, err: string, exit: string)
    requires out != "" && err != "" && exit != "" && exit != "0"
    ensures S.ChunkOf(S.Reply("", "", "")) == S.ChunkOf(S.Reply("", "", "0")) == ""
    ensures S.ChunkOf(S.Reply(out, "", "")) == S.ChunkOf(S.Reply(out, "", "0")) == out
    ensures S.ChunkOf(S.Reply("", err, "")) == S.ChunkOf(S.Reply("", err, "0")) == "[stderr] " + err
    ensures S.ChunkOf(S.Reply("", "", exit)) == "[exit " + exit + "]"
    ensures S.ChunkOf(S.Reply(out, err, "")) == S.ChunkOf(S.Reply(out, err, "0")) == out + "\n" + ("[stderr] " + err)
    ensures S.ChunkOf(S.Reply(out, "", exit)) == out + "\n" + ("[exit " + exit + "]")
    ensures S.ChunkOf(S.Reply("", err, exit)) == ("[stderr] " + err) + "\n" + ("[exit " + exit + "]")
    ensures S.ChunkOf(S.Reply(out, err, exit)) == out + "\n" + (("[stderr] " + err) + "\n" + ("[exit " + exit + "]"))
  {
    hide Join;
    var e, x := "[stderr] " + err, "[exit " + exit + "]";
    JoinedLines(out, e, x);
    JoinedLines(e, x, "");
    JoinedLines(out, x, "");
    JoinedLines(x, "", "");
    var none: seq<string> := [];
    assert none + none + none == none && none + [e] + none == [e] && none + none + [x] == [x];
    assert [out] + [] + [] == [out];
    assert [out] + [e] + [] == [out, e] && [out] + [] + [x] == [out, x];
    assert none + [e] + [x] == [e, x] && [out] + [e] + [x] == [out, e, x];
  }

  /** The entry of the command that waits longest gets one more chunk; no other entry changes, and none moves. */
  ghost predicate ChunkAdded(before: seq<S.ShellEntry>, after: seq<S.ShellEntry>, id: string, chunk: string) {
    && |after| == |before|
    && forall i :: 0 <= i < |before| ==>
         after[i] == if before[i].id == id then before[i].(chunks := before[i].chunks + [chunk]) else before[i]
  }

  /** A reply shows in its command's entry and leaves the queue shorter by one. */
  lemma ReplyShows(s: S.State, f: Frame)
    requires S.ReplyOf(f).Some? && s.captures != [] && S.FollowUpOf(s).None?
    ensures var t := S.Replay(s, f);
      && ChunkAdded(s.entries, t.entries, s.captures[0].entryId, S.ChunkOf(S.ReplyOf(f).value))
      && t.captures == s.captures[1..] && t.followUps == s.followUps && t.outbox == s.outbox
  {
    hide S.ChunkOf, S.XmlOf, ParseBashFrame;
  }

  lemma LocalOutputShows(s: S.State, content: string)
    ensures var t := S.LocalOutput(s, content);
      if s.captures == [] then t == s
      else ChunkAdded(s.entries, t.entries, s.captures[0].entryId, content) && t == s.(entries := t.entries)
  {
  }

  /**
   From the replay to the model: a context command, alone in waiting, is answered by a replay of output and error, and
   the next message without text of its own is read as exactly that command with that output and that error.
   */
  lemma ReplayReachesTheModel(s: S.State, out: string, err: string, exit: Option<string>, glue: string, parent: Option<string>)
    requires s.captures != [] && s.captures[0].source.Context? && s.exchanges == [] && S.FollowUpOf(s).None?
    requires Free(glue, '<')
    ensures var t := S.SendUser(S.Replay(s, ReplayFrame(Some(out), Some(err), exit, glue, parent)), "");
      && |t.outbox| == |s.outbox| + 1 && t.outbox[|s.outbox|].UserText? && t.outbox[..|s.outbox|] == s.outbox
      && ParseBashFrame(t.outbox[|s.outbox|].payload) == Some(Merged(s.captures[0].command, out, err, "", ""))
  {
    hide ParseBashFrame, ReplayText, S.ChunkOf, BuildBashXml, EscapeXml, S.Compose;
    var f, cap := ReplayFrame(Some(out), Some(err), exit, glue, parent), s.captures[0];
    ReplayIsReply(Some(out), Some(err), exit, glue, parent);
    var r := S.Reply(out, err, ValueOr(exit, ""));
    var u := S.Replay(s, f);
    assert u.exchanges == [S.Exchange(cap.entryId, S.XmlOf(cap.command, r))];
    H.SingleReadsBack(H.Done(cap.entryId, cap.command, r), "");
    assert Trim("") == "";
    assert H.XmlsOf([H.Done(cap.entryId, cap.command, r)]) == u.exchanges;
  }

  /** With a follow-up the replay itself sends that message, with the follow-up behind the exchange. */
  lemma FollowUpReachesTheModel(s: S.State, out: string, err: string, exit: Option<string>, glue: string, parent: Option<string>)
    requires s.captures != [] && s.captures[0].source.Context? && s.exchanges == [] && S.FollowUpOf(s).Some?
    requires Free(glue, '<')
    requires var text := S.FollowUpOf(s).value; Trim(text) != "" && FindTag(text, EXIT).None?
    ensures var t := S.Replay(s, ReplayFrame(Some(out), Some(err), exit, glue, parent));
      && |t.outbox| == |s.outbox| + 1 && t.outbox[|s.outbox|].UserText?
      && ParseBashFrame(t.outbox[|s.outbox|].payload)
         == Some(Merged(s.captures[0].command, out, err, "", Trim(S.FollowUpOf(s).value)))
  {
    hide ParseBashFrame, ReplayText, S.ChunkOf, BuildBashXml, EscapeXml, S.Compose, FindTag;
    var f, cap := ReplayFrame(Some(out), Some(err), exit, glue, parent), s.captures[0];
    ReplayIsReply(Some(out), Some(err), exit, glue, parent);
    var r := S.Reply(out, err, ValueOr(exit, ""));
    H.FollowUpCarriesItsExchange(s, f);
    H.SingleReadsBack(H.Done(cap.entryId, cap.command, r), S.FollowUpOf(s).value);
    assert H.XmlsOf([H.Done(cap.entryId, cap.command, r)]) == [S.Exchange(cap.entryId, S.XmlOf(cap.command, r))];
    assert s.exchanges + [S.Exchange(cap.entryId, S.XmlOf(cap.command, r))] == [S.Exchange(cap.entryId, S.XmlOf(cap.command, r))];
  }
}
