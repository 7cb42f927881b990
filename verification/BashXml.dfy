/** The XML helpers of the bash side channel (packages/protocol/src/client/shell.ts, first part). */
module BashXml {
  import opened Prelude

  // ---------- escaping ----------

  /** String.prototype.replace with a global literal pattern. */
  function ReplaceAll(s: string, pat: string, with: string): string
    requires pat != ""
  {
    if s == "" then ""
    else if pat <= s then with + ReplaceAll(s[|pat|..], pat, with)
    else [s[0]] + ReplaceAll(s[1..], pat, with)
  }

  function EscapeXml(s: string): string {
    ReplaceAll(ReplaceAll(ReplaceAll(s, "&", "&amp;"), "<", "&lt;"), ">", "&gt;")
  }

  function DecodeXml(s: string): string {
    ReplaceAll(ReplaceAll(ReplaceAll(s, "&lt;", "<"), "&gt;", ">"), "&amp;", "&")
  }

  // ---------- matching one tag ----------

  predicate OccursAt(s: string, pat: string, i: nat) {
    i + |pat| <= |s| && forall k :: 0 <= k < |pat| ==> pat[k] == s[i + k]
  }

  /** String.prototype.indexOf. */
  function IndexOf(s: string, pat: string, from: nat): (i: int)
    ensures i == -1 || (from <= i && i + |pat| <= |s|)
    decreases |s| - from
  {
    if from + |pat| > |s| then -1
    else if OccursAt(s, pat, from) then from
    else IndexOf(s, pat, from + 1)
  }

  function Open(tag: string): string { "<" + tag + ">" }

  function Close(tag: string): string { "</" + tag + ">" }

  /** Where the opening tag starts, where the content starts and ends, and where the closing tag ends. */
  datatype Match = Match(start: nat, from: nat, to: nat, end: nat)

  /** The first match of `open([\s\S]*?)close`: the first `open`, up to the first `close` after it. */
  function FindBetween(text: string, open: string, close: string): (m: Option<Match>)
    ensures m.Some? ==> m.value.start <= m.value.from <= m.value.to <= m.value.end <= |text|
  {
    var i := IndexOf(text, open, 0);
    if i < 0 then None
    else
      var j := IndexOf(text, close, i + |open|);
      if j < 0 then None else Some(Match(i, i + |open|, j, j + |close|))
  }

  function FindTag(text: string, tag: string): (m: Option<Match>)
    ensures m.Some? ==> m.value.start <= m.value.from <= m.value.to <= m.value.end <= |text|
  {
    FindBetween(text, Open(tag), Close(tag))
  }

  predicate Within(m: Option<Match>, text: string) {
    m.Some? ==> m.value.start <= m.value.from <= m.value.to <= m.value.end <= |text|
  }

  function Inside(text: string, m: Option<Match>): string
    requires Within(m, text)
  {
    if m.None? then "" else DecodeXml(text[m.value.from..m.value.to])
  }

  function Cut(text: string, m: Option<Match>): string
    requires Within(m, text)
  {
    if m.None? then text else text[..m.value.start] + text[m.value.end..]
  }

  /** The decoded content of the first match, empty when there is none. */
  function Content(text: string, tag: string): string {
    Inside(text, FindTag(text, tag))
  }

  /** String.prototype.replace of the first match by nothing. */
  function RemoveTag(text: string, tag: string): string {
    Cut(text, FindTag(text, tag))
  }

  // ---------- bash frames ----------

  const INPUT := "bash-input"
  const STDOUT := "bash-stdout"
  const STDERR := "bash-stderr"
  const EXIT := "bash-exit-code"

  datatype BashFrame =
    | Input(command: string)
    | Output(stdout: string, stderr: string, exit: string)
    | Merged(command: string, stdout: string, stderr: string, exit: string, trailing: string)

  function ParseBashFrame(text: string): Option<BashFrame> {
    var hasInput := FindTag(text, INPUT).Some?;
    var hasOutput := FindTag(text, STDOUT).Some? || FindTag(text, STDERR).Some? || FindTag(text, EXIT).Some?;
    if !hasInput && !hasOutput then None
    else if hasInput && hasOutput then
      Some(Merged(Content(text, INPUT), Content(text, STDOUT), Content(text, STDERR), Content(text, EXIT),
                  Trim(RemoveTag(RemoveTag(RemoveTag(RemoveTag(text, INPUT), STDOUT), STDERR), EXIT))))
    else if hasInput then Some(Input(Content(text, INPUT)))
    else Some(Output(Content(text, STDOUT), Content(text, STDERR), Content(text, EXIT)))
  }

  function BuildBashXml(command: string, stdoutXml: string, stderrXml: string): string {
    Open(INPUT) + EscapeXml(command) + Close(INPUT) + "\n"
    + Open(STDOUT) + stdoutXml + Close(STDOUT)
    + Open(STDERR) + stderrXml + Close(STDERR)
  }

  // ---------- escaping, character by character ----------

  function Entity(c: char): string {
    if c == '&' then "&amp;" else if c == '<' then "&lt;" else "&gt;"
  }

  /** Each character of `cs` replaced by its entity. */
  function Encode(s: string, cs: set<char>): string {
    if s == "" then "" else (if s[0] in cs then Entity(s[0]) else [s[0]]) + Encode(s[1..], cs)
  }

  predicate Free(s: string, c: char) {
    forall i :: 0 <= i < |s| ==> s[i] != c
  }

  /** A piece without the pattern's first character is copied unchanged. */
  lemma {:induction false} ReplaceSkips(a: string, b: string, pat: string, with: string)
    requires pat != "" && Free(a, pat[0])
    ensures ReplaceAll(a + b, pat, with) == a + ReplaceAll(b, pat, with)
  {
    if a == "" {
      assert a + b == b;
    } else {
      assert (a + b)[0] == a[0] && (a + b)[1..] == a[1..] + b;
      ReplaceSkips(a[1..], b, pat, with);
      assert [a[0]] + (a[1..] + ReplaceAll(b, pat, with)) == a + ReplaceAll(b, pat, with);
    }
  }

  lemma ReplaceHit(b: string, pat: string, with: string)
    requires pat != ""
    ensures ReplaceAll(pat + b, pat, with) == with + ReplaceAll(b, pat, with)
  {
    assert (pat + b)[|pat|..] == b && pat <= pat + b;
  }

  /** An entity other than the pattern is copied unchanged. */
  lemma ReplaceMisses(c: char, b: string, pat: string, with: string)
    requires |pat| >= 2 && pat[0] == '&' && pat[1] != Entity(c)[1]
    ensures ReplaceAll(Entity(c) + b, pat, with) == Entity(c) + ReplaceAll(b, pat, with)
  {
    var e := Entity(c);
    assert (e + b)[1] == e[1] && (e + b)[1..] == e[1..] + b;
    ReplaceSkips(e[1..], b, pat, with);
    assert [e[0]] + (e[1..] + ReplaceAll(b, pat, with)) == e + ReplaceAll(b, pat, with);
  }

  lemma {:induction false} EscapeStep(s: string, cs: set<char>, c: char)
    requires c in {'&', '<', '>'} && c !in cs && cs <= {'&', '<', '>'} && (c == '&' ==> cs == {})
    ensures ReplaceAll(Encode(s, cs), [c], Entity(c)) == Encode(s, cs + {c})
  {
    if s != "" {
      var rest := Encode(s[1..], cs);
      EscapeStep(s[1..], cs, c);
      if s[0] == c {
        ReplaceHit(rest, [c], Entity(c));
      } else {
        ReplaceSkips(if s[0] in cs then Entity(s[0]) else [s[0]], rest, [c], Entity(c));
      }
    }
  }

  lemma {:induction false} DecodeStep(s: string, cs: set<char>, c: char)
    requires '&' in cs && c in cs && cs <= {'&', '<', '>'} && (c == '&' ==> cs == {'&'})
    ensures ReplaceAll(Encode(s, cs), Entity(c), [c]) == Encode(s, cs - {c})
  {
    if s != "" {
      var rest := Encode(s[1..], cs);
      DecodeStep(s[1..], cs, c);
      if s[0] == c {
        ReplaceHit(rest, Entity(c), [c]);
      } else if s[0] in cs {
        ReplaceMisses(s[0], rest, Entity(c), [c]);
      } else {
        ReplaceSkips([s[0]], rest, Entity(c), [c]);
      }
    }
  }

  lemma {:induction false} EncodeNothing(s: string)
    ensures Encode(s, {}) == s
  {
    if s != "" { EncodeNothing(s[1..]); }
  }

  lemma EscapeEncodes(s: string)
    ensures EscapeXml(s) == Encode(s, {'&', '<', '>'})
  {
    EncodeNothing(s);
    EscapeStep(s, {}, '&');
    assert {} + {'&'} == {'&'} && {'&'} + {'<'} == {'&', '<'} && {'&', '<'} + {'>'} == {'&', '<', '>'};
    EscapeStep(s, {'&'}, '<');
    EscapeStep(s, {'&', '<'}, '>');
  }

  /** Decoding undoes escaping, for every string. */
  lemma DecodeEscape(s: string)
    ensures DecodeXml(EscapeXml(s)) == s
  {
    EscapeEncodes(s);
    DecodeStep(s, {'&', '<', '>'}, '<');
    assert {'&', '<', '>'} - {'<'} == {'&', '>'} && {'&', '>'} - {'>'} == {'&'} && {'&'} - {'&'} == {};
    DecodeStep(s, {'&', '>'}, '>');
    DecodeStep(s, {'&'}, '&');
    EncodeNothing(s);
  }

  lemma {:induction false} EncodeFree(s: string, c: char)
    requires c == '<' || c == '>'
    ensures Free(Encode(s, {'&', '<', '>'}), c)
  {
    if s != "" { EncodeFree(s[1..], c); }
  }

  /** Escaped text contains neither angle bracket, so it cannot open or close a tag. */
  lemma EscapedIsTagFree(s: string)
    ensures Free(EscapeXml(s), '<') && Free(EscapeXml(s), '>')
  {
    EscapeEncodes(s);
    EncodeFree(s, '<');
    EncodeFree(s, '>');
  }

  // ---------- finding tags in concatenations ----------

  lemma OccursShift(a: string, b: string, pat: string, i: nat)
    ensures OccursAt(a + b, pat, |a| + i) <==> OccursAt(b, pat, i)
  {
  }

  /** The position found in a + b for the one found in b. */
  function Shift(i: int, off: nat): int {
    if i < 0 then -1 else i + off
  }

  lemma {:induction false} IndexOfShift(a: string, b: string, pat: string, from: nat)
    ensures IndexOf(a + b, pat, |a| + from) == Shift(IndexOf(b, pat, from), |a|)
    decreases |b| - from
  {
    OccursShift(a, b, pat, from);
    if from + |pat| <= |b| && !OccursAt(b, pat, from) {
      IndexOfShift(a, b, pat, from + 1);
    }
  }

  /** The search passes over a stretch in which the pattern does not start. */
  lemma {:induction false} IndexOfSkips(s: string, pat: string, from: nat, to: nat)
    requires from <= to <= |s|
    requires forall i :: from <= i < to ==> !OccursAt(s, pat, i)
    ensures IndexOf(s, pat, from) == IndexOf(s, pat, to)
    decreases |s| - from
  {
    if from < to {
      IndexOfSkips(s, pat, from + 1, to);
      if from + |pat| > |s| {
        assert to + |pat| > |s|;
      }
    }
  }

  ghost predicate Shifted(whole: Option<Match>, part: Option<Match>, off: nat) {
    if part.None? then whole.None?
    else whole == Some(Match(off + part.value.start, off + part.value.from, off + part.value.to, off + part.value.end))
  }

  lemma OccursChar(s: string, pat: string, i: nat, k: nat)
    requires OccursAt(s, pat, i) && k < |pat|
    ensures s[i + k] == pat[k]
  {
  }

  /** A piece in which the opening pattern does not start only shifts the match. */
  lemma MatchShifts(a: string, b: string, open: string, close: string)
    requires forall i :: 0 <= i < |a| ==> !OccursAt(a + b, open, i)
    ensures Shifted(FindBetween(a + b, open, close), FindBetween(b, open, close), |a|)
  {
    IndexOfSkips(a + b, open, 0, |a|);
    IndexOfShift(a, b, open, 0);
    var i := IndexOf(b, open, 0);
    assert IndexOf(a + b, open, 0) == Shift(i, |a|);
    if i >= 0 {
      IndexOfShift(a, b, close, i + |open|);
      assert |a| + (i + |open|) == i + |a| + |open|;
    }
  }

  lemma CutShifts(a: string, b: string, from: nat, to: nat)
    requires from <= to <= |b|
    ensures (a + b)[..|a| + from] + (a + b)[|a| + to..] == a + (b[..from] + b[to..])
    ensures (a + b)[|a| + from..|a| + to] == b[from..to]
  {
    assert (a + b)[..|a| + from] == a + b[..from];
    assert (a + b)[|a| + to..] == b[to..];
  }

  lemma ShiftedParts(a: string, b: string, whole: Option<Match>, part: Option<Match>)
    requires Within(part, b) && Shifted(whole, part, |a|)
    ensures Within(whole, a + b)
    ensures Cut(a + b, whole) == a + Cut(b, part) && Inside(a + b, whole) == Inside(b, part)
  {
    if part.Some? {
      CutShifts(a, b, part.value.start, part.value.end);
      CutShifts(a, b, part.value.from, part.value.to);
    }
  }

  /** The search for `tag` passes over a, whatever b is. */
  ghost predicate Passes(a: string, b: string, tag: string) {
    Shifted(FindTag(a + b, tag), FindTag(b, tag), |a|)
  }

  lemma PassedParts(a: string, b: string, tag: string)
    requires Passes(a, b, tag)
    ensures RemoveTag(a + b, tag) == a + RemoveTag(b, tag) && Content(a + b, tag) == Content(b, tag)
  {
    ShiftedParts(a, b, FindTag(a + b, tag), FindTag(b, tag));
  }

  lemma PassesBoth(a1: string, a2: string, b: string, tag: string)
    requires Passes(a2, b, tag) && Passes(a1, a2 + b, tag)
    ensures Passes(a1 + a2, b, tag)
  {
    assert a1 + a2 + b == a1 + (a2 + b);
  }

  /** A piece `<` + w with no further bracket, whose character k differs from the opening tag's. */
  lemma PassesPiece(w: string, b: string, tag: string, k: nat)
    requires Free(w, '<') && 0 < k <= |w| && k < |Open(tag)| && w[k - 1] != Open(tag)[k]
    ensures Passes("<" + w, b, tag)
  {
    var a := "<" + w;
    forall i | 0 <= i < |a| ensures !OccursAt(a + b, Open(tag), i) {
      if OccursAt(a + b, Open(tag), i) {
        OccursChar(a + b, Open(tag), i, if i == 0 then k else 0);
      }
    }
    MatchShifts(a, b, Open(tag), Close(tag));
  }

  lemma PassesPlain(a: string, b: string, tag: string)
    requires Free(a, '<')
    ensures Passes(a, b, tag)
  {
    forall i | 0 <= i < |a| ensures !OccursAt(a + b, Open(tag), i) {
      if OccursAt(a + b, Open(tag), i) { OccursChar(a + b, Open(tag), i, 0); }
    }
    MatchShifts(a, b, Open(tag), Close(tag));
  }

  lemma IndexHere(s: string, pat: string, from: nat, at: nat)
    requires from <= at && OccursAt(s, pat, at)
    requires forall i :: from <= i < at ==> !OccursAt(s, pat, i)
    ensures IndexOf(s, pat, from) == at
  {
    IndexOfSkips(s, pat, from, at);
  }

  lemma FindHere(open: string, body: string, close: string, post: string)
    requires Free(body, '<') && close != "" && close[0] == '<' && open != ""
    ensures FindBetween(open + body + close + post, open, close)
      == Some(Match(0, |open|, |open| + |body|, |open| + |body| + |close|))
  {
    var text, c := open + body + close + post, |open| + |body|;
    IndexHere(text, open, 0, 0);
    forall i | |open| <= i < c ensures !OccursAt(text, close, i) {
      assert text[i] == body[i - |open|];
    }
    assert OccursAt(text, close, c);
    IndexHere(text, close, |open|, c);
  }

  /** At its own tag the search returns the bracket-free body. */
  lemma FindTagHere(tag: string, body: string, post: string)
    requires Free(body, '<')
    ensures var text := Open(tag) + body + Close(tag) + post;
      && FindTag(text, tag).Some?
      && Content(text, tag) == DecodeXml(body)
      && RemoveTag(text, tag) == post
  {
    var open, close := Open(tag), Close(tag);
    FindHere(open, body, close, post);
    var text, c := open + body + close + post, |open| + |body|;
    assert text[|open|..c] == body && text[c + |close|..] == post;
  }

  // ---------- the printed exchange parses back ----------

  function Element(tag: string, body: string): string {
    Open(tag) + body + Close(tag)
  }

  lemma BuildShape(command: string, stdoutXml: string, stderrXml: string, rest: string)
    ensures BuildBashXml(command, stdoutXml, stderrXml) + rest
      == Printed(EscapeXml(command), stdoutXml, stderrXml, rest)
  {
    var i, o, e := Element(INPUT, EscapeXml(command)), Element(STDOUT, stdoutXml), Element(STDERR, stderrXml);
    assert BuildBashXml(command, stdoutXml, stderrXml) == i + "\n" + o + e;
  }

  lemma PassesClose(other: string, b: string, tag: string)
    requires Free(other, '<') && tag != "" && tag[0] != '/'
    ensures Passes(Close(other), b, tag)
  {
    var w := "/" + other + ">";
    PassesPiece(w, b, tag, 1);
    assert Close(other) == "<" + w;
  }

  lemma PassesOpen(other: string, body: string, b: string, tag: string, k: nat)
    requires Free(other, '<') && Free(body, '<') && k < |other| && k < |tag| && other[k] != tag[k]
    ensures Passes(Open(other) + body, b, tag)
  {
    var w := other + ">" + body;
    assert w[k] == other[k] && Open(tag)[k + 1] == tag[k];
    PassesPiece(w, b, tag, k + 1);
    assert Open(other) + body == "<" + w;
  }

  /** An element of another tag is passed over: its tags differ from this one in character k. */
  lemma PassesElement(other: string, body: string, b: string, tag: string, k: nat)
    requires Free(other, '<') && Free(body, '<')
    requires k < |other| && k < |tag| && other[k] != tag[k] && tag[0] != '/'
    ensures Passes(Element(other, body), b, tag)
  {
    PassesClose(other, b, tag);
    PassesOpen(other, body, Close(other) + b, tag, k);
    PassesBoth(Open(other) + body, Close(other), b, tag);
  }

  lemma SeekPastElement(other: string, body: string, b: string, tag: string, k: nat)
    requires Free(other, '<') && Free(body, '<')
    requires k < |other| && k < |tag| && other[k] != tag[k] && tag[0] != '/'
    ensures Content(Element(other, body) + b, tag) == Content(b, tag)
    ensures FindTag(Element(other, body) + b, tag).Some? <==> FindTag(b, tag).Some?
  {
    PassesElement(other, body, b, tag, k);
    PassedParts(Element(other, body), b, tag);
  }

  lemma SeekPastNewline(b: string, tag: string)
    ensures Content("\n" + b, tag) == Content(b, tag) && RemoveTag("\n" + b, tag) == "\n" + RemoveTag(b, tag)
    ensures FindTag("\n" + b, tag).Some? <==> FindTag(b, tag).Some?
  {
    PassesPlain("\n", b, tag);
    PassedParts("\n", b, tag);
  }

  /** The three printed elements and the text that follows them. */
  function Printed(c: string, o: string, e: string, rest: string): string {
    Element(INPUT, c) + ("\n" + (Element(STDOUT, o) + (Element(STDERR, e) + rest)))
  }

  lemma PrintedInput(c: string, o: string, e: string, rest: string)
    requires Free(c, '<')
    ensures FindTag(Printed(c, o, e, rest), INPUT).Some? && Content(Printed(c, o, e, rest), INPUT) == DecodeXml(c)
  {
    FindTagHere(INPUT, c, "\n" + (Element(STDOUT, o) + (Element(STDERR, e) + rest)));
  }

  lemma PrintedStdout(c: string, o: string, e: string, rest: string)
    requires Free(c, '<') && Free(o, '<')
    ensures FindTag(Printed(c, o, e, rest), STDOUT).Some? && Content(Printed(c, o, e, rest), STDOUT) == DecodeXml(o)
  {
    var errRest := Element(STDERR, e) + rest;
    SeekPastElement(INPUT, c, "\n" + (Element(STDOUT, o) + errRest), STDOUT, 5);
    SeekPastNewline(Element(STDOUT, o) + errRest, STDOUT);
    FindTagHere(STDOUT, o, errRest);
  }

  lemma PrintedStderr(c: string, o: string, e: string, rest: string)
    requires Free(c, '<') && Free(o, '<') && Free(e, '<')
    ensures Content(Printed(c, o, e, rest), STDERR) == DecodeXml(e)
  {
    var errRest := Element(STDERR, e) + rest;
    SeekPastElement(INPUT, c, "\n" + (Element(STDOUT, o) + errRest), STDERR, 5);
    SeekPastNewline(Element(STDOUT, o) + errRest, STDERR);
    SeekPastElement(STDOUT, o, errRest, STDERR, 8);
    FindTagHere(STDERR, e, rest);
  }

  lemma PrintedExit(c: string, o: string, e: string, rest: string)
    requires Free(c, '<') && Free(o, '<') && Free(e, '<')
    ensures Content(Printed(c, o, e, rest), EXIT) == Content(rest, EXIT)
  {
    var errRest := Element(STDERR, e) + rest;
    SeekPastElement(INPUT, c, "\n" + (Element(STDOUT, o) + errRest), EXIT, 5);
    SeekPastNewline(Element(STDOUT, o) + errRest, EXIT);
    SeekPastElement(STDOUT, o, errRest, EXIT, 5);
    SeekPastElement(STDERR, e, rest, EXIT, 5);
  }

  lemma PrintedTrailing(c: string, o: string, e: string, rest: string)
    requires Free(c, '<') && Free(o, '<') && Free(e, '<')
    ensures var text := Printed(c, o, e, rest);
      RemoveTag(RemoveTag(RemoveTag(RemoveTag(text, INPUT), STDOUT), STDERR), EXIT) == "\n" + RemoveTag(rest, EXIT)
  {
    var errRest := Element(STDERR, e) + rest;
    var outRest := Element(STDOUT, o) + errRest;
    FindTagHere(INPUT, c, "\n" + outRest);
    SeekPastNewline(outRest, STDOUT);
    FindTagHere(STDOUT, o, errRest);
    SeekPastNewline(errRest, STDERR);
    FindTagHere(STDERR, e, rest);
    SeekPastNewline(rest, EXIT);
  }

  /**
   Parsing the printed exchange followed by any text: command and both outputs come back exactly; the exit
   code is the one found in the text; the trailing text is the trimmed text without its exit-code element.
   */
  lemma ParsePrinted(command: string, out: string, err: string, rest: string)
    ensures ParseBashFrame(BuildBashXml(command, EscapeXml(out), EscapeXml(err)) + rest)
      == Some(Merged(command, out, err, Content(rest, EXIT), Trim(RemoveTag(rest, EXIT))))
  {
    var c, o, e := EscapeXml(command), EscapeXml(out), EscapeXml(err);
    BuildShape(command, o, e, rest);
    EscapedIsTagFree(command);
    EscapedIsTagFree(out);
    EscapedIsTagFree(err);
    DecodeEscape(command);
    DecodeEscape(out);
    DecodeEscape(err);
    PrintedInput(c, o, e, rest);
    PrintedStdout(c, o, e, rest);
    PrintedStderr(c, o, e, rest);
    PrintedExit(c, o, e, rest);
    PrintedTrailing(c, o, e, rest);
    TrimLeadingSpace("\n", RemoveTag(rest, EXIT));
  }

  lemma BlankLine(text: string)
    ensures Content("\n\n" + text, EXIT) == Content(text, EXIT)
    ensures Trim(RemoveTag("\n\n" + text, EXIT)) == Trim(RemoveTag(text, EXIT))
  {
    PassesPlain("\n\n", text, EXIT);
    PassedParts("\n\n", text, EXIT);
    TrimLeadingSpace("\n\n", RemoveTag(text, EXIT));
  }

  lemma TrailingIntact(text: string)
    ensures Content(text, EXIT) == "" && Trim(RemoveTag(text, EXIT)) == Trim(text) <==> FindTag(text, EXIT).None?
  {
    if FindTag(text, EXIT).Some? { CutIsShorter(text); }
  }

  lemma CutIsShorter(text: string)
    requires FindTag(text, EXIT).Some?
    ensures |Trim(RemoveTag(text, EXIT))| < |Trim(text)|
  {
    var m := FindTag(text, EXIT).value;
    var el := text[m.start..m.end];
    assert Trimmed(el) by {
      FoundAt(text, Open(EXIT), 0);
      FoundAt(text, Close(EXIT), m.from);
      OccursChar(text, Open(EXIT), m.start, 0);
      OccursChar(text, Close(EXIT), m.to, |Close(EXIT)| - 1);
    }
    assert text == text[..m.start] + el + text[m.end..];
    TrimCutShorter(text[..m.start], el, text[m.end..]);
  }

  /**
   An exchange prepended to a message (a blank line between them) is read back as exactly itself, with no
   exit code and the trimmed message as trailing text, if and only if the message has no exit-code element.
   */
  lemma RoundTrip(command: string, out: string, err: string, text: string)
    ensures ParseBashFrame(BuildBashXml(command, EscapeXml(out), EscapeXml(err)) + ("\n\n" + text))
        == Some(Merged(command, out, err, "", Trim(text)))
      <==> FindTag(text, EXIT).None?
  {
    ParsePrinted(command, out, err, "\n\n" + text);
    BlankLine(text);
    TrailingIntact(text);
  }

  lemma {:induction false} FoundAt(s: string, pat: string, from: nat)
    requires IndexOf(s, pat, from) >= 0
    ensures OccursAt(s, pat, IndexOf(s, pat, from))
    decreases |s| - from
  {
    if !OccursAt(s, pat, from) { FoundAt(s, pat, from + 1); }
  }

  /** The printed exchange alone has neither an exit code nor trailing text. */
  lemma RoundTripAlone(command: string, out: string, err: string)
    ensures ParseBashFrame(BuildBashXml(command, EscapeXml(out), EscapeXml(err)))
      == Some(Merged(command, out, err, "", ""))
  {
    var printed := BuildBashXml(command, EscapeXml(out), EscapeXml(err));
    ParsePrinted(command, out, err, "");
    assert printed + "" == printed;
  }
}
