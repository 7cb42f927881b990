/**
 Where a position of minified JavaScript is code, string or comment, one character at a time, and the scanner
 that looks for the closing parenthesis (codegen/extract.ts, findBalanced).
 */
module JsLexer {
  import opened Prelude

  /** Slash: code, after a slash that may open a comment. Star: in a block comment, after a star that may close it. */
  datatype Mode = Code | Slash | Str(quote: char) | Esc(quote: char) | Line | Block | Star

  predicate IsQuote(c: char) { c == '"' || c == '\'' || c == '`' }

  /** The white space the scanners skip by hand. */
  predicate IsGap(c: char) { c == ' ' || c == '\t' || c == '\n' || c == '\r' }

  /** Neither a quote, a slash, a bracket nor a comma. */
  predicate IsCalm(c: char) {
    !IsQuote(c) && c != '/' && c != '{' && c != '}' && c != '(' && c != ')' && c != '[' && c != ']' && c != ','
  }

  function Shift(c: char, open: char, close: char): int {
    if c == open then 1 else if c == close then -1 else 0
  }

  /** The character is read as code: not inside a string or comment, and not the second one of a comment opener. */
  predicate IsCode(m: Mode, c: char) {
    m.Code? || (m.Slash? && c != '/' && c != '*')
  }

  function Next(m: Mode, c: char): Mode {
    match m
    case Str(q) => if c == '\\' then Esc(q) else if c == q then Code else m
    case Esc(q) => Str(q)
    case Line => if c == '\n' then Code else Line
    case Block => if c == '*' then Star else Block
    case Star => if c == '/' then Code else if c == '*' then Star else Block
    case _ =>
      if m.Slash? && c == '/' then Line
      else if m.Slash? && c == '*' then Block
      else if IsQuote(c) then Str(c)
      else if c == '/' then Slash
      else Code
  }

  function ModeAfter(m: Mode, s: string): Mode {
    if s == "" then m else Next(ModeAfter(m, s[..|s| - 1]), s[|s| - 1])
  }

  function Delta(m: Mode, c: char): int {
    if !IsCode(m, c) then 0 else if c == '(' then 1 else if c == ')' then -1 else 0
  }

  /** How many parentheses of s, read from mode m, are open at its end. */
  function Depth(m: Mode, s: string): int {
    if s == "" then 0
    else Depth(m, s[..|s| - 1]) + Delta(ModeAfter(m, s[..|s| - 1]), s[|s| - 1])
  }

  /** The mode, and the depth, when everything from `open` up to but not including i has been read. */
  function ModeAt(text: string, open: nat, i: nat): Mode
    requires open <= i <= |text|
  {
    ModeAfter(Code, text[open..i])
  }

  function DepthAt(text: string, open: nat, i: nat): int
    requires open <= i <= |text|
  {
    Depth(Code, text[open..i])
  }

  /** Position j is the first, from `open` on, after which the lexical depth is zero again. */
  ghost predicate ClosesAt(text: string, open: nat, j: int) {
    && open <= j < |text|
    && DepthAt(text, open, j + 1) == 0
    && forall k :: open < k <= j ==> DepthAt(text, open, k) != 0
  }

  lemma OneMore(text: string, open: nat, i: nat)
    requires open <= i < |text|
    ensures ModeAt(text, open, i + 1) == Next(ModeAt(text, open, i), text[i])
    ensures DepthAt(text, open, i + 1) == DepthAt(text, open, i) + Delta(ModeAt(text, open, i), text[i])
  {
    assert text[open..i + 1][..i - open] == text[open..i];
  }

  /** The scanner's flags agree with the lexical mode before position i, given the character there. */
  predicate Agrees(m: Mode, inStr: Option<char>, inLineCmt: bool, inBlkCmt: bool, c: char) {
    match m
    case Code => inStr.None? && !inLineCmt && !inBlkCmt
    case Slash => inStr.None? && !inLineCmt && !inBlkCmt && c != '/' && c != '*'
    case Str(q) => inStr == Some(q) && !inLineCmt && !inBlkCmt
    case Esc(_) => false
    case Line => inStr.None? && inLineCmt && !inBlkCmt
    case Block => inStr.None? && !inLineCmt && inBlkCmt
    case Star => inStr.None? && !inLineCmt && inBlkCmt && c != '/'
  }

  /** The index of the matching parenthesis, or -1; None when text[open] is not an opening one. */
  method FindBalanced(text: string, open: nat) returns (r: Option<int>)
    ensures r.None? <==> open >= |text| || text[open] != '('
    ensures r.Some? && r.value >= 0 ==> ClosesAt(text, open, r.value)
    ensures r.Some? && r.value < 0 ==> r.value == -1 && forall j :: !ClosesAt(text, open, j)
  {
    if open >= |text| || text[open] != '(' {
      return None;
    }
    hide ModeAt, DepthAt;
    var depth, i: nat, inStr: Option<char>, inLineCmt, inBlkCmt := 0, open, None, false, false;
    assert ModeAt(text, open, open) == Code && DepthAt(text, open, open) == 0 by { AtOpen(text, open); }
    while i < |text|
      invariant open <= i
      invariant i < |text| ==> Agrees(ModeAt(text, open, i), inStr, inLineCmt, inBlkCmt, text[i])
      invariant i <= |text| ==> depth == DepthAt(text, open, i)
      invariant if i == open then depth == 0 else depth > 0
      invariant i == open ==> ModeAt(text, open, i) == Code
      invariant forall k :: open < k <= i && k <= |text| ==> DepthAt(text, open, k) > 0
    {
      var c := text[i];
      var nxt := if i + 1 < |text| then Some(text[i + 1]) else None;
      OneMore(text, open, i);
      if i + 1 < |text| {
        OneMore(text, open, i + 1);
      }
      if inLineCmt {
        if c == '\n' {
          inLineCmt := false;
        }
      } else if inBlkCmt {
        if c == '*' && nxt == Some('/') {
          inBlkCmt := false;
          i := i + 1;
        }
      } else if inStr.Some? {
        if c == '\\' {
          i := i + 1;
        } else if c == inStr.value {
          inStr := None;
        }
      } else {
        if IsQuote(c) {
          inStr := Some(c);
        } else if c == '/' && nxt == Some('/') {
          inLineCmt := true;
          i := i + 1;
        } else if c == '/' && nxt == Some('*') {
          inBlkCmt := true;
          i := i + 1;
        } else if c == '(' {
          depth := depth + 1;
        } else if c == ')' {
          depth := depth - 1;
          if depth == 0 {
            return Some(i);
          }
        }
      }
      i := i + 1;
    }
    return Some(-1);
  }

  lemma AtOpen(text: string, open: nat)
    requires open <= |text|
    ensures ModeAt(text, open, open) == Code && DepthAt(text, open, open) == 0
  {
  }

  // ---------- what the found position means ----------

  /** From mode m, s opens and closes its own parentheses, and ends neither in a string nor in a comment. */
  ghost predicate Balanced(m: Mode, s: string) {
    && (ModeAfter(m, s).Code? || ModeAfter(m, s).Slash?)
    && Depth(m, s) == 0
    && forall k :: 0 <= k <= |s| ==> Depth(m, s[..k]) >= 0
  }

  lemma {:induction false} Append(m: Mode, a: string, b: string)
    ensures ModeAfter(m, a + b) == ModeAfter(ModeAfter(m, a), b)
    ensures Depth(m, a + b) == Depth(m, a) + Depth(ModeAfter(m, a), b)
  {
    if b == "" {
      assert a + b == a;
    } else {
      assert (a + b)[..|a + b| - 1] == a + b[..|b| - 1];
      Append(m, a, b[..|b| - 1]);
    }
  }

  lemma AfterOpen(text: string, open: nat, k: nat)
    requires open < k <= |text| && text[open] == '('
    ensures ModeAt(text, open, k) == ModeAfter(Code, text[open + 1..k])
    ensures DepthAt(text, open, k) == 1 + Depth(Code, text[open + 1..k])
  {
    assert text[open..k] == "(" + text[open + 1..k];
    assert "("[..0] == "" && ModeAfter(Code, "(") == Code && Depth(Code, "(") == 1;
    Append(Code, "(", text[open + 1..k]);
  }

  /** The scanner's answer is j exactly when the text between the two parentheses is balanced. */
  lemma ClosesIffBalanced(text: string, open: nat, j: nat)
    requires open < j < |text| && text[open] == '('
    ensures ClosesAt(text, open, j) <==> text[j] == ')' && Balanced(Code, text[open + 1..j])
  {
    hide ModeAt, DepthAt, Depth, ModeAfter;
    var w := text[open + 1..j];
    AfterOpen(text, open, j);
    OneMore(text, open, j);
    forall k | 0 <= k <= |w| ensures DepthAt(text, open, open + 1 + k) == 1 + Depth(Code, w[..k]) {
      AfterOpen(text, open, open + 1 + k);
      assert w[..k] == text[open + 1..open + 1 + k];
    }
    if ClosesAt(text, open, j) {
      assert DepthAt(text, open, j) != 0;
      forall k | 0 <= k <= |w| ensures Depth(Code, w[..k]) >= 0 { StaysPositive(text, open, j, open + 1 + k); }
      StaysPositive(text, open, j, j);
    } else if text[j] == ')' && Balanced(Code, w) {
      assert w[..|w|] == w;
      forall k | open < k <= j ensures DepthAt(text, open, k) != 0 {
        assert DepthAt(text, open, open + 1 + (k - open - 1)) == 1 + Depth(Code, w[..k - open - 1]);
      }
    }
  }

  lemma {:induction false} StaysPositive(text: string, open: nat, j: nat, k: nat)
    requires open < k <= j < |text| && text[open] == '(' && ClosesAt(text, open, j)
    ensures DepthAt(text, open, k) > 0
    decreases k
  {
    if k == open + 1 {
      AfterOpen(text, open, k);
      assert text[open + 1..k] == "";
    } else {
      StaysPositive(text, open, j, k - 1);
      OneMore(text, open, k - 1);
      assert DepthAt(text, open, k) != 0;
    }
  }

  // ---------- a grammar of balanced text ----------

  datatype StringChar = Literal(c: char) | Escaped(c: char)

  datatype Token =
    | Plain(c: char)
    | Division(c: char) // a slash that opens no comment, and the character after it
    | Quoted(quote: char, chars: seq<StringChar>)
    | LineComment(text: string)
    | BlockComment(text: string)
    | Group(inner: Tokens)
    | Bracketed(open: char, inner: Tokens) // braces or square brackets

  datatype Tokens = Nil | Cons(head: Token, tail: Tokens)

  predicate IsPlain(c: char) {
    !IsQuote(c) && c != '(' && c != ')' && c != '/'
  }

  function Closer(open: char): char {
    if open == '{' then '}' else ']'
  }

  /** No star is followed by a slash. */
  ghost predicate InsideBlock(s: string) {
    forall k :: 0 < k < |s| && s[k] == '/' ==> s[k - 1] != '*'
  }

  ghost predicate WellFormedToken(t: Token) {
    match t
    case Plain(c) => IsPlain(c)
    case Division(c) => IsPlain(c) && c != '*'
    case Quoted(q, body) => IsQuote(q) && forall x :: x in body && x.Literal? ==> x.c != q && x.c != '\\'
    case LineComment(text) => forall i :: 0 <= i < |text| ==> text[i] != '\n'
    case BlockComment(text) => InsideBlock(text)
    case Group(inner) => WellFormed(inner)
    case Bracketed(open, inner) => (open == '{' || open == '[') && WellFormed(inner)
  }

  ghost predicate WellFormed(ts: Tokens) {
    ts.Nil? || (WellFormedToken(ts.head) && WellFormed(ts.tail))
  }

  function PrintString(body: seq<StringChar>): string {
    if body == [] then ""
    else
      var last := body[|body| - 1];
      PrintString(body[..|body| - 1]) + if last.Literal? then [last.c] else ['\\', last.c]
  }

  function PrintToken(t: Token): string {
    match t
    case Plain(c) => [c]
    case Division(c) => ['/', c]
    case Quoted(q, body) => [q] + PrintString(body) + [q]
    case LineComment(body) => "//" + body + "\n"
    case BlockComment(body) => "/*" + body + "*/"
    case Group(inner) => "(" + Print(inner) + ")"
    case Bracketed(open, inner) => [open] + Print(inner) + [Closer(open)]
  }

  function Print(ts: Tokens): string {
    if ts.Nil? then "" else PrintToken(ts.head) + Print(ts.tail)
  }

  /** Balanced, and back in plain code at the end. */
  ghost predicate Whole(s: string) {
    Balanced(Code, s) && ModeAfter(Code, s) == Code
  }

  lemma WholeConcat(a: string, b: string)
    requires Whole(a) && Whole(b)
    ensures Whole(a + b)
  {
    Append(Code, a, b);
    forall k | 0 <= k <= |a + b| ensures Depth(Code, (a + b)[..k]) >= 0 {
      if k <= |a| {
        assert (a + b)[..k] == a[..k];
      } else {
        assert (a + b)[..k] == a + b[..k - |a|];
        Append(Code, a, b[..k - |a|]);
      }
    }
  }

  lemma WholeGroup(w: string)
    requires Whole(w)
    ensures Whole("(" + w + ")")
  {
    var s := "(" + w + ")";
    assert "("[..0] == "" && ModeAfter(Code, "(") == Code && Depth(Code, "(") == 1;
    assert ")"[..0] == "" && ModeAfter(Code, ")") == Code && Depth(Code, ")") == -1;
    Append(Code, "(", w);
    Append(Code, "(" + w, ")");
    assert Depth(Code, s) == 0 && ModeAfter(Code, s) == Code;
    forall k | 0 <= k <= |s| ensures Depth(Code, s[..k]) >= 0 {
      if 0 < k <= |w| + 1 {
        assert s[..k] == "(" + w[..k - 1];
        Append(Code, "(", w[..k - 1]);
      } else if k == |s| {
        assert s[..k] == s;
      }
    }
  }

  /** Neither a bracket nor a comma. */
  predicate IsPassive(c: char) {
    c != '{' && c != '}' && c != '(' && c != ')' && c != '[' && c != ']' && c != ','
  }

  /** Read from mode m, s shows no bracket and no comma outside strings and comments. */
  ghost predicate Silent(m: Mode, s: string) {
    forall k :: 0 <= k < |s| ==> !IsCode(ModeAfter(m, s[..k]), s[k]) || IsPassive(s[k])
  }

  lemma SilentEmpty(m: Mode)
    ensures Silent(m, "") && ModeAfter(m, "") == m
  {
  }

  lemma SilentConcat(m: Mode, a: string, b: string)
    requires Silent(m, a) && Silent(ModeAfter(m, a), b)
    ensures Silent(m, a + b)
  {
    hide Next, IsCode, IsPassive;
    forall k | 0 <= k < |a + b| ensures !IsCode(ModeAfter(m, (a + b)[..k]), (a + b)[k]) || IsPassive((a + b)[k]) {
      if k < |a| {
        assert (a + b)[..k] == a[..k];
      } else {
        assert (a + b)[..k] == a + b[..k - |a|];
        Append(m, a, b[..k - |a|]);
      }
    }
  }

  lemma SilentChar(m: Mode, c: char)
    requires !IsCode(m, c) || IsPassive(c)
    ensures Silent(m, [c]) && ModeAfter(m, [c]) == Next(m, c)
  {
    assert [c][..0] == "";
  }

  lemma {:induction false} SilentDepth(m: Mode, s: string, k: nat)
    requires Silent(m, s) && k <= |s|
    ensures Depth(m, s[..k]) == 0
  {
    if k > 0 {
      SilentDepth(m, s, k - 1);
      assert s[..k][..k - 1] == s[..k - 1];
    }
  }

  lemma SilentMore(m: Mode, s: string, c: char)
    requires Silent(m, s) && (!IsCode(ModeAfter(m, s), c) || IsPassive(c))
    ensures Silent(m, s + [c]) && ModeAfter(m, s + [c]) == Next(ModeAfter(m, s), c)
  {
    SilentChar(ModeAfter(m, s), c);
    SilentConcat(m, s, [c]);
    Append(m, s, [c]);
  }

  lemma SilentIsWhole(s: string)
    requires Silent(Code, s) && ModeAfter(Code, s) == Code
    ensures Whole(s)
  {
    forall k | 0 <= k <= |s| ensures Depth(Code, s[..k]) == 0 { SilentDepth(Code, s, k); }
    assert s[..|s|] == s;
  }

  lemma {:induction false} InString(q: char, body: seq<StringChar>)
    requires IsQuote(q) && forall x :: x in body && x.Literal? ==> x.c != q && x.c != '\\'
    ensures Silent(Str(q), PrintString(body)) && ModeAfter(Str(q), PrintString(body)) == Str(q)
  {
    hide Silent, ModeAfter, IsPassive, IsQuote;
    if body == [] {
      SilentEmpty(Str(q));
    } else {
      var front, last := body[..|body| - 1], body[|body| - 1];
      assert last in body && forall x :: x in front ==> x in body;
      InString(q, front);
      var p := PrintString(front);
      if last.Literal? {
        SilentMore(Str(q), p, last.c);
      } else {
        SilentMore(Str(q), p, '\\');
        SilentMore(Str(q), p + ['\\'], last.c);
        assert p + ['\\'] + [last.c] == p + ['\\', last.c];
      }
    }
  }

  lemma {:induction false} InLine(text: string)
    requires forall i :: 0 <= i < |text| ==> text[i] != '\n'
    ensures Silent(Line, text) && ModeAfter(Line, text) == Line
  {
    if text == "" {
      SilentEmpty(Line);
    } else {
      InLine(text[..|text| - 1]);
      SilentMore(Line, text[..|text| - 1], text[|text| - 1]);
      assert text[..|text| - 1] + [text[|text| - 1]] == text;
    }
  }

  lemma {:induction false} InBlock(text: string)
    requires InsideBlock(text)
    ensures Silent(Block, text) && ModeAfter(Block, text) == if text != "" && text[|text| - 1] == '*' then Star else Block
  {
    hide Silent, ModeAfter, IsPassive;
    if text == "" {
      SilentEmpty(Block);
    } else {
      var front := text[..|text| - 1];
      InBlock(front);
      SilentMore(Block, front, text[|text| - 1]);
      assert front + [text[|text| - 1]] == text;
    }
  }

  lemma QuotedSilent(q: char, body: seq<StringChar>)
    requires WellFormedToken(Quoted(q, body))
    ensures Silent(Code, PrintToken(Quoted(q, body))) && ModeAfter(Code, PrintToken(Quoted(q, body))) == Code
  {
    hide Silent, ModeAfter, PrintString;
    SilentChar(Code, q);
    InString(q, body);
    SilentConcat(Code, [q], PrintString(body));
    Append(Code, [q], PrintString(body));
    SilentMore(Code, [q] + PrintString(body), q);
  }

  lemma OpensComment(c: char)
    requires c == '/' || c == '*'
    ensures Silent(Code, ['/', c]) && ModeAfter(Code, ['/', c]) == if c == '/' then Line else Block
  {
    SilentChar(Code, '/');
    SilentMore(Code, "/", c);
    assert "/" + [c] == ['/', c];
  }

  lemma LineSilent(text: string)
    requires WellFormedToken(LineComment(text))
    ensures Silent(Code, PrintToken(LineComment(text))) && ModeAfter(Code, PrintToken(LineComment(text))) == Code
  {
    hide Silent, ModeAfter, IsPassive;
    OpensComment('/');
    InLine(text);
    SilentConcat(Code, "//", text);
    Append(Code, "//", text);
    SilentMore(Code, "//" + text, '\n');
  }

  lemma BlockSilent(text: string)
    requires WellFormedToken(BlockComment(text))
    ensures Silent(Code, PrintToken(BlockComment(text))) && ModeAfter(Code, PrintToken(BlockComment(text))) == Code
  {
    hide Silent, ModeAfter, InsideBlock, IsPassive;
    OpensComment('*');
    InBlock(text);
    SilentConcat(Code, "/*", text);
    Append(Code, "/*", text);
    SilentMore(Code, "/*" + text, '*');
    SilentMore(Code, "/*" + text + "*", '/');
    assert "/*" + text + "*" + "/" == "/*" + text + "*/";
  }

  predicate IsLexeme(t: Token) {
    t.Quoted? || t.LineComment? || t.BlockComment?
  }

  /** Strings and comments hide whatever is in them. */
  lemma LexemeSilent(t: Token)
    requires WellFormedToken(t) && IsLexeme(t)
    ensures Silent(Code, PrintToken(t)) && ModeAfter(Code, PrintToken(t)) == Code
  {
    match t
    case Quoted(q, body) => QuotedSilent(q, body);
    case LineComment(text) => LineSilent(text);
    case BlockComment(text) => BlockSilent(text);
  }

  lemma PlainWhole(c: char)
    requires IsPlain(c)
    ensures Whole([c])
    ensures c != '*' ==> Whole(['/', c])
  {
    assert [c][..0] == "" && [c][..1] == [c];
    var s := ['/', c];
    assert s[..0] == "" && s[..1] == "/" && s[..2] == s && "/"[..0] == "";
  }

  lemma {:induction false} TokenWhole(t: Token)
    requires WellFormedToken(t)
    ensures Whole(PrintToken(t))
  {
    hide Whole, IsPlain, PrintString;
    match t
    case Plain(c) => PlainWhole(c);
    case Division(c) => PlainWhole(c);
    case Group(inner) =>
      PrintedIsBalanced(inner);
      WholeGroup(Print(inner));
    case Bracketed(open, inner) =>
      PrintedIsBalanced(inner);
      BracketWhole(open);
      WholeConcat([open], Print(inner));
      WholeConcat([open] + Print(inner), [Closer(open)]);
    case _ =>
      LexemeSilent(t);
      SilentIsWhole(PrintToken(t));
  }

  lemma BracketWhole(open: char)
    requires open == '{' || open == '['
    ensures Whole([open]) && Whole([Closer(open)])
  {
    PlainWhole(open);
    PlainWhole(Closer(open));
  }

  /** Everything the grammar prints is balanced. */
  lemma {:induction false} PrintedIsBalanced(ts: Tokens)
    requires WellFormed(ts)
    ensures Whole(Print(ts))
  {
    if ts.Nil? {
      SilentEmpty(Code);
    } else {
      TokenWhole(ts.head);
      PrintedIsBalanced(ts.tail);
      WholeConcat(PrintToken(ts.head), Print(ts.tail));
    }
  }

  /** In any surroundings, the parenthesis that opens a printed word is closed where the word ends, and nowhere else. */
  lemma PrintedWordCloses(before: string, ts: Tokens, after: string, j: int)
    requires WellFormed(ts)
    ensures ClosesAt(before + "(" + Print(ts) + ")" + after, |before|, j) <==> j == |before| + 1 + |Print(ts)|
  {
    var w := Print(ts);
    var text, end := before + "(" + w + ")" + after, |before| + 1 + |w|;
    PrintedIsBalanced(ts);
    assert text[|before| + 1..end] == w;
    ClosesIffBalanced(text, |before|, end);
  }
}
