/** Expressions written by a grammar are right-hand sides that both field scanners read back. */
module Expressions {
  import opened Prelude
  import opened JsLexer
  import ObjectFields
  import ObjectLiterals
  import Splitter

  /** A character with no meaning of its own to the scanners. */
  predicate IsText(c: char, top: bool) {
    !IsQuote(c) && c != '/' && (IsPassive(c) || (c == ',' && !top))
  }

  /** Brackets come in pairs, and at the top level there is no comma. */
  ghost predicate OneValue(ts: Tokens, top: bool) {
    ts.Nil? || (OneToken(ts.head, top) && OneValue(ts.tail, top))
  }

  ghost predicate OneToken(t: Token, top: bool) {
    match t
    case Plain(c) => IsText(c, top)
    case Division(c) => c != '*' && IsText(c, top)
    case Group(inner) => OneValue(inner, false)
    case Bracketed(open, inner) => (open == '{' || open == '[') && OneValue(inner, false)
    case _ => WellFormedToken(t)
  }

  // ---------- the scanner of the extractor ----------

  /** No character of s ends the field when s is read from state l. */
  ghost predicate Unended(l: ObjectFields.Lex, s: string) {
    forall k :: 0 <= k < |s| ==> !ObjectFields.Ends(After(l, s[..k]), s[k])
  }

  function After(l: ObjectFields.Lex, s: string): ObjectFields.Lex {
    ObjectLiterals.LexAfter(l, s)
  }

  /** Read from state l, s ends no field and leads back to l. */
  ghost predicate Returns(l: ObjectFields.Lex, s: string) {
    After(l, s) == l && Unended(l, s)
  }

  lemma {:induction false} AfterConcat(l: ObjectFields.Lex, a: string, b: string)
    ensures After(l, a + b) == After(After(l, a), b)
    decreases |b|
  {
    if b == "" {
      assert a + b == a;
    } else {
      assert (a + b)[..|a + b| - 1] == a + b[..|b| - 1];
      AfterConcat(l, a, b[..|b| - 1]);
    }
  }

  lemma UnendedConcat(l: ObjectFields.Lex, a: string, b: string)
    requires Unended(l, a) && Unended(After(l, a), b)
    ensures Unended(l, a + b)
  {
    hide After, ObjectFields.Ends;
    forall k | 0 <= k < |a + b| ensures !ObjectFields.Ends(After(l, (a + b)[..k]), (a + b)[k]) {
      if k < |a| {
        assert (a + b)[..k] == a[..k];
      } else {
        assert (a + b)[..k] == a + b[..k - |a|];
        AfterConcat(l, a, b[..k - |a|]);
      }
    }
  }

  lemma ReturnsConcat(l: ObjectFields.Lex, a: string, b: string)
    requires Returns(l, a) && Returns(l, b)
    ensures Returns(l, a + b)
  {
    hide After, Unended;
    AfterConcat(l, a, b);
    UnendedConcat(l, a, b);
  }

  lemma OneChar(l: ObjectFields.Lex, c: char)
    requires !ObjectFields.Ends(l, c)
    ensures After(l, [c]) == ObjectFields.NextLex(l, c) && Unended(l, [c])
  {
    assert [c][..|[c]| - 1] == "" && After(l, "") == l;
  }

  lemma SilentNext(l: ObjectFields.Lex, c: char)
    requires !IsCode(l.mode, c) || IsPassive(c)
    ensures ObjectFields.NextLex(l, c) == l.(mode := Next(l.mode, c)) && !ObjectFields.Ends(l, c)
  {
  }

  lemma {:induction false} SilentAfter(l: ObjectFields.Lex, s: string, k: nat)
    requires Silent(l.mode, s) && k <= |s|
    ensures After(l, s[..k]) == l.(mode := ModeAfter(l.mode, s[..k]))
    ensures k < |s| ==> !ObjectFields.Ends(After(l, s[..k]), s[k])
  {
    hide IsCode, IsPassive, ObjectFields.Ends, ObjectFields.NextLex, Next;
    if k > 0 {
      SilentAfter(l, s, k - 1);
      var p := s[..k];
      assert p[..k - 1] == s[..k - 1] && p[k - 1] == s[k - 1];
      SilentNext(After(l, p[..k - 1]), p[k - 1]);
      assert After(l, p) == ObjectFields.NextLex(After(l, p[..k - 1]), p[k - 1]);
    }
    if k < |s| { SilentNext(After(l, s[..k]), s[k]); }
  }

  /** Inside the object's own brace and at its top level, or deeper. */
  predicate Within(l: ObjectFields.Lex, top: bool) {
    && l.mode == Code && l.brace >= 1 && l.paren >= 0 && l.bracket >= 0
    && (top || l.brace > 1 || l.paren > 0 || l.bracket > 0)
  }

  lemma LexemeReturns(l: ObjectFields.Lex, t: Token)
    requires l.mode == Code && WellFormedToken(t) && IsLexeme(t)
    ensures Returns(l, PrintToken(t))
  {
    hide WellFormedToken, PrintToken, Silent, ModeAfter, ObjectFields.Ends;
    LexemeSilent(t);
    var s := PrintToken(t);
    assert s[..|s|] == s;
    SilentAfter(l, s, |s|);
    forall k | 0 <= k < |s| ensures !ObjectFields.Ends(After(l, s[..k]), s[k]) { SilentAfter(l, s, k); }
  }

  lemma TextReturns(l: ObjectFields.Lex, c: char, top: bool)
    requires Within(l, top) && IsText(c, top)
    ensures Returns(l, [c])
    ensures c != '*' ==> Returns(l, ['/', c])
  {
    OneChar(l, c);
    OneChar(l, '/');
    if c != '*' {
      var l' := ObjectFields.NextLex(l, '/');
      OneChar(l', c);
      AfterConcat(l, "/", [c]);
      UnendedConcat(l, "/", [c]);
      assert "/" + [c] == ['/', c];
    }
  }

  lemma BracketReturns(l: ObjectFields.Lex, open: char, close: char, s: string)
    requires l.mode == Code && l.brace >= 1
    requires (open == '(' && close == ')') || ((open == '{' || open == '[') && close == Closer(open))
    requires Returns(ObjectFields.NextLex(l, open), s)
    ensures Returns(l, [open] + s + [close])
  {
    hide After, Unended;
    var l' := ObjectFields.NextLex(l, open);
    OneChar(l, open);
    OneChar(l', close);
    AfterConcat(l, [open], s);
    UnendedConcat(l, [open], s);
    AfterConcat(l, [open] + s, [close]);
    UnendedConcat(l, [open] + s, [close]);
  }

  lemma {:induction false} TokenReturns(l: ObjectFields.Lex, t: Token, top: bool)
    requires Within(l, top) && OneToken(t, top)
    ensures Returns(l, PrintToken(t))
    decreases t
  {
    hide Returns, IsText, PrintString;
    match t
    case Plain(c) => TextReturns(l, c, top);
    case Division(c) => TextReturns(l, c, top);
    case Group(inner) =>
      ValueReturns(ObjectFields.NextLex(l, '('), inner, false);
      BracketReturns(l, '(', ')', Print(inner));
      assert PrintToken(t) == ['('] + Print(inner) + [')'];
    case Bracketed(open, inner) =>
      ValueReturns(ObjectFields.NextLex(l, open), inner, false);
      BracketReturns(l, open, Closer(open), Print(inner));
    case _ => LexemeReturns(l, t);
  }

  lemma {:induction false} ValueReturns(l: ObjectFields.Lex, ts: Tokens, top: bool)
    requires Within(l, top) && OneValue(ts, top)
    ensures Returns(l, Print(ts))
    decreases ts
  {
    hide Within, OneToken;
    if ts.Nil? {
    } else {
      TokenReturns(l, ts.head, top);
      ValueReturns(l, ts.tail, top);
      ReturnsConcat(l, PrintToken(ts.head), Print(ts.tail));
    }
  }

  lemma {:induction false} UnendedPrefix(s: string, k: nat)
    requires Unended(ObjectLiterals.TOP, s) && k <= |s|
    ensures ObjectLiterals.Unended(s[..k])
  {
    hide ObjectFields.Ends;
    if k > 0 {
      UnendedPrefix(s, k - 1);
      assert s[..k][..k - 1] == s[..k - 1];
    }
  }

  /** Every printed value without outer white space is a right-hand side the extractor reads back. */
  lemma ValueIsGoodRhs(ts: Tokens)
    requires OneValue(ts, true) && Trimmed(Print(ts))
    ensures ObjectLiterals.GoodRhs(Print(ts))
  {
    hide OneValue, Trimmed, Unended;
    var s := Print(ts);
    ValueReturns(ObjectLiterals.TOP, ts, true);
    UnendedPrefix(s, |s|);
    assert s[..|s|] == s;
  }

  // ---------- the splitter ----------

  /** The splitter knows neither comments nor template strings. */
  ghost predicate Simple(ts: Tokens) {
    ts.Nil? || (SimpleToken(ts.head) && Simple(ts.tail))
  }

  ghost predicate SimpleToken(t: Token) {
    match t
    case Quoted(q, _) => q != '`'
    case LineComment(_) => false
    case BlockComment(_) => false
    case Group(inner) => Simple(inner)
    case Bracketed(_, inner) => Simple(inner)
    case _ => true
  }

  /** Read from state st, s is not cut and leads back to st. */
  ghost predicate Uncut(st: Splitter.Lex, s: string) {
    Splitter.Scan(st, s) == st && Splitter.CutFree(st, s, ',')
  }

  lemma UncutConcat(st: Splitter.Lex, a: string, b: string)
    requires Uncut(st, a) && Uncut(st, b)
    ensures Uncut(st, a + b)
  {
    Splitter.ScanAppend(st, a, b, ',');
  }

  lemma {:induction false} StringUncut(st: Splitter.Lex, body: seq<StringChar>)
    requires st.quote.Some? && !st.skip
    requires forall x :: x in body && x.Literal? ==> x.c != st.quote.value && x.c != '\\'
    ensures Uncut(st, PrintString(body))
  {
    if body != [] {
      var front, last := body[..|body| - 1], body[|body| - 1];
      StringUncut(st, front);
      if last.Literal? {
        assert [last.c][1..] == "";
        UncutConcat(st, PrintString(front), [last.c]);
      } else {
        EscapedUncut(st, last.c);
        UncutConcat(st, PrintString(front), ['\\', last.c]);
      }
    }
  }

  lemma EscapedUncut(st: Splitter.Lex, c: char)
    requires st.quote.Some? && !st.skip
    ensures Uncut(st, ['\\', c])
  {
    var escaped := Splitter.Step(st, '\\');
    assert ['\\', c][1..] == [c] && [c][1..] == "";
    assert Splitter.Scan(escaped, [c]) == st && Splitter.CutFree(escaped, [c], ',');
  }

  lemma QuotedUncut(d: int, q: char, body: seq<StringChar>)
    requires Splitter.IsQuote(q) && forall x :: x in body && x.Literal? ==> x.c != q && x.c != '\\'
    ensures Uncut(Splitter.Lex(d, None, false), [q] + PrintString(body) + [q])
  {
    var st, inside := Splitter.Lex(d, None, false), Splitter.Lex(d, Some(q), false);
    StringUncut(inside, body);
    hide PrintString;
    Around(st, q, q, PrintString(body), inside);
  }

  /** One character in, the text, and one character out. */
  lemma Around(st: Splitter.Lex, a: char, b: char, s: string, inside: Splitter.Lex)
    requires Splitter.Step(st, a) == inside && Splitter.Step(inside, b) == st && Uncut(inside, s)
    requires a != ',' && b != ','
    ensures Uncut(st, [a] + s + [b])
  {
    hide Splitter.Step;
    assert [a][1..] == "" && [b][1..] == "";
    Splitter.ScanAppend(st, [a], s, ',');
    Splitter.ScanAppend(st, [a] + s, [b], ',');
  }

  lemma TextUncut(d: nat, c: char, top: bool)
    requires (top || d > 0) && IsText(c, top)
    ensures Uncut(Splitter.Lex(d, None, false), [c]) && Uncut(Splitter.Lex(d, None, false), ['/', c])
  {
    assert [c][1..] == "" && ['/', c][1..] == [c];
  }

  lemma {:induction false} TokenUncut(d: nat, t: Token, top: bool)
    requires (top || d > 0) && OneToken(t, top) && SimpleToken(t)
    ensures Uncut(Splitter.Lex(d, None, false), PrintToken(t))
    decreases t
  {
    hide Uncut, IsText, PrintString;
    var st, inside := Splitter.Lex(d, None, false), Splitter.Lex(d + 1, None, false);
    match t
    case Plain(c) => TextUncut(d, c, top);
    case Division(c) => TextUncut(d, c, top);
    case Quoted(q, body) => QuotedUncut(d, q, body);
    case Group(inner) =>
      ValueUncut(d + 1, inner, false);
      Around(st, '(', ')', Print(inner), inside);
      assert PrintToken(t) == ['('] + Print(inner) + [')'];
    case Bracketed(open, inner) =>
      ValueUncut(d + 1, inner, false);
      Around(st, open, Closer(open), Print(inner), inside);
  }

  lemma {:induction false} ValueUncut(d: nat, ts: Tokens, top: bool)
    requires (top || d > 0) && OneValue(ts, top) && Simple(ts)
    ensures Uncut(Splitter.Lex(d, None, false), Print(ts))
    decreases ts
  {
    if ts.Cons? {
      TokenUncut(d, ts.head, top);
      ValueUncut(d, ts.tail, top);
      UncutConcat(Splitter.Lex(d, None, false), PrintToken(ts.head), Print(ts.tail));
    }
  }

  /** The same for the inline parser, for values without comments and template strings. */
  lemma SimpleValueIsGoodRhs(ts: Tokens)
    requires OneValue(ts, true) && Simple(ts) && Trimmed(Print(ts))
    ensures Splitter.GoodRhs(Print(ts))
  {
    hide OneValue, Simple, Trimmed;
    ValueUncut(0, ts, true);
  }
}
