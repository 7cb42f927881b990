/** Printing the members of an enum and extracting them again. */
module EnumLists {
  import opened Prelude
  import opened JsLexer
  import opened EnumValues

  /** A string literal; a value in brackets; or any other text, which starts with an ordinary character. */
  datatype Member = Text(quote: char, chars: seq<StringChar>) | Nested(text: string) | Other(text: string)

  datatype Item = Item(before: string, member: Member, after: string)

  const TOP := Depths(1, 0, 0)

  // ---------- well-formed lists ----------

  function Turn(d: Depths, c: char): Depths {
    Depths(d.bracket + Shift(c, '[', ']'), d.brace + Shift(c, '{', '}'), d.paren + Shift(c, '(', ')'))
  }

  function DepthsAfter(text: string): Depths {
    if text == "" then TOP else Turn(DepthsAfter(text[..|text| - 1]), text[|text| - 1])
  }

  /** A slash-free text whose first bracket is closed by its last character. */
  ghost predicate IsNested(text: string) {
    && text != "" && (text[0] == '[' || text[0] == '{' || text[0] == '(')
    && (forall i :: 0 <= i < |text| ==> text[i] != '/')
    && DepthsAfter(text) == TOP
    && forall k :: 0 < k < |text| ==> DepthsAfter(text[..k]) != TOP && DepthsAfter(text[..k]).bracket >= 1
  }

  predicate IsGaps(s: string) {
    forall i :: 0 <= i < |s| ==> IsGap(s[i])
  }

  ghost predicate GoodMember(m: Member) {
    match m
    case Text(q, chars) => IsQuote(q) && forall x :: x in chars && x.Literal? ==> x.c != q && x.c != '\\'
    case Nested(text) => IsNested(text)
    case Other(text) => text != "" && IsCalm(text[0]) && !IsGap(text[0])
  }

  ghost predicate GoodItem(it: Item) {
    IsGaps(it.before) && IsGaps(it.after) && GoodMember(it.member)
  }

  function PrintMember(m: Member): string {
    if m.Text? then [m.quote] + PrintString(m.chars) + [m.quote] else m.text
  }

  function PrintItem(it: Item): string {
    it.before + PrintMember(it.member) + it.after
  }

  function Body(items: seq<Item>): string {
    if items == [] then ""
    else
      var n := |items| - 1;
      Body(items[..n]) + (if n > 0 then "," else "") + PrintItem(items[n])
  }

  /** The text a literal stands for: an escaped character stands for itself. */
  function Unescaped(chars: seq<StringChar>): string {
    Map(chars, (x: StringChar) => x.c)
  }

  function ValueOf(m: Member): seq<string> {
    if m.Text? then [Unescaped(m.chars)] else []
  }

  function ValuesOf(items: seq<Item>): seq<string> {
    if items == [] then [] else ValuesOf(items[..|items| - 1]) + ValueOf(items[|items| - 1].member)
  }

  // ---------- runs ----------

  /** Between two members. */
  function Between(values: seq<string>): State {
    State(Skim(Code), TOP, false, false, values, false)
  }

  lemma {:induction false} RunAppend(s: State, a: string, b: string)
    ensures Run(s, a + b) == Run(Run(s, a), b)
    decreases |b|
  {
    hide Step;
    if b == "" {
      assert a + b == a;
    } else {
      assert (a + b)[..|a + b| - 1] == a + b[..|b| - 1];
      RunAppend(s, a, b[..|b| - 1]);
    }
  }

  lemma RunChar(s: State, c: char)
    ensures Run(s, [c]) == Step(s, c)
  {
    assert [c][..0] == "";
  }

  lemma OddStep(s: State, c: char)
    requires s.odd
    ensures Step(s, c).odd && Result(s) == None
  {
  }

  lemma {:induction false} OddStays(s: State, text: string)
    requires s.odd
    ensures Run(s, text).odd && Result(Run(s, text)) == None
    decreases |text|
  {
    hide Step, Result;
    if text != "" { OddStays(s, text[..|text| - 1]); OddStep(Run(s, text[..|text| - 1]), text[|text| - 1]); }
    OddStep(Run(s, text), ' ');
  }

  lemma {:induction false} DoneStays(s: State, text: string)
    requires s.done
    ensures Run(s, text) == s
    decreases |text|
  {
    hide Step;
    if text != "" { DoneStays(s, text[..|text| - 1]); DoneStep(s, text[|text| - 1]); }
  }

  lemma GapStep(s: State, c: char)
    requires IsGap(c) && !s.done && ((s.place == Skim(Code) && s.depths == TOP) || s.place.After?)
    ensures Step(s, c) == s
  {
  }

  lemma {:induction false} RunGaps(s: State, gaps: string)
    requires IsGaps(gaps) && !s.done && ((s.place == Skim(Code) && s.depths == TOP) || s.place.After?)
    ensures Run(s, gaps) == s
    decreases |gaps|
  {
    hide Step, IsGap;
    if gaps != "" { RunGaps(s, gaps[..|gaps| - 1]); GapStep(s, gaps[|gaps| - 1]); }
  }

  lemma {:induction false} RunLiteral(s: State, q: char, chars: seq<StringChar>)
    requires !s.done && s.place == Lit(q, "") && forall x :: x in chars && x.Literal? ==> x.c != q && x.c != '\\'
    ensures Run(s, PrintString(chars)) == s.(place := Lit(q, Unescaped(chars)))
    decreases |chars|
  {
    hide Step;
    if chars != [] {
      var front, last := chars[..|chars| - 1], chars[|chars| - 1];
      RunLiteral(s, q, front);
      var before := Run(s, PrintString(front));
      assert last in chars && Unescaped(front) + [last.c] == Unescaped(chars);
      if last.Literal? {
        RunAppend(s, PrintString(front), [last.c]);
        RunChar(before, last.c);
        LitMoves(before, last.c);
      } else {
        RunAppend(s, PrintString(front), ['\\', last.c]);
        RunAppend(before, ['\\'], [last.c]);
        assert ['\\'] + [last.c] == ['\\', last.c];
        RunChar(before, '\\');
        RunChar(Step(before, '\\'), last.c);
        LitMoves(before, '\\');
      }
    } else {
      assert Unescaped(chars) == "";
    }
  }

  lemma TextEnds(lit: string, c: char, values: seq<string>)
    requires c == ',' || c == ']'
    ensures var s := Step(Between(values).(place := After(lit)), c);
      if c == ',' then s == Between(values + [lit]) else s.done && Result(s) == Some(values + [lit])
  {
  }

  lemma RunText(q: char, chars: seq<StringChar>, after: string, c: char, values: seq<string>)
    requires GoodMember(Text(q, chars)) && IsGaps(after) && (c == ',' || c == ']')
    ensures var s := Run(Between(values), PrintMember(Text(q, chars)) + after + [c]);
      if c == ',' then s == Between(values + [Unescaped(chars)]) else s.done && Result(s) == Some(values + [Unescaped(chars)])
  {
    hide Step, Run, IsGaps, Result;
    var s, lit, p := Between(values), Unescaped(chars), PrintString(chars);
    RunAppend(s, [q], p);
    RunAppend(s, [q] + p, [q]);
    RunAppend(s, [q] + p + [q], after);
    RunAppend(s, [q] + p + [q] + after, [c]);
    RunChar(s, q);
    assert Step(s, q) == s.(place := Lit(q, "")) by { StepOpens(s, q); }
    RunLiteral(Step(s, q), q, chars);
    var inside := s.(place := Lit(q, lit));
    RunChar(inside, q);
    LitMoves(inside, q);
    QuoteIsNoEscape(q);
    var behind := s.(place := After(lit));
    RunGaps(behind, after);
    RunChar(behind, c);
    TextEnds(lit, c, values);
  }

  lemma QuoteIsNoEscape(q: char)
    requires IsQuote(q)
    ensures q != '\\'
  {
  }

  lemma StepOpens(s: State, q: char)
    requires IsQuote(q) && s.place == Skim(Code) && s.depths == TOP && !s.pending && !s.done
    ensures Step(s, q) == s.(place := Lit(q, ""))
  {
  }

  /** Inside brackets nothing is read but brackets. */
  lemma NestedStep(s: State, c: char)
    requires !s.done && s.place == Skim(Code) && c != '/' && Turn(s.depths, c).bracket >= 1
    requires if s.depths == TOP then c == '[' || c == '{' || c == '(' else s.pending
    ensures Step(s, c) == s.(depths := Turn(s.depths, c), pending := true)
  {
    hide IsGap, IsQuote;
    assert Settle(s, Some(c)) == s;
    NestedCode(s, c);
  }

  lemma NestedCode(s: State, c: char)
    requires !s.done && s.place == Skim(Code) && c != '/' && Turn(s.depths, c).bracket >= 1
    requires if s.depths == TOP then c == '[' || c == '{' || c == '(' else s.pending
    ensures CodeStep(s, c) == s.(depths := Turn(s.depths, c), pending := true)
  {
    hide IsGap, IsQuote;
    var t := CodeStep(s, c);
    assert t.depths == Turn(s.depths, c);
    assert t.place == s.place && t.pending && t.odd == s.odd && t.values == s.values && !t.done;
  }

  lemma NestedAt(text: string, k: nat)
    requires IsNested(text) && 0 < k <= |text|
    ensures DepthsAfter(text[..k]) == Turn(DepthsAfter(text[..k - 1]), text[k - 1])
    ensures text[k - 1] != '/' && DepthsAfter(text[..k]).bracket >= 1
    ensures if DepthsAfter(text[..k - 1]) == TOP then text[k - 1] == '[' || text[k - 1] == '{' || text[k - 1] == '(' else k > 1
  {
    assert text[..k][..k - 1] == text[..k - 1] && text[..|text|] == text;
  }

  lemma {:induction false} RunNested(text: string, k: nat, values: seq<string>)
    requires IsNested(text) && 0 < k <= |text|
    ensures Run(Between(values), text[..k]) == Between(values).(depths := DepthsAfter(text[..k]), pending := true)
    decreases k
  {
    hide Step, Turn, IsNested, DepthsAfter;
    NestedAt(text, k);
    assert text[..k][..k - 1] == text[..k - 1];
    if k == 1 {
      assert text[..0] == "";
      assert DepthsAfter("") == TOP by { NothingRead(); }
    } else {
      RunNested(text, k - 1, values);
    }
    NestedStep(Run(Between(values), text[..k - 1]), text[k - 1]);
  }

  lemma NothingRead()
    ensures DepthsAfter("") == TOP
  {
  }

  lemma NestedEnds(c: char, values: seq<string>)
    requires c == ',' || c == ']'
    ensures var s := Step(Between(values).(pending := true), c);
      if c == ',' then s == Between(values) else s.done && Result(s) == Some(values)
  {
  }

  lemma OtherStarts(c: char, values: seq<string>)
    requires IsCalm(c) && !IsGap(c)
    ensures Step(Between(values), c).odd
  {
  }

  /** One item, up to the comma or bracket behind it. */
  lemma RunItem(it: Item, c: char, values: seq<string>)
    requires GoodItem(it) && (c == ',' || c == ']')
    ensures var s := Run(Between(values), PrintItem(it) + [c]);
      if it.member.Other? then s.odd
      else if c == ',' then s == Between(values + ValueOf(it.member))
      else s.done && Result(s) == Some(values + ValueOf(it.member))
  {
    hide Step, Run, IsGaps, Result, IsNested;
    var s, p := Between(values), PrintMember(it.member);
    RunGaps(s, it.before);
    RunAppend(s, it.before, p + it.after + [c]);
    assert PrintItem(it) + [c] == it.before + (p + it.after + [c]);
    match it.member
    case Text(q, chars) => RunText(q, chars, it.after, c, values);
    case Nested(text) =>
      assert text != "" && DepthsAfter(text) == TOP by { NestedShape(text); }
      RunNested(text, |text|, values);
      assert text[..|text|] == text;
      var closed := s.(pending := true);
      RunAppend(s, text, it.after);
      RunAppend(s, text + it.after, [c]);
      RunGaps(closed, it.after);
      RunChar(closed, c);
      NestedEnds(c, values);
      assert values + [] == values;
    case Other(text) =>
      var tail := text[1..] + it.after + [c];
      RunAppend(s, [text[0]], tail);
      assert p + it.after + [c] == [text[0]] + tail;
      RunChar(s, text[0]);
      OtherStarts(text[0], values);
      OddStays(Run(s, [text[0]]), tail);
  }

  lemma NestedShape(text: string)
    requires IsNested(text)
    ensures text != "" && DepthsAfter(text) == TOP
  {
  }

  predicate HasOther(items: seq<Item>) {
    exists i :: 0 <= i < |items| && items[i].member.Other?
  }

  lemma {:induction false} RunBody(items: seq<Item>, c: char)
    requires items != [] && (c == ',' || c == ']') && forall i :: 0 <= i < |items| ==> GoodItem(items[i])
    ensures var s := Run(START, Body(items) + [c]);
      if HasOther(items) then s.odd
      else if c == ',' then s == Between(ValuesOf(items))
      else s.done && Result(s) == Some(ValuesOf(items))
    decreases |items|
  {
    hide Run, GoodItem, PrintItem, Result;
    var n := |items| - 1;
    var last := PrintItem(items[n]) + [c];
    if n == 0 {
      RunItem(items[0], c, []);
      assert items[..0] == [];
      assert Body(items) + [c] == last && ValuesOf(items[..0]) == [];
      assert [] + ValueOf(items[0].member) == ValueOf(items[0].member);
    } else {
      var front := Body(items[..n]) + ",";
      RunBody(items[..n], ',');
      RunAppend(START, front, last);
      assert Body(items) + [c] == front + last;
      if HasOther(items[..n]) {
        OddStays(Run(START, front), last);
      } else {
        RunItem(items[n], c, ValuesOf(items[..n]));
      }
    }
  }

  /**
   Extracting a printed list gives None exactly when a member is neither a string nor in brackets; otherwise it
   gives the strings, unescaped and in order, and leaves members in brackets out without a trace.
   */
  lemma ListReadsBack(items: seq<Item>, rest: string)
    requires forall i :: 0 <= i < |items| ==> GoodItem(items[i])
    ensures Values("[" + Body(items) + "]" + rest) == if HasOther(items) then None else Some(ValuesOf(items))
  {
    hide Run, GoodItem, Step, Result, Body, HasOther, ValuesOf;
    var inner := Body(items) + "]";
    Regroup(Body(items), rest);
    RunAppend(START, inner, rest);
    if items == [] {
      NoMembers(items);
      RunChar(START, ']');
      assert inner == "]";
    } else {
      RunBody(items, ']');
    }
    if HasOther(items) { OddStays(Run(START, inner), rest); } else { DoneStays(Run(START, inner), rest); }
  }

  lemma Regroup(body: string, rest: string)
    ensures var text := "[" + body + "]" + rest; text[0] == '[' && text[1..] == body + "]" + rest
  {
  }

  lemma NoMembers(items: seq<Item>)
    requires items == []
    ensures !HasOther(items) && ValuesOf(items) == [] && Body(items) == ""
    ensures Step(START, ']').done && Result(Step(START, ']')) == Some([])
  {
  }
}
