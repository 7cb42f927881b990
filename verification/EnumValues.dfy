/** The scanner that reads the members of an enum declaration (codegen/extract.ts, extractEnumValues). */
module EnumValues {
  import opened Prelude
  import opened JsLexer

  // ---------- one character at a time ----------

  /** Where the scanner is: in a string member it reads (Lit), right behind one (After), or in code it skips. */
  datatype Place =
    | Skim(mode: Mode)
    | Lit(quote: char, acc: string)
    | LitEsc(quote: char, acc: string)
    | After(acc: string)

  datatype Depths = Depths(bracket: int, brace: int, paren: int)

  /** `pending`: a member has begun. `odd`: a member that is not a string was seen. */
  datatype State = State(place: Place, depths: Depths, pending: bool, odd: bool, values: seq<string>, done: bool)

  const START := State(Skim(Code), Depths(1, 0, 0), false, false, [], false)

  predicate AtTop(d: Depths) { d == Depths(1, 0, 0) }

  /** What the character ahead decides about what has been read. */
  function Settle(s: State, ahead: Option<char>): State {
    match s.place
    case Skim(Slash) =>
      if ahead == Some('/') || ahead == Some('*') then s
      else s.(place := Skim(Code), pending := s.pending || AtTop(s.depths), odd := s.odd || AtTop(s.depths))
    case After(acc) =>
      if ahead == Some(',') || ahead == Some(']') then s.(place := Skim(Code), pending := false, values := s.values + [acc])
      else if ahead.Some? && IsGap(ahead.value) then s
      else s.(place := Skim(Code), odd := true)
    case _ => s
  }

  /** A character read as code. */
  function CodeStep(s: State, c: char): State {
    var d := s.depths;
    if c == '/' then s.(place := Skim(Slash))
    else if c == '[' then s.(depths := d.(bracket := d.bracket + 1), pending := s.pending || d.bracket >= 1)
    else if c == ']' then s.(depths := d.(bracket := d.bracket - 1), done := d.bracket == 1)
    else if c == '{' then s.(depths := d.(brace := d.brace + 1), pending := s.pending || d.bracket == 1)
    else if c == '}' then s.(depths := d.(brace := d.brace - 1))
    else if c == '(' then s.(depths := d.(paren := d.paren + 1), pending := s.pending || d.bracket == 1)
    else if c == ')' then s.(depths := d.(paren := d.paren - 1))
    else if !AtTop(d) || IsGap(c) then s
    else if c == ',' then s.(pending := false)
    else if IsQuote(c) then if s.pending then s.(place := Skim(Str(c)), odd := true) else s.(place := Lit(c, ""))
    else s.(pending := true, odd := true)
  }

  function Step(s: State, c: char): State {
    var t := Settle(s, Some(c));
    if s.done then s
    else
      match t.place
      case Skim(Code) => CodeStep(t, c)
      case Skim(m) => t.(place := Skim(Next(m, c)))
      case Lit(q, acc) =>
        t.(place := if c == '\\' then LitEsc(q, acc) else if c == q then After(acc) else Lit(q, acc + [c]))
      case LitEsc(q, acc) => t.(place := Lit(q, acc + [c]))
      case After(_) => t
  }

  function Run(s: State, text: string): State {
    if text == "" then s else Step(Run(s, text[..|text| - 1]), text[|text| - 1])
  }

  /** What the scanner answers when it has read everything. */
  function Result(s: State): Option<seq<string>> {
    var t := if s.done then s else Settle(s, None);
    if t.odd || t.place.Lit? || t.place.LitEsc? then None else Some(t.values)
  }

  /** The members of the list the body starts with; None if it is no list, or a member is no string. */
  function Values(body: string): Option<seq<string>> {
    if body == "" || body[0] != '[' then None else Result(Run(START, body[1..]))
  }

  // ---------- the scanner ----------

  /** The automaton's state when everything between the opening bracket and position i has been read. */
  function At(body: string, i: nat): State
    requires 1 <= i <= |body|
  {
    Run(START, body[1..i])
  }

  /** The same, for a scanner that may have stepped past the end. */
  function Upto(body: string, i: nat): State
    requires body != "" && i >= 1
  {
    At(body, if i <= |body| then i else |body|)
  }

  lemma OneMore(body: string, i: nat)
    requires 1 <= i < |body|
    ensures At(body, i + 1) == Step(At(body, i), body[i])
  {
    hide Step;
    assert body[1..i + 1][..i - 1] == body[1..i];
  }

  predicate Modes(place: Place, inStr: Option<char>, inLineCmt: bool, inBlkCmt: bool, c: char) {
    match place
    case Skim(Code) => inStr.None? && !inLineCmt && !inBlkCmt
    case Skim(Str(q)) => inStr == Some(q) && !inLineCmt && !inBlkCmt
    case Skim(Line) => inStr.None? && inLineCmt && !inBlkCmt
    case Skim(Block) => inStr.None? && !inLineCmt && inBlkCmt
    case Skim(Star) => inStr.None? && !inLineCmt && inBlkCmt && c != '/'
    case _ => false
  }

  lemma DoneStep(s: State, c: char)
    requires s.done
    ensures Step(s, c) == s
  {
  }

  lemma {:induction false} DoneStays(body: string, i: nat, k: nat)
    requires 1 <= i <= k <= |body| && At(body, i).done
    ensures At(body, k) == At(body, i)
    decreases k
  {
    hide At, Step;
    if k > i {
      DoneStays(body, i, k - 1);
      OneMore(body, k - 1);
      DoneStep(At(body, k - 1), body[k - 1]);
    }
  }

  function Peek(body: string, i: nat): Option<char> {
    if i < |body| then Some(body[i]) else None
  }

  /** The scanner's variables describe the automaton's state, given the character ahead. */
  ghost predicate Stands(s: State, ahead: Option<char>, inStr: Option<char>, inLineCmt: bool, inBlkCmt: bool,
                         depths: Depths, pending: bool, odd: bool, values: seq<string>) {
    if ahead.None? then Result(s) == if odd then None else Some(values)
    else
      var t := Settle(s, ahead);
      !s.done && t == State(t.place, depths, pending, odd, values, false) && Modes(t.place, inStr, inLineCmt, inBlkCmt, ahead.value)
  }

  lemma LineMoves(s: State, c: char, ahead: Option<char>, d: Depths, pending: bool, odd: bool, values: seq<string>)
    requires Stands(s, Some(c), None, true, false, d, pending, odd, values)
    ensures Stands(Step(s, c), ahead, None, c != '\n', false, d, pending, odd, values)
  {
    hide CodeStep;
  }

  lemma BlockMoves(s: State, c: char, ahead: Option<char>, d: Depths, pending: bool, odd: bool, values: seq<string>)
    requires Stands(s, Some(c), None, false, true, d, pending, odd, values) && !(c == '*' && ahead == Some('/'))
    ensures Stands(Step(s, c), ahead, None, false, true, d, pending, odd, values)
  {
    hide CodeStep;
  }

  lemma BlockEnds(s: State, ahead: Option<char>, d: Depths, pending: bool, odd: bool, values: seq<string>)
    requires Stands(s, Some('*'), None, false, true, d, pending, odd, values)
    ensures Stands(Step(Step(s, '*'), '/'), ahead, None, false, false, d, pending, odd, values)
  {
    hide CodeStep;
  }

  lemma StringMoves(s: State, c: char, ahead: Option<char>, q: char, d: Depths, pending: bool, odd: bool, values: seq<string>)
    requires Stands(s, Some(c), Some(q), false, false, d, pending, odd, values)
    ensures c != '\\' ==> Stands(Step(s, c), ahead, if c == q then None else Some(q), false, false, d, pending, odd, values)
    ensures c == '\\' ==> Stands(Step(s, c), None, Some(q), false, false, d, pending, odd, values)
    ensures c == '\\' ==> forall e :: Stands(Step(Step(s, c), e), ahead, Some(q), false, false, d, pending, odd, values)
  {
    hide CodeStep;
  }

  lemma CommentOpens(s: State, c: char, ahead: Option<char>, d: Depths, pending: bool, odd: bool, values: seq<string>)
    requires (c == '/' || c == '*')
    requires Stands(s, Some('/'), None, false, false, d, pending, odd, values)
    ensures Stands(Step(Step(s, '/'), c), ahead, None, c == '/', c == '*', d, pending, odd, values)
  {
  }

  lemma SlashMoves(s: State, ahead: Option<char>, d: Depths, pending: bool, odd: bool, values: seq<string>)
    requires Stands(s, Some('/'), None, false, false, d, pending, odd, values) && ahead != Some('/') && ahead != Some('*')
    ensures Stands(Step(s, '/'), ahead, None, false, false, d, pending || AtTop(d), odd || AtTop(d), values)
  {
  }

  lemma StepSettled(s: State, c: char, d: Depths, pending: bool, odd: bool, values: seq<string>)
    requires Stands(s, Some(c), None, false, false, d, pending, odd, values)
    ensures Step(s, c) == CodeStep(State(Skim(Code), d, pending, odd, values, false), c)
  {
    hide CodeStep;
  }

  lemma CodeShape(t: State, c: char)
    requires t.place == Skim(Code) && !t.done && c != '/' && !(c == ']' && t.depths.bracket == 1)
    requires !(AtTop(t.depths) && IsQuote(c) && !t.pending)
    ensures var u := CodeStep(t, c);
      !u.done && u.values == t.values && u.place == Skim(if AtTop(t.depths) && IsQuote(c) then Str(c) else Code)
  {
  }

  lemma SkimStands(u: State, ahead: Option<char>)
    requires !u.done && u.place.Skim? && (u.place.mode.Code? || u.place.mode.Str?)
    ensures Stands(u, ahead, if u.place.mode.Str? then Some(u.place.mode.quote) else None, false, false,
                   u.depths, u.pending, u.odd, u.values)
  {
  }

  /** Any other character of the list, apart from one that starts a string member or closes the list. */
  lemma CodeMoves(s: State, c: char, ahead: Option<char>, d: Depths, pending: bool, odd: bool, values: seq<string>)
    requires Stands(s, Some(c), None, false, false, d, pending, odd, values)
    requires c != '/' && !(c == ']' && d.bracket == 1) && !(AtTop(d) && IsQuote(c) && !pending)
    ensures var t := CodeStep(State(Skim(Code), d, pending, odd, values, false), c);
      Stands(Step(s, c), ahead, if AtTop(d) && IsQuote(c) then Some(c) else None, false, false, t.depths, t.pending, t.odd, values)
  {
    hide Stands, Step, CodeStep, IsQuote;
    StepSettled(s, c, d, pending, odd, values);
    CodeShape(State(Skim(Code), d, pending, odd, values, false), c);
    SkimStands(Step(s, c), ahead);
  }

  /** A string member starts here, at the top level. */
  lemma LiteralOpens(s: State, c: char, values: seq<string>, odd: bool)
    requires IsQuote(c) && Stands(s, Some(c), None, false, false, Depths(1, 0, 0), false, odd, values)
    ensures Step(s, c) == State(Lit(c, ""), Depths(1, 0, 0), false, odd, values, false)
  {
  }

  lemma LitMoves(s: State, c: char)
    requires s.place.Lit? && !s.done
    ensures Step(s, c) == s.(place := if c == '\\' then LitEsc(s.place.quote, s.place.acc)
                                      else if c == s.place.quote then After(s.place.acc)
                                      else Lit(s.place.quote, s.place.acc + [c]))
    ensures c == '\\' ==> forall e :: Step(Step(s, c), e) == s.(place := Lit(s.place.quote, s.place.acc + [e]))
  {
  }

  /** One step inside a comment or a string that is not a member. */
  method Skip(body: string, i: nat, inStr: Option<char>, inLineCmt: bool, inBlkCmt: bool,
              ghost d: Depths, ghost pending: bool, ghost odd: bool, ghost values: seq<string>)
    returns (next: nat, inStr': Option<char>, inLineCmt': bool, inBlkCmt': bool)
    requires 1 <= i < |body| && (inLineCmt || inBlkCmt || inStr.Some?)
    requires Stands(At(body, i), Some(body[i]), inStr, inLineCmt, inBlkCmt, d, pending, odd, values)
    ensures next > i && Stands(Upto(body, next), Peek(body, next), inStr', inLineCmt', inBlkCmt', d, pending, odd, values)
  {
    hide At, Stands, Step;
    var c := body[i];
    ghost var s := At(body, i);
    OneMode(s, c, inStr, inLineCmt, inBlkCmt, d, pending, odd, values);
    OneMore(body, i);
    if i + 1 < |body| {
      OneMore(body, i + 1);
    }
    inStr', inLineCmt', inBlkCmt', next := inStr, inLineCmt, inBlkCmt, i + 1;
    if inLineCmt {
      LineMoves(s, c, Peek(body, i + 1), d, pending, odd, values);
      inLineCmt' := c != '\n';
    } else if inBlkCmt {
      if c == '*' && Peek(body, i + 1) == Some('/') {
        BlockEnds(s, Peek(body, i + 2), d, pending, odd, values);
        inBlkCmt', next := false, i + 2;
      } else {
        BlockMoves(s, c, Peek(body, i + 1), d, pending, odd, values);
      }
    } else if c == '\\' {
      StringMoves(s, c, Peek(body, i + 2), inStr.value, d, pending, odd, values);
      next := i + 2;
    } else {
      StringMoves(s, c, Peek(body, i + 1), inStr.value, d, pending, odd, values);
      inStr' := if c == inStr.value then None else inStr;
    }
  }

  /** Reads the literal whose quote is at position i; k is its closing quote, or past the end. */
  method ReadLiteral(body: string, i: nat, ghost base: State) returns (k: nat, lit: string)
    requires 1 <= i < |body| && !base.done && At(body, i + 1) == base.(place := Lit(body[i], ""))
    ensures k > i
    ensures k >= |body| ==> Result(At(body, |body|)) == None
    ensures k < |body| ==> At(body, k + 1) == base.(place := After(lit))
  {
    hide At, Step;
    var quote := body[i];
    lit := "";
    k := i + 1;
    while k < |body|
      invariant k > i
      invariant k <= |body| ==> At(body, k) == base.(place := Lit(quote, lit))
      invariant k > |body| ==> At(body, |body|).place.LitEsc? && !At(body, |body|).done
    {
      var cc := body[k];
      OneMore(body, k);
      LitMoves(At(body, k), cc);
      if cc == '\\' {
        if k + 1 < |body| {
          OneMore(body, k + 1);
        }
        var esc := if k + 1 < |body| then [body[k + 1]] else "";
        lit := lit + esc;
        k := k + 2;
        continue;
      }
      if cc == quote {
        break;
      }
      lit := lit + [cc];
      k := k + 1;
    }
  }

  lemma AfterMoves(s: State, c: char)
    requires s.place.After? && !s.done && IsGap(c)
    ensures Step(s, c) == s
  {
  }

  /** What the character behind a string member makes of it. */
  lemma AfterEnds(s: State, lit: string, ahead: Option<char>, values: seq<string>, odd: bool)
    requires s == State(After(lit), Depths(1, 0, 0), false, odd, values, false)
    requires ahead.Some? ==> !IsGap(ahead.value)
    ensures if ahead == Some(',') || ahead == Some(']')
      then Stands(s, ahead, None, false, false, Depths(1, 0, 0), false, odd, values + [lit])
      else Stands(s, ahead, None, false, false, Depths(1, 0, 0), false, true, values)
  {
  }

  lemma ListCloses(s: State, odd: bool, d: Depths, pending: bool, values: seq<string>)
    requires d.bracket == 1 && Stands(s, Some(']'), None, false, false, d, pending, odd, values)
    ensures Step(s, ']').done && Result(Step(s, ']')) == if odd then None else Some(values)
  {
  }

  lemma StartStands(ahead: Option<char>)
    ensures Stands(START, ahead, None, false, false, Depths(1, 0, 0), false, false, [])
  {
  }

  /** Reads the string member at position i and the white space behind it; no value when no comma or bracket follows. */
  method ReadMember(body: string, i: nat, ghost values: seq<string>, ghost odd: bool) returns (p: nat, lit: Option<string>)
    requires 1 <= i < |body| && IsQuote(body[i])
    requires Stands(At(body, i), Some(body[i]), None, false, false, Depths(1, 0, 0), false, odd, values)
    ensures p > i && (p > |body| ==> Result(At(body, |body|)) == None)
    ensures p <= |body| ==> Stands(At(body, p), Peek(body, p), None, false, false, Depths(1, 0, 0), false, odd || lit.None?,
                                   values + if lit.Some? then [lit.value] else [])
  {
    hide At, Stands, Step, Result, IsQuote, IsGap;
    OneMore(body, i);
    LiteralOpens(At(body, i), body[i], values, odd);
    ghost var base := State(Skim(Code), Depths(1, 0, 0), false, odd, values, false);
    var k, text := ReadLiteral(body, i, base);
    p := k + 1;
    if k >= |body| {
      return p, None;
    }
    while p < |body| && IsGap(body[p])
      invariant i < p <= |body| && At(body, p) == base.(place := After(text))
    {
      OneMore(body, p);
      AfterMoves(At(body, p), body[p]);
      p := p + 1;
    }
    AfterEnds(At(body, p), text, Peek(body, p), values, odd);
    assert values + [] == values;
    lit := if Peek(body, p) == Some(',') || Peek(body, p) == Some(']') then Some(text) else None;
  }

  /** One character of code, neither opening a string member or a comment nor closing the list. */
  method ReadCode(c: char, i: nat, d: Depths, pendingMemberStart: int, sawNonStringMember: bool, ghost values: seq<string>)
    returns (inStr: Option<char>, depths: Depths, start: int, saw: bool)
    requires d.bracket > 0 && !(c == ']' && d.bracket == 1) && !(AtTop(d) && IsQuote(c) && pendingMemberStart < 0)
    ensures inStr == if AtTop(d) && IsQuote(c) then Some(c) else None
    ensures c == '/' ==>
      depths == d && (start >= 0 <==> pendingMemberStart >= 0 || AtTop(d)) && (saw <==> sawNonStringMember || AtTop(d))
    ensures c != '/' ==>
      var t := CodeStep(State(Skim(Code), d, pendingMemberStart >= 0, sawNonStringMember, values, false), c);
      depths == t.depths && (start >= 0 <==> t.pending) && saw == t.odd
    ensures depths.bracket > 0
  {
    inStr, depths, start, saw := None, d, pendingMemberStart, sawNonStringMember;
    if c == '[' {
      depths := depths.(bracket := depths.bracket + 1);
      start := if start < 0 then i else start;
    } else if c == ']' {
      depths := depths.(bracket := depths.bracket - 1);
    } else if c == '{' {
      start := if depths.bracket == 1 && start < 0 then i else start;
      depths := depths.(brace := depths.brace + 1);
    } else if c == '}' {
      depths := depths.(brace := depths.brace - 1);
    } else if c == '(' {
      start := if depths.bracket == 1 && start < 0 then i else start;
      depths := depths.(paren := depths.paren + 1);
    } else if c == ')' {
      depths := depths.(paren := depths.paren - 1);
    } else if AtTop(depths) && c == ',' {
      start := -1;
    } else if AtTop(depths) && IsQuote(c) {
      saw := true;
      inStr := Some(c);
    } else if AtTop(depths) && !IsGap(c) {
      start := if start < 0 then i else start;
      saw := true;
    }
  }

  method ExtractEnumValues(body: string) returns (r: Option<seq<string>>)
    ensures r == Values(body)
  {
    if body == "" || body[0] != '[' {
      return None;
    }
    hide At, Upto, Peek, Stands, Step, Result, IsQuote, IsGap, CodeStep, Values;
    var i, d, inStr: Option<char>, inLineCmt, inBlkCmt := 1, Depths(1, 0, 0), None, false, false;
    var values: seq<string>, sawNonStringMember, pendingMemberStart := [], false, -1;
    AtEnd(body);
    StartStands(Peek(body, 1));
    AtStart(body);
    while i < |body|
      invariant i >= 1 && d.bracket > 0
      invariant Stands(Upto(body, i), Peek(body, i), inStr, inLineCmt, inBlkCmt, d,
                       pendingMemberStart >= 0, sawNonStringMember, values)
      decreases |body| - i
    {
      var c, nxt := body[i], Peek(body, i + 1);
      ghost var pending, odd := pendingMemberStart >= 0, sawNonStringMember;
      PeekAt(body, i);
      if inLineCmt || inBlkCmt || inStr.Some? {
        i, inStr, inLineCmt, inBlkCmt :=
          Skip(body, i, inStr, inLineCmt, inBlkCmt, d, pendingMemberStart >= 0, sawNonStringMember, values);
        continue;
      }
      if c == '/' && (nxt == Some('/') || nxt == Some('*')) {
        CommentAt(body, i, d, pending, odd, values);
        inLineCmt, inBlkCmt := nxt == Some('/'), nxt == Some('*');
        i := i + 2;
        continue;
      }
      if c == ']' && d.bracket == 1 {
        CloseAt(body, i, d, pending, odd, values);
        return if sawNonStringMember then None else Some(values);
      }
      if AtTop(d) && IsQuote(c) && pendingMemberStart < 0 {
        var next, lit := ReadMember(body, i, values, odd);
        if next > |body| {
          return None;
        }
        i := next;
        if lit.Some? {
          values := values + [lit.value];
        } else {
          sawNonStringMember := true;
        }
        continue;
      }
      CodeAt(body, i, d, pending, odd, values);
      inStr, d, pendingMemberStart, sawNonStringMember := ReadCode(c, i, d, pendingMemberStart, sawNonStringMember, values);
      i := i + 1;
    }
    PastEnd(body, i);
    StandsAtEnd(At(body, |body|), inStr, inLineCmt, inBlkCmt, d, pendingMemberStart >= 0, sawNonStringMember, values);
    return if sawNonStringMember then None else Some(values);
  }

  lemma AtStart(body: string)
    requires |body| >= 1
    ensures Upto(body, 1) == START
  {
  }

  lemma PastEnd(body: string, i: nat)
    requires body != "" && i >= |body|
    ensures Upto(body, i) == At(body, |body|) && Peek(body, i) == None
  {
  }

  lemma PeekAt(body: string, i: nat)
    requires 1 <= i < |body|
    ensures Upto(body, i) == At(body, i) && Peek(body, i) == Some(body[i])
    ensures Peek(body, i + 1).Some? ==> i + 1 < |body| && Peek(body, i + 1).value == body[i + 1]
  {
  }

  /** The two characters at position i open a comment. */
  lemma CommentAt(body: string, i: nat, d: Depths, pending: bool, odd: bool, values: seq<string>)
    requires 1 <= i && i + 1 < |body| && body[i] == '/' && (body[i + 1] == '/' || body[i + 1] == '*')
    requires Stands(At(body, i), Some(body[i]), None, false, false, d, pending, odd, values)
    ensures Stands(Upto(body, i + 2), Peek(body, i + 2), None, body[i + 1] == '/', body[i + 1] == '*', d, pending, odd, values)
  {
    hide At, Stands, Step;
    OneMore(body, i);
    OneMore(body, i + 1);
    CommentOpens(At(body, i), body[i + 1], Peek(body, i + 2), d, pending, odd, values);
  }

  /** The bracket at position i closes the list. */
  lemma CloseAt(body: string, i: nat, d: Depths, pending: bool, odd: bool, values: seq<string>)
    requires 1 <= i < |body| && body[i] == ']' && d.bracket == 1
    requires Stands(At(body, i), Some(body[i]), None, false, false, d, pending, odd, values)
    ensures Result(At(body, |body|)) == if odd then None else Some(values)
  {
    hide At, Stands, Step, Result;
    OneMore(body, i);
    ListCloses(At(body, i), odd, d, pending, values);
    DoneStays(body, i + 1, |body|);
  }

  /** Any other character at position i; a slash here opens no comment. */
  lemma CodeAt(body: string, i: nat, d: Depths, pending: bool, odd: bool, values: seq<string>)
    requires 1 <= i < |body| && !(body[i] == ']' && d.bracket == 1) && !(AtTop(d) && IsQuote(body[i]) && !pending)
    requires body[i] == '/' ==> Peek(body, i + 1) != Some('/') && Peek(body, i + 1) != Some('*')
    requires Stands(At(body, i), Some(body[i]), None, false, false, d, pending, odd, values)
    ensures body[i] == '/' ==>
      Stands(Upto(body, i + 1), Peek(body, i + 1), None, false, false, d, pending || AtTop(d), odd || AtTop(d), values)
    ensures body[i] != '/' ==>
      var t := CodeStep(State(Skim(Code), d, pending, odd, values, false), body[i]);
      Stands(Upto(body, i + 1), Peek(body, i + 1), if AtTop(d) && IsQuote(body[i]) then Some(body[i]) else None, false, false,
             t.depths, t.pending, t.odd, values)
  {
    hide At, Stands, Step, CodeStep, Peek, IsQuote;
    OneMore(body, i);
    if body[i] == '/' {
      SlashMoves(At(body, i), Peek(body, i + 1), d, pending, odd, values);
    } else {
      CodeMoves(At(body, i), body[i], Peek(body, i + 1), d, pending, odd, values);
    }
  }

  lemma OneMode(s: State, c: char, inStr: Option<char>, inLineCmt: bool, inBlkCmt: bool, d: Depths, pending: bool, odd: bool,
                values: seq<string>)
    requires Stands(s, Some(c), inStr, inLineCmt, inBlkCmt, d, pending, odd, values)
    ensures (inLineCmt ==> inStr.None? && !inBlkCmt) && (inBlkCmt ==> inStr.None?)
  {
  }

  lemma AtEnd(body: string)
    requires body != "" && body[0] == '['
    ensures Values(body) == Result(At(body, |body|))
  {
    assert body[1..|body|] == body[1..];
  }

  lemma StandsAtEnd(s: State, inStr: Option<char>, inLineCmt: bool, inBlkCmt: bool, d: Depths, pending: bool, odd: bool,
                    values: seq<string>)
    requires Stands(s, None, inStr, inLineCmt, inBlkCmt, d, pending, odd, values)
    ensures Result(s) == if odd then None else Some(values)
  {
  }
}
