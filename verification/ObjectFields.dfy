/** The object-literal scanner of the extractor (codegen/extract.ts, extractFieldsFromObjectBody). */
module ObjectFields {
  import opened Prelude
  import opened JsLexer
  import Splitter

  // ---------- one character at a time ----------

  /** The lexical mode and the open brackets of each kind, counting from the object's own brace. */
  datatype Lex = Lex(mode: Mode, brace: int, paren: int, bracket: int)

  /** What the scanner knows about the current field. */
  datatype Key = NoKey | InIdent(acc: string) | AfterIdent(name: string) | RhsGap(name: string) | Rhs(name: string, text: string)

  datatype Scan = Scan(lex: Lex, key: Key, fields: seq<Field>, done: bool)

  const START := Scan(Lex(Code, 1, 0, 0), NoKey, [], false)

  function NextLex(l: Lex, c: char): Lex {
    if !IsCode(l.mode, c) then l.(mode := Next(l.mode, c))
    else Lex(Next(l.mode, c), l.brace + Shift(c, '{', '}'), l.paren + Shift(c, '(', ')'), l.bracket + Shift(c, '[', ']'))
  }

  /** The character is code at the top level of the object. */
  predicate AtTop(l: Lex, c: char) {
    IsCode(l.mode, c) && l.brace == 1 && l.paren == 0 && l.bracket == 0
  }

  function NextKey(key: Key, c: char, top: bool): Key {
    match key
    case NoKey => if top && Splitter.IsIdentStart(c) then InIdent([c]) else NoKey
    case InIdent(acc) =>
      if Splitter.IsIdentPart(c) then InIdent(acc + [c])
      else if IsGap(c) then AfterIdent(acc) else if c == ':' then RhsGap(acc) else NoKey
    case AfterIdent(name) =>
      if IsGap(c) then key else if c == ':' then RhsGap(name)
      else if top && Splitter.IsIdentStart(c) then InIdent([c]) else NoKey
    case RhsGap(name) => if IsGap(c) then key else Rhs(name, [c])
    case Rhs(name, text) => Rhs(name, text + [c])
  }

  /** The field that ends here, if there is one with a right-hand side. */
  function Ended(key: Key): seq<Field> {
    if key.Rhs? && Trim(key.text) != "" then [Field(key.name, Trim(key.text))] else []
  }

  function Step(s: Scan, c: char): Scan {
    if s.done then s
    else if IsCode(s.lex.mode, c) && c == '}' && s.lex.brace == 1 then
      Scan(NextLex(s.lex, c), NoKey, s.fields + Ended(s.key), true)
    else if AtTop(s.lex, c) && c == ',' then Scan(NextLex(s.lex, c), NoKey, s.fields + Ended(s.key), false)
    else Scan(NextLex(s.lex, c), NextKey(s.key, c, AtTop(s.lex, c)), s.fields, false)
  }

  function Run(s: Scan, text: string): Scan {
    if text == "" then s else Step(Run(s, text[..|text| - 1]), text[|text| - 1])
  }

  function SkipGap(text: string, i: nat): (k: nat)
    requires i <= |text|
    ensures i <= k <= |text| && (k < |text| ==> !IsGap(text[k])) && forall n :: i <= n < k ==> IsGap(text[n])
    decreases |text| - i
  {
    if i < |text| && IsGap(text[i]) then SkipGap(text, i + 1) else i
  }

  /** The fields of the object literal the body starts with, none if it does not start with one. */
  function Extracted(body: string): seq<Field> {
    var i := SkipGap(body, 0);
    if i >= |body| || body[i] != '{' then [] else Run(START, body[i + 1..]).fields
  }

  // ---------- the scanner ----------

  /** The automaton's state when everything from `from` up to but not including j has been read. */
  function At(body: string, from: nat, j: nat): Scan
    requires from <= j <= |body|
  {
    Run(START, body[from..j])
  }

  lemma OneMore(body: string, from: nat, j: nat)
    requires from <= j < |body|
    ensures At(body, from, j + 1) == Step(At(body, from, j), body[j])
  {
    hide Step;
    assert body[from..j + 1][..j - from] == body[from..j];
  }

  lemma AtStart(body: string, from: nat)
    requires from <= |body|
    ensures At(body, from, from) == START
  {
  }

  /** No field is being named, or the right-hand side collected so far is the text from rhsStart on. */
  ghost predicate KeyIs(key: Key, body: string, j: nat, name: Option<string>, rhsStart: int)
    requires j <= |body|
  {
    if name.None? then key.NoKey? else 0 <= rhsStart < j && key == Rhs(name.value, body[rhsStart..j])
  }

  /** The states in which the scanner looks at position j outside strings and comments. */
  ghost predicate KeyAgrees(s: Scan, body: string, j: nat, name: Option<string>, rhsStart: int)
    requires j < |body|
  {
    var c := body[j];
    match s.key
    case InIdent(_) => s.lex.mode.Code? && name.None? && !Splitter.IsIdentPart(c) && !IsGap(c) && c != ':'
    case AfterIdent(_) => s.lex.mode.Code? && name.None? && !IsGap(c) && c != ':'
    case RhsGap(n) => s.lex.mode.Code? && name == Some(n) && !IsGap(c) && rhsStart == j
    case _ => KeyIs(s.key, body, j, name, rhsStart)
  }

  /** The scanner's variables, about to look at position j, describe the automaton's state. */
  ghost predicate Agrees(s: Scan, body: string, j: nat, inStr: Option<char>, brace: int, paren: int, bracket: int,
                         name: Option<string>, rhsStart: int)
    requires j < |body|
  {
    && !s.done && s.lex == Lex(s.lex.mode, brace, paren, bracket)
    && (inStr.Some? ==> s.lex.mode == Str(inStr.value) && KeyIs(s.key, body, j, name, rhsStart))
    && (inStr.None? ==> KeyAgrees(s, body, j, name, rhsStart) && InCode(s, body, j, name, rhsStart))
  }

  ghost predicate InCode(s: Scan, body: string, j: nat, name: Option<string>, rhsStart: int)
    requires j < |body|
  {
    || s.lex.mode.Code?
    || (s.lex.mode.Slash? && body[j] != '/' && body[j] != '*')
    || (s.lex.mode.Line? && body[j] == '\n' && KeyIs(s.key, body, j, name, rhsStart))
  }

  /** The automaton is inside a comment at position k. */
  ghost predicate Commented(s: Scan, body: string, k: nat, lex: Lex, name: Option<string>, rhsStart: int, fields: seq<Field>)
    requires k <= |body|
  {
    !s.done && s.lex == lex && KeyIs(s.key, body, k, name, rhsStart) && s.fields == fields
  }

  lemma CommentMoves(s: Scan, body: string, k: nat, lex: Lex, name: Option<string>, rhsStart: int, fields: seq<Field>)
    requires k < |body| && Commented(s, body, k, lex, name, rhsStart, fields)
    requires lex.mode.Line? || lex.mode.Block? || lex.mode.Star?
    ensures Commented(Step(s, body[k]), body, k + 1, lex.(mode := Next(lex.mode, body[k])), name, rhsStart, fields)
  {
  }

  /** Both characters of a comment opener have been read. */
  lemma CommentOpens(s: Scan, body: string, j: nat, brace: int, paren: int, bracket: int, name: Option<string>, rhsStart: int)
    requires j + 1 < |body| && body[j] == '/' && (body[j + 1] == '/' || body[j + 1] == '*')
    requires Agrees(s, body, j, None, brace, paren, bracket, name, rhsStart)
    ensures Commented(Step(Step(s, body[j]), body[j + 1]), body, j + 2,
                      Lex(if body[j + 1] == '/' then Line else Block, brace, paren, bracket), name, rhsStart, s.fields)
  {
    var s1 := Step(s, '/');
    assert s1.lex == Lex(Slash, brace, paren, bracket) && !s1.done && s1.fields == s.fields;
    assert KeyIs(s1.key, body, j + 1, name, rhsStart);
  }

  method LineEnd(body: string, ghost from: nat, j: nat, ghost lex: Lex, ghost name: Option<string>, ghost rhsStart: int,
                 ghost fields: seq<Field>)
    returns (k: nat)
    requires from <= j && j + 1 < |body| && body[j] == body[j + 1] == '/'
    requires lex.mode.Line? && Commented(At(body, from, j + 2), body, j + 2, lex, name, rhsStart, fields)
    ensures j + 2 <= k <= |body| && (k < |body| ==> body[k] == '\n')
    ensures Commented(At(body, from, k), body, k, lex, name, rhsStart, fields)
  {
    hide Commented, At, Step, Trim;
    k := j;
    while k < |body| && body[k] != '\n'
      invariant k == j || k == j + 1 || (j + 2 <= k <= |body| && Commented(At(body, from, k), body, k, lex, name, rhsStart, fields))
    {
      if k >= j + 2 {
        OneMore(body, from, k);
        CommentMoves(At(body, from, k), body, k, lex, name, rhsStart, fields);
      }
      k := k + 1;
    }
  }

  method BlockEnd(body: string, ghost from: nat, j: nat, ghost lex: Lex, ghost name: Option<string>, ghost rhsStart: int,
                  ghost fields: seq<Field>)
    returns (k: nat)
    requires from <= j && j + 1 < |body| && body[j] == '/' && body[j + 1] == '*'
    requires lex.mode.Block? && Commented(At(body, from, j + 2), body, j + 2, lex, name, rhsStart, fields)
    ensures k > j + 2
    ensures k <= |body| ==> Commented(At(body, from, k), body, k, lex.(mode := Code), name, rhsStart, fields)
    ensures k > |body| ==> At(body, from, |body|).fields == fields
  {
    hide At, Commented, Step, Trim;
    k := j + 2;
    ghost var mode := Block;
    while k < |body| && !(body[k] == '*' && k + 1 < |body| && body[k + 1] == '/')
      invariant j + 2 <= k <= |body|
      invariant mode.Block? || (mode.Star? && (k < |body| ==> body[k] != '/'))
      invariant Commented(At(body, from, k), body, k, lex.(mode := mode), name, rhsStart, fields)
    {
      OneMore(body, from, k);
      CommentMoves(At(body, from, k), body, k, lex.(mode := mode), name, rhsStart, fields);
      mode := Next(mode, body[k]);
      k := k + 1;
    }
    if k < |body| {
      OneMore(body, from, k);
      CommentMoves(At(body, from, k), body, k, lex.(mode := mode), name, rhsStart, fields);
      OneMore(body, from, k + 1);
      CommentMoves(At(body, from, k + 1), body, k + 1, lex.(mode := Star), name, rhsStart, fields);
    } else {
      CommentedFields(At(body, from, k), body, k, lex.(mode := mode), name, rhsStart, fields);
    }
    k := k + 2;
  }

  lemma CommentedFields(s: Scan, body: string, k: nat, lex: Lex, name: Option<string>, rhsStart: int, fields: seq<Field>)
    requires k <= |body| && Commented(s, body, k, lex, name, rhsStart, fields)
    ensures s.fields == fields
  {
  }

  /** The automaton is reading a name, or what may follow one, at top level in plain code. */
  ghost predicate Reading(s: Scan, key: Key, fields: seq<Field>) {
    s == Scan(Lex(Code, 1, 0, 0), key, fields, false)
  }

  lemma NameCharIsCalm(c: char)
    requires Splitter.IsIdentPart(c) || IsGap(c) || c == ':'
    ensures IsCalm(c)
    ensures IsGap(c) || c == ':' ==> !Splitter.IsIdentPart(c)
    ensures c == ':' ==> !IsGap(c)
  {
  }

  lemma CalmStays(c: char)
    requires IsCalm(c)
    ensures NextLex(Lex(Code, 1, 0, 0), c) == Lex(Code, 1, 0, 0)
  {
  }

  /** One more character of a name, or of what may follow one. */
  lemma ReadingMoves(s: Scan, key: Key, fields: seq<Field>, c: char)
    requires Reading(s, key, fields) && IsCalm(c)
    requires !key.NoKey? && !key.Rhs?
    ensures Reading(Step(s, c), NextKey(key, c, true), fields)
  {
    hide Ended, NextKey, NextLex;
    CalmStays(c);
  }

  /** Reads the name that starts at j, and the colon and white space after it. */
  method ReadKey(body: string, ghost from: nat, j: nat, ghost fields: seq<Field>)
    returns (next: nat, name: Option<string>)
    requires from <= j < |body| && Splitter.IsIdentStart(body[j])
    requires Reading(Step(At(body, from, j), body[j]), InIdent([body[j]]), fields)
    ensures j < next <= |body|
    ensures name.Some? ==> Reading(At(body, from, next), RhsGap(name.value), fields) && (next < |body| ==> !IsGap(body[next]))
    ensures name.None? ==> exists key :: Reading(At(body, from, next), key, fields) && EndsName(key, body, next)
  {
    hide At, Reading, Step, NextLex, IsCalm, IsGap, Splitter.IsIdentPart, Splitter.IsIdentStart;
    var k := j + 1;
    OneMore(body, from, j);
    assert body[j..k] == [body[j]];
    while k < |body| && Splitter.IsIdentPart(body[k])
      invariant j < k <= |body| && Reading(At(body, from, k), InIdent(body[j..k]), fields)
    {
      OneMore(body, from, k);
      NameCharIsCalm(body[k]);
      ReadingMoves(At(body, from, k), InIdent(body[j..k]), fields, body[k]);
      assert body[j..k] + [body[k]] == body[j..k + 1];
      k := k + 1;
    }
    var key := body[j..k];
    var p := k;
    ghost var state := InIdent(key);
    while p < |body| && IsGap(body[p])
      invariant k <= p <= |body| && Reading(At(body, from, p), state, fields)
      invariant state == if p == k then InIdent(key) else AfterIdent(key)
    {
      OneMore(body, from, p);
      NameCharIsCalm(body[p]);
      ReadingMoves(At(body, from, p), state, fields, body[p]);
      state := AfterIdent(key);
      p := p + 1;
    }
    if p >= |body| || body[p] != ':' {
      assert EndsName(state, body, p);
      return p, None;
    }
    OneMore(body, from, p);
    NameCharIsCalm(':');
    ReadingMoves(At(body, from, p), state, fields, ':');
    var rhsStart := p + 1;
    while rhsStart < |body| && IsGap(body[rhsStart])
      invariant p < rhsStart <= |body| && Reading(At(body, from, rhsStart), RhsGap(key), fields)
    {
      OneMore(body, from, rhsStart);
      NameCharIsCalm(body[rhsStart]);
      ReadingMoves(At(body, from, rhsStart), RhsGap(key), fields, body[rhsStart]);
      rhsStart := rhsStart + 1;
    }
    return rhsStart, Some(key);
  }

  /** The name read so far is not followed by a colon. */
  ghost predicate EndsName(key: Key, body: string, p: nat)
    requires p <= |body|
  {
    (key.InIdent? || key.AfterIdent?)
    && (p < |body| ==> !IsGap(body[p]) && body[p] != ':' && (key.InIdent? ==> !Splitter.IsIdentPart(body[p])))
  }

  lemma StartsName(s: Scan, body: string, j: nat, brace: int, paren: int, bracket: int, rhsStart: int)
    requires j < |body| && Agrees(s, body, j, None, brace, paren, bracket, None, rhsStart)
    requires Splitter.IsIdentStart(body[j]) && brace == 1 && paren == 0 && bracket == 0
    ensures Reading(Step(s, body[j]), InIdent([body[j]]), s.fields)
  {
    hide Ended, Splitter.IsIdentStart;
    NameCharIsCalm(body[j]);
    assert !s.lex.mode.Line?;
    hide IsGap;
  }

  lemma StartAgrees(body: string, from: nat)
    requires from < |body|
    ensures Agrees(START, body, from, None, 1, 0, 0, None, -1)
  {
  }

  /** Inside a string: an escape takes two characters, the quote ends it. */
  lemma StringMoves(s: Scan, body: string, j: nat, q: char, brace: int, paren: int, bracket: int, name: Option<string>, rhsStart: int)
    requires j < |body| && Agrees(s, body, j, Some(q), brace, paren, bracket, name, rhsStart)
    ensures Step(s, body[j]).fields == s.fields
    ensures body[j] == '\\' && j + 1 < |body| ==> Step(Step(s, body[j]), body[j + 1]).fields == s.fields
    ensures body[j] == '\\' && j + 2 < |body| ==>
      Agrees(Step(Step(s, body[j]), body[j + 1]), body, j + 2, Some(q), brace, paren, bracket, name, rhsStart)
    ensures body[j] != '\\' && j + 1 < |body| ==>
      Agrees(Step(s, body[j]), body, j + 1, if body[j] == q then None else Some(q), brace, paren, bracket, name, rhsStart)
  {
  }

  lemma QuoteOpens(s: Scan, body: string, j: nat, brace: int, paren: int, bracket: int, name: Option<string>, rhsStart: int)
    requires j < |body| && IsQuote(body[j]) && Agrees(s, body, j, None, brace, paren, bracket, name, rhsStart)
    ensures Step(s, body[j]).fields == s.fields
    ensures j + 1 < |body| ==> Agrees(Step(s, body[j]), body, j + 1, Some(body[j]), brace, paren, bracket, name, rhsStart)
  {
  }

  /** A character that neither opens a string or comment, nor starts a name, nor ends a field. */
  predicate Passive(body: string, j: nat, brace: int, paren: int, bracket: int, name: Option<string>)
    requires j < |body|
  {
    var c, top := body[j], brace == 1 && paren == 0 && bracket == 0;
    && !IsQuote(c)
    && !(c == '/' && j + 1 < |body| && (body[j + 1] == '/' || body[j + 1] == '*'))
    && !(c == '}' && brace == 1) && !(top && c == ',')
    && !(top && name.None? && Splitter.IsIdentStart(c))
  }

  lemma PassiveMoves(s: Scan, body: string, j: nat, brace: int, paren: int, bracket: int, name: Option<string>, rhsStart: int)
    requires j < |body| && Agrees(s, body, j, None, brace, paren, bracket, name, rhsStart)
    requires Passive(body, j, brace, paren, bracket, name)
    ensures Step(s, body[j]).fields == s.fields
    ensures j + 1 < |body| ==> Agrees(Step(s, body[j]), body, j + 1, None, brace + Shift(body[j], '{', '}'),
      paren + Shift(body[j], '(', ')'), bracket + Shift(body[j], '[', ']'), name, rhsStart)
  {
    var c := body[j];
    PassiveLex(s.lex, c);
    PassiveKey(s, body, j, name, rhsStart);
    hide KeyAgrees, NextKey, NextLex, IsQuote, Ended, Splitter.IsIdentStart;
    StepWithin(s, c);
  }

  /** The character ends a field: a comma at the top level, or the object's closing brace. */
  predicate Ends(l: Lex, c: char) {
    IsCode(l.mode, c) && l.brace == 1 && (c == '}' || (c == ',' && l.paren == 0 && l.bracket == 0))
  }

  lemma StepWithin(s: Scan, c: char)
    requires !s.done && !Ends(s.lex, c)
    ensures Step(s, c) == Scan(NextLex(s.lex, c), NextKey(s.key, c, AtTop(s.lex, c)), s.fields, false)
  {
    hide NextLex, NextKey, Ended;
  }

  lemma PassiveLex(l: Lex, c: char)
    requires !IsQuote(c) && (l.mode.Code? || (l.mode.Slash? && c != '/' && c != '*') || (l.mode.Line? && c == '\n'))
    ensures NextLex(l, c) == Lex(if c == '/' then Slash else Code, l.brace + Shift(c, '{', '}'), l.paren + Shift(c, '(', ')'),
                                 l.bracket + Shift(c, '[', ']'))
  {
  }

  lemma PassiveKey(s: Scan, body: string, j: nat, name: Option<string>, rhsStart: int)
    requires j < |body| && KeyAgrees(s, body, j, name, rhsStart) && InCode(s, body, j, name, rhsStart)
    requires AtTop(s.lex, body[j]) && name.None? ==> !Splitter.IsIdentStart(body[j])
    ensures KeyIs(NextKey(s.key, body[j], AtTop(s.lex, body[j])), body, j + 1, name, rhsStart)
  {
    hide Next, Splitter.IsIdentPart, IsGap;
    if s.key.RhsGap? { assert body[j..j + 1] == [body[j]]; }
  }

  /** The field the scanner cuts out at position j. */
  function CutField(body: string, j: nat, name: Option<string>, rhsStart: int): seq<Field>
    requires j <= |body| && (name.Some? && rhsStart >= 0 ==> rhsStart <= j)
  {
    if name.Some? && rhsStart >= 0 && Trim(body[rhsStart..j]) != "" then [Field(name.value, Trim(body[rhsStart..j]))] else []
  }

  lemma EndedIsCut(s: Scan, body: string, j: nat, name: Option<string>, rhsStart: int)
    requires j < |body| && KeyAgrees(s, body, j, name, rhsStart)
    ensures name.Some? && rhsStart >= 0 ==> rhsStart <= j
    ensures Ended(s.key) == CutField(body, j, name, rhsStart)
  {
    if s.key.RhsGap? {
      assert body[j..j] == "" && Trim("") == "";
    } else {
      hide Trim;
    }
  }

  /** The field the scanner closes is the one the automaton ends. */
  lemma FieldEnds(s: Scan, body: string, j: nat, brace: int, paren: int, bracket: int, name: Option<string>, rhsStart: int)
    requires j < |body| && Agrees(s, body, j, None, brace, paren, bracket, name, rhsStart)
    requires (body[j] == '}' && brace == 1) || (body[j] == ',' && brace == 1 && paren == 0 && bracket == 0)
    ensures name.Some? && rhsStart >= 0 ==> rhsStart <= j
    ensures Step(s, body[j]).fields == s.fields + CutField(body, j, name, rhsStart)
    ensures body[j] == '}' ==> Step(s, body[j]).done
    ensures body[j] == ',' && j + 1 < |body| ==> Agrees(Step(s, body[j]), body, j + 1, None, brace, paren, bracket, None, -1)
  {
    EndedIsCut(s, body, j, name, rhsStart);
    EndIsCode(s, body, j, brace, paren, bracket, name, rhsStart);
    hide CutField, Ended, KeyAgrees, NextKey, KeyIs, Agrees, InCode, Step;
    StepEnds(s, body[j]);
    if body[j] == ',' && j + 1 < |body| {
      FreshField(Step(s, ','), body, j + 1);
    }
  }

  lemma EndIsCode(s: Scan, body: string, j: nat, brace: int, paren: int, bracket: int, name: Option<string>, rhsStart: int)
    requires j < |body| && Agrees(s, body, j, None, brace, paren, bracket, name, rhsStart) && (body[j] == '}' || body[j] == ',')
    ensures !s.done && IsCode(s.lex.mode, body[j]) && s.lex == Lex(s.lex.mode, brace, paren, bracket)
  {
    hide KeyAgrees, KeyIs;
  }

  lemma StepEnds(s: Scan, c: char)
    requires !s.done && IsCode(s.lex.mode, c) && s.lex.brace == 1
    requires c == '}' || (c == ',' && s.lex.paren == 0 && s.lex.bracket == 0)
    ensures Step(s, c).fields == s.fields + Ended(s.key) && Step(s, c).key.NoKey? && Step(s, c).done == (c == '}')
    ensures c == ',' ==> Step(s, c).lex == Lex(Code, 1, 0, 0)
  {
    hide Ended, NextKey;
  }

  lemma FreshField(s: Scan, body: string, j: nat)
    requires j < |body| && !s.done && s.lex == Lex(Code, 1, 0, 0) && s.key.NoKey?
    ensures Agrees(s, body, j, None, 1, 0, 0, None, -1)
  {
  }

  lemma DoneStep(s: Scan, c: char)
    requires s.done
    ensures Step(s, c) == s
  {
  }

  lemma {:induction false} DoneStays(body: string, from: nat, j: nat, k: nat)
    requires from <= j <= k <= |body| && At(body, from, j).done
    ensures At(body, from, k) == At(body, from, j)
    decreases k
  {
    hide At, Step;
    if k > j {
      DoneStays(body, from, j, k - 1);
      OneMore(body, from, k - 1);
      DoneStep(At(body, from, k - 1), body[k - 1]);
    }
  }

  lemma CommentEnds(s: Scan, body: string, k: nat, lex: Lex, name: Option<string>, rhsStart: int, fields: seq<Field>)
    requires k < |body| && Commented(s, body, k, lex, name, rhsStart, fields)
    requires lex.mode.Code? || (lex.mode.Line? && body[k] == '\n')
    ensures Agrees(s, body, k, None, lex.brace, lex.paren, lex.bracket, name, rhsStart)
  {
  }

  lemma NameRead(s: Scan, body: string, k: nat, key: Key, fields: seq<Field>, name: Option<string>)
    requires k <= |body| && Reading(s, key, fields)
    requires if name.Some? then key == RhsGap(name.value) && (k < |body| ==> !IsGap(body[k])) else EndsName(key, body, k)
    ensures s.fields == fields
    ensures k < |body| ==> Agrees(s, body, k, None, 1, 0, 0, name, if name.Some? then k else -1)
  {
  }

  lemma AgreesAnyStart(s: Scan, body: string, j: nat, brace: int, paren: int, bracket: int, rhsStart: int, rhsStart': int)
    requires j < |body| && Agrees(s, body, j, None, brace, paren, bracket, None, rhsStart)
    ensures Agrees(s, body, j, None, brace, paren, bracket, None, rhsStart')
  {
  }

  /** Reads the literal that follows the opening brace. */
  method ScanFields(body: string, from: nat) returns (fields: seq<Field>)
    requires from <= |body|
    ensures fields == At(body, from, |body|).fields
  {
    hide At, Agrees, Reading, Commented, EndsName, Step, Trim;
    fields := [];
    var depthBrace, depthParen, depthBracket, inStr: Option<char> := 1, 0, 0, None;
    var j := from;
    var currentName: Option<string>, rhsStart: int := None, -1;
    AtStart(body, from);
    if from < |body| {
      StartAgrees(body, from);
    }
    while j < |body| && depthBrace > 0
      invariant from <= j
      invariant j <= |body| ==> At(body, from, j).fields == fields
      invariant j > |body| ==> At(body, from, |body|).fields == fields
      invariant depthBrace > 0
      invariant j < |body| ==> Agrees(At(body, from, j), body, j, inStr, depthBrace, depthParen, depthBracket, currentName, rhsStart)
      decreases |body| - j
    {
      var c := body[j];
      var nxt := if j + 1 < |body| then Some(body[j + 1]) else None;
      ghost var s := At(body, from, j);
      OneMore(body, from, j);
      if inStr.Some? {
        StringMoves(s, body, j, inStr.value, depthBrace, depthParen, depthBracket, currentName, rhsStart);
        if c == '\\' {
          if j + 1 < |body| {
            OneMore(body, from, j + 1);
          }
          j := j + 2;
          continue;
        }
        if c == inStr.value {
          inStr := None;
        }
        j := j + 1;
        continue;
      }
      if IsQuote(c) {
        QuoteOpens(s, body, j, depthBrace, depthParen, depthBracket, currentName, rhsStart);
        inStr := Some(c);
        j := j + 1;
        continue;
      }
      if c == '/' && (nxt == Some('/') || nxt == Some('*')) {
        CommentOpens(s, body, j, depthBrace, depthParen, depthBracket, currentName, rhsStart);
        OneMore(body, from, j + 1);
        if nxt == Some('/') {
          ghost var lex := Lex(Line, depthBrace, depthParen, depthBracket);
          j := LineEnd(body, from, j, lex, currentName, rhsStart, fields);
          CommentedFields(At(body, from, j), body, j, lex, currentName, rhsStart, fields);
          if j < |body| {
            CommentEnds(At(body, from, j), body, j, lex, currentName, rhsStart, fields);
          }
        } else {
          ghost var lex := Lex(Block, depthBrace, depthParen, depthBracket);
          j := BlockEnd(body, from, j, lex, currentName, rhsStart, fields);
          if j <= |body| {
            CommentedFields(At(body, from, j), body, j, lex.(mode := Code), currentName, rhsStart, fields);
          }
          if j < |body| {
            CommentEnds(At(body, from, j), body, j, lex.(mode := Code), currentName, rhsStart, fields);
          }
        }
        continue;
      }
      var top := depthBrace == 1 && depthParen == 0 && depthBracket == 0;
      if (c == '}' && depthBrace == 1) || (top && c == ',') {
        FieldEnds(s, body, j, depthBrace, depthParen, depthBracket, currentName, rhsStart);
        if currentName.Some? && rhsStart >= 0 {
          var rhs := Trim(body[rhsStart..j]);
          if |rhs| > 0 {
            fields := fields + [Field(currentName.value, rhs)];
          }
        }
        if c == '}' {
          DoneStays(body, from, j + 1, |body|);
          return;
        }
        currentName, rhsStart := None, -1;
        j := j + 1;
        continue;
      }
      if top && currentName.None? && Splitter.IsIdentStart(c) {
        StartsName(s, body, j, depthBrace, depthParen, depthBracket, rhsStart);
        var next, name := ReadKey(body, from, j, fields);
        ghost var key: Key := RhsGap("");
        if name.Some? {
          key := RhsGap(name.value);
        } else {
          key :| Reading(At(body, from, next), key, fields) && EndsName(key, body, next);
        }
        NameRead(At(body, from, next), body, next, key, fields, name);
        currentName := name;
        if name.Some? {
          rhsStart := next;
        } else if next < |body| {
          AgreesAnyStart(At(body, from, next), body, next, 1, 0, 0, -1, rhsStart);
        }
        j := next;
        continue;
      }
      PassiveMoves(s, body, j, depthBrace, depthParen, depthBracket, currentName, rhsStart);
      if c == '{' {
        depthBrace := depthBrace + 1;
      } else if c == '}' {
        depthBrace := depthBrace - 1;
      } else if c == '(' {
        depthParen := depthParen + 1;
      } else if c == ')' {
        depthParen := depthParen - 1;
      } else if c == '[' {
        depthBracket := depthBracket + 1;
      } else if c == ']' {
        depthBracket := depthBracket - 1;
      }
      j := j + 1;
    }
  }

  method ExtractFieldsFromObjectBody(body: string) returns (fields: seq<Field>)
    ensures fields == Extracted(body)
  {
    hide At, Run, Step, Extracted, IsGap;
    var i := 0;
    while i < |body| && IsGap(body[i])
      invariant i <= |body| && SkipGap(body, 0) == SkipGap(body, i)
    {
      i := i + 1;
    }
    ExtractedFrom(body, i);
    if i >= |body| || body[i] != '{' {
      return [];
    }
    fields := ScanFields(body, i + 1);
  }

  lemma ReadsToTheEnd(body: string, from: nat)
    requires from <= |body|
    ensures At(body, from, |body|) == Run(START, body[from..])
  {
    hide Run;
    assert body[from..|body|] == body[from..];
  }

  lemma ExtractedFrom(body: string, i: nat)
    requires SkipGap(body, 0) == i
    ensures Extracted(body) == if i >= |body| || body[i] != '{' then [] else At(body, i + 1, |body|).fields
  {
    hide Run, SkipGap, At;
    if i < |body| { ReadsToTheEnd(body, i + 1); }
  }
}
