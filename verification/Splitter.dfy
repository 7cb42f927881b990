/** Quote- and bracket-aware splitting, and the inline object fields built on it (codegen/generate.ts). */
module Splitter {
  import opened Prelude

  // ---------- the lexical state ----------

  /** Bracket depth, the quote an open string waits for, and whether the next character is escaped. */
  datatype Lex = Lex(depth: int, quote: Option<char>, skip: bool)

  const TOP := Lex(0, None, false)

  predicate IsQuote(c: char) { c == '"' || c == '\'' }

  predicate IsOpen(c: char) { c == '(' || c == '[' || c == '{' }

  predicate IsClose(c: char) { c == ')' || c == ']' || c == '}' }

  predicate Ordinary(c: char) { !IsQuote(c) && !IsOpen(c) && !IsClose(c) }

  function Step(st: Lex, c: char): Lex {
    if st.skip then st.(skip := false)
    else if st.quote.Some? then
      if c == '\\' then st.(skip := true) else if c == st.quote.value then st.(quote := None) else st
    else if IsQuote(c) then st.(quote := Some(c))
    else if IsOpen(c) then st.(depth := st.depth + 1)
    else if IsClose(c) then st.(depth := st.depth - 1)
    else st
  }

  /** The delimiter is seen at top level. */
  predicate Cuts(st: Lex, c: char, delim: char) {
    st == TOP && Ordinary(c) && c == delim
  }

  function Scan(st: Lex, s: string): Lex
    decreases |s|
  {
    if s == "" then st else Scan(Step(st, s[0]), s[1..])
  }

  predicate CutFree(st: Lex, s: string, delim: char)
    decreases |s|
  {
    s == "" || (!Cuts(st, s[0], delim) && CutFree(Step(st, s[0]), s[1..], delim))
  }

  // ---------- splitting ----------

  /** The pieces of what is left of the input, the first of them continuing the current one. */
  function Pieces(s: string, st: Lex, delim: char): (r: seq<string>)
    ensures r != []
  {
    if s == "" then [""]
    else if Cuts(st, s[0], delim) then [""] + Pieces(s[1..], st, delim)
    else Prepend([s[0]], Pieces(s[1..], Step(st, s[0]), delim))
  }

  /** Puts text in front of the first piece. */
  function Prepend(a: string, pieces: seq<string>): seq<string>
    requires pieces != []
  {
    [a + pieces[0]] + pieces[1..]
  }

  function Split(s: string, delim: char): seq<string> {
    Pieces(s, TOP, delim)
  }

  /** The pieces still to come at position i, with the current one begun at `start`. */
  function Todo(s: string, start: nat, i: nat, st: Lex, delim: char): seq<string>
    requires start <= i <= |s|
  {
    Prepend(s[start..i], Pieces(s[i..], st, delim))
  }

  lemma TodoStays(s: string, start: nat, i: nat, st: Lex, delim: char)
    requires start <= i < |s| && !Cuts(st, s[i], delim)
    ensures Todo(s, start, i, st, delim) == Todo(s, start, i + 1, Step(st, s[i]), delim)
  {
    hide Step, Cuts;
    var r := Pieces(s[i + 1..], Step(st, s[i]), delim);
    assert s[i..][1..] == s[i + 1..] && s[i..][0] == s[i];
    assert s[start..i] + [s[i]] == s[start..i + 1];
    assert s[start..i] + ([s[i]] + r[0]) == s[start..i + 1] + r[0];
  }

  lemma TodoCut(s: string, start: nat, i: nat, st: Lex, delim: char)
    requires start <= i < |s| && Cuts(st, s[i], delim)
    ensures Todo(s, start, i, st, delim) == [s[start..i]] + Todo(s, i + 1, i + 1, st, delim)
  {
    hide Step;
    assert st == TOP;
    hide Cuts;
    var r := Pieces(s[i + 1..], TOP, delim);
    assert s[i..][1..] == s[i + 1..] && s[i..][0] == s[i];
    assert Pieces(s[i..], st, delim) == [""] + r;
    assert ([""] + r)[1..] == r && s[start..i] + "" == s[start..i];
    assert "" + r[0] == r[0] && s[i + 1..i + 1] == "";
  }

  lemma TodoMoves(s: string, start: nat, i: nat, st: Lex, delim: char)
    requires start <= i < |s|
    ensures !Cuts(st, s[i], delim) ==> Todo(s, start, i, st, delim) == Todo(s, start, i + 1, Step(st, s[i]), delim)
    ensures Cuts(st, s[i], delim) ==> Todo(s, start, i, st, delim) == [s[start..i]] + Todo(s, i + 1, i + 1, st, delim)
  {
    hide Step, Cuts, Todo;
    if Cuts(st, s[i], delim) { TodoCut(s, start, i, st, delim); } else { TodoStays(s, start, i, st, delim); }
  }

  lemma TodoEnds(s: string, start: nat, st: Lex, delim: char)
    requires start <= |s|
    ensures Todo(s, start, |s|, st, delim) == [s[start..]]
  {
    assert s[start..|s|] + "" == s[start..];
  }

  lemma TodoStarts(s: string, delim: char)
    ensures Todo(s, 0, 0, TOP, delim) == Split(s, delim)
  {
    var r := Pieces(s, TOP, delim);
    assert s[0..] == s && s[0..0] + r[0] == r[0];
  }

  method SplitTopLevel(s: string, delim: char) returns (out: seq<string>)
    ensures out == Split(s, delim)
  {
    hide Pieces, Todo, Split;
    out := [];
    var depth: int, strCh: Option<char>, start: nat, i: nat := 0, None, 0, 0;
    TodoStarts(s, delim);
    while i < |s|
      invariant start <= i <= |s| + 1 && start <= |s|
      invariant i <= |s| ==> Split(s, delim) == out + Todo(s, start, i, Lex(depth, strCh, false), delim)
      invariant i > |s| ==> Split(s, delim) == out + [s[start..]]
    {
      var ch := s[i];
      TodoMoves(s, start, i, Lex(depth, strCh, false), delim);
      if strCh.Some? {
        if ch == '\\' {
          if i + 1 < |s| {
            TodoMoves(s, start, i + 1, Lex(depth, strCh, true), delim);
          } else {
            TodoEnds(s, start, Lex(depth, strCh, true), delim);
          }
          i := i + 2;
          continue;
        }
        if ch == strCh.value {
          strCh := None;
        }
      } else if IsQuote(ch) {
        strCh := Some(ch);
      } else if IsOpen(ch) {
        depth := depth + 1;
      } else if IsClose(ch) {
        depth := depth - 1;
      } else if depth == 0 && ch == delim {
        out := out + [s[start..i]];
        start := i + 1;
      }
      i := i + 1;
    }
    if i == |s| {
      TodoEnds(s, start, Lex(depth, strCh, false), delim);
    }
    out := out + [s[start..]];
  }

  // ---------- lossless ----------

  lemma JoinPrepend(a: string, pieces: seq<string>, sep: string)
    requires pieces != []
    ensures Join(Prepend(a, pieces), sep) == a + Join(pieces, sep)
  {
    if |pieces| > 1 {
      assert Prepend(a, pieces)[1..] == pieces[1..];
      assert a + pieces[0] + sep + Join(pieces[1..], sep) == a + (pieces[0] + sep + Join(pieces[1..], sep));
    }
  }

  lemma {:induction false} JoinPieces(s: string, st: Lex, delim: char)
    ensures Join(Pieces(s, st, delim), [delim]) == s
  {
    if s != "" {
      if Cuts(st, s[0], delim) {
        var r := Pieces(s[1..], st, delim);
        JoinPieces(s[1..], st, delim);
        assert ([""] + r)[1..] == r;
      } else {
        JoinPieces(s[1..], Step(st, s[0]), delim);
        JoinPrepend([s[0]], Pieces(s[1..], Step(st, s[0]), delim), [delim]);
      }
    }
  }

  /** Joining the pieces with the delimiter restores the input, whatever it is. */
  lemma SplitIsLossless(s: string, delim: char)
    ensures Join(Split(s, delim), [delim]) == s
  {
    JoinPieces(s, TOP, delim);
  }

  // ---------- exact ----------

  /** No piece is cut inside, and every piece but the last ends with all brackets and strings closed. */
  ghost predicate Separable(ps: seq<string>, delim: char) {
    && (forall i :: 0 <= i < |ps| ==> CutFree(TOP, ps[i], delim))
    && (forall i :: 0 <= i < |ps| - 1 ==> Scan(TOP, ps[i]) == TOP)
    && (|ps| > 1 ==> Ordinary(delim))
  }

  lemma {:induction false} PassPiece(p: string, rest: string, st: Lex, delim: char)
    requires CutFree(st, p, delim)
    ensures Pieces(p + rest, st, delim) == Prepend(p, Pieces(rest, Scan(st, p), delim))
  {
    if p == "" {
      assert p + rest == rest;
      assert "" + Pieces(rest, st, delim)[0] == Pieces(rest, st, delim)[0];
    } else {
      assert (p + rest)[0] == p[0] && (p + rest)[1..] == p[1..] + rest;
      PassPiece(p[1..], rest, Step(st, p[0]), delim);
      var r := Pieces(rest, Scan(st, p), delim);
      assert [p[0]] + (p[1..] + r[0]) == p + r[0];
    }
  }

  lemma {:induction false} SplitOfSeparable(ps: seq<string>, delim: char)
    requires ps != [] && Separable(ps, delim)
    ensures Split(Join(ps, [delim]), delim) == ps
  {
    if |ps| == 1 {
      PassPiece(ps[0], "", TOP, delim);
      assert ps[0] + "" == ps[0];
    } else {
      var rest := Join(ps[1..], [delim]);
      SplitOfSeparable(ps[1..], delim);
      PassPiece(ps[0], [delim] + rest, TOP, delim);
      assert ps[0] + [delim] + rest == ps[0] + ([delim] + rest);
      assert ([delim] + rest)[1..] == rest;
      assert ps[0] + "" == ps[0] && ([""] + Pieces(rest, TOP, delim))[1..] == Pieces(rest, TOP, delim);
      assert ps == [ps[0]] + ps[1..];
    }
  }

  /** The first piece reaches up to the first cut, and the rest is split afresh. */
  lemma {:induction false} FirstPiece(s: string, st: Lex, delim: char)
    ensures var r := Pieces(s, st, delim);
      && CutFree(st, r[0], delim)
      && (|r| == 1 ==> r[0] == s)
      && (|r| > 1 ==> |r[0]| < |s| && s[..|r[0]|] == r[0] && Cuts(Scan(st, r[0]), s[|r[0]|], delim)
                      && r[1..] == Pieces(s[|r[0]| + 1..], TOP, delim))
  {
    if s != "" && !Cuts(st, s[0], delim) {
      FirstPiece(s[1..], Step(st, s[0]), delim);
      var q := Pieces(s[1..], Step(st, s[0]), delim);
      var r := Pieces(s, st, delim);
      assert r[0] == [s[0]] + q[0] && r[0][1..] == q[0] && r[1..] == q[1..];
      if |r| > 1 {
        assert s[|r[0]| + 1..] == s[1..][|q[0]| + 1..];
        assert s[..|r[0]|] == [s[0]] + s[1..][..|q[0]|];
      }
    }
  }

  lemma {:induction false} SplitIsSeparable(ps: seq<string>, delim: char)
    requires ps != [] && Split(Join(ps, [delim]), delim) == ps
    ensures Separable(ps, delim)
  {
    var s := Join(ps, [delim]);
    FirstPiece(s, TOP, delim);
    if |ps| > 1 {
      assert s == ps[0] + [delim] + Join(ps[1..], [delim]);
      assert s[|ps[0]| + 1..] == Join(ps[1..], [delim]);
      SplitIsSeparable(ps[1..], delim);
    }
  }

  /** Splitting a join gives the pieces back if and only if they are separable. */
  lemma SplitInvertsJoinIff(ps: seq<string>, delim: char)
    ensures Split(Join(ps, [delim]), delim) == ps <==> ps != [] && Separable(ps, delim)
  {
    if ps != [] {
      if Separable(ps, delim) { SplitOfSeparable(ps, delim); }
      if Split(Join(ps, [delim]), delim) == ps { SplitIsSeparable(ps, delim); }
    }
  }

  // ---------- inline object fields ----------

  /** How a field's name is written. */
  datatype Style = Bare | Quoted(quote: char)

  predicate IsIdentStart(c: char) {
    'A' <= c <= 'Z' || 'a' <= c <= 'z' || c == '_' || c == '$'
  }

  predicate IsIdentPart(c: char) {
    IsIdentStart(c) || '0' <= c <= '9'
  }

  /** The length of the longest prefix whose characters satisfy p. */
  function Span(s: string, p: char -> bool): (n: nat)
    ensures n <= |s| && (n < |s| ==> !p(s[n])) && forall i :: 0 <= i < n ==> p(s[i])
  {
    if s == "" || !p(s[0]) then 0
    else
      var n := Span(s[1..], p);
      assert forall i :: 1 <= i <= n ==> s[i] == s[1..][i - 1];
      1 + n
  }

  /** The longest prefix a quoted name may have inside its quotes. */
  function QuotedSpan(s: string, quote: char): nat {
    Span(s, (c: char) => c != quote && c != '\\')
  }

  /** The text after the name: white space, a colon, white space and a non-empty right-hand side. */
  function ParseRhs(rest: string): Option<string> {
    var t := TrimStart(rest);
    if t == "" || t[0] != ':' || TrimStart(t[1..]) == "" then None else Some(TrimStart(t[1..]))
  }

  /** One trimmed piece, with the name bare or quoted. */
  function ParseField(t: string): Option<Field> {
    if t == "" then None
    else if IsQuote(t[0]) then
      var n := QuotedSpan(t[1..], t[0]);
      if n == 0 || 1 + n >= |t| || t[1 + n] != t[0] then None
      else
        match ParseRhs(t[n + 2..])
        case None => None
        case Some(rhs) => Some(Field(t[1..1 + n], rhs))
    else if IsIdentStart(t[0]) then
      var n := Span(t, IsIdentPart);
      match ParseRhs(t[n..])
      case None => None
      case Some(rhs) => Some(Field(t[..n], rhs))
    else None
  }

  function FieldsOf(pieces: seq<string>): Option<seq<Field>> {
    if pieces == [] then Some([])
    else
      var last := Trim(pieces[|pieces| - 1]);
      match FieldsOf(pieces[..|pieces| - 1])
      case None => None
      case Some(fields) =>
        if last == "" then Some(fields)
        else
          match ParseField(last)
          case None => None
          case Some(f) => Some(fields + [f])
  }

  method ParseInlineObjectFields(body: string) returns (r: Option<seq<Field>>)
    ensures r == FieldsOf(Split(body, ','))
  {
    hide Split, ParseField, Trim;
    var pairs := SplitTopLevel(body, ',');
    var out: seq<Field> := [];
    for i := 0 to |pairs|
      invariant FieldsOf(pairs[..i]) == Some(out)
    {
      assert pairs[..i + 1][..i] == pairs[..i];
      var trimmed := Trim(pairs[i]);
      if trimmed != "" {
        var f := ParseField(trimmed);
        if f.None? {
          FailureStays(pairs, i + 1);
          return None;
        }
        out := out + [f.value];
      }
    }
    assert pairs[..|pairs|] == pairs;
    r := Some(out);
  }

  lemma {:induction false} FailureStays(pieces: seq<string>, n: nat)
    requires n <= |pieces| && FieldsOf(pieces[..n]).None?
    ensures FieldsOf(pieces).None?
    decreases |pieces| - n
  {
    if n < |pieces| {
      assert pieces[..n + 1][..n] == pieces[..n];
      FailureStays(pieces, n + 1);
    } else {
      assert pieces[..n] == pieces;
    }
  }

  // ---------- the fields come back ----------

  predicate GoodName(name: string, style: Style) {
    match style
    case Bare => name != "" && IsIdentStart(name[0]) && Span(name, IsIdentPart) == |name|
    case Quoted(q) => IsQuote(q) && name != "" && QuotedSpan(name, q) == |name|
  }

  function PrintName(name: string, style: Style): string {
    match style
    case Bare => name
    case Quoted(q) => [q] + name + [q]
  }

  function PrintField(f: Field, style: Style): string {
    PrintName(f.name, style) + ":" + f.rhs
  }

  /** A right-hand side that is trimmed, closed, and has no comma at top level. */
  ghost predicate GoodRhs(rhs: string) {
    Trimmed(rhs) && CutFree(TOP, rhs, ',') && Scan(TOP, rhs) == TOP
  }

  lemma {:induction false} SpanStops(a: string, b: string, p: char -> bool)
    requires Span(a, p) == |a| && (b == "" || !p(b[0]))
    ensures Span(a + b, p) == |a|
  {
    if a == "" {
      assert a + b == b;
    } else {
      assert (a + b)[1..] == a[1..] + b && (a + b)[0] == a[0];
      SpanStops(a[1..], b, p);
    }
  }

  lemma RhsReadsBack(rhs: string)
    requires Trimmed(rhs)
    ensures ParseRhs(":" + rhs) == Some(rhs)
  {
    var tail := ":" + rhs;
    assert TrimStart(tail) == tail && tail[1..] == rhs && TrimStart(rhs) == rhs;
  }

  lemma BareReadsBack(name: string, tail: string, rhs: string)
    requires GoodName(name, Bare) && tail != "" && !IsIdentPart(tail[0]) && ParseRhs(tail) == Some(rhs)
    ensures ParseField(name + tail) == Some(Field(name, rhs))
  {
    hide ParseRhs;
    SpanStops(name, tail, IsIdentPart);
    var t := name + tail;
    assert t[..|name|] == name && t[|name|..] == tail && t[0] == name[0];
  }

  lemma QuotedReadsBack(name: string, q: char, tail: string, rhs: string)
    requires GoodName(name, Quoted(q)) && ParseRhs(tail) == Some(rhs)
    ensures ParseField([q] + (name + ([q] + tail))) == Some(Field(name, rhs))
  {
    hide ParseRhs;
    var after := [q] + tail;
    SpanStops(name, after, (c: char) => c != q && c != '\\');
    var t := [q] + (name + after);
    assert t[1..] == name + after && t[0] == q;
    assert QuotedSpan(t[1..], q) == |name|;
    assert t[1..1 + |name|] == name && t[1 + |name|] == q && t[|name| + 2..] == tail;
  }

  lemma FieldReadsBack(f: Field, style: Style)
    requires GoodName(f.name, style) && Trimmed(f.rhs)
    ensures ParseField(PrintField(f, style)) == Some(f)
  {
    hide ParseField;
    RhsReadsBack(f.rhs);
    match style
    case Bare =>
      BareReadsBack(f.name, ":" + f.rhs, f.rhs);
      assert PrintField(f, style) == f.name + (":" + f.rhs);
    case Quoted(q) =>
      QuotedReadsBack(f.name, q, ":" + f.rhs, f.rhs);
      assert PrintField(f, style) == [q] + (f.name + ([q] + (":" + f.rhs)));
  }

  lemma {:induction false} ScanAppend(st: Lex, a: string, b: string, delim: char)
    ensures Scan(st, a + b) == Scan(Scan(st, a), b)
    ensures CutFree(st, a + b, delim) <==> CutFree(st, a, delim) && CutFree(Scan(st, a), b, delim)
    decreases |a|
  {
    if a == "" {
      assert a + b == b;
    } else {
      assert (a + b)[0] == a[0] && (a + b)[1..] == a[1..] + b;
      ScanAppend(Step(st, a[0]), a[1..], b, delim);
    }
  }

  lemma {:induction false} PassQuoted(name: string, q: char)
    requires IsQuote(q) && QuotedSpan(name, q) == |name|
    ensures Scan(Lex(0, Some(q), false), name) == Lex(0, Some(q), false)
    ensures CutFree(Lex(0, Some(q), false), name, ',')
  {
    if name != "" { PassQuoted(name[1..], q); }
  }

  lemma {:induction false} PassBare(name: string)
    requires Span(name, IsIdentPart) == |name|
    ensures Scan(TOP, name) == TOP && CutFree(TOP, name, ',')
  {
    if name != "" { PassBare(name[1..]); }
  }

  lemma PassName(name: string, style: Style)
    requires GoodName(name, style)
    ensures Scan(TOP, PrintName(name, style)) == TOP && CutFree(TOP, PrintName(name, style), ',')
  {
    match style
    case Bare => PassBare(name);
    case Quoted(q) =>
      PassQuoted(name, q);
      ScanAppend(Lex(0, Some(q), false), name, [q], ',');
      assert ([q] + name + [q])[0] == q && ([q] + name + [q])[1..] == name + [q];
      assert Scan(Lex(0, Some(q), false), [q]) == TOP && CutFree(Lex(0, Some(q), false), [q], ',');
  }

  lemma PassRhs(rhs: string)
    requires GoodRhs(rhs)
    ensures Scan(TOP, ":" + rhs) == TOP && CutFree(TOP, ":" + rhs, ',')
  {
    hide Trimmed;
    assert (":" + rhs)[0] == ':' && (":" + rhs)[1..] == rhs;
  }

  lemma NameStarts(name: string, style: Style)
    requires GoodName(name, style)
    ensures PrintName(name, style) != "" && !IsSpace(PrintName(name, style)[0])
  {
    hide Span, QuotedSpan;
  }

  lemma PrintedIsTrimmed(f: Field, style: Style)
    requires GoodName(f.name, style) && Trimmed(f.rhs)
    ensures Trimmed(PrintField(f, style))
  {
    NameStarts(f.name, style);
    hide GoodName, PrintName, IsSpace;
    assert PrintField(f, style) == PrintName(f.name, style) + ":" + f.rhs;
  }

  lemma PrintedFieldPasses(f: Field, style: Style)
    requires GoodName(f.name, style) && GoodRhs(f.rhs)
    ensures Scan(TOP, PrintField(f, style)) == TOP && CutFree(TOP, PrintField(f, style), ',')
    ensures Trimmed(PrintField(f, style))
  {
    hide Scan, CutFree, Trimmed, GoodName, GoodRhs, PrintName;
    PassName(f.name, style);
    PassRhs(f.rhs);
    GoodRhsTrimmed(f.rhs);
    PrintedIsTrimmed(f, style);
    assert PrintField(f, style) == PrintName(f.name, style) + (":" + f.rhs);
    ScanAppend(TOP, PrintName(f.name, style), ":" + f.rhs, ',');
  }

  function Printed(fields: seq<Field>, styles: seq<Style>): seq<string>
    requires |fields| == |styles|
  {
    seq(|fields|, i requires 0 <= i < |fields| => PrintField(fields[i], styles[i]))
  }

  lemma {:induction false} PrintedFieldsParse(fields: seq<Field>, styles: seq<Style>)
    requires |fields| == |styles|
    requires forall i :: 0 <= i < |fields| ==> GoodName(fields[i].name, styles[i]) && GoodRhs(fields[i].rhs)
    ensures FieldsOf(Printed(fields, styles)) == Some(fields)
  {
    hide ParseField, GoodName, GoodRhs, PrintField;
    var ps := Printed(fields, styles);
    if fields != [] {
      var n := |fields| - 1;
      PrintedFieldsParse(fields[..n], styles[..n]);
      assert ps[..n] == Printed(fields[..n], styles[..n]);
      PrintedFieldPasses(fields[n], styles[n]);
      TrimPadded("", ps[n], "");
      assert "" + ps[n] + "" == ps[n];
      assert Trimmed(fields[n].rhs) by { GoodRhsTrimmed(fields[n].rhs); }
      FieldReadsBack(fields[n], styles[n]);
      assert fields[..n] + [fields[n]] == fields;
    }
  }

  lemma GoodRhsTrimmed(rhs: string)
    requires GoodRhs(rhs)
    ensures Trimmed(rhs)
  {
  }

  /** Any printed list of fields, bare or quoted names, is read back exactly. */
  lemma InlineFieldsRoundTrip(fields: seq<Field>, styles: seq<Style>)
    requires |fields| == |styles|
    requires forall i :: 0 <= i < |fields| ==> GoodName(fields[i].name, styles[i]) && GoodRhs(fields[i].rhs)
    ensures FieldsOf(Split(Join(Printed(fields, styles), ","), ',')) == Some(fields)
  {
    hide FieldsOf, Split, GoodName, GoodRhs, PrintField;
    var ps := Printed(fields, styles);
    PrintedFieldsParse(fields, styles);
    forall i | 0 <= i < |fields| ensures CutFree(TOP, ps[i], ',') && Scan(TOP, ps[i]) == TOP {
      PrintedFieldPasses(fields[i], styles[i]);
    }
    if fields == [] {
      EmptyBody();
    } else {
      SplitOfSeparable(ps, ',');
    }
  }

  lemma EmptyBody()
    ensures FieldsOf(Split("", ',')) == Some([])
  {
    assert Split("", ',') == [""] && Trim("") == "";
    assert [""][..0] == [];
  }
}
