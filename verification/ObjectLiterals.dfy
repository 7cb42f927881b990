/** Printing an object literal and extracting its fields again. */
module ObjectLiterals {
  import opened Prelude
  import opened JsLexer
  import opened ObjectFields
  import Splitter

  const TOP := Lex(Code, 1, 0, 0)

  function LexAfter(l: Lex, s: string): Lex {
    if s == "" then l else NextLex(LexAfter(l, s[..|s| - 1]), s[|s| - 1])
  }

  /** No character of s ends the field. */
  predicate Unended(s: string) {
    s == "" || (Unended(s[..|s| - 1]) && !Ends(LexAfter(TOP, s[..|s| - 1]), s[|s| - 1]))
  }

  /** A trimmed right-hand side, back at the top level and outside strings and comments at its end, and not before an end. */
  predicate GoodRhs(rhs: string) {
    var l := LexAfter(TOP, rhs);
    Trimmed(rhs) && Unended(rhs) && (l == TOP || l == TOP.(mode := Slash))
  }

  /** The fields with commas between them, each name bare or in quotes. */
  function Body(fields: seq<Field>, styles: seq<Splitter.Style>): string
    requires |fields| == |styles|
  {
    if fields == [] then ""
    else
      var n := |fields| - 1;
      Body(fields[..n], styles[..n]) + (if n > 0 then "," else "") + Splitter.PrintField(fields[n], styles[n])
  }

  // ---------- reading one field ----------

  lemma {:induction false} RunAppend(s: Scan, a: string, b: string)
    ensures Run(s, a + b) == Run(Run(s, a), b)
    decreases |b|
  {
    hide Step;
    if b == "" {
      assert a + b == a;
    } else {
      assert (a + b)[..|a + b| - 1] == a + b[..|b| - 1];
      RunAppend(s, a, b[..|b| - 1]);
    }
  }

  lemma RunChar(s: Scan, c: char)
    ensures Run(s, [c]) == Step(s, c)
  {
    assert [c][..0] == "";
  }

  /** The key's text is shorter than what has been read, by at least the name and the colon. */
  ghost predicate Lags(key: Key, n: nat) {
    match key
    case NoKey => true
    case InIdent(_) => n >= 1
    case AfterIdent(_) => n >= 1
    case RhsGap(_) => n >= 2
    case Rhs(_, text) => |text| < n
  }

  /** Reading a right-hand side with no name in front of it. */
  lemma {:induction false} RunNameless(rhs: string, fields: seq<Field>)
    requires Unended(rhs)
    ensures var r := Run(Scan(TOP, NoKey, fields, false), rhs);
      r == Scan(LexAfter(TOP, rhs), r.key, fields, false) && Lags(r.key, |rhs|)
  {
    hide Step, NextLex, Ends;
    if rhs != "" {
      var front, c := rhs[..|rhs| - 1], rhs[|rhs| - 1];
      RunNameless(front, fields);
      StepWithin(Run(Scan(TOP, NoKey, fields, false), front), c);
    }
  }

  /** Reading a right-hand side behind its name. */
  lemma {:induction false} RunNamed(rhs: string, name: string, fields: seq<Field>)
    requires Unended(rhs) && (rhs != "" ==> !IsSpace(rhs[0]))
    ensures Run(Scan(TOP, RhsGap(name), fields, false), rhs)
         == Scan(LexAfter(TOP, rhs), if rhs == "" then RhsGap(name) else Rhs(name, rhs), fields, false)
  {
    hide Step, NextLex, Ends;
    if rhs != "" {
      var front, c := rhs[..|rhs| - 1], rhs[|rhs| - 1];
      RunNamed(front, name, fields);
      StepWithin(Run(Scan(TOP, RhsGap(name), fields, false), front), c);
      assert front + [c] == rhs;
    }
  }

  lemma {:induction false} RunName(name: string, fields: seq<Field>)
    requires name != "" && Splitter.IsIdentStart(name[0]) && forall i :: 0 <= i < |name| ==> Splitter.IsIdentPart(name[i])
    ensures Run(Scan(TOP, NoKey, fields, false), name) == Scan(TOP, InIdent(name), fields, false)
  {
    hide Step, NextLex, Splitter.IsIdentStart, Splitter.IsIdentPart, Ends;
    var front, c := name[..|name| - 1], name[|name| - 1];
    NameCharIsCalm(c);
    CalmStays(c);
    CalmNeverEnds(TOP, c);
    if |name| == 1 {
      assert front == "" && name == [c];
      assert AtTop(TOP, c) by { CalmAtTop(c); }
      StepWithin(Scan(TOP, NoKey, fields, false), c);
    } else {
      RunName(front, fields);
      StepWithin(Scan(TOP, InIdent(front), fields, false), c);
      assert front + [c] == name;
    }
  }

  lemma CalmAtTop(c: char)
    ensures AtTop(TOP, c)
  {
  }

  lemma CalmNeverEnds(l: Lex, c: char)
    requires IsCalm(c)
    ensures !Ends(l, c)
  {
  }

  lemma {:induction false} RunQuotedName(name: string, q: char, fields: seq<Field>)
    requires forall i :: 0 <= i < |name| ==> name[i] != q && name[i] != '\\'
    ensures var s := Scan(TOP.(mode := Str(q)), NoKey, fields, false); Run(s, name) == s
  {
    hide Step;
    if name != "" {
      RunQuotedName(name[..|name| - 1], q, fields);
      StepQuoted(name[|name| - 1], q, fields);
    }
  }

  lemma StepQuoted(c: char, q: char, fields: seq<Field>)
    requires c != q && c != '\\'
    ensures var s := Scan(TOP.(mode := Str(q)), NoKey, fields, false); Step(s, c) == s
  {
    hide Ended;
  }

  /** A bare name and its colon leave a name behind, a quoted one leaves nothing. */
  lemma RunLabel(name: string, style: Splitter.Style, fields: seq<Field>)
    requires Splitter.GoodName(name, style)
    ensures Run(Scan(TOP, NoKey, fields, false), Splitter.PrintName(name, style) + ":")
         == Scan(TOP, if style.Bare? then RhsGap(name) else NoKey, fields, false)
  {
    hide Step, NextLex;
    var s := Scan(TOP, NoKey, fields, false);
    var head := Splitter.PrintName(name, style);
    RunAppend(s, head, ":");
    NameCharIsCalm(':');
    CalmStays(':');
    CalmNeverEnds(TOP, ':');
    RunChar(Run(s, head), ':');
    match style
    case Bare =>
      RunName(name, fields);
      StepWithin(Scan(TOP, InIdent(name), fields, false), ':');
    case Quoted(q) =>
      RunQuoted(name, q, fields);
      StepWithin(s, ':');
      assert !Splitter.IsIdentStart(':');
  }

  lemma RunQuoted(name: string, q: char, fields: seq<Field>)
    requires Splitter.GoodName(name, Splitter.Quoted(q))
    ensures Run(Scan(TOP, NoKey, fields, false), [q] + name + [q]) == Scan(TOP, NoKey, fields, false)
  {
    hide Run;
    var s, s' := Scan(TOP, NoKey, fields, false), Scan(TOP.(mode := Str(q)), NoKey, fields, false);
    RunAppend(s, [q], name);
    RunAppend(s, [q] + name, [q]);
    RunChar(s, q);
    RunQuotedName(name, q, fields);
    RunChar(s', q);
    QuoteSteps(q, fields);
  }

  lemma QuoteSteps(q: char, fields: seq<Field>)
    requires Splitter.IsQuote(q)
    ensures Step(Scan(TOP, NoKey, fields, false), q) == Scan(TOP.(mode := Str(q)), NoKey, fields, false)
    ensures Step(Scan(TOP.(mode := Str(q)), NoKey, fields, false), q) == Scan(TOP, NoKey, fields, false)
  {
    hide Ended;
  }

  lemma TrimNoLonger(s: string)
    ensures |Trim(s)| <= |s|
  {
    TrimShrinks(s);
    TrimStartShrinks(s);
  }

  lemma TrimmedStays(s: string)
    requires Trimmed(s)
    ensures Trim(s) == s
  {
    TrimPadded("", s, "");
    assert "" + s + "" == s;
  }

  /** A printed field, up to the character that ends it, yields at most one field, and itself only with a bare name. */
  lemma RunField(f: Field, style: Splitter.Style, c: char, fields: seq<Field>) returns (part: seq<Field>)
    requires Splitter.GoodName(f.name, style) && GoodRhs(f.rhs) && (c == ',' || c == '}')
    ensures Run(Scan(TOP, NoKey, fields, false), Splitter.PrintField(f, style) + [c]).fields == fields + part
    ensures c == ',' ==>
      Run(Scan(TOP, NoKey, fields, false), Splitter.PrintField(f, style) + [c]) == Scan(TOP, NoKey, fields + part, false)
    ensures c == '}' ==> Run(Scan(TOP, NoKey, fields, false), Splitter.PrintField(f, style) + [c]).done
    ensures |part| <= 1 && (part == [f] <==> style.Bare?)
  {
    hide Run, Step, Unended, Splitter.GoodName, IsSpace, Trim;
    var s := Scan(TOP, NoKey, fields, false);
    var head := Splitter.PrintName(f.name, style) + ":";
    var named := Run(s, head);
    RunLabel(f.name, style, fields);
    RunAppend(s, head, f.rhs);
    RunAppend(s, head + f.rhs, [c]);
    var last := Run(named, f.rhs);
    RunChar(last, c);
    if style.Bare? { RunNamed(f.rhs, f.name, fields); } else { RunNameless(f.rhs, fields); }
    StepEnds(last, c);
    part := Ended(last.key);
    if last.key.Rhs? { TrimNoLonger(last.key.text); }
    TrimmedStays(f.rhs);
    if c == ',' { StepNotDone(last, c); }
  }

  lemma StepNotDone(s: Scan, c: char)
    requires !s.done && c == ','
    ensures !Step(s, c).done
  {
  }

  // ---------- reading the whole literal ----------

  /** What reading `{`, the fields and the character c collects. */
  lemma {:induction false} RunBody(fields: seq<Field>, styles: seq<Splitter.Style>, c: char) returns (read: seq<Field>)
    requires |fields| == |styles| > 0 && (c == ',' || c == '}')
    requires forall i :: 0 <= i < |fields| ==> Splitter.GoodName(fields[i].name, styles[i]) && GoodRhs(fields[i].rhs)
    ensures Run(START, Body(fields, styles) + [c]).fields == read
    ensures c == ',' ==> Run(START, Body(fields, styles) + [c]) == Scan(TOP, NoKey, read, false)
    ensures c == '}' ==> Run(START, Body(fields, styles) + [c]).done
    ensures |read| <= |fields| && (read == fields <==> forall i :: 0 <= i < |fields| ==> styles[i].Bare?)
    decreases |fields|
  {
    hide Run, Splitter.GoodName, GoodRhs, Splitter.PrintField;
    var n := |fields| - 1;
    var last := Splitter.PrintField(fields[n], styles[n]) + [c];
    if n == 0 {
      read := RunField(fields[0], styles[0], c, []);
      assert Body(fields, styles) + [c] == last;
      assert fields == [fields[0]] && [] + read == read;
    } else {
      var front := Body(fields[..n], styles[..n]) + ",";
      var before := RunBody(fields[..n], styles[..n], ',');
      var part := RunField(fields[n], styles[n], c, before);
      RunAppend(START, front, last);
      assert Body(fields, styles) + [c] == front + last;
      read := before + part;
      assert fields == fields[..n] + [fields[n]];
      if read == fields {
        assert before == read[..n] && part == read[n..];
      }
    }
  }

  lemma {:induction false} RunDone(s: Scan, rest: string)
    requires s.done
    ensures Run(s, rest) == s
  {
    if rest != "" { RunDone(s, rest[..|rest| - 1]); }
  }

  lemma NoFields(fields: seq<Field>, styles: seq<Splitter.Style>)
    requires fields == [] && styles == []
    ensures Body(fields, styles) + "}" == ['}']
    ensures Step(START, '}').done && Step(START, '}').fields == []
  {
  }

  lemma Regroup(body: string, rest: string)
    ensures Extracted("{" + body + "}" + rest) == Run(START, body + "}" + rest).fields
  {
    hide Run;
    assert ("{" + body + "}" + rest)[1..] == body + "}" + rest;
  }

  /**
   Extracting the fields of a printed object literal gives them back, whatever follows the literal, exactly when
   every name is written bare: a name in quotes is read as a string, and its field is lost or cut short.
   */
  lemma RoundTripIffBare(fields: seq<Field>, styles: seq<Splitter.Style>, rest: string)
    requires |fields| == |styles|
    requires forall i :: 0 <= i < |fields| ==> Splitter.GoodName(fields[i].name, styles[i]) && GoodRhs(fields[i].rhs)
    ensures Extracted("{" + Body(fields, styles) + "}" + rest) == fields <==> forall i :: 0 <= i < |fields| ==> styles[i].Bare?
  {
    hide Run, Step, Splitter.GoodName, GoodRhs, Body, Extracted;
    var inner := Body(fields, styles) + "}";
    Regroup(Body(fields, styles), rest);
    RunAppend(START, inner, rest);
    if fields == [] {
      NoFields(fields, styles);
      RunChar(START, '}');
    } else {
      var read := RunBody(fields, styles, '}');
    }
    RunDone(Run(START, inner), rest);
  }
}
