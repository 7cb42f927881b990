/**
 Strings, comments, white space and names as the scanners of the generator read them (codegen/extract.ts,
 codegen/generate.ts), character by character.
 */
module Lexemes {
  import opened Prelude
  import opened JsLexer
  import ObjectFields
  import ObjectLiterals
  import Expressions
  import EnumValues
  import EnumLists
  import Splitter

  // ---------- spelled out ----------

  /** Double, single and back quotes delimit strings. */
  predicate StringQuote(c: char) {
    c == '"' || c == '\'' || c == '`'
  }

  predicate Blank(s: string) {
    forall i :: 0 <= i < |s| ==> s[i] == ' ' || s[i] == '\t' || s[i] == '\n' || s[i] == '\r'
  }

  predicate Letter(c: char) {
    'A' <= c <= 'Z' || 'a' <= c <= 'z' || c == '_' || c == '$'
  }

  predicate Identifier(s: string) {
    s != "" && Letter(s[0]) && forall i :: 0 <= i < |s| ==> Letter(s[i]) || '0' <= s[i] <= '9'
  }

  /** Neither the quote nor a backslash. */
  predicate PlainIn(q: char, s: string) {
    forall i :: 0 <= i < |s| ==> s[i] != q && s[i] != '\\'
  }

  // ---------- what a string or comment holds does not count ----------

  function Literals(s: string): seq<StringChar> {
    Map(s, (c: char) => Literal(c))
  }

  lemma {:induction false} PrintLiterals(s: string)
    ensures PrintString(Literals(s)) == s
  {
    if s != "" {
      PrintLiterals(s[..|s| - 1]);
      assert Literals(s)[..|s| - 1] == Literals(s[..|s| - 1]);
    }
  }

  lemma {:induction false} PrintMore(a: seq<StringChar>, b: seq<StringChar>)
    ensures PrintString(a + b) == PrintString(a) + PrintString(b)
    decreases |b|
  {
    if b == [] {
      assert a + b == a;
    } else {
      assert (a + b)[..|a + b| - 1] == a + b[..|b| - 1];
      PrintMore(a, b[..|b| - 1]);
    }
  }

  /** A string token whose body is a, an escaped character, and b. */
  function StringToken(q: char, a: string, c: char, b: string): Token {
    Quoted(q, Literals(a) + [Escaped(c)] + Literals(b))
  }

  lemma StringTokenIs(q: char, a: string, c: char, b: string)
    requires StringQuote(q) && PlainIn(q, a) && PlainIn(q, b)
    ensures WellFormedToken(StringToken(q, a, c, b))
    ensures PrintToken(StringToken(q, a, c, b)) == [q] + (a + ['\\', c] + b) + [q]
    ensures WellFormedToken(Quoted(q, Literals(a))) && PrintToken(Quoted(q, Literals(a))) == [q] + a + [q]
  {
    PrintLiterals(a);
    PrintLiterals(b);
    PrintMore(Literals(a), [Escaped(c)]);
    PrintMore(Literals(a) + [Escaped(c)], Literals(b));
    assert [Escaped(c)][..0] == [];
    assert PrintString([Escaped(c)]) == ['\\', c];
  }

  /** In any surroundings a parenthesis is closed behind a string, whatever the string holds, quotes escaped included. */
  lemma StringHides(before: string, q: char, a: string, c: char, b: string, after: string, j: int)
    requires StringQuote(q) && PlainIn(q, a) && PlainIn(q, b)
    ensures var w := [q] + a + [q];
      ClosesAt(before + "(" + w + ")" + after, |before|, j) <==> j == |before| + 1 + |w|
    ensures var w := [q] + (a + ['\\', c] + b) + [q];
      ClosesAt(before + "(" + w + ")" + after, |before|, j) <==> j == |before| + 1 + |w|
  {
    hide ClosesAt, PrintToken, PrintString;
    StringTokenIs(q, a, c, b);
    OneToken(before, Quoted(q, Literals(a)), after, j);
    OneToken(before, StringToken(q, a, c, b), after, j);
  }

  lemma OneToken(before: string, t: Token, after: string, j: int)
    requires WellFormedToken(t)
    ensures ClosesAt(before + "(" + PrintToken(t) + ")" + after, |before|, j) <==> j == |before| + 1 + |PrintToken(t)|
  {
    hide ClosesAt, PrintToken;
    PrintedWordCloses(before, Cons(t, Nil), after, j);
    assert Print(Cons(t, Nil)) == PrintToken(t) + "" == PrintToken(t);
  }

  /** The same for comments to the end of the line, and for comments up to the first star and slash. */
  lemma CommentHides(before: string, text: string, after: string, j: int)
    ensures (forall i :: 0 <= i < |text| ==> text[i] != '\n') ==>
      var w := "//" + text + "\n";
      ClosesAt(before + "(" + w + ")" + after, |before|, j) <==> j == |before| + 1 + |w|
    ensures (forall i :: 0 < i < |text| ==> text[i - 1] != '*' || text[i] != '/') ==>
      var w := "/*" + text + "*/";
      ClosesAt(before + "(" + w + ")" + after, |before|, j) <==> j == |before| + 1 + |w|
  {
    hide ClosesAt;
    if forall i :: 0 <= i < |text| ==> text[i] != '\n' { OneToken(before, LineComment(text), after, j); }
    if forall i :: 0 < i < |text| ==> text[i - 1] != '*' || text[i] != '/' { OneToken(before, BlockComment(text), after, j); }
  }

  /** A string is a whole right-hand side, commas and braces in it included. */
  lemma StringIsValue(q: char, a: string)
    requires StringQuote(q) && PlainIn(q, a)
    ensures ObjectLiterals.GoodRhs([q] + a + [q])
    ensures q != '`' ==> Splitter.GoodRhs([q] + a + [q])
  {
    hide ObjectLiterals.GoodRhs, Splitter.GoodRhs, PrintString;
    var ts := Cons(Quoted(q, Literals(a)), Nil);
    StringTokenIs(q, a, q, "");
    assert Print(ts) == PrintToken(ts.head) + "" == [q] + a + [q];
    assert Trimmed([q] + a + [q]);
    Expressions.ValueIsGoodRhs(ts);
    if q != '`' { Expressions.SimpleValueIsGoodRhs(ts); }
  }

  // ---------- names ----------

  /** Identifiers are names both field readers accept bare. */
  lemma IdentifierIsGoodName(name: string)
    requires Identifier(name)
    ensures Splitter.GoodName(name, Splitter.Bare)
  {
    SpanAll(name);
  }

  lemma {:induction false} SpanAll(s: string)
    requires forall i :: 0 <= i < |s| ==> Letter(s[i]) || '0' <= s[i] <= '9'
    ensures Splitter.Span(s, Splitter.IsIdentPart) == |s|
  {
    if s != "" { SpanAll(s[1..]); }
  }

  /** Any text without the quote and backslashes is a name in double or single quotes. */
  lemma QuotedIsGoodName(name: string, q: char)
    requires name != "" && (q == '"' || q == '\'') && PlainIn(q, name)
    ensures Splitter.GoodName(name, Splitter.Quoted(q))
  {
    SpanQuoted(name, q);
  }

  lemma {:induction false} SpanQuoted(s: string, q: char)
    requires PlainIn(q, s)
    ensures Splitter.QuotedSpan(s, q) == |s|
  {
    if s != "" { SpanQuoted(s[1..], q); }
  }

  /** White space in front of the colon and behind it is passed over. */
  lemma SpacedRhsReadsBack(before: string, behind: string, rhs: string)
    requires AllSpace(before) && AllSpace(behind) && Trimmed(rhs)
    ensures Splitter.ParseRhs(before + (":" + (behind + rhs))) == Some(rhs)
  {
    hide AllSpace;
    var tail := ":" + (behind + rhs);
    TrimStartAppend(before, tail);
    TrimStartAppend(behind, rhs);
    assert TrimStart(tail) == tail && tail[1..] == behind + rhs && TrimStart(rhs) == rhs;
  }

  /** The same in a whole field, its name an identifier or in quotes. */
  lemma SpacedInlineField(name: string, q: char, before: string, behind: string, rhs: string)
    requires AllSpace(before) && AllSpace(behind) && Trimmed(rhs)
    ensures var tail := before + (":" + (behind + rhs));
      && (Identifier(name) ==> Splitter.ParseField(name + tail) == Some(Field(name, rhs)))
      && (name != "" && (q == '"' || q == '\'') && PlainIn(q, name) ==>
            Splitter.ParseField([q] + (name + ([q] + tail))) == Some(Field(name, rhs)))
  {
    hide Splitter.ParseRhs, Splitter.ParseField, Splitter.GoodName;
    var tail := before + (":" + (behind + rhs));
    SpacedRhsReadsBack(before, behind, rhs);
    if Identifier(name) {
      IdentifierIsGoodName(name);
      assert !Splitter.IsIdentPart(tail[0]) by { assert before != "" ==> IsSpace(before[0]); }
      Splitter.BareReadsBack(name, tail, rhs);
    }
    if name != "" && (q == '"' || q == '\'') && PlainIn(q, name) {
      QuotedIsGoodName(name, q);
      Splitter.QuotedReadsBack(name, q, tail, rhs);
    }
  }

  /** One piece that is not blank and starts with neither a letter nor a quote makes the inline parse fail. */
  lemma {:induction false} OddPieceFails(pieces: seq<string>, i: nat)
    requires i < |pieces| && Trim(pieces[i]) != ""
    requires var c := Trim(pieces[i])[0]; !Letter(c) && c != '"' && c != '\''
    ensures Splitter.FieldsOf(pieces).None?
  {
    hide Trim;
    var n := |pieces| - 1;
    if i < n { OddPieceFails(pieces[..n], i); }
  }

  /** Blank pieces, as a trailing comma leaves one, are passed over. */
  lemma {:induction false} BlankPieceIsNone(a: seq<string>, blank: string, b: seq<string>)
    requires Trim(blank) == ""
    ensures Splitter.FieldsOf(a + [blank] + b) == Splitter.FieldsOf(a + b)
    decreases |b|
  {
    hide Trim, Splitter.ParseField;
    if b == [] {
      assert a + b == a && (a + [blank] + b)[..|a|] == a;
    } else {
      var front := b[..|b| - 1];
      assert (a + [blank] + b)[..|a + [blank] + b| - 1] == a + [blank] + front && (a + b)[..|a + b| - 1] == a + front;
      BlankPieceIsNone(a, blank, front);
    }
  }

  // ---------- trimming ----------

  /** White space of any kind is trimmed from both ends; no visible ASCII character is. */
  lemma TrimRemoves(c: char, s: string)
    requires s == "" || Trimmed(s)
    requires c in "\t\n\U{b}\U{c}\r \U{a0}\U{1680}\U{2000}\U{2001}\U{2002}\U{2003}\U{2004}\U{2005}\U{2006}"
             || c in "\U{2007}\U{2008}\U{2009}\U{200a}\U{2028}\U{2029}\U{202f}\U{205f}\U{3000}\U{feff}"
    ensures Trim([c] + s + [c]) == s
  {
    TrimPadded([c], s, [c]);
  }

  lemma TrimKeeps(c: char, s: string, d: char)
    requires '!' <= c <= '~' && '!' <= d <= '~'
    ensures Trim([c] + s + [d]) == [c] + s + [d]
  {
    var t := [c] + s + [d];
    TrimPadded("", t, "");
    assert "" + t + "" == t;
  }

  // ---------- white space ----------

  lemma {:induction false} GapsSkipped(text: string, i: nat, k: nat)
    requires i <= k <= |text| && (forall n :: i <= n < k ==> IsGap(text[n])) && (k < |text| ==> !IsGap(text[k]))
    ensures ObjectFields.SkipGap(text, i) == k
    decreases k - i
  {
    if i < k { GapsSkipped(text, i + 1, k); }
  }

  /** Blank space moves the scanner on between the parts of a field. */
  lemma {:induction false} BlankRuns(key: ObjectFields.Key, text: string)
    requires Blank(text) && (key.NoKey? || key.AfterIdent? || key.RhsGap?)
    ensures var s := ObjectFields.Scan(ObjectLiterals.TOP, key, [], false); ObjectFields.Run(s, text) == s
  {
    hide ObjectFields.Step;
    if text != "" {
      BlankRuns(key, text[..|text| - 1]);
      BlankStep(key, text[|text| - 1]);
    }
  }

  lemma BlankStep(key: ObjectFields.Key, c: char)
    requires Blank([c]) && (key.NoKey? || key.AfterIdent? || key.RhsGap?)
    ensures var s := ObjectFields.Scan(ObjectLiterals.TOP, key, [], false); ObjectFields.Step(s, c) == s
  {
    hide ObjectFields.Step, ObjectFields.NextLex, ObjectFields.Ends, Blank;
    BlankIsCalm(c);
    PlainStep(key, c);
  }

  lemma BlankIsCalm(c: char)
    requires Blank([c])
    ensures IsCalm(c) && IsGap(c) && !Splitter.IsIdentStart(c) && !Splitter.IsIdentPart(c) && c != ':'
  {
    assert [c][0] == c;
  }

  /** A calm character moves nothing but the key. */
  lemma PlainStep(key: ObjectFields.Key, c: char)
    requires IsCalm(c)
    ensures ObjectFields.Step(ObjectFields.Scan(ObjectLiterals.TOP, key, [], false), c)
         == ObjectFields.Scan(ObjectLiterals.TOP, ObjectFields.NextKey(key, c, true), [], false)
  {
    hide ObjectFields.Step, ObjectFields.NextLex, ObjectFields.Ends, ObjectFields.NextKey, ObjectFields.AtTop;
    ObjectFields.CalmStays(c);
    ObjectLiterals.CalmNeverEnds(ObjectLiterals.TOP, c);
    ObjectLiterals.CalmAtTop(c);
    ObjectFields.StepWithin(ObjectFields.Scan(ObjectLiterals.TOP, key, [], false), c);
  }

  lemma BehindName(name: string, c: char)
    ensures var s := ObjectFields.Scan(ObjectLiterals.TOP, ObjectFields.InIdent(name), [], false);
      (c == ':' ==> ObjectFields.Step(s, c) == s.(key := ObjectFields.RhsGap(name)))
      && (Blank([c]) ==> ObjectFields.Step(s, c) == s.(key := ObjectFields.AfterIdent(name)))
    ensures var s := ObjectFields.Scan(ObjectLiterals.TOP, ObjectFields.AfterIdent(name), [], false);
      c == ':' ==> ObjectFields.Step(s, c) == s.(key := ObjectFields.RhsGap(name))
  {
    hide ObjectFields.Step, Blank;
    if c == ':' || Blank([c]) {
      if Blank([c]) { BlankIsCalm(c); }
      PlainStep(ObjectFields.InIdent(name), c);
      PlainStep(ObjectFields.AfterIdent(name), c);
    }
  }

  /** Name, blanks, colon and blanks lead to the right-hand side. */
  lemma LabelRuns(name: string, blank: string)
    requires Identifier(name) && Blank(blank)
    ensures ObjectFields.Run(ObjectFields.START, blank + name + blank + ":" + blank)
         == ObjectFields.Scan(ObjectLiterals.TOP, ObjectFields.RhsGap(name), [], false)
  {
    hide ObjectFields.Run, ObjectFields.Step, Splitter.IsIdentStart, Splitter.IsIdentPart;
    var s := ObjectFields.START;
    var named := ObjectFields.Scan(ObjectLiterals.TOP, ObjectFields.InIdent(name), [], false);
    var waiting := named.(key := ObjectFields.RhsGap(name));
    IdentifierChars(name);
    BlankRuns(ObjectFields.NoKey, blank);
    ObjectLiterals.RunName(name, []);
    ObjectLiterals.RunAppend(s, blank, name);
    ObjectLiterals.RunAppend(s, blank + name, blank);
    ObjectLiterals.RunAppend(s, blank + name + blank, ":");
    ObjectLiterals.RunAppend(s, blank + name + blank + ":", blank);
    BehindName(name, ':');
    ObjectLiterals.RunChar(named, ':');
    ObjectLiterals.RunChar(ObjectFields.Scan(ObjectLiterals.TOP, ObjectFields.AfterIdent(name), [], false), ':');
    BlankBehindName(name, blank);
    BlankRuns(ObjectFields.RhsGap(name), blank);
  }

  lemma IdentifierChars(name: string)
    requires Identifier(name)
    ensures Splitter.IsIdentStart(name[0]) && forall i :: 0 <= i < |name| ==> Splitter.IsIdentPart(name[i])
  {
  }

  lemma BlankBehindName(name: string, blank: string)
    requires Blank(blank)
    ensures ObjectFields.Run(ObjectFields.Scan(ObjectLiterals.TOP, ObjectFields.InIdent(name), [], false), blank)
         == ObjectFields.Scan(ObjectLiterals.TOP, if blank == "" then ObjectFields.InIdent(name) else ObjectFields.AfterIdent(name),
                              [], false)
  {
    hide ObjectFields.Step;
    if blank != "" {
      var named := ObjectFields.Scan(ObjectLiterals.TOP, ObjectFields.InIdent(name), [], false);
      BehindName(name, blank[0]);
      ObjectLiterals.RunChar(named, blank[0]);
      ObjectLiterals.RunAppend(named, [blank[0]], blank[1..]);
      assert blank == [blank[0]] + blank[1..] && Blank([blank[0]]);
      BlankRuns(ObjectFields.AfterIdent(name), blank[1..]);
    }
  }

  /** A literal with one field is read back with any white space around its name and colon, and in front of it. */
  lemma SpacedFieldReadsBack(name: string, rhs: string, blank: string, rest: string)
    requires Identifier(name) && Blank(blank) && ObjectLiterals.GoodRhs(rhs)
    ensures ObjectFields.Extracted(blank + "{" + (blank + name + blank + ":" + blank) + rhs + "}" + rest) == [Field(name, rhs)]
  {
    hide ObjectFields.Run, ObjectFields.Step, ObjectFields.Extracted, ObjectLiterals.LexAfter, ObjectLiterals.Unended, Identifier;
    var head := blank + name + blank + ":" + blank;
    var inner := head + rhs + "}";
    var text := blank + "{" + head + rhs + "}" + rest;
    var s := ObjectFields.START;
    LabelRuns(name, blank);
    ObjectLiterals.RunNamed(rhs, name, []);
    ObjectLiterals.RunAppend(s, head, rhs);
    ObjectLiterals.RunAppend(s, head + rhs, "}");
    ObjectLiterals.RunAppend(s, inner, rest);
    var last := ObjectFields.Run(s, head + rhs);
    ObjectLiterals.RunChar(last, '}');
    EndsField(last, name, rhs);
    ObjectLiterals.RunDone(ObjectFields.Run(s, inner), rest);
    assert text[|blank|] == '{' && text[|blank| + 1..] == inner + rest;
    assert forall n :: 0 <= n < |blank| ==> text[n] == blank[n];
    GapsSkipped(text, 0, |blank|);
    ExtractedAt(text, |blank|);
  }

  lemma ExtractedAt(text: string, i: nat)
    requires i < |text| && ObjectFields.SkipGap(text, 0) == i && text[i] == '{'
    ensures ObjectFields.Extracted(text) == ObjectFields.Run(ObjectFields.START, text[i + 1..]).fields
  {
    hide ObjectFields.Run, ObjectFields.SkipGap;
  }

  lemma EndsField(s: ObjectFields.Scan, name: string, rhs: string)
    requires s.key == ObjectFields.Rhs(name, rhs) && s.fields == [] && !s.done && Trimmed(rhs)
    requires s.lex == ObjectLiterals.TOP || s.lex == ObjectLiterals.TOP.(mode := Slash)
    ensures ObjectFields.Step(s, '}').fields == [Field(name, rhs)] && ObjectFields.Step(s, '}').done
  {
    ObjectLiterals.TrimmedStays(rhs);
    assert [] + [Field(name, rhs)] == [Field(name, rhs)];
  }

  /** A list of strings in any of the quotes, with any white space, is read as these strings. */
  lemma SpacedStringsReadBack(a: string, q: char, b: string, r: char, blank: string, rest: string)
    requires StringQuote(q) && StringQuote(r) && PlainIn(q, a) && PlainIn(r, b) && Blank(blank)
    ensures EnumValues.Values("[" + (blank + ([q] + a + [q]) + blank + "," + (blank + ([r] + b + [r]) + blank)) + "]" + rest)
         == Some([a, b])
  {
    hide EnumValues.Values, PrintString;
    var items := [EnumLists.Item(blank, EnumLists.Text(q, Literals(a)), blank),
                  EnumLists.Item(blank, EnumLists.Text(r, Literals(b)), blank)];
    PrintLiterals(a);
    PrintLiterals(b);
    assert EnumLists.GoodItem(items[0]) && EnumLists.GoodItem(items[1]);
    EnumLists.ListReadsBack(items, rest);
    var x, y := items[0], items[1];
    assert items[..1] == [x] && [x][..0] == [];
    assert EnumLists.Body([x]) == EnumLists.PrintItem(x) by { assert "" + "" + EnumLists.PrintItem(x) == EnumLists.PrintItem(x); }
    assert EnumLists.Unescaped(Literals(a)) == a && EnumLists.Unescaped(Literals(b)) == b;
    assert EnumLists.ValuesOf([x]) == [a] by { assert [] + [a] == [a]; }
    assert EnumLists.ValuesOf(items) == [a] + [b] == [a, b];
    assert !EnumLists.HasOther(items);
    assert EnumLists.Body(items) == EnumLists.PrintItem(x) + "," + EnumLists.PrintItem(y);
  }

  // ---------- comments between members and fields ----------

  /** A comment to the end of its line, or up to its first star and slash. */
  ghost predicate Comment(s: string) {
    || (exists text :: s == "//" + text + "\n" && forall i :: 0 <= i < |text| ==> text[i] != '\n')
    || (exists text :: s == "/*" + text + "*/" && forall i :: 0 < i < |text| ==> text[i - 1] != '*' || text[i] != '/')
  }

  /** From its second character to its last it is read as a comment, and behind it as code again. */
  lemma CommentModes(s: string, k: nat)
    requires Comment(s) && k <= |s|
    ensures |s| >= 3 && s[0] == '/' && ModeAfter(Code, s) == Code
    ensures 0 < k < |s| ==> var m := ModeAfter(Code, s[..k]);
      (k == 1 ==> m == Slash && (s[1] == '/' || s[1] == '*')) && (k > 1 ==> m == Line || m == Block || m == Star)
  {
    hide ModeAfter;
    if exists text :: s == "//" + text + "\n" && forall i :: 0 <= i < |text| ==> text[i] != '\n' {
      var text :| s == "//" + text + "\n" && forall i :: 0 <= i < |text| ==> text[i] != '\n';
      LineModes(text, k);
    } else {
      var text :| s == "/*" + text + "*/" && forall i :: 0 < i < |text| ==> text[i - 1] != '*' || text[i] != '/';
      BlockModes(text, k);
    }
  }

  lemma LineModes(text: string, k: nat)
    requires (forall i :: 0 <= i < |text| ==> text[i] != '\n') && k <= |text| + 3
    ensures var s := "//" + text + "\n";
      ModeAfter(Code, s) == Code && (k == 1 ==> ModeAfter(Code, s[..k]) == Slash) && (1 < k < |s| ==> ModeAfter(Code, s[..k]) == Line)
  {
    hide ModeAfter, Silent;
    var s := "//" + text + "\n";
    LineSilent(text);
    OpensComment('/');
    SilentChar(Code, '/');
    if k == 1 { assert s[..1] == "/"; }
    if 1 < k < |s| {
      assert s[..k] == "//" + text[..k - 2];
      InLine(text[..k - 2]);
      Append(Code, "//", text[..k - 2]);
    }
  }

  lemma BlockModes(text: string, k: nat)
    requires (forall i :: 0 < i < |text| ==> text[i - 1] != '*' || text[i] != '/') && k <= |text| + 4
    ensures var s := "/*" + text + "*/";
      ModeAfter(Code, s) == Code && (k == 1 ==> ModeAfter(Code, s[..k]) == Slash)
      && (1 < k < |s| ==> ModeAfter(Code, s[..k]) == Block || ModeAfter(Code, s[..k]) == Star)
  {
    hide ModeAfter, Silent;
    var s := "/*" + text + "*/";
    BlockSilent(text);
    OpensComment('*');
    SilentChar(Code, '/');
    if k == 1 { assert s[..1] == "/"; }
    if 1 < k < |s| {
      var body := (text + "*")[..k - 2];
      assert s[..k] == "/*" + body;
      assert forall i :: 0 < i < |body| ==> body[i - 1] != '*' || body[i] != '/';
      InBlock(body);
      Append(Code, "/*", body);
    }
  }

  /** Between two members of an enum a comment changes nothing. */
  lemma {:induction false} CommentRuns(s: string, k: nat, values: seq<string>)
    requires Comment(s) && k <= |s|
    ensures EnumValues.Run(EnumLists.Between(values), s[..k])
         == EnumLists.Between(values).(place := EnumValues.Skim(ModeAfter(Code, s[..k])))
  {
    hide EnumValues.Step, Comment, ModeAfter, Next;
    if k == 0 {
      assert s[..0] == "" && ModeAfter(Code, "") == Code by { SilentEmpty(Code); }
    } else {
      CommentRuns(s, k - 1, values);
      CommentModes(s, k - 1);
      assert s[..k][..k - 1] == s[..k - 1] && s[..k] == s[..k - 1] + [s[k - 1]];
      Append(Code, s[..k - 1], [s[k - 1]]);
      OneMode(ModeAfter(Code, s[..k - 1]), s[k - 1]);
      if k == 1 { NothingYet(s); }
      CommentStep(ModeAfter(Code, s[..k - 1]), s[k - 1], k, values);
    }
  }

  lemma NothingYet(s: string)
    requires s != ""
    ensures ModeAfter(Code, s[..0]) == Code
  {
    assert s[..0] == "";
  }

  lemma OneMode(m: Mode, c: char)
    ensures ModeAfter(m, [c]) == Next(m, c)
  {
    assert [c][..0] == "";
  }

  lemma CommentStep(m: Mode, c: char, k: nat, values: seq<string>)
    requires k == 1 ==> m == Code && c == '/'
    requires k == 2 ==> m == Slash && (c == '/' || c == '*')
    requires k > 2 ==> m == Line || m == Block || m == Star
    requires k > 0
    ensures EnumValues.Step(EnumLists.Between(values).(place := EnumValues.Skim(m)), c)
         == EnumLists.Between(values).(place := EnumValues.Skim(Next(m, c)))
  {
  }

  /** A list whose only string has a comment in front of it is read as that string. */
  lemma CommentedStringReadsBack(comment: string, a: string, q: char, rest: string)
    requires Comment(comment) && StringQuote(q) && PlainIn(q, a)
    ensures EnumValues.Values("[" + comment + ([q] + a + [q]) + "]" + rest) == Some([a])
  {
    hide EnumValues.Run, EnumValues.Step, EnumValues.Result, PrintString, Comment, StringQuote, EnumLists.Between, PlainIn;
    var s, w := EnumLists.Between([]), [q] + a + [q];
    var inner := comment + (w + "]");
    StartIsBetween();
    CommentRuns(comment, |comment|, []);
    CommentModes(comment, 0);
    assert comment[..|comment|] == comment && EnumValues.Run(s, comment) == s;
    PlainMember(a, q);
    EnumLists.RunText(q, Literals(a), "", ']', []);
    EnumLists.RunAppend(s, comment, w + "]");
    EnumLists.RunAppend(s, inner, rest);
    EnumLists.DoneStays(EnumValues.Run(s, inner), rest);
    RegroupList(comment, w, rest);
  }

  lemma StartIsBetween()
    ensures EnumLists.Between([]) == EnumValues.START && EnumValues.START.place == EnumValues.Skim(Code)
  {
  }

  lemma PlainMember(a: string, q: char)
    requires StringQuote(q) && PlainIn(q, a)
    ensures EnumLists.GoodMember(EnumLists.Text(q, Literals(a)))
    ensures EnumLists.PrintMember(EnumLists.Text(q, Literals(a))) + "" + [']'] == [q] + a + [q] + "]"
    ensures [] + [EnumLists.Unescaped(Literals(a))] == [a]
  {
    PrintLiterals(a);
    assert EnumLists.Unescaped(Literals(a)) == a;
  }

  lemma RegroupList(comment: string, w: string, rest: string)
    ensures var text := "[" + comment + w + "]" + rest;
      text[0] == '[' && text[1..] == comment + (w + "]") + rest
  {
  }

  /** In front of a field a comment changes nothing either. */
  lemma {:induction false} CommentRunsBeforeField(s: string, k: nat)
    requires Comment(s) && k <= |s|
    ensures ObjectFields.Run(ObjectFields.START, s[..k])
         == ObjectFields.START.(lex := ObjectLiterals.TOP.(mode := ModeAfter(Code, s[..k])))
  {
    hide ObjectFields.Step, Comment, ModeAfter, Next;
    if k == 0 {
      assert s[..0] == "" && ModeAfter(Code, "") == Code by { SilentEmpty(Code); }
    } else {
      CommentRunsBeforeField(s, k - 1);
      CommentModes(s, k - 1);
      assert s[..k][..k - 1] == s[..k - 1] && s[..k] == s[..k - 1] + [s[k - 1]];
      Append(Code, s[..k - 1], [s[k - 1]]);
      OneMode(ModeAfter(Code, s[..k - 1]), s[k - 1]);
      if k == 1 { NothingYet(s); }
      FieldCommentStep(ModeAfter(Code, s[..k - 1]), s[k - 1], k);
    }
  }

  lemma FieldCommentStep(m: Mode, c: char, k: nat)
    requires k == 1 ==> m == Code && c == '/'
    requires k == 2 ==> m == Slash && (c == '/' || c == '*')
    requires k > 2 ==> m == Line || m == Block || m == Star
    requires k > 0
    ensures ObjectFields.Step(ObjectFields.START.(lex := ObjectLiterals.TOP.(mode := m)), c)
         == ObjectFields.START.(lex := ObjectLiterals.TOP.(mode := Next(m, c)))
  {
    hide ObjectFields.Step, ObjectFields.NextLex, ObjectFields.Ends, ObjectFields.NextKey, ObjectFields.AtTop, Next;
    FieldCommentLex(m, c, k);
    ObjectFields.StepWithin(ObjectFields.START.(lex := ObjectLiterals.TOP.(mode := m)), c);
  }

  lemma FieldCommentLex(m: Mode, c: char, k: nat)
    requires k == 1 ==> m == Code && c == '/'
    requires k == 2 ==> m == Slash && (c == '/' || c == '*')
    requires k > 2 ==> m == Line || m == Block || m == Star
    requires k > 0
    ensures var l := ObjectLiterals.TOP.(mode := m);
      && ObjectFields.NextLex(l, c) == ObjectLiterals.TOP.(mode := Next(m, c))
      && !ObjectFields.Ends(l, c) && ObjectFields.NextKey(ObjectFields.NoKey, c, ObjectFields.AtTop(l, c)) == ObjectFields.NoKey
  {
    hide ObjectFields.NextLex, ObjectFields.Ends, ObjectFields.NextKey, ObjectFields.AtTop, Next, IsCode;
    assert k > 1 ==> !IsCode(m, c) by { NoCodeInComment(m, c); }
    if k > 1 {
      HiddenChar(ObjectLiterals.TOP.(mode := m), c);
      NoNameBegins(c, false);
    } else {
      SlashChar(ObjectLiterals.TOP);
      assert ObjectLiterals.TOP.(mode := m) == ObjectLiterals.TOP;
      NoNameBegins('/', ObjectFields.AtTop(ObjectLiterals.TOP, '/'));
    }
  }

  lemma NoCodeInComment(m: Mode, c: char)
    ensures m == Slash && (c == '/' || c == '*') ==> !IsCode(m, c)
    ensures m == Line || m == Block || m == Star ==> !IsCode(m, c)
  {
  }

  lemma HiddenChar(l: ObjectFields.Lex, c: char)
    requires !IsCode(l.mode, c)
    ensures ObjectFields.NextLex(l, c) == l.(mode := Next(l.mode, c)) && !ObjectFields.Ends(l, c) && !ObjectFields.AtTop(l, c)
  {
    hide IsCode, Next;
  }

  lemma SlashChar(l: ObjectFields.Lex)
    requires l.mode == Code
    ensures ObjectFields.NextLex(l, '/') == l.(mode := Next(Code, '/')) && !ObjectFields.Ends(l, '/')
  {
    hide Next;
  }

  lemma NoNameBegins(c: char, top: bool)
    requires c == '/' || !top
    ensures ObjectFields.NextKey(ObjectFields.NoKey, c, top) == ObjectFields.NoKey
  {
  }

  /** A literal with one field is read back with a comment in front of the field. */
  lemma CommentedFieldReadsBack(comment: string, name: string, rhs: string, rest: string)
    requires Comment(comment) && Identifier(name) && ObjectLiterals.GoodRhs(rhs)
    ensures ObjectFields.Extracted("{" + comment + (name + ":" + rhs) + "}" + rest) == [Field(name, rhs)]
  {
    hide ObjectFields.Run, ObjectFields.Step, ObjectFields.Extracted, Comment;
    var s, body := ObjectFields.START, name + ":" + rhs;
    var inner := comment + (body + "}");
    CommentRunsBeforeField(comment, |comment|);
    CommentModes(comment, 0);
    assert comment[..|comment|] == comment && ObjectFields.Run(s, comment) == s;
    IdentifierIsGoodName(name);
    var part := ObjectLiterals.RunField(Field(name, rhs), Splitter.Bare, '}', []);
    assert Splitter.PrintField(Field(name, rhs), Splitter.Bare) == body;
    ObjectLiterals.RunAppend(s, comment, body + "}");
    ObjectLiterals.RunAppend(s, inner, rest);
    ObjectLiterals.RunDone(ObjectFields.Run(s, inner), rest);
    var text := "{" + comment + body + "}" + rest;
    assert text[0] == '{' && text[1..] == inner + rest;
    GapsSkipped(text, 0, 0);
    ExtractedAt(text, 0);
    assert [] + part == part;
  }
}
