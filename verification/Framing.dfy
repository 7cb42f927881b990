/** Cutting a stream of text chunks into JSON lines (packages/protocol/src/process/framing.ts). */
module Framing {
  import opened Prelude

  // ---------- what a stream means ----------

  /** The text cut at every newline; the last piece is the unterminated one. */
  function Pieces(s: string): (r: seq<string>)
    ensures r != []
  {
    if s == "" then [""] else Extend(Pieces(s[..|s| - 1]), s[|s| - 1])
  }

  /** One more character: a newline starts a new piece. */
  function Extend(p: seq<string>, c: char): (r: seq<string>)
    requires p != []
    ensures r != []
  {
    if c == '\n' then p + [""] else p[..|p| - 1] + [p[|p| - 1] + [c]]
  }

  lemma ExtendBehind(front: seq<string>, p: seq<string>, c: char)
    requires p != []
    ensures Extend(front + p, c) == front + Extend(p, c)
  {
    if c != '\n' { assert (front + p)[..|front + p| - 1] == front + p[..|p| - 1]; }
  }

  /** The text behind the last newline. */
  function Rest(s: string): string {
    var p := Pieces(s);
    p[|p| - 1]
  }

  predicate NonEmpty(line: string) { line != "" }

  /** The non-empty lines that a newline ends. */
  function Lines(s: string): seq<string> {
    var p := Pieces(s);
    Filter(p[..|p| - 1], NonEmpty)
  }

  predicate NewlineFree(s: string) {
    forall i :: 0 <= i < |s| ==> s[i] != '\n'
  }

  lemma OneMore(s: string, c: char)
    ensures Pieces(s + [c]) == Extend(Pieces(s), c)
  {
    assert (s + [c])[..|s|] == s;
  }

  lemma {:induction false} PiecesAppend(a: string, b: string)
    ensures Pieces(a + b) == Pieces(a)[..|Pieces(a)| - 1] + Pieces(Rest(a) + b)
    decreases |b|
  {
    hide Pieces, Extend;
    var front, rest := Pieces(a)[..|Pieces(a)| - 1], Rest(a);
    if b == "" {
      RestIsWhole(a);
      assert a + b == a && rest + b == rest && Pieces(a) == front + [rest];
    } else {
      var b', c := b[..|b| - 1], b[|b| - 1];
      PiecesAppend(a, b');
      OneMore(a + b', c);
      OneMore(rest + b', c);
      assert (a + b') + [c] == a + b && (rest + b') + [c] == rest + b;
      ExtendBehind(front, Pieces(rest + b'), c);
    }
  }

  /** Cutting loses nothing, and leaves no newline in a piece. */
  lemma {:induction false} PiecesAreLossless(s: string)
    ensures Glue(Pieces(s)) == s && forall p :: p in Pieces(s) ==> NewlineFree(p)
  {
    if s != "" {
      PiecesAreLossless(s[..|s| - 1]);
      GlueExtend(Pieces(s[..|s| - 1]), s[|s| - 1]);
      assert s == s[..|s| - 1] + [s[|s| - 1]];
    }
  }

  lemma GlueExtend(p: seq<string>, c: char)
    requires p != [] && forall x :: x in p ==> NewlineFree(x)
    ensures Glue(Extend(p, c)) == Glue(p) + [c] && forall x :: x in Extend(p, c) ==> NewlineFree(x)
  {
    var n := |p| - 1;
    if c == '\n' {
      assert (p + [""])[..n + 1] == p;
    } else {
      assert p[n] in p && NewlineFree(p[n] + [c]);
      assert Extend(p, c)[..n] == p[..n];
    }
  }

  /** The pieces with newlines between them. */
  function Glue(pieces: seq<string>): string {
    if pieces == [] then ""
    else if |pieces| == 1 then pieces[0]
    else Glue(pieces[..|pieces| - 1]) + "\n" + pieces[|pieces| - 1]
  }

  lemma {:induction false} NoNewlineNoCut(s: string)
    requires NewlineFree(s)
    ensures Pieces(s) == [s]
  {
    if s != "" {
      var front, c := s[..|s| - 1], s[|s| - 1];
      NoNewlineNoCut(front);
      assert Pieces(s) == Extend([front], c) && [front][..0] == [] && front + [c] == s;
    }
  }

  lemma RestIsWhole(s: string)
    ensures NewlineFree(Rest(s)) && Pieces(Rest(s)) == [Rest(s)]
  {
    PiecesAreLossless(s);
    assert Rest(s) in Pieces(s);
    NoNewlineNoCut(Rest(s));
  }

  lemma FirstPiece(line: string, tail: string)
    requires NewlineFree(line)
    ensures Pieces(line + "\n" + tail) == [line] + Pieces(tail)
  {
    NoNewlineNoCut(line);
    assert (line + "\n")[..|line|] == line;
    assert Pieces(line + "\n") == [line, ""];
    PiecesAppend(line + "\n", tail);
    assert "" + tail == tail && [line, ""][..1] == [line];
  }

  /** Taking the first line off the buffer. */
  lemma FirstLine(line: string, tail: string)
    requires NewlineFree(line)
    ensures Lines(line + "\n" + tail) == (if line != "" then [line] else []) + Lines(tail)
    ensures Rest(line + "\n" + tail) == Rest(tail)
  {
    FirstPiece(line, tail);
    var p := Pieces(tail);
    assert ([line] + p)[..|p|] == [line] + p[..|p| - 1];
    FilterAppend([line], p[..|p| - 1], NonEmpty);
    assert Filter([line], NonEmpty) == if line != "" then [line] else [] by { assert [line][1..] == []; }
  }

  // ---------- the parser ----------

  class LineParser {
    var buf: string

    constructor ()
      ensures buf == ""
    {
      buf := "";
    }

    /** Every line the chunk completes, as the fully drained generator yields them. */
    method Push(chunk: string) returns (lines: seq<string>)
      modifies this
      ensures lines == Lines(old(buf) + chunk) && buf == Rest(old(buf) + chunk)
    {
      hide Lines, Rest;
      buf := buf + chunk;
      ghost var whole := buf;
      lines := [];
      var nl := FindIndex(buf, (c: char) => c == '\n');
      while nl >= 0
        invariant nl == FindIndex(buf, (c: char) => c == '\n')
        invariant Lines(whole) == lines + Lines(buf) && Rest(whole) == Rest(buf)
        decreases |buf|
      {
        var line := buf[..nl];
        assert buf == line + "\n" + buf[nl + 1..];
        FirstLine(line, buf[nl + 1..]);
        buf := buf[nl + 1..];
        if |line| > 0 {
          lines := lines + [line];
        }
        nl := FindIndex(buf, (c: char) => c == '\n');
      }
      Unterminated(buf);
    }

    /** The partial trailing line. */
    method Flush() returns (out: Option<string>)
      modifies this
      ensures out == (if old(buf) == "" then None else Some(old(buf))) && buf == ""
    {
      if |buf| == 0 {
        return None;
      }
      out := Some(buf);
      buf := "";
    }
  }

  lemma Unterminated(s: string)
    requires NewlineFree(s)
    ensures Lines(s) == [] && Rest(s) == s
  {
    NoNewlineNoCut(s);
  }

  // ---------- whole streams ----------

  datatype Parsed = Parsed(lines: seq<string>, buf: string)

  /** One chunk pushed into a parser. */
  function Feed(p: Parsed, chunk: string): Parsed {
    Parsed(p.lines + Lines(p.buf + chunk), Rest(p.buf + chunk))
  }

  function FeedAll(chunks: seq<string>): Parsed {
    if chunks == [] then Parsed([], "") else Feed(FeedAll(chunks[..|chunks| - 1]), chunks[|chunks| - 1])
  }

  method ParseAll(chunks: seq<string>) returns (lines: seq<string>, rest: Option<string>)
    ensures lines == Lines(Concat(chunks))
    ensures rest == if Rest(Concat(chunks)) == "" then None else Some(Rest(Concat(chunks)))
  {
    hide Lines, Rest;
    var lp := new LineParser();
    lines := [];
    for i := 0 to |chunks|
      invariant Parsed(lines, lp.buf) == FeedAll(chunks[..i])
    {
      assert chunks[..i + 1][..i] == chunks[..i];
      var more := lp.Push(chunks[i]);
      lines := lines + more;
    }
    assert chunks[..|chunks|] == chunks;
    ChunkingIsIrrelevant(chunks);
    rest := lp.Flush();
  }

  lemma StreamGrows(s: string, chunk: string)
    ensures Lines(s + chunk) == Lines(s) + Lines(Rest(s) + chunk)
    ensures Rest(s + chunk) == Rest(Rest(s) + chunk)
  {
    PiecesAppend(s, chunk);
    var front, p := Pieces(s)[..|Pieces(s)| - 1], Pieces(Rest(s) + chunk);
    assert (front + p)[..|front + p| - 1] == front + p[..|p| - 1];
    FilterAppend(front, p[..|p| - 1], NonEmpty);
  }

  /** However the stream is divided into chunks, the lines and the remainder are those of the whole stream. */
  lemma {:induction false} ChunkingIsIrrelevant(chunks: seq<string>)
    ensures FeedAll(chunks) == Parsed(Lines(Concat(chunks)), Rest(Concat(chunks)))
  {
    hide Lines, Rest;
    if chunks == [] {
      Unterminated("");
    } else {
      var before, last := chunks[..|chunks| - 1], chunks[|chunks| - 1];
      ChunkingIsIrrelevant(before);
      ConcatAppend(before, [last]);
      assert chunks == before + [last] && Concat([last]) == last + Concat([]) && last + [] == last;
      StreamGrows(Concat(before), last);
    }
  }

  /** Lines that newlines end, and a rest: the lines that are not empty, in order, and that rest. */
  lemma {:induction false} LinesComeBack(lines: seq<string>, rest: string)
    requires NewlineFree(rest) && forall l :: l in lines ==> NewlineFree(l)
    ensures var text := Concat(Map(lines, (l: string) => l + "\n")) + rest;
      Lines(text) == Filter(lines, (l: string) => l != "") && Rest(text) == rest
  {
    hide Lines, Rest, NewlineFree;
    var ended := (l: string) => l + "\n";
    if lines == [] {
      assert "" + rest == rest;
      Unterminated(rest);
    } else {
      var tail := Concat(Map(lines[1..], ended)) + rest;
      LinesComeBack(lines[1..], rest);
      assert Map(lines, ended)[1..] == Map(lines[1..], ended);
      assert Concat(Map(lines, ended)) + rest == lines[0] + "\n" + tail;
      FirstLine(lines[0], tail);
    }
  }

  // ---------- frames ----------

  function FrameToLine<T>(frame: T, stringify: T -> string): string {
    stringify(frame) + "\n"
  }

  function ParseLine<T>(line: string, parse: string -> Option<T>): Option<T> {
    parse(line)
  }

  /** JSON.stringify writes no newline and never nothing, and JSON.parse inverts it. */
  ghost predicate IsCodec<T(!new)>(stringify: T -> string, parse: string -> Option<T>) {
    forall f :: NewlineFree(stringify(f)) && stringify(f) != "" && parse(stringify(f)) == Some(f)
  }

  lemma {:induction false} FramesBecomeLines<T(!new)>(frames: seq<T>, stringify: T -> string, parse: string -> Option<T>)
    requires IsCodec(stringify, parse)
    ensures var text := Concat(Map(frames, f => FrameToLine(f, stringify)));
      Lines(text) == Map(frames, stringify) && Rest(text) == ""
  {
    hide Lines, Rest;
    var toLine := f => FrameToLine(f, stringify);
    if frames == [] {
      Unterminated("");
    } else {
      FramesBecomeLines(frames[1..], stringify, parse);
      assert Map(frames, toLine)[1..] == Map(frames[1..], toLine);
      FirstLine(stringify(frames[0]), Concat(Map(frames[1..], toLine)));
      assert Map(frames, stringify) == [stringify(frames[0])] + Map(frames[1..], stringify);
    }
  }

  /** Frames written as lines and sent in any chunks are parsed back one by one, and nothing is left over. */
  lemma FramesRoundTrip<T(!new)>(frames: seq<T>, chunks: seq<string>, stringify: T -> string, parse: string -> Option<T>)
    requires IsCodec(stringify, parse) && Concat(chunks) == Concat(Map(frames, f => FrameToLine(f, stringify)))
    ensures var r := FeedAll(chunks);
      Map(r.lines, line => ParseLine(line, parse)) == Map(frames, f => Some(f)) && r.buf == ""
  {
    ChunkingIsIrrelevant(chunks);
    FramesBecomeLines(frames, stringify, parse);
  }
}
