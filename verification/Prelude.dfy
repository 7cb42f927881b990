/** Shared vocabulary: optional values and the array and string built-ins the sources rely on. */
module Prelude {

  datatype Option<+T> = None | Some(value: T)

  /** JavaScript's `a ?? b` on optional values. */
  function OrElse<T>(a: Option<T>, b: Option<T>): Option<T> {
    if a.Some? then a else b
  }

  /** JavaScript's `a ?? b` with a definite default. */
  function ValueOr<T>(a: Option<T>, b: T): T {
    if a.Some? then a.value else b
  }

  /** Array.findIndex. */
  function FindIndex<T>(s: seq<T>, p: T -> bool): (i: int)
    ensures -1 <= i < |s|
    ensures i >= 0 ==> p(s[i])
    ensures forall j :: 0 <= j < (if i >= 0 then i else |s|) ==> !p(s[j])
  {
    if s == [] then -1
    else if p(s[0]) then 0
    else
      var i := FindIndex(s[1..], p);
      assert forall j :: 1 <= j < |s| ==> s[j] == s[1..][j - 1];
      if i == -1 then -1 else i + 1
  }

  /** Array.filter. */
  function Filter<T(!new)>(s: seq<T>, p: T -> bool): (r: seq<T>)
    ensures forall x :: x in r <==> x in s && p(x)
    ensures |r| <= |s|
  {
    if s == [] then []
    else if p(s[0]) then [s[0]] + Filter(s[1..], p)
    else Filter(s[1..], p)
  }

  lemma {:induction false} FilterAppend<T(!new)>(a: seq<T>, b: seq<T>, p: T -> bool)
    ensures Filter(a + b, p) == Filter(a, p) + Filter(b, p)
  {
    if a == [] {
      assert a + b == b;
    } else {
      assert (a + b)[0] == a[0] && (a + b)[1..] == a[1..] + b;
      FilterAppend(a[1..], b, p);
    }
  }

  lemma {:induction false} FilterAll<T(!new)>(s: seq<T>, p: T -> bool)
    requires forall x :: x in s ==> p(x)
    ensures Filter(s, p) == s
  {
    if s != [] {
      FilterAll(s[1..], p);
      assert s == [s[0]] + s[1..];
    }
  }

  /** Array.map. */
  function Map<T, U>(s: seq<T>, f: T -> U): (r: seq<U>)
    ensures |r| == |s| && forall i :: 0 <= i < |s| ==> r[i] == f(s[i])
  {
    seq(|s|, i requires 0 <= i < |s| => f(s[i]))
  }

  /** Array.join. */
  function Join(parts: seq<string>, sep: string): string {
    if parts == [] then ""
    else if |parts| == 1 then parts[0]
    else parts[0] + sep + Join(parts[1..], sep)
  }

  /** All pieces one after the other. */
  function Concat<T>(parts: seq<seq<T>>): seq<T> {
    if parts == [] then [] else parts[0] + Concat(parts[1..])
  }

  lemma {:induction false} ConcatAppend<T>(a: seq<seq<T>>, b: seq<seq<T>>)
    ensures Concat(a + b) == Concat(a) + Concat(b)
  {
    if a == [] {
      assert a + b == b;
    } else {
      assert (a + b)[1..] == a[1..] + b;
      ConcatAppend(a[1..], b);
    }
  }

  /** A field of an object schema: its name, and the source text of its type. */
  datatype Field = Field(name: string, rhs: string)

  // ---------- trimming ----------

  /** The white space and line terminators that String.prototype.trim removes. */
  predicate IsSpace(c: char) {
    '\t' <= c <= '\r' || c == ' ' || c == '\U{a0}' || c == '\U{1680}' || '\U{2000}' <= c <= '\U{200a}'
    || c == '\U{2028}' || c == '\U{2029}' || c == '\U{202f}' || c == '\U{205f}' || c == '\U{3000}' || c == '\U{feff}'
  }

  function TrimStart(s: string): string {
    if s != [] && IsSpace(s[0]) then TrimStart(s[1..]) else s
  }

  function TrimEnd(s: string): string {
    if s != [] && IsSpace(s[|s| - 1]) then TrimEnd(s[..|s| - 1]) else s
  }

  function Trim(s: string): string {
    TrimStart(TrimEnd(s))
  }

  predicate AllSpace(s: string) {
    forall c :: c in s ==> IsSpace(c)
  }

  /** Has no white space at either end, and is not empty. */
  predicate Trimmed(s: string) {
    s != [] && !IsSpace(s[0]) && !IsSpace(s[|s| - 1])
  }

  lemma {:induction false} TrimStartAppend(a: string, b: string)
    ensures TrimStart(a + b) == if AllSpace(a) then TrimStart(b) else TrimStart(a) + b
    ensures AllSpace(a) <==> TrimStart(a) == []
  {
    if a == [] {
      assert a + b == b;
    } else {
      assert a == [a[0]] + a[1..] && (a + b)[1..] == a[1..] + b;
      if IsSpace(a[0]) {
        TrimStartAppend(a[1..], b);
        assert AllSpace(a) <==> AllSpace(a[1..]);
      } else {
        assert a[0] in a && (a + b)[0] == a[0];
      }
    }
  }

  lemma {:induction false} TrimEndAppend(a: string, b: string)
    ensures TrimEnd(a + b) == if AllSpace(b) then TrimEnd(a) else a + TrimEnd(b)
    ensures AllSpace(b) <==> TrimEnd(b) == []
  {
    if b == [] {
      assert a + b == a;
    } else {
      var k := |b| - 1;
      assert b == b[..k] + [b[k]] && (a + b)[..|a + b| - 1] == a + b[..k];
      if IsSpace(b[k]) {
        TrimEndAppend(a, b[..k]);
        assert AllSpace(b) <==> AllSpace(b[..k]);
      } else {
        assert b[k] in b && (a + b)[|a + b| - 1] == b[k];
      }
    }
  }

  /** Space on either side of a trimmed string is what trimming removes. */
  lemma TrimPadded(a: string, s: string, b: string)
    requires AllSpace(a) && AllSpace(b) && (s == [] || Trimmed(s))
    ensures Trim(a + s + b) == s
  {
    TrimEndAppend(a + s, b);
    TrimEndAppend(a, s);
    TrimEndAppend([], a);
    assert [] + a == a;
    TrimStartAppend(a, s);
    if s != [] { assert s[|s| - 1] in s && s[0] in s; }
  }

  lemma TrimLeadingSpace(a: string, s: string)
    requires AllSpace(a)
    ensures Trim(a + s) == Trim(s)
  {
    TrimEndAppend(a, s);
    TrimStartAppend(a, TrimEnd(s));
    TrimEndAppend([], a);
    TrimEndAppend([], s);
    assert [] + a == a && [] + s == s;
  }

  lemma TrimAround(a: string, m: string, b: string)
    requires Trimmed(m)
    ensures Trim(a + m + b) == TrimStart(a) + m + TrimEnd(b)
  {
    hide IsSpace;
    var m' := m + TrimEnd(b);
    assert TrimEnd(a + m + b) == a + m' by {
      assert m[|m| - 1] in m;
      TrimEndAppend(a + m, b);
      TrimEndAppend(a, m);
    }
    TrimStartAppend(a, m');
  }

  lemma TrimBetween(a: string, b: string)
    ensures |Trim(a + b)| <= |TrimStart(a)| + |TrimEnd(b)|
  {
    TrimEndAppend(a, b);
    if AllSpace(b) {
      TrimShrinks(a);
    } else {
      TrimStartAppend(a, TrimEnd(b));
      TrimStartShrinks(TrimEnd(b));
    }
  }

  /** Cutting a piece that starts and ends with visible characters makes the trimmed text shorter. */
  lemma TrimCutShorter(a: string, m: string, b: string)
    requires Trimmed(m)
    ensures |Trim(a + b)| < |Trim(a + m + b)|
  {
    TrimAround(a, m, b);
    TrimBetween(a, b);
  }

  lemma {:induction false} TrimStartShrinks(s: string)
    ensures |TrimStart(s)| <= |s|
  {
    if s != [] && IsSpace(s[0]) { TrimStartShrinks(s[1..]); }
  }

  lemma {:induction false} TrimShrinks(s: string)
    ensures |TrimStart(TrimEnd(s))| <= |TrimStart(s)|
  {
    if s != [] && IsSpace(s[|s| - 1]) {
      var front := s[..|s| - 1];
      TrimShrinks(front);
      assert s == front + [s[|s| - 1]];
      TrimStartAppend(front, [s[|s| - 1]]);
      if AllSpace(front) { TrimStartAppend(front, []); assert front + [] == front; }
    }
  }
}
