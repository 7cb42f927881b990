/** Stable sorting by a total preorder, and the string order used by the code generator. */
module Ordering {
  import opened Prelude

  /** String comparison, character by character. */
  predicate LexLe(a: string, b: string) {
    |a| == 0 || (|b| != 0 && (a[0] < b[0] || (a[0] == b[0] && LexLe(a[1..], b[1..]))))
  }

  ghost predicate TotalPreorder<T(!new)>(le: (T, T) -> bool) {
    && (forall a, b :: le(a, b) || le(b, a))
    && (forall a, b, c :: le(a, b) && le(b, c) ==> le(a, c))
  }

  ghost predicate Antisymmetric<T(!new)>(le: (T, T) -> bool, s: multiset<T>) {
    forall a, b :: a in s && b in s && le(a, b) && le(b, a) ==> a == b
  }

  ghost predicate Sorted<T>(le: (T, T) -> bool, s: seq<T>) {
    forall i, j :: 0 <= i < j < |s| ==> le(s[i], s[j])
  }

  function Insert<T>(le: (T, T) -> bool, x: T, s: seq<T>): seq<T> {
    if s == [] || le(x, s[0]) then [x] + s else [s[0]] + Insert(le, x, s[1..])
  }

  /** Stable: an element stays in front of the later elements that compare equal to it. */
  function Sort<T>(le: (T, T) -> bool, s: seq<T>): seq<T> {
    if s == [] then [] else Insert(le, s[0], Sort(le, s[1..]))
  }

  lemma {:induction false} LexTotal(a: string, b: string)
    ensures LexLe(a, b) || LexLe(b, a)
    ensures LexLe(a, b) && LexLe(b, a) ==> a == b
  {
    if |a| > 0 && |b| > 0 && a[0] == b[0] {
      LexTotal(a[1..], b[1..]);
      assert a == [a[0]] + a[1..] && b == [b[0]] + b[1..];
    }
  }

  lemma {:induction false} LexTransitive(a: string, b: string, c: string)
    requires LexLe(a, b) && LexLe(b, c)
    ensures LexLe(a, c)
  {
    if |a| > 0 && a[0] == b[0] && b[0] == c[0] {
      LexTransitive(a[1..], b[1..], c[1..]);
    }
  }

  lemma LexIsTotalPreorder(s: multiset<string>)
    ensures TotalPreorder(LexLe)
    ensures Antisymmetric(LexLe, s)
  {
    forall a, b ensures LexLe(a, b) || LexLe(b, a)
                ensures LexLe(a, b) && LexLe(b, a) ==> a == b { LexTotal(a, b); }
    forall a, b, c | LexLe(a, b) && LexLe(b, c) ensures LexLe(a, c) { LexTransitive(a, b, c); }
  }

  lemma {:induction false} InsertPermutes<T(!new)>(le: (T, T) -> bool, x: T, s: seq<T>)
    ensures multiset(Insert(le, x, s)) == multiset{x} + multiset(s)
    ensures forall y :: y in Insert(le, x, s) <==> y == x || y in s
  {
    if s != [] && !le(x, s[0]) {
      assert s == [s[0]] + s[1..];
      InsertPermutes(le, x, s[1..]);
    }
  }

  lemma {:induction false} InsertSorted<T(!new)>(le: (T, T) -> bool, x: T, s: seq<T>)
    requires TotalPreorder(le) && Sorted(le, s)
    ensures Sorted(le, Insert(le, x, s))
  {
    if s == [] {
    } else if le(x, s[0]) {
      forall j | 0 <= j < |s| ensures le(x, s[j]) {
        if j > 0 { assert le(s[0], s[j]); }
      }
    } else {
      assert le(s[0], x);
      InsertSorted(le, x, s[1..]);
      InsertPermutes(le, x, s[1..]);
      var r := Insert(le, x, s[1..]);
      forall j | 0 <= j < |r| ensures le(s[0], r[j]) {
        assert r[j] in r;
      }
    }
  }

  lemma {:induction false} SortSorts<T(!new)>(le: (T, T) -> bool, s: seq<T>)
    requires TotalPreorder(le)
    ensures multiset(Sort(le, s)) == multiset(s)
    ensures Sorted(le, Sort(le, s))
  {
    if s != [] {
      assert s == [s[0]] + s[1..];
      SortSorts(le, s[1..]);
      InsertPermutes(le, s[0], Sort(le, s[1..]));
      InsertSorted(le, s[0], Sort(le, s[1..]));
    }
  }

  lemma {:induction false} SortMembers<T(!new)>(le: (T, T) -> bool, s: seq<T>)
    ensures forall x :: x in Sort(le, s) <==> x in s
  {
    if s != [] {
      SortMembers(le, s[1..]);
      InsertPermutes(le, s[0], Sort(le, s[1..]));
    }
  }

  lemma SortedHead<T(!new)>(le: (T, T) -> bool, a: seq<T>, b: seq<T>)
    requires Sorted(le, a) && Sorted(le, b) && multiset(a) == multiset(b)
    requires Antisymmetric(le, multiset(a)) && a != [] && b != []
    ensures a[0] == b[0]
  {
    assert a[0] in multiset(b) && b[0] in multiset(a);
    var i :| 0 <= i < |a| && a[i] == b[0];
    var j :| 0 <= j < |b| && b[j] == a[0];
  }

  lemma AntisymmetricTail<T(!new)>(le: (T, T) -> bool, a: seq<T>)
    requires Antisymmetric(le, multiset(a)) && a != []
    ensures Antisymmetric(le, multiset(a[1..]))
  {
    forall x | x in multiset(a[1..]) ensures x in multiset(a) { assert x in a[1..]; }
  }

  lemma {:induction false} SortedUnique<T(!new)>(le: (T, T) -> bool, a: seq<T>, b: seq<T>)
    requires Sorted(le, a) && Sorted(le, b) && multiset(a) == multiset(b)
    requires Antisymmetric(le, multiset(a))
    ensures a == b
  {
    assert |a| == |multiset(a)| && |b| == |multiset(b)|;
    if a != [] {
      SortedHead(le, a, b);
      assert a == [a[0]] + a[1..] && b == [b[0]] + b[1..];
      assert multiset(a[1..]) == multiset(b[1..]) by {
        assert multiset(a[1..]) == multiset(a) - multiset{a[0]};
        assert multiset(b[1..]) == multiset(b) - multiset{b[0]};
      }
      AntisymmetricTail(le, a);
      SortedUnique(le, a[1..], b[1..]);
    }
  }

  /** When no two different elements compare equal, sorting forgets the input order. */
  lemma SortForgetsOrder<T(!new)>(le: (T, T) -> bool, a: seq<T>, b: seq<T>)
    requires TotalPreorder(le) && multiset(a) == multiset(b) && Antisymmetric(le, multiset(a))
    ensures Sort(le, a) == Sort(le, b)
  {
    SortSorts(le, a);
    SortSorts(le, b);
    SortedUnique(le, Sort(le, a), Sort(le, b));
  }

  lemma SortStringsForgetsOrder(a: seq<string>, b: seq<string>)
    requires multiset(a) == multiset(b)
    ensures Sort(LexLe, a) == Sort(LexLe, b)
  {
    LexIsTotalPreorder(multiset(a));
    SortForgetsOrder(LexLe, a, b);
  }

  // ---------- stability ----------

  /** y compares equal to k. */
  predicate Ties<T>(le: (T, T) -> bool, k: T, y: T) {
    le(k, y) && le(y, k)
  }

  lemma NotBothTie<T(!new)>(le: (T, T) -> bool, k: T, x: T, y: T)
    requires TotalPreorder(le) && !le(x, y)
    ensures !(Ties(le, k, x) && Ties(le, k, y))
  {
  }

  lemma {:induction false} InsertStable<T(!new)>(le: (T, T) -> bool, k: T, x: T, s: seq<T>)
    requires TotalPreorder(le)
    ensures Filter(Insert(le, x, s), (y: T) => Ties(le, k, y))
         == (if Ties(le, k, x) then [x] else []) + Filter(s, (y: T) => Ties(le, k, y))
  {
    if s == [] || le(x, s[0]) {
      assert ([x] + s)[1..] == s;
    } else {
      InsertStable(le, k, x, s[1..]);
      NotBothTie(le, k, x, s[0]);
      assert ([s[0]] + Insert(le, x, s[1..]))[1..] == Insert(le, x, s[1..]);
    }
  }

  /** Elements that compare equal keep their order. */
  lemma {:induction false} SortStable<T(!new)>(le: (T, T) -> bool, k: T, s: seq<T>)
    requires TotalPreorder(le)
    ensures Filter(Sort(le, s), (y: T) => Ties(le, k, y)) == Filter(s, (y: T) => Ties(le, k, y))
  {
    if s != [] {
      SortStable(le, k, s[1..]);
      InsertStable(le, k, s[0], Sort(le, s[1..]));
    }
  }

  /** A list without its members at two places. */
  function Omitting<T>(s: seq<T>, i: nat, j: nat): seq<T>
    requires i < j < |s|
  {
    s[..i] + (s[i + 1..j] + s[j + 1..])
  }

  lemma PairFirst<T>(s: seq<T>, i: nat, j: nat)
    requires i < j < |s|
    ensures multiset([s[i], s[j]] + Omitting(s, i, j)) == multiset(s)
  {
    assert s == s[..i] + ([s[i]] + (s[i + 1..j] + ([s[j]] + s[j + 1..])));
  }

  lemma SwapFirst<T>(p: T, q: T, rest: seq<T>)
    ensures multiset([p, q] + rest) == multiset([q, p] + rest)
  {
    assert multiset([p, q]) == multiset([q, p]);
  }

  /** If two different members compare equal, some permutation is sorted differently. */
  lemma TiesMatter<T(!new)>(le: (T, T) -> bool, a: seq<T>, i: nat, j: nat) returns (b: seq<T>)
    requires TotalPreorder(le) && i < j < |a| && Ties(le, a[i], a[j]) && a[i] != a[j]
    ensures multiset(b) == multiset(a) && Sort(le, b) != Sort(le, a)
  {
    hide Sort, Omitting, TotalPreorder;
    var rest := Omitting(a, i, j);
    PairFirst(a, i, j);
    SwapFirst(a[i], a[j], rest);
    TiesApart(le, a[i], a[j], rest);
    b := if Sort(le, [a[i], a[j]] + rest) != Sort(le, a) then [a[i], a[j]] + rest else [a[j], a[i]] + rest;
  }

  ghost predicate ForgetsOrder<T(!new)>(le: (T, T) -> bool, a: seq<T>) {
    forall b :: multiset(b) == multiset(a) ==> Sort(le, b) == Sort(le, a)
  }

  /** Sorting forgets the input order of a list if and only if no two different members compare equal. */
  lemma SortForgetsOrderIff<T(!new)>(le: (T, T) -> bool, a: seq<T>)
    requires TotalPreorder(le)
    ensures ForgetsOrder(le, a) <==> Antisymmetric(le, multiset(a))
  {
    hide Sort, TotalPreorder;
    if Antisymmetric(le, multiset(a)) {
      forall b | multiset(b) == multiset(a) ensures Sort(le, b) == Sort(le, a) { SortForgetsOrder(le, a, b); }
    } else {
      var p, q :| p in multiset(a) && q in multiset(a) && le(p, q) && le(q, p) && p != q;
      var i :| 0 <= i < |a| && a[i] == p;
      var j :| 0 <= j < |a| && a[j] == q;
      if i < j {
        var b := TiesMatter(le, a, i, j);
      } else {
        var b := TiesMatter(le, a, j, i);
      }
    }
  }

  lemma TiesApart<T(!new)>(le: (T, T) -> bool, p: T, q: T, rest: seq<T>)
    requires TotalPreorder(le) && Ties(le, p, q) && p != q
    ensures Sort(le, [p, q] + rest) != Sort(le, [q, p] + rest)
  {
    var b, c := [p, q] + rest, [q, p] + rest;
    SortStable(le, p, b);
    SortStable(le, p, c);
    assert b[1..][1..] == rest && c[1..][1..] == rest && Ties(le, p, p);
    assert Filter(b, (y: T) => Ties(le, p, y))[0] == p && Filter(c, (y: T) => Ties(le, p, y))[0] == q;
  }
}
