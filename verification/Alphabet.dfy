/** Which way names are sorted (codegen/generate.ts, topoSort), in terms of characters. */
module Alphabet {
  import opened Ordering
  import opened SchemaOrder
  import opened CycleOrder

  /** a stands before b in the alphabet: at the first difference its character is the lesser, or it ends there. */
  ghost predicate Less(a: string, b: string) {
    exists k :: 0 <= k <= |a| && k < |b| && a[..k] == b[..k] && (k == |a| || a[k] < b[k])
  }

  lemma LessAt(a: string, b: string, k: nat)
    requires k <= |a| && k < |b| && a[..k] == b[..k] && (k == |a| || a[k] < b[k])
    ensures Less(a, b)
  {
  }

  /** The comparison the sorts use is this order. */
  lemma {:induction false} LexLeIff(a: string, b: string)
    ensures LexLe(a, b) <==> a == b || Less(a, b)
    decreases |a|
  {
    if a == "" {
      if b != "" { LessAt(a, b, 0); }
    } else if b == "" {
      assert !Less(a, b);
    } else if a[0] != b[0] {
      DifferAtOnce(a, b);
    } else {
      LexLeIff(a[1..], b[1..]);
      LessTail(a, b);
      assert a == [a[0]] + a[1..] && b == [b[0]] + b[1..];
    }
  }

  lemma DifferAtOnce(a: string, b: string)
    requires a != "" && b != "" && a[0] != b[0]
    ensures Less(a, b) <==> a[0] < b[0]
  {
    if a[0] < b[0] {
      LessAt(a, b, 0);
    }
    forall k | 0 < k <= |a| && k < |b| ensures a[..k] != b[..k] { assert a[..k][0] != b[..k][0]; }
  }

  lemma LessTail(a: string, b: string)
    requires a != "" && b != "" && a[0] == b[0]
    ensures Less(a, b) <==> Less(a[1..], b[1..])
  {
    if Less(a[1..], b[1..]) { LessLonger(a, b); }
    if Less(a, b) { LessShorter(a, b); }
  }

  lemma LessLonger(a: string, b: string)
    requires a != "" && b != "" && a[0] == b[0] && Less(a[1..], b[1..])
    ensures Less(a, b)
  {
    var s, t := a[1..], b[1..];
    var k :| 0 <= k <= |s| && k < |t| && s[..k] == t[..k] && (k == |s| || s[k] < t[k]);
    assert a[..k + 1] == [a[0]] + s[..k] && b[..k + 1] == [b[0]] + t[..k];
    LessAt(a, b, k + 1);
  }

  lemma LessShorter(a: string, b: string)
    requires a != "" && b != "" && a[0] == b[0] && Less(a, b)
    ensures Less(a[1..], b[1..])
  {
    var s, t := a[1..], b[1..];
    var k :| 0 <= k <= |a| && k < |b| && a[..k] == b[..k] && (k == |a| || a[k] < b[k]);
    assert k > 0;
    assert a[..k][1..] == s[..k - 1] && b[..k][1..] == t[..k - 1];
    LessAt(s, t, k - 1);
  }

  lemma NotBoth(a: string, b: string)
    ensures !(Less(a, b) && Less(b, a)) && !Less(a, a)
    ensures a == b || Less(a, b) || Less(b, a)
  {
    LexLeIff(a, b);
    LexLeIff(b, a);
    LexTotal(a, b);
    forall k | 0 <= k <= |a| && k < |a| ensures !(a[k] < a[k]) {}
  }

  // ---------- the first names of a sorted list ----------

  /** In front of the first x in a sorted list stand exactly the members that are less. */
  lemma SortedSplit(names: seq<string>, x: string) returns (less: seq<string>, others: seq<string>)
    requires x in names
    ensures Sort(LexLe, names) == less + ([x] + others)
    ensures forall d :: d in less ==> d in names && Less(d, x)
  {
    hide LexLe, Sort, Sorted, Less;
    var sorted := Sort(LexLe, names);
    SortMembers(LexLe, names);
    RootsAreSorted(names);
    var k := FirstAt(sorted, x);
    SortedFront(sorted, k);
    less, others := sorted[..k], sorted[k + 1..];
    forall d | d in less ensures d in names && Less(d, x) {
      assert d in sorted;
      LexLeIff(d, x);
    }
  }

  /** A visit of the names in that order enters x without having entered what only x or later names lead to. */
  lemma EnteredInTurn(g: Graph, st: Dfs, less: seq<string>, x: string, others: seq<string>, y: string) returns (i: nat)
    requires Good(g, st) && Closed(g, st) && x in g && x !in st.visited && x !in st.onStack && x != y
    requires forall d :: d in less && d in g ==> !Reaches(g, d, y, st.visited + st.onStack)
    ensures var e := EnteredAll(g, st, less + ([x] + others)); i < |e| && e[i] == x && y !in e[..i + 1]
  {
    hide Reaches, Sort, LexLe, Good, Closed, ExploreAll, EnteredAll;
    EnteredSplit(g, st, less, [x] + others);
    EnteredAllFacts(g, st, less);
    var first, mid := EnteredAll(g, st, less), ExploreAll(g, st, less);
    var rest, e := EnteredAll(g, mid, [x] + others), EnteredAll(g, st, less + ([x] + others));
    assert y !in first;
    if x in first {
      i := PlaceIn(first, x, y);
      assert e[..i + 1] == first[..i + 1];
    } else {
      i := |first|;
      assert mid.onStack == st.onStack && x !in mid.visited;
      NextIsEntered(g, mid, x, others);
      assert rest != [] && rest[0] == x && e[i] == x;
      assert e[..i + 1] == first + [x];
    }
  }

  lemma PlaceIn(s: seq<string>, x: string, y: string) returns (i: nat)
    requires x in s && y !in s
    ensures i < |s| && s[i] == x && y !in s[..i + 1]
  {
    i :| 0 <= i < |s| && s[i] == x;
  }

  lemma NextIsEntered(g: Graph, st: Dfs, x: string, others: seq<string>)
    requires x in g && x !in st.visited && x !in st.onStack
    ensures var e := EnteredAll(g, st, [x] + others); e != [] && e[0] == x
  {
    hide Sort;
  }

  // ---------- the roots ----------

  /** Nothing that stands before x in the alphabet, nor x itself, leads to y. */
  ghost predicate NotReachedFirst(g: Graph, x: string, y: string) {
    forall n :: n in g && (n == x || Less(n, x)) ==> !Reaches(g, n, y, {})
  }

  /** The lesser of two names is entered first, and emitted first, unless it or a name before it leads to the greater. */
  lemma LesserComesFirst(schemas: seq<Schema>, x: string, y: string)
    requires x in Names(schemas) && y in Names(schemas) && Less(x, y)
    requires NotReachedFirst(ByName(schemas), x, y)
    ensures Before(EntryOrder(schemas), x, y)
    ensures Before(Names(Walk(schemas).result), x, y)
  {
    hide Reaches, Before, Less, Sort, LexLe, ByName, Keys, EnteredAll, ExploreAll;
    var g, e := ByName(schemas), EntryOrder(schemas);
    EntryFacts(schemas);
    var i := EntersBehindLess(schemas, x, y);
    assert e[..i + 1] == e[..i] + [x];
    var j := FoundBehind(e, i, y);
    InOrder(e, i, j);
    assert x in g by { KeysAreNames(schemas); }
    assert !Reaches(g, x, y, SetOf(e[..i])) by { NoFewer(g, x, y, SetOf(e[..i])); }
    EmissionOrderIff(schemas, i, j);
    assert x != y by { NotBoth(x, y); }
    OneBefore(Names(Walk(schemas).result), x, y);
  }

  lemma InOrder(e: seq<string>, i: nat, j: nat)
    requires i < j < |e|
    ensures Before(e, e[i], e[j])
  {
  }

  lemma EntersBehindLess(schemas: seq<Schema>, x: string, y: string) returns (i: nat)
    requires x in Names(schemas) && Less(x, y) && NotReachedFirst(ByName(schemas), x, y)
    ensures i < |EntryOrder(schemas)| && EntryOrder(schemas)[i] == x && y !in EntryOrder(schemas)[..i + 1]
  {
    hide Reaches, Less, Sort, LexLe, ByName, Keys, EnteredAll, ExploreAll, Good, Closed;
    var g := ByName(schemas);
    KeysAreNames(schemas);
    StartIsGood(g);
    var less, others := SortedSplit(Keys(schemas), x);
    assert START.visited + START.onStack == {};
    NotBoth(x, y);
    i := EnteredInTurn(g, START, less, x, others, y);
  }

  lemma NoFewer(g: Graph, x: string, y: string, avoid: set<string>)
    requires !Reaches(g, x, y, {})
    ensures !Reaches(g, x, y, avoid)
  {
    if Reaches(g, x, y, avoid) { Fewer(g, x, y, avoid, {}); }
  }

  /** Schemas without references to known names come out strictly in alphabetical order. */
  lemma UnrelatedAreAlphabetical(schemas: seq<Schema>, i: nat, j: nat)
    requires forall a, b :: !Edge(ByName(schemas), a, b)
    requires i < j < |Walk(schemas).result|
    ensures Less(Walk(schemas).result[i].emittedName, Walk(schemas).result[j].emittedName)
  {
    hide Less, ByName, Walk, Edge;
    var names := Names(Walk(schemas).result);
    EmitsEachNameOnce(schemas);
    var x, y := names[i], names[j];
    assert x in names && y in names && x != y;
    NotBoth(x, y);
    if Less(y, x) {
      NoEdgesNoPaths(ByName(schemas), y, x);
      LesserComesFirst(schemas, y, x);
      NotBefore(names, i, j);
    }
  }

  lemma NotBefore(names: seq<string>, i: nat, j: nat)
    requires Distinct(names) && i < j < |names|
    ensures !Before(names, names[j], names[i])
  {
  }

  lemma NoEdgesNoPaths(g: Graph, x: string, y: string)
    requires (forall a, b :: !Edge(g, a, b)) && Less(x, y)
    ensures NotReachedFirst(g, x, y)
  {
    hide Less;
    forall n | n == x || Less(n, x) ensures !Reaches(g, n, y, {}) {
      NotBoth(n, y);
      LessTransitive(n, x, y);
      if Reaches(g, n, y, {}) { PathHasEdge(g, n, y); }
    }
  }

  lemma PathHasEdge(g: Graph, x: string, y: string)
    requires x != y && Reaches(g, x, y, {})
    ensures exists a, b :: Edge(g, a, b)
  {
    var p :| PathBetween(g, p, x, y);
    assert Edge(g, p[0], p[1]);
  }

  lemma LessTransitive(a: string, b: string, c: string)
    requires (a == b || Less(a, b)) && Less(b, c)
    ensures a != c
  {
    NotBoth(b, c);
  }

  // ---------- the references of one schema ----------

  /** The visit of the i-th entered name, and the state it starts from. */
  lemma {:induction false} FindVisit(g: Graph, st: Dfs, name: string, i: nat) returns (s: Dfs)
    requires Good(g, st) && Closed(g, st) && name in g && i < |Entered(g, st, name)|
    ensures VisitAt(g, st, Entered(g, st, name), i, s)
    decreases Fresh(g, st), 0
  {
    hide Good, Closed, Sort;
    var e, st', deps := Entered(g, st, name), st.(onStack := st.onStack + {name}), Sort(LexLe, g[name].references);
    if i == 0 {
      s := st;
      assert e[0..0 + |e|] == e && SetOf(e[..0]) == {};
    } else {
      EnterKeeps(g, st, name);
      s := FindVisitAll(g, st', deps, i - 1);
      VisitFrom(g, st', st, [name], EnteredAll(g, st', deps), i - 1, s);
    }
  }

  /** At position i of the entry list e, begun in state st, the name is visited from state s. */
  ghost predicate VisitAt(g: Graph, st: Dfs, e: seq<string>, i: nat, s: Dfs)
    requires i < |e|
  {
    var x := e[i];
    && Good(g, s) && Closed(g, s) && x in g && x !in s.visited && x !in s.onStack
    && s.visited + s.onStack == st.visited + st.onStack + SetOf(e[..i])
    && Entered(g, s, x) <= e[i..]
  }

  lemma VisitFrom(g: Graph, mid: Dfs, st: Dfs, front: seq<string>, e: seq<string>, i: nat, s: Dfs)
    requires i < |e| && VisitAt(g, mid, e, i, s)
    requires mid.visited + mid.onStack == st.visited + st.onStack + SetOf(front)
    ensures VisitAt(g, st, front + e, |front| + i, s)
  {
    hide Good, Closed, Entered;
    var all := front + e;
    assert all[..|front| + i] == front + e[..i] && all[|front| + i..] == e[i..];
  }

  lemma VisitFirst(g: Graph, st: Dfs, e: seq<string>, rest: seq<string>, i: nat, s: Dfs)
    requires i < |e| && VisitAt(g, st, e, i, s)
    ensures VisitAt(g, st, e + rest, i, s)
  {
    hide Good, Closed, Entered;
    assert (e + rest)[..i] == e[..i] && (e + rest)[i..] == e[i..] + rest;
  }

  lemma {:induction false} FindVisitAll(g: Graph, st: Dfs, names: seq<string>, i: nat) returns (s: Dfs)
    requires Good(g, st) && Closed(g, st) && i < |EnteredAll(g, st, names)|
    ensures VisitAt(g, st, EnteredAll(g, st, names), i, s)
    decreases Fresh(g, st), |names| + 1
  {
    hide Good, Closed, Entered, Explore, VisitAt;
    if names[0] !in g {
      s := FindVisitAll(g, st, names[1..], i);
    } else {
      var next, e1 := Explore(g, st, names[0]), Entered(g, st, names[0]);
      var e2 := EnteredAll(g, next, names[1..]);
      VisitKeeps(g, st, names[0]);
      VisitedGrows(g, st, names[0]);
      if i < |e1| {
        s := FindVisit(g, st, names[0], i);
        VisitFirst(g, st, e1, e2, i, s);
      } else {
        s := FindVisitAll(g, next, names[1..], i - |e1|);
        assert next.visited + next.onStack == st.visited + st.onStack + SetOf(e1);
        VisitFrom(g, next, st, e1, e2, i - |e1|, s);
      }
    }
  }

  /**
   The references of a schema are followed in alphabetical order: of two that are new when it is entered, the lesser is
   entered and emitted first, unless it or a reference before it leads to the greater past the names entered so far.
   */
  lemma LesserReferenceFirst(schemas: seq<Schema>, i: nat, y: string, z: string)
    requires i < |EntryOrder(schemas)| && Less(y, z)
    requires Edge(ByName(schemas), EntryOrder(schemas)[i], y) && Edge(ByName(schemas), EntryOrder(schemas)[i], z)
    requires y !in EntryOrder(schemas)[..i + 1] && z !in EntryOrder(schemas)[..i + 1]
    requires forall r :: Edge(ByName(schemas), EntryOrder(schemas)[i], r) && (r == y || Less(r, y)) ==>
      !Reaches(ByName(schemas), r, z, SetOf(EntryOrder(schemas)[..i + 1]))
    ensures Before(EntryOrder(schemas), y, z) && Before(Names(Walk(schemas).result), y, z)
  {
    hide Reaches, Before, Less, Sort, LexLe, ByName, Keys, EnteredAll, ExploreAll, Explore, Good, Closed, Walk;
    var g, e := ByName(schemas), EntryOrder(schemas);
    var x := e[i];
    EntryFacts(schemas);
    KeysAreNames(schemas);
    var j := ReferenceInTurn(schemas, i, y, z);
    assert e[..j + 1] == e[..j] + [y];
    var k := FoundBehind(e, j, z);
    NotBoth(y, z);
    InOrder(e, j, k);
    assert SetOf(e[..i + 1]) <= SetOf(e[..j]) by { assert e[..j] == e[..i + 1] + e[i + 1..j]; }
    assert !Reaches(g, y, z, SetOf(e[..j])) by { NotPast(g, y, z, SetOf(e[..j]), SetOf(e[..i + 1])); }
    EmissionOrderIff(schemas, j, k);
    OneBefore(Names(Walk(schemas).result), y, z);
  }

  lemma NotPast(g: Graph, x: string, y: string, avoid: set<string>, fewer: set<string>)
    requires !Reaches(g, x, y, fewer) && fewer <= avoid
    ensures !Reaches(g, x, y, avoid)
  {
    if Reaches(g, x, y, avoid) { Fewer(g, x, y, avoid, fewer); }
  }

  lemma ReferenceInTurn(schemas: seq<Schema>, i: nat, y: string, z: string) returns (j: nat)
    requires i < |EntryOrder(schemas)| && Less(y, z)
    requires Edge(ByName(schemas), EntryOrder(schemas)[i], y) && y !in EntryOrder(schemas)[..i + 1]
    requires z !in EntryOrder(schemas)[..i + 1]
    requires forall r :: Edge(ByName(schemas), EntryOrder(schemas)[i], r) && (r == y || Less(r, y)) ==>
      !Reaches(ByName(schemas), r, z, SetOf(EntryOrder(schemas)[..i + 1]))
    ensures i < j < |EntryOrder(schemas)| && EntryOrder(schemas)[j] == y && z !in EntryOrder(schemas)[..j + 1]
  {
    hide Reaches, Less, Sort, LexLe, ByName, Keys, EnteredAll, ExploreAll, Good, Closed;
    var g, e := ByName(schemas), EntryOrder(schemas);
    var x := e[i];
    KeysAreNames(schemas);
    StartIsGood(g);
    var s := FindVisitAll(g, START, Sort(LexLe, Keys(schemas)), i);
    var s' := s.(onStack := s.onStack + {x});
    assert Good(g, s') && Closed(g, s') by { EnterKeeps(g, s, x); }
    assert s'.visited + s'.onStack == SetOf(e[..i + 1]) by { assert e[..i + 1] == e[..i] + [x]; }
    var less, others := SortedSplit(g[x].references, y);
    NotBoth(y, z);
    var k := EnteredInTurn(g, s', less, y, others, z);
    var visit := Entered(g, s, x);
    assert visit == [x] + EnteredAll(g, s', less + ([y] + others));
    j := i + 1 + k;
    assert visit[..k + 2] == [x] + EnteredAll(g, s', less + ([y] + others))[..k + 1];
    assert e[..j + 1] == e[..i] + visit[..k + 2];
  }
}
