/**
 The order in which the members of a cycle are emitted (codegen/generate.ts, topoSort): decided by the order in which
 the walk enters them, and not alphabetical as the function's documentation has it.
 */
module CycleOrder {
  import opened Ordering
  import opened SchemaOrder

  /** y stands before x in the list. */
  ghost predicate Before(names: seq<string>, y: string, x: string) {
    exists k, l :: 0 <= k < l < |names| && names[k] == y && names[l] == x
  }

  ghost predicate PathBetween(g: Graph, p: seq<string>, x: string, y: string) {
    p != [] && p[0] == x && p[|p| - 1] == y && IsPath(g, p)
  }

  /** Some path leads from x to y past none of the names to avoid. */
  ghost predicate Reaches(g: Graph, x: string, y: string, avoid: set<string>) {
    exists p :: PathBetween(g, p, x, y) && forall n :: n in p ==> n !in avoid
  }

  /** Strongly connected: each name reaches the other. */
  ghost predicate SameComponent(g: Graph, x: string, y: string) {
    Reaches(g, x, y, {}) && Reaches(g, y, x, {})
  }

  // ---------- lists and paths ----------

  lemma BeforeInPrefix(a: seq<string>, b: seq<string>, x: string, y: string)
    requires Distinct(b) && a <= b && x in a && y in a
    ensures Before(a, y, x) <==> Before(b, y, x)
  {
    var i :| 0 <= i < |a| && a[i] == x;
    var j :| 0 <= j < |a| && a[j] == y;
    assert b[i] == x && b[j] == y;
  }

  lemma BeforeAfterPrefix(a: seq<string>, b: seq<string>, x: string, y: string)
    requires Distinct(b) && a <= b && x in a && y in b && y !in a
    ensures Before(b, x, y) && !Before(b, y, x)
  {
    var i :| 0 <= i < |a| && a[i] == x;
    var j :| 0 <= j < |b| && b[j] == y;
    assert b[i] == x;
  }

  lemma NothingTwice()
    ensures Distinct<string>([])
  {
  }

  lemma DistinctConcat(a: seq<string>, b: seq<string>)
    requires Distinct(a) && Distinct(b) && forall n :: n in b ==> n !in a
    ensures Distinct(a + b)
  {
    forall i, j | 0 <= i < j < |a + b| ensures (a + b)[i] != (a + b)[j] {
      assert (a + b)[j] in if j < |a| then a else b;
    }
  }

  lemma FoundBehind(e: seq<string>, i: nat, y: string) returns (j: nat)
    requires i < |e| && y in e && y != e[i] && y !in e[..i]
    ensures i < j < |e| && e[j] == y
  {
    assert forall k :: 0 <= k < i ==> e[k] in e[..i];
    j :| j < |e| && e[j] == y;
  }

  lemma OneBefore(names: seq<string>, x: string, y: string)
    requires Distinct(names) && x in names && y in names && x != y
    ensures Before(names, x, y) <==> !Before(names, y, x)
  {
    var i :| 0 <= i < |names| && names[i] == x;
    var j :| 0 <= j < |names| && names[j] == y;
  }

  lemma Longer(g: Graph, x: string, y: string, z: string, avoid: set<string>, fewer: set<string>)
    requires Edge(g, x, y) && Reaches(g, y, z, avoid) && fewer <= avoid && x !in fewer
    ensures Reaches(g, x, z, fewer)
  {
    var p :| PathBetween(g, p, y, z) && forall n :: n in p ==> n !in avoid;
    assert PathBetween(g, [x] + p, x, z);
  }

  lemma Fewer(g: Graph, x: string, y: string, avoid: set<string>, fewer: set<string>)
    requires Reaches(g, x, y, avoid) && fewer <= avoid
    ensures Reaches(g, x, y, fewer)
  {
  }

  lemma Through(g: Graph, x: string, y: string, z: string)
    requires Reaches(g, x, y, {}) && Reaches(g, y, z, {})
    ensures Reaches(g, x, z, {})
  {
    var p :| PathBetween(g, p, x, y);
    var q :| PathBetween(g, q, y, z);
    assert forall i :: 0 <= i < |q| - 1 ==> Edge(g, q[i], q[i + 1]);
    assert PathBetween(g, p + q[1..], x, z);
  }

  lemma AlongThePath(g: Graph, p: seq<string>, x: string, y: string, k: nat)
    requires PathBetween(g, p, x, y) && k < |p|
    ensures Reaches(g, x, p[k], {}) && Reaches(g, p[k], y, {})
  {
    assert PathBetween(g, p[..k + 1], x, p[k]);
    assert PathBetween(g, p[k..], p[k], y);
  }

  // ---------- one visit ----------

  /** Whatever a finished name refers to is finished or being visited. */
  ghost predicate Closed(g: Graph, st: Dfs) {
    forall a, b :: a in st.visited && Edge(g, a, b) ==> b in st.visited || b in st.onStack
  }

  lemma {:induction false} EnteredFacts(g: Graph, st: Dfs, name: string)
    requires Good(g, st) && Closed(g, st) && name in g
    ensures var e, r := Entered(g, st, name), Explore(g, st, name);
      && Closed(g, r)
      && (forall n :: n in r.visited <==> n in st.visited || n in e)
      && (forall n :: n in e ==> n !in st.visited && n !in st.onStack)
      && (forall n :: n in e ==> Reaches(g, name, n, st.visited + st.onStack))
    decreases Fresh(g, st), 0
  {
    if name !in st.visited && name !in st.onStack {
      var st', deps := st.(onStack := st.onStack + {name}), Sort(LexLe, g[name].references);
      SortMembers(LexLe, g[name].references);
      EnteredAllFacts(g, st', deps);
      ExploreAllGood(g, st', deps);
      assert PathBetween(g, [name], name, name);
      forall n | n in EnteredAll(g, st', deps) ensures Reaches(g, name, n, st.visited + st.onStack) {
        var d :| d in deps && d in g && Reaches(g, d, n, st'.visited + st'.onStack);
        Longer(g, name, d, n, st'.visited + st'.onStack, st.visited + st.onStack);
      }
    }
  }

  lemma {:induction false} EnteredAllFacts(g: Graph, st: Dfs, names: seq<string>)
    requires Good(g, st) && Closed(g, st)
    ensures var e, r := EnteredAll(g, st, names), ExploreAll(g, st, names);
      && Closed(g, r)
      && (forall n :: n in r.visited <==> n in st.visited || n in e)
      && (forall n :: n in e ==> n !in st.visited && n !in st.onStack)
      && (forall n :: n in e ==> exists d :: d in names && d in g && Reaches(g, d, n, st.visited + st.onStack))
    decreases Fresh(g, st), |names| + 1
  {
    if names != [] {
      if names[0] in g {
        var next := Explore(g, st, names[0]);
        ExploreGood(g, st, names[0]);
        EnteredFacts(g, st, names[0]);
        EnteredAllFacts(g, next, names[1..]);
        forall n | n in EnteredAll(g, next, names[1..])
          ensures exists d :: d in names && d in g && Reaches(g, d, n, st.visited + st.onStack)
        {
          var d :| d in names[1..] && d in g && Reaches(g, d, n, next.visited + next.onStack);
          Fewer(g, d, n, next.visited + next.onStack, st.visited + st.onStack);
        }
      } else {
        EnteredAllFacts(g, st, names[1..]);
      }
    }
  }

  /** From a finished name, no path leads out of the finished names except over the stack. */
  lemma {:induction false} StaysInside(g: Graph, st: Dfs, p: seq<string>)
    requires Closed(g, st) && IsPath(g, p) && p != [] && p[0] in st.visited
    requires forall n :: n in p ==> n !in st.onStack
    ensures p[|p| - 1] in st.visited
  {
    if |p| > 1 {
      assert Edge(g, p[0], p[1]) && p[1] in p;
      forall i | 0 <= i < |p[1..]| - 1 ensures Edge(g, p[1..][i], p[1..][i + 1]) { assert Edge(g, p[i + 1], p[i + 2]); }
      StaysInside(g, st, p[1..]);
    }
  }

  function SetOf(s: seq<string>): set<string> {
    set n | n in s
  }

  /** Of two names entered one after the other, the later is emitted first when a path leads to it past the earlier entries. */
  ghost predicate InPathOrder(g: Graph, st: Dfs, e: seq<string>, names: seq<string>, i: int, j: int)
    requires 0 <= i < j < |e|
  {
    Before(names, e[j], e[i]) <==> Reaches(g, e[i], e[j], st.visited + st.onStack + SetOf(e[..i]))
  }

  lemma {:induction false} PathOrder(g: Graph, st: Dfs, name: string, i: int, j: int)
    requires Good(g, st) && Closed(g, st) && name in g
    requires 0 <= i < j < |Entered(g, st, name)|
    ensures InPathOrder(g, st, Entered(g, st, name), Names(Explore(g, st, name).result), i, j)
    decreases Fresh(g, st), 0
  {
    hide Good, Closed, Reaches, Before, Sort;
    var st', deps := st.(onStack := st.onStack + {name}), Sort(LexLe, g[name].references);
    assert Good(g, st') && Closed(g, st') by { EnterKeeps(g, st, name); }
    var inner, e, e' := ExploreAll(g, st', deps), Entered(g, st, name), EnteredAll(g, st', deps);
    if i == 0 {
      assert e[j] == e'[j - 1];
      EmittedLast(g, st, name, e[j]);
      assert st.visited + st.onStack + SetOf(e[..0]) == st.visited + st.onStack;
    } else {
      PathOrderAll(g, st', deps, i - 1, j - 1);
      assert st'.visited + st'.onStack + SetOf(e'[..i - 1]) == st.visited + st.onStack + SetOf(e[..i]) by {
        assert e[..i] == [name] + e'[..i - 1];
      }
      BothEmittedInside(g, st, name, e[i], e[j]);
    }
  }

  lemma EnterKeeps(g: Graph, st: Dfs, name: string)
    requires Good(g, st) && Closed(g, st) && name in g && name !in st.visited
    ensures var st' := st.(onStack := st.onStack + {name}); Good(g, st') && Closed(g, st')
  {
  }

  /** What the visit of a new name appends to the results of its references. */
  lemma AppendsName(g: Graph, st: Dfs, name: string)
    requires Good(g, st) && Closed(g, st) && name in g && name !in st.visited && name !in st.onStack
    ensures var inner := ExploreAll(g, st.(onStack := st.onStack + {name}), Sort(LexLe, g[name].references));
      && Names(Explore(g, st, name).result) == Names(inner.result) + [name]
      && forall n :: n in EnteredAll(g, st.(onStack := st.onStack + {name}), Sort(LexLe, g[name].references)) ==>
           n in Names(inner.result)
    ensures Distinct(Names(Explore(g, st, name).result))
  {
    hide Sort, Closed, Reaches, EnteredAll;
    var st', deps := st.(onStack := st.onStack + {name}), Sort(LexLe, g[name].references);
    assert Good(g, st') && Closed(g, st') by { EnterKeeps(g, st, name); }
    ExploreAllGood(g, st', deps);
    EnteredAllFacts(g, st', deps);
    ExploreGood(g, st, name);
  }

  /** The visited name is emitted behind every name entered during its visit, and reaches each of them. */
  lemma EmittedLast(g: Graph, st: Dfs, name: string, n: string)
    requires Good(g, st) && Closed(g, st) && name in g && name !in st.visited && name !in st.onStack
    requires n in EnteredAll(g, st.(onStack := st.onStack + {name}), Sort(LexLe, g[name].references))
    ensures Before(Names(Explore(g, st, name).result), n, name)
    ensures Reaches(g, name, n, st.visited + st.onStack)
  {
    hide Sort, Reaches, Good, Closed, ExploreAll, EnteredAll;
    AppendsName(g, st, name);
    EnteredFacts(g, st, name);
    var names := Names(ExploreAll(g, st.(onStack := st.onStack + {name}), Sort(LexLe, g[name].references)).result);
    var k :| 0 <= k < |names| && names[k] == n;
    assert (names + [name])[k] == n && (names + [name])[|names|] == name;
  }

  /** Names entered inside a visit keep their order when the visit ends. */
  lemma BothEmittedInside(g: Graph, st: Dfs, name: string, x: string, y: string)
    requires Good(g, st) && Closed(g, st) && name in g && name !in st.visited && name !in st.onStack
    requires var e := EnteredAll(g, st.(onStack := st.onStack + {name}), Sort(LexLe, g[name].references)); x in e && y in e
    ensures var inner := ExploreAll(g, st.(onStack := st.onStack + {name}), Sort(LexLe, g[name].references));
      Before(Names(inner.result), y, x) <==> Before(Names(Explore(g, st, name).result), y, x)
  {
    hide Sort, Before, Good, Closed, Explore, ExploreAll, EnteredAll;
    AppendsName(g, st, name);
    var inner := ExploreAll(g, st.(onStack := st.onStack + {name}), Sort(LexLe, g[name].references));
    BeforeInPrefix(Names(inner.result), Names(Explore(g, st, name).result), x, y);
  }

  lemma {:induction false} PathOrderAll(g: Graph, st: Dfs, names: seq<string>, i: int, j: int)
    requires Good(g, st) && Closed(g, st)
    requires 0 <= i < j < |EnteredAll(g, st, names)|
    ensures InPathOrder(g, st, EnteredAll(g, st, names), Names(ExploreAll(g, st, names).result), i, j)
    decreases Fresh(g, st), |names| + 1
  {
    hide Good, Closed, Reaches, Before, Entered, Explore;
    if names[0] !in g {
      PathOrderAll(g, st, names[1..], i, j);
    } else {
      var next, e1 := Explore(g, st, names[0]), Entered(g, st, names[0]);
      var e2 := EnteredAll(g, next, names[1..]);
      var e := e1 + e2;
      assert Good(g, next) && Closed(g, next) by { VisitKeeps(g, st, names[0]); }
      if j < |e1| {
        PathOrder(g, st, names[0], i, j);
        assert e[..i] == e1[..i];
        KeepsOrder(g, st, names, e[i], e[j]);
      } else if i >= |e1| {
        PathOrderAll(g, next, names[1..], i - |e1|, j - |e1|);
        assert e[..i] == e1 + e2[..i - |e1|];
        VisitedGrows(g, st, names[0]);
        assert next.visited + next.onStack + SetOf(e2[..i - |e1|]) == st.visited + st.onStack + SetOf(e[..i]);
      } else {
        assert e[..i] == e1[..i];
        LaterVisit(g, st, names, e[i], e[j], e1[..i]);
      }
    }
  }

  lemma VisitKeeps(g: Graph, st: Dfs, name: string)
    requires Good(g, st) && Closed(g, st) && name in g
    ensures Good(g, Explore(g, st, name)) && Closed(g, Explore(g, st, name))
  {
    ExploreGood(g, st, name);
    EnteredFacts(g, st, name);
  }

  lemma VisitedGrows(g: Graph, st: Dfs, name: string)
    requires Good(g, st) && Closed(g, st) && name in g
    ensures Explore(g, st, name).visited == st.visited + SetOf(Entered(g, st, name))
    ensures Explore(g, st, name).onStack == st.onStack
  {
    EnteredFacts(g, st, name);
  }

  /** Names entered by the first visit keep their order during the later ones. */
  lemma KeepsOrder(g: Graph, st: Dfs, names: seq<string>, x: string, y: string)
    requires Good(g, st) && Closed(g, st) && names != [] && names[0] in g
    requires x in Entered(g, st, names[0]) && y in Entered(g, st, names[0])
    ensures Before(Names(Explore(g, st, names[0]).result), y, x) <==> Before(Names(ExploreAll(g, st, names).result), y, x)
  {
    hide Before;
    var next, r := Explore(g, st, names[0]), ExploreAll(g, st, names);
    EnteredFacts(g, st, names[0]);
    ExploreGood(g, st, names[0]);
    ExploreAllGood(g, next, names[1..]);
    assert Names(next.result) <= Names(r.result);
    BeforeInPrefix(Names(next.result), Names(r.result), x, y);
  }

  /** A name entered by a later visit is emitted later, and no path leads to it past the names met before. */
  lemma LaterVisit(g: Graph, st: Dfs, names: seq<string>, x: string, y: string, earlier: seq<string>)
    requires Good(g, st) && Closed(g, st) && names != [] && names[0] in g
    requires x in Entered(g, st, names[0]) && y in EnteredAll(g, Explore(g, st, names[0]), names[1..])
    ensures !Before(Names(ExploreAll(g, st, names).result), y, x)
    ensures !Reaches(g, x, y, st.visited + st.onStack + SetOf(earlier))
  {
    hide Before, IsPath;
    var next, r := Explore(g, st, names[0]), ExploreAll(g, st, names);
    EnteredFacts(g, st, names[0]);
    ExploreGood(g, st, names[0]);
    EnteredAllFacts(g, next, names[1..]);
    ExploreAllGood(g, next, names[1..]);
    assert Names(next.result) <= Names(r.result);
    BeforeAfterPrefix(Names(next.result), Names(r.result), x, y);
    forall p | PathBetween(g, p, x, y) ensures exists n :: n in p && n in st.onStack {
      if forall n :: n in p ==> n !in next.onStack { StaysInside(g, next, p); }
    }
  }

  // ---------- the whole walk ----------

  lemma EntryFacts(schemas: seq<Schema>)
    ensures Distinct(EntryOrder(schemas))
    ensures forall n :: n in EntryOrder(schemas) <==> n in Names(schemas)
    ensures forall n :: n in EntryOrder(schemas) <==> n in Names(Walk(schemas).result)
    ensures Distinct(Names(Walk(schemas).result))
  {
    hide Distinct, Reaches, Closed, PrecedeOrLogged, Sort, ExploreAll, EnteredAll;
    WalkGood(schemas);
    KeysAreNames(schemas);
    StartIsGood(ByName(schemas));
    EnteredAllFacts(ByName(schemas), START, Sort(LexLe, Keys(schemas)));
    EntersOnceAll(ByName(schemas), START, Sort(LexLe, Keys(schemas)));
  }

  lemma StartIsGood(g: Graph)
    requires WellKeyed(g)
    ensures Good(g, START) && Closed(g, START)
  {
  }

  lemma {:induction false} EntersOnce(g: Graph, st: Dfs, name: string)
    requires Good(g, st) && Closed(g, st) && name in g
    ensures Distinct(Entered(g, st, name))
    decreases Fresh(g, st), 0
  {
    if name !in st.visited && name !in st.onStack {
      var st', deps := st.(onStack := st.onStack + {name}), Sort(LexLe, g[name].references);
      EntersOnceAll(g, st', deps);
      EnteredAllFacts(g, st', deps);
      assert forall n :: n in EnteredAll(g, st', deps) ==> n != name;
    }
  }

  lemma {:induction false} EntersOnceAll(g: Graph, st: Dfs, names: seq<string>)
    requires Good(g, st) && Closed(g, st)
    ensures Distinct(EnteredAll(g, st, names))
    decreases Fresh(g, st), |names| + 1
  {
    hide Good, Closed, Reaches, Distinct, Explore, Entered;
    assert Distinct<string>([]) by { NothingTwice(); }
    if names != [] && names[0] !in g {
      EntersOnceAll(g, st, names[1..]);
    } else if names != [] {
      var next := Explore(g, st, names[0]);
      VisitKeeps(g, st, names[0]);
      EntersOnce(g, st, names[0]);
      EntersOnceAll(g, next, names[1..]);
      EnteredFacts(g, st, names[0]);
      EnteredAllFacts(g, next, names[1..]);
      DistinctConcat(Entered(g, st, names[0]), EnteredAll(g, next, names[1..]));
    }
  }

  /**
   The emission order of any two names, on any graph: the one entered later comes first if and only if a path leads to
   it from the other past all names entered before both.
   */
  lemma EmissionOrderIff(schemas: seq<Schema>, i: nat, j: nat)
    requires i < j < |EntryOrder(schemas)|
    ensures var e := EntryOrder(schemas);
      Before(Names(Walk(schemas).result), e[j], e[i]) <==> Reaches(ByName(schemas), e[i], e[j], SetOf(e[..i]))
  {
    hide Reaches, Before;
    KeysAreNames(schemas);
    PathOrderAll(ByName(schemas), START, Sort(LexLe, Keys(schemas)), i, j);
    assert START.visited + START.onStack + SetOf(EntryOrder(schemas)[..i]) == SetOf(EntryOrder(schemas)[..i]);
  }

  /** Of a strongly connected component, the member entered first is emitted last. */
  lemma FirstEnteredLast(schemas: seq<Schema>, i: nat, y: string)
    requires i < |EntryOrder(schemas)| && y != EntryOrder(schemas)[i]
    requires SameComponent(ByName(schemas), EntryOrder(schemas)[i], y)
    requires forall z :: z in EntryOrder(schemas)[..i] ==> !SameComponent(ByName(schemas), EntryOrder(schemas)[i], z)
    ensures Before(Names(Walk(schemas).result), y, EntryOrder(schemas)[i])
  {
    var g, e := ByName(schemas), EntryOrder(schemas);
    var p :| PathBetween(g, p, e[i], y);
    forall k | 0 <= k < |p| ensures SameComponent(g, e[i], p[k]) {
      AlongThePath(g, p, e[i], y, k);
      Through(g, p[k], y, e[i]);
    }
    assert Reaches(g, e[i], y, SetOf(e[..i]));
    assert Edge(g, p[|p| - 2], y);
    EntryFacts(schemas);
    KeysAreNames(schemas);
    var j := FoundBehind(e, i, y);
    EmissionOrderIff(schemas, i, j);
  }

  /** Two schemas that refer to each other: one is emitted before the other if and only if it is entered after it. */
  lemma MutualPairIff(schemas: seq<Schema>, x: string, y: string)
    requires x != y && Edge(ByName(schemas), x, y) && Edge(ByName(schemas), y, x)
    ensures Before(Names(Walk(schemas).result), x, y) <==> Before(EntryOrder(schemas), y, x)
  {
    hide Before, Reaches;
    var e := EntryOrder(schemas);
    EntryFacts(schemas);
    KeysAreNames(schemas);
    var i :| 0 <= i < |e| && e[i] == x;
    var j :| 0 <= j < |e| && e[j] == y;
    OneBefore(e, x, y);
    OneBefore(Names(Walk(schemas).result), x, y);
    if i < j { SteppedOver(schemas, i, j); } else { SteppedOver(schemas, j, i); }
  }

  lemma SteppedOver(schemas: seq<Schema>, i: nat, j: nat)
    requires i < j < |EntryOrder(schemas)| && Edge(ByName(schemas), EntryOrder(schemas)[i], EntryOrder(schemas)[j])
    ensures Before(EntryOrder(schemas), EntryOrder(schemas)[i], EntryOrder(schemas)[j])
    ensures Before(Names(Walk(schemas).result), EntryOrder(schemas)[j], EntryOrder(schemas)[i])
  {
    var e := EntryOrder(schemas);
    EntryFacts(schemas);
    assert PathBetween(ByName(schemas), [e[i], e[j]], e[i], e[j]);
    EmissionOrderIff(schemas, i, j);
  }

  /** No name smaller than x reaches x. */
  ghost predicate NoSmallerReaches(g: Graph, x: string) {
    forall n :: n in g && n != x && LexLe(n, x) ==> !Reaches(g, n, x, {})
  }

  lemma {:induction false} EnteredSplit(g: Graph, st: Dfs, a: seq<string>, b: seq<string>)
    ensures EnteredAll(g, st, a + b) == EnteredAll(g, st, a) + EnteredAll(g, ExploreAll(g, st, a), b)
    decreases |a|
  {
    hide Explore, Entered;
    if a == [] {
      assert a + b == b;
    } else {
      assert (a + b)[0] == a[0] && (a + b)[1..] == a[1..] + b;
      EnteredSplit(g, if a[0] in g then Explore(g, st, a[0]) else st, a[1..], b);
    }
  }

  /** The roots in front of the first occurrence of x are the names smaller than x. */
  lemma RootsBefore(schemas: seq<Schema>, x: string) returns (smaller: seq<string>, others: seq<string>)
    requires x in Names(schemas)
    ensures Sort(LexLe, Keys(schemas)) == smaller + ([x] + others)
    ensures forall d :: d in smaller <==> d in ByName(schemas) && d != x && LexLe(d, x)
  {
    hide LexLe, Sort, Sorted, ByName, Keys;
    var roots := Sort(LexLe, Keys(schemas));
    RootsAreNames(schemas);
    RootsAreSorted(Keys(schemas));
    var k := FirstAt(roots, x);
    SortedFront(roots, k);
    smaller, others := roots[..k], roots[k + 1..];
    assert forall d :: d in roots <==> d in smaller || d == x || d in others;
  }

  lemma RootsAreSorted(keys: seq<string>)
    ensures Sorted(LexLe, Sort(LexLe, keys))
  {
    LexIsTotalPreorder(multiset(keys));
    SortSorts(LexLe, keys);
  }

  lemma RootsAreNames(schemas: seq<Schema>)
    ensures forall n :: n in Sort(LexLe, Keys(schemas)) <==> n in ByName(schemas)
    ensures forall n :: n in Sort(LexLe, Keys(schemas)) <==> n in Names(schemas)
  {
    KeysAreNames(schemas);
    SortMembers(LexLe, Keys(schemas));
  }

  lemma SortedFront(s: seq<string>, k: nat)
    requires Sorted(LexLe, s) && k < |s|
    ensures forall d :: d in s[..k] ==> LexLe(d, s[k])
    ensures forall d :: d in s[k + 1..] && LexLe(d, s[k]) ==> d == s[k]
  {
    hide LexLe;
    forall d | d in s[k + 1..] && LexLe(d, s[k]) ensures d == s[k] { LexTotal(d, s[k]); }
  }

  lemma {:induction false} FirstAt(s: seq<string>, x: string) returns (k: nat)
    requires x in s
    ensures k < |s| && s[k] == x && x !in s[..k]
  {
    if s[0] == x {
      k := 0;
    } else {
      k := FirstAt(s[1..], x);
      assert s[..k + 1] == [s[0]] + s[1..][..k];
      k := k + 1;
    }
  }

  /** A name that no smaller name reaches is entered before the rest of its component. */
  lemma LeastEntersFirst(schemas: seq<Schema>, x: string) returns (i: nat)
    requires x in Names(schemas) && NoSmallerReaches(ByName(schemas), x)
    ensures i < |EntryOrder(schemas)| && EntryOrder(schemas)[i] == x
    ensures forall z :: z in EntryOrder(schemas)[..i] ==> !Reaches(ByName(schemas), z, x, {})
  {
    hide Reaches, Sort, LexLe, ByName, Keys, Explore, Good, Closed;
    var g := ByName(schemas);
    var smaller, others := RootsBefore(schemas, x);
    EnteredSplit(g, START, smaller, [x] + others);
    NoneBefore(schemas, x, smaller);
    var st, before := ExploreAll(g, START, smaller), EnteredAll(g, START, smaller);
    assert EnteredAll(g, st, [x] + others)[0] == x;
    i := |before|;
    assert EntryOrder(schemas)[..i] == before;
  }

  lemma NoneBefore(schemas: seq<Schema>, x: string, smaller: seq<string>)
    requires x in Names(schemas) && NoSmallerReaches(ByName(schemas), x)
    requires forall d :: d in smaller ==> d in ByName(schemas) && d != x && LexLe(d, x)
    ensures forall z :: z in EnteredAll(ByName(schemas), START, smaller) ==> !Reaches(ByName(schemas), z, x, {})
    ensures x in ByName(schemas)
    ensures var st := ExploreAll(ByName(schemas), START, smaller); x !in st.visited && x !in st.onStack
  {
    hide Reaches, Sort, LexLe, ByName, Good, Closed, ExploreAll, EnteredAll;
    var g := ByName(schemas);
    KeysAreNames(schemas);
    StartIsGood(g);
    EnteredAllFacts(g, START, smaller);
    forall z | z in EnteredAll(g, START, smaller) ensures !Reaches(g, z, x, {}) {
      var d :| d in smaller && d in g && Reaches(g, d, z, START.visited + START.onStack);
      assert START.visited + START.onStack == {};
      NotThrough(g, d, z, x);
    }
    SelfReaches(g, x);
  }

  lemma SelfReaches(g: Graph, x: string)
    ensures Reaches(g, x, x, {})
  {
    assert PathBetween(g, [x], x, x);
  }

  lemma NotThrough(g: Graph, x: string, y: string, z: string)
    requires Reaches(g, x, y, {}) && !Reaches(g, x, z, {})
    ensures !Reaches(g, y, z, {})
  {
    if Reaches(g, y, z, {}) { Through(g, x, y, z); }
  }

  /**
   Contrary to the function's documentation: when no smaller name reaches x, all other members of its cycle are emitted
   before x, although x is the least of them.
   */
  lemma LeastComesLast(schemas: seq<Schema>, x: string, y: string)
    requires x in Names(schemas) && x != y && SameComponent(ByName(schemas), x, y)
    requires NoSmallerReaches(ByName(schemas), x)
    ensures LexLe(x, y) && Before(Names(Walk(schemas).result), y, x)
  {
    hide Reaches;
    var i := LeastEntersFirst(schemas, x);
    LexTotal(x, y);
    InGraph(schemas, y, x);
    FirstEnteredLast(schemas, i, y);
  }

  lemma InGraph(schemas: seq<Schema>, y: string, x: string)
    requires y != x && Reaches(ByName(schemas), y, x, {})
    ensures y in ByName(schemas)
  {
    var p :| PathBetween(ByName(schemas), p, y, x);
    assert Edge(ByName(schemas), p[0], p[1]);
  }

  // ---------- cycles that do come out alphabetically ----------

  /** A name is entered over a path of names entered before it. */
  lemma {:induction false} EnteredPast(g: Graph, st: Dfs, name: string, j: nat, y: string)
    requires j < |Entered(g, st, name)| && y !in Entered(g, st, name)[..j + 1]
    ensures Reaches(g, name, Entered(g, st, name)[j], {y})
    decreases Fresh(g, st), 0
  {
    hide Reaches, Sort;
    var e, st', deps := Entered(g, st, name), st.(onStack := st.onStack + {name}), Sort(LexLe, g[name].references);
    assert e[..j + 1][0] == name;
    if j == 0 {
      AloneReaches(g, name, y);
    } else {
      assert e[..j + 1] == [name] + EnteredAll(g, st', deps)[..j];
      var d := EnteredAllPast(g, st', deps, j - 1, y);
      SortMembers(LexLe, g[name].references);
      Longer(g, name, d, e[j], {y}, {y});
    }
  }

  lemma AloneReaches(g: Graph, x: string, y: string)
    requires x != y
    ensures Reaches(g, x, x, {y})
  {
    assert PathBetween(g, [x], x, x);
  }

  lemma {:induction false} EnteredAllPast(g: Graph, st: Dfs, names: seq<string>, j: nat, y: string) returns (d: string)
    requires j < |EnteredAll(g, st, names)| && y !in EnteredAll(g, st, names)[..j + 1]
    ensures d in names && d in g && Reaches(g, d, EnteredAll(g, st, names)[j], {y})
    decreases Fresh(g, st), |names| + 1
  {
    hide Reaches, Entered, Explore;
    if names[0] !in g {
      d := EnteredAllPast(g, st, names[1..], j, y);
    } else {
      var e1, next := Entered(g, st, names[0]), Explore(g, st, names[0]);
      var e := EnteredAll(g, st, names);
      if j < |e1| {
        assert e[..j + 1] == e1[..j + 1];
        EnteredPast(g, st, names[0], j, y);
        d := names[0];
      } else {
        assert e[..j + 1] == e1 + EnteredAll(g, next, names[1..])[..j + 1 - |e1|];
        d := EnteredAllPast(g, next, names[1..], j - |e1|, y);
      }
    }
  }

  /**
   Two schemas that refer to each other come out alphabetically when smaller names do reach the lesser one, but only
   through the greater one.
   */
  lemma ReachedThroughTheGreater(schemas: seq<Schema>, x: string, y: string)
    requires x != y && Edge(ByName(schemas), x, y) && Edge(ByName(schemas), y, x)
    requires !NoSmallerReaches(ByName(schemas), x)
    requires forall n :: n in ByName(schemas) && n != x && LexLe(n, x) ==> !Reaches(ByName(schemas), n, x, {y})
    ensures Before(Names(Walk(schemas).result), x, y)
  {
    hide Reaches, Sort, LexLe, ByName, Keys, ExploreAll, EnteredAll;
    var g := ByName(schemas);
    KeysAreNames(schemas);
    var smaller, others := RootsBefore(schemas, x);
    EnteredSplit(g, START, smaller, [x] + others);
    var before := EnteredAll(g, START, smaller);
    ReachedIsEntered(schemas, smaller, x);
    var j :| 0 <= j < |before| && before[j] == x;
    if y !in before[..j + 1] {
      var d := EnteredAllPast(g, START, smaller, j, y);
      assert false;
    }
    var k :| 0 <= k < j + 1 && before[..j + 1][k] == y;
    assert EntryOrder(schemas)[k] == y && EntryOrder(schemas)[j] == x;
    MutualPairIff(schemas, x, y);
  }

  lemma ReachedIsEntered(schemas: seq<Schema>, roots: seq<string>, x: string)
    requires exists n :: n in roots && n in ByName(schemas) && Reaches(ByName(schemas), n, x, {})
    ensures x in EnteredAll(ByName(schemas), START, roots)
  {
    hide Sort, Good, Closed, ByName, ExploreAll, EnteredAll, IsPath;
    var g := ByName(schemas);
    KeysAreNames(schemas);
    StartIsGood(g);
    ExploreAllGood(g, START, roots);
    EnteredAllFacts(g, START, roots);
    var n :| n in roots && n in g && Reaches(g, n, x, {});
    var p :| PathBetween(g, p, n, x);
    StaysInside(g, ExploreAll(g, START, roots), p);
  }

  lemma TwoSchemas(a: Schema, b: Schema)
    requires LexLe(a.emittedName, b.emittedName) && a.emittedName != b.emittedName
    ensures var x, y := a.emittedName, b.emittedName;
      && ByName([a, b]) == map[x := a, y := b]
      && Sort(LexLe, Keys([a, b])) == [x, y] && Sort(LexLe, [x]) == [x] && Sort(LexLe, [y]) == [y]
  {
    var x, y := a.emittedName, b.emittedName;
    assert [a, b][..1] == [a] && [a][..0] == [];
    NoSchemas();
    assert ByName([a]) == map[x := a] && Keys([a]) == [x];
    assert Keys([a, b]) == [x, y];
    assert Sort(LexLe, [y]) == [y] && [x, y][1..] == [y];
  }

  /** The smallest case: two schemas, the lesser name first in the alphabet and last in the output. */
  lemma TwoSchemaCycle(x: string, y: string, ex: string, ey: string)
    requires LexLe(x, y) && x != y
    ensures var a, b := Schema(x, [y], ex), Schema(y, [x], ey);
      Walk([a, b]).result == [b, a] && Walk([a, b]).cycles == [x]
  {
    hide Sort, LexLe, ByName, Keys;
    var a, b := Schema(x, [y], ex), Schema(y, [x], ey);
    var g := map[x := a, y := b];
    TwoSchemas(a, b);
    InnerVisit(g, a, b);
    var s1 := START.(onStack := {x});
    var s4, s5 := Dfs({y}, {x}, [b], [x]), Dfs({x, y}, {}, [b, a], [x]);
    assert Explore(g, s1, y) == s4;
    assert ExploreAll(g, s4, []) == s4;
    assert [y][1..] == [] && [y][0] in g && ExploreAll(g, s1, [y]) == ExploreAll(g, s4, []) == s4;
    assert s4.onStack - {x} == {} && START.(onStack := START.onStack + {x}) == s1;
    assert s4.visited + {x} == {x, y} && s4.result + [a] == [b, a];
    assert Explore(g, START, x) == s5;
    assert [x, y][1..] == [y] && ExploreAll(g, START, [x, y]) == ExploreAll(g, s5, [y]) == ExploreAll(g, s5, []) == s5;
  }

  lemma InnerVisit(g: Graph, a: Schema, b: Schema)
    requires a.emittedName != b.emittedName && g == map[a.emittedName := a, b.emittedName := b]
    requires b.references == [a.emittedName] && Sort(LexLe, [a.emittedName]) == [a.emittedName]
    ensures var x, y := a.emittedName, b.emittedName;
      Explore(g, START.(onStack := {x}), y) == Dfs({y}, {x}, [b], [x])
  {
    hide Sort;
    var x, y := a.emittedName, b.emittedName;
    var s1 := START.(onStack := {x});
    var s2 := s1.(onStack := {x, y});
    var s3 := s2.(cycles := [x]);
    assert Explore(g, s2, x) == s3;
    assert [x][1..] == [] && ExploreAll(g, s2, [x]) == ExploreAll(g, s3, []) == s3;
    assert s1.onStack + {y} == s2.onStack && s3.onStack - {y} == {x};
  }
}
