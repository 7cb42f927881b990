/**
 Schema ordering of the code generator (codegen/generate.ts, topoSort): a depth-first walk over
 the reference graph that logs a name whenever it meets it again on its own stack.
 */
module SchemaOrder {
  import opened Ordering

  /** What topoSort reads of a per-schema result, with the emitted expression as its payload. */
  datatype Schema = Schema(emittedName: string, references: seq<string>, expression: string)

  type Graph = map<string, Schema>

  datatype Dfs = Dfs(visited: set<string>, onStack: set<string>, result: seq<Schema>, cycles: seq<string>)

  const START := Dfs({}, {}, [], [])

  // ---------- specification functions ----------

  /** The name table: a later schema replaces an earlier one of the same name. */
  function ByName(schemas: seq<Schema>): Graph {
    if schemas == [] then map[]
    else
      var last := schemas[|schemas| - 1];
      ByName(schemas[..|schemas| - 1])[last.emittedName := last]
  }

  /** The table's keys in insertion order. */
  function Keys(schemas: seq<Schema>): seq<string> {
    if schemas == [] then []
    else
      var ks, n := Keys(schemas[..|schemas| - 1]), schemas[|schemas| - 1].emittedName;
      if n in ks then ks else ks + [n]
  }

  /** The names the walk has neither finished nor entered. */
  function Fresh(g: Graph, st: Dfs): set<string> {
    g.Keys - st.visited - st.onStack
  }

  function Explore(g: Graph, st: Dfs, name: string): (r: Dfs)
    ensures st.visited <= r.visited && r.onStack == st.onStack
    decreases Fresh(g, st), 0
  {
    if name in st.visited then st
    else if name in st.onStack then st.(cycles := st.cycles + [name])
    else if name in g then
      var inner := ExploreAll(g, st.(onStack := st.onStack + {name}), Sort(LexLe, g[name].references));
      inner.(visited := inner.visited + {name}, result := inner.result + [g[name]],
             onStack := inner.onStack - {name})
    else st.(visited := st.visited + {name})
  }

  function ExploreAll(g: Graph, st: Dfs, names: seq<string>): (r: Dfs)
    ensures st.visited <= r.visited && r.onStack == st.onStack
    decreases Fresh(g, st), |names| + 1
  {
    if names == [] then st
    else ExploreAll(g, if names[0] in g then Explore(g, st, names[0]) else st, names[1..])
  }

  /** The names a visit enters, in the order it enters them. */
  function Entered(g: Graph, st: Dfs, name: string): seq<string>
    decreases Fresh(g, st), 0
  {
    if name in st.visited || name in st.onStack || name !in g then []
    else [name] + EnteredAll(g, st.(onStack := st.onStack + {name}), Sort(LexLe, g[name].references))
  }

  function EnteredAll(g: Graph, st: Dfs, names: seq<string>): seq<string>
    decreases Fresh(g, st), |names| + 1
  {
    if names == [] then []
    else if names[0] in g then Entered(g, st, names[0]) + EnteredAll(g, Explore(g, st, names[0]), names[1..])
    else EnteredAll(g, st, names[1..])
  }

  /** The whole walk, from the sorted names. */
  function Walk(schemas: seq<Schema>): Dfs {
    ExploreAll(ByName(schemas), START, Sort(LexLe, Keys(schemas)))
  }

  /** The names in the order the walk enters them. */
  function EntryOrder(schemas: seq<Schema>): seq<string> {
    EnteredAll(ByName(schemas), START, Sort(LexLe, Keys(schemas)))
  }

  /** One round of the loop over the names. */
  lemma NextName(g: Graph, st: Dfs, names: seq<string>, i: nat)
    requires i < |names|
    ensures var next := if names[i] in g then Explore(g, st, names[i]) else st;
      && ExploreAll(g, st, names[i..]) == ExploreAll(g, next, names[i + 1..])
      && EnteredAll(g, st, names[i..])
         == (if names[i] in g then Entered(g, st, names[i]) else []) + EnteredAll(g, next, names[i + 1..])
  {
    hide Explore, Entered;
    assert names[i..][0] == names[i] && names[i..][1..] == names[i + 1..];
  }

  lemma NoName(g: Graph, st: Dfs, names: seq<string>)
    ensures ExploreAll(g, st, names[|names|..]) == st && EnteredAll(g, st, names[|names|..]) == []
  {
  }

  // ---------- the algorithm ----------

  class DepthFirst {
    const byName: Graph
    var visited: set<string>
    var onStack: set<string>
    var result: seq<Schema>
    var cycles: seq<string>
    ghost var entered: seq<string>

    constructor (byName: Graph)
      ensures this.byName == byName && State() == START && entered == []
    {
      this.byName := byName;
      visited, onStack, result, cycles := {}, {}, [], [];
      entered := [];
    }

    function State(): Dfs
      reads this
    {
      Dfs(visited, onStack, result, cycles)
    }

    method Visit(name: string)
      modifies this
      ensures State() == Explore(byName, old(State()), name)
      ensures entered == old(entered) + Entered(byName, old(State()), name)
      decreases Fresh(byName, State()), 0
    {
      hide Sort, ExploreAll, EnteredAll;
      if name in visited {
        return;
      }
      if name in onStack {
        cycles := cycles + [name];
        return;
      }
      onStack := onStack + {name};
      if name in byName {
        entered := entered + [name];
        var s := byName[name];
        var deps := Sort(LexLe, s.references);
        ghost var entry, before := State(), entered;
        assert deps[0..] == deps;
        assert Entered(byName, old(State()), name) == [name] + EnteredAll(byName, entry, deps);
        var i := 0;
        while i < |deps|
          invariant 0 <= i <= |deps|
          invariant ExploreAll(byName, entry, deps) == ExploreAll(byName, State(), deps[i..])
          invariant before + EnteredAll(byName, entry, deps) == entered + EnteredAll(byName, State(), deps[i..])
          invariant Fresh(byName, State()) <= Fresh(byName, entry)
        {
          NextName(byName, State(), deps, i);
          if deps[i] in byName {
            Visit(deps[i]);
          }
          i := i + 1;
        }
        NoName(byName, State(), deps);
        assert before + EnteredAll(byName, entry, deps) == old(entered) + ([name] + EnteredAll(byName, entry, deps));
        visited := visited + {name};
        result := result + [s];
      } else {
        visited := visited + {name};
      }
      onStack := onStack - {name};
    }
  }

  lemma NoSchemas()
    ensures ByName([]) == map[] && Keys([]) == []
  {
  }

  lemma NextSchema(schemas: seq<Schema>, i: nat)
    requires i < |schemas|
    ensures var ks, n := Keys(schemas[..i]), schemas[i].emittedName;
      && ByName(schemas[..i + 1]) == ByName(schemas[..i])[n := schemas[i]]
      && Keys(schemas[..i + 1]) == if n in ks then ks else ks + [n]
  {
    assert schemas[..i + 1][..i] == schemas[..i];
  }

  lemma RootsAreKnown(schemas: seq<Schema>)
    ensures forall n :: n in Sort(LexLe, Keys(schemas)) ==> n in ByName(schemas)
  {
    KeysAreNames(schemas);
    SortMembers(LexLe, Keys(schemas));
  }

  method TopoSort(schemas: seq<Schema>) returns (result: seq<Schema>, cycles: seq<string>, ghost entered: seq<string>)
    ensures result == Walk(schemas).result && cycles == Walk(schemas).cycles
    ensures entered == EntryOrder(schemas)
  {
    hide Sort, ByName, Keys, Explore, Entered, ExploreAll, EnteredAll;
    NoSchemas();
    var byName: Graph, keys: seq<string> := map[], [];
    for i := 0 to |schemas|
      invariant byName == ByName(schemas[..i]) && keys == Keys(schemas[..i])
    {
      NextSchema(schemas, i);
      var n := schemas[i].emittedName;
      keys := if n in keys then keys else keys + [n];
      byName := byName[n := schemas[i]];
    }
    assert schemas[..|schemas|] == schemas;
    var dfs := new DepthFirst(byName);
    var allNames := Sort(LexLe, keys);
    RootsAreKnown(schemas);
    assert allNames[0..] == allNames;
    for i := 0 to |allNames|
      invariant dfs.byName == byName
      invariant Walk(schemas) == ExploreAll(byName, dfs.State(), allNames[i..])
      invariant EntryOrder(schemas) == dfs.entered + EnteredAll(byName, dfs.State(), allNames[i..])
    {
      NextName(byName, dfs.State(), allNames, i);
      dfs.Visit(allNames[i]);
    }
    NoName(byName, dfs.State(), allNames);
    result, cycles, entered := dfs.result, dfs.cycles, dfs.entered;
  }

  // ---------- graph notions ----------

  ghost predicate Edge(g: Graph, a: string, b: string) {
    a in g && b in g && b in g[a].references
  }

  ghost predicate IsPath(g: Graph, p: seq<string>) {
    forall i :: 0 <= i < |p| - 1 ==> Edge(g, p[i], p[i + 1])
  }

  /** A self-reference is a cycle of length one. */
  ghost predicate IsCycle(g: Graph, p: seq<string>) {
    |p| >= 2 && p[0] == p[|p| - 1] && IsPath(g, p)
  }

  ghost predicate OnCycle(g: Graph, c: string) {
    exists p :: IsCycle(g, p) && p[0] == c
  }

  ghost predicate Acyclic(g: Graph) {
    forall p :: !IsCycle(g, p)
  }

  ghost predicate WellKeyed(g: Graph) {
    forall n :: n in g ==> g[n].emittedName == n
  }

  function Names(result: seq<Schema>): seq<string> {
    seq(|result|, i requires 0 <= i < |result| => result[i].emittedName)
  }

  ghost predicate Distinct<T>(s: seq<T>) {
    forall i, j :: 0 <= i < j < |s| ==> s[i] != s[j]
  }

  /** Every known reference of an emitted schema was emitted before it, or was logged as closing a cycle. */
  ghost predicate PrecedeOrLogged(g: Graph, result: seq<Schema>, cycles: seq<string>) {
    forall i, d :: 0 <= i < |result| && d in result[i].references && d in g ==>
      d in Names(result[..i]) || d in cycles
  }

  ghost predicate Good(g: Graph, st: Dfs) {
    && WellKeyed(g)
    && st.visited <= g.Keys && st.visited !! st.onStack
    && Distinct(Names(st.result))
    && (forall n :: n in st.visited <==> n in Names(st.result))
    && (forall s :: s in st.result ==> s.emittedName in g && s == g[s.emittedName])
    && PrecedeOrLogged(g, st.result, st.cycles)
  }

  // ---------- lemmas about the name table ----------

  lemma {:induction false} KeysAreNames(schemas: seq<Schema>)
    ensures Distinct(Keys(schemas)) && WellKeyed(ByName(schemas))
    ensures forall n :: n in Keys(schemas) <==> n in ByName(schemas)
    ensures forall n :: n in ByName(schemas) <==> n in Names(schemas)
    ensures forall n :: n in ByName(schemas) ==> ByName(schemas)[n] in schemas
  {
    if schemas != [] {
      var front, last := schemas[..|schemas| - 1], schemas[|schemas| - 1];
      KeysAreNames(front);
      assert schemas == front + [last] && Names(schemas) == Names(front) + [last.emittedName];
    }
  }

  lemma DistinctSameMembers(a: seq<string>, b: seq<string>)
    requires Distinct(a) && Distinct(b)
    requires forall x :: x in a <==> x in b
    ensures multiset(a) == multiset(b)
  {
    forall x ensures multiset(a)[x] == multiset(b)[x] {
      DistinctCount(a, x);
      DistinctCount(b, x);
    }
  }

  lemma {:induction false} DistinctCount(a: seq<string>, x: string)
    requires Distinct(a)
    ensures multiset(a)[x] == if x in a then 1 else 0
  {
    if a != [] {
      assert a == [a[0]] + a[1..];
      DistinctCount(a[1..], x);
    }
  }

  // ---------- invariants of the walk ----------

  lemma {:induction false} ExploreGood(g: Graph, st: Dfs, name: string)
    requires Good(g, st) && name in g
    ensures var r := Explore(g, st, name);
      && Good(g, r) && st.result <= r.result && st.cycles <= r.cycles
      && (name in r.visited || (name in st.onStack && name in r.cycles))
    decreases Fresh(g, st), 0
  {
    if name !in st.visited && name !in st.onStack {
      var deps := Sort(LexLe, g[name].references);
      var inner := ExploreAll(g, st.(onStack := st.onStack + {name}), deps);
      ExploreAllGood(g, st.(onStack := st.onStack + {name}), deps);
      SortMembers(LexLe, g[name].references);
      var r := Explore(g, st, name);
      assert r.result[..|inner.result|] == inner.result;
      assert Names(r.result) == Names(inner.result) + [name];
      forall i, d | 0 <= i < |r.result| && d in r.result[i].references && d in g
        ensures d in Names(r.result[..i]) || d in r.cycles
      {
        if i < |inner.result| {
          assert r.result[..i] == inner.result[..i];
        } else {
          assert d in deps;
        }
      }
    }
  }

  lemma {:induction false} ExploreAllGood(g: Graph, st: Dfs, names: seq<string>)
    requires Good(g, st)
    ensures var r := ExploreAll(g, st, names);
      && Good(g, r) && st.result <= r.result && st.cycles <= r.cycles
      && (forall n :: n in names && n in g ==> n in r.visited || (n in st.onStack && n in r.cycles))
    decreases Fresh(g, st), |names| + 1
  {
    if names != [] {
      if names[0] in g { ExploreGood(g, st, names[0]); }
      ExploreAllGood(g, if names[0] in g then Explore(g, st, names[0]) else st, names[1..]);
    }
  }

  ghost predicate StackPath(g: Graph, st: Dfs, path: seq<string>) {
    IsPath(g, path) && forall n :: n in st.onStack <==> n in path
  }

  lemma {:induction false} ExploreLogsCycles(g: Graph, st: Dfs, name: string, path: seq<string>)
    requires StackPath(g, st, path) && name in g
    requires path != [] ==> Edge(g, path[|path| - 1], name)
    ensures forall c :: c in Explore(g, st, name).cycles ==> c in st.cycles || OnCycle(g, c)
    decreases Fresh(g, st), 0
  {
    if name in st.visited {
    } else if name in st.onStack {
      var k :| 0 <= k < |path| && path[k] == name;
      assert IsCycle(g, path[k..] + [name]);
    } else {
      SortMembers(LexLe, g[name].references);
      ExploreAllLogsCycles(g, st.(onStack := st.onStack + {name}), Sort(LexLe, g[name].references), path + [name]);
    }
  }

  lemma {:induction false} ExploreAllLogsCycles(g: Graph, st: Dfs, names: seq<string>, path: seq<string>)
    requires StackPath(g, st, path)
    requires path != [] ==> forall n :: n in names && n in g ==> Edge(g, path[|path| - 1], n)
    ensures forall c :: c in ExploreAll(g, st, names).cycles ==> c in st.cycles || OnCycle(g, c)
    decreases Fresh(g, st), |names| + 1
  {
    if names != [] {
      if names[0] in g { ExploreLogsCycles(g, st, names[0], path); }
      ExploreAllLogsCycles(g, if names[0] in g then Explore(g, st, names[0]) else st, names[1..], path);
    }
  }

  // ---------- main results ----------

  lemma WalkGood(schemas: seq<Schema>)
    ensures Good(ByName(schemas), Walk(schemas))
    ensures forall c :: c in Walk(schemas).cycles ==> OnCycle(ByName(schemas), c)
    ensures Walk(schemas).visited == ByName(schemas).Keys
  {
    KeysAreNames(schemas);
    SortMembers(LexLe, Keys(schemas));
    ExploreAllGood(ByName(schemas), START, Sort(LexLe, Keys(schemas)));
    ExploreAllLogsCycles(ByName(schemas), START, Sort(LexLe, Keys(schemas)), []);
  }

  /** Cyclic or not, every name of the input is emitted once, as the last schema that carries it. */
  lemma EmitsEachNameOnce(schemas: seq<Schema>)
    ensures var names := Names(Walk(schemas).result);
      && Distinct(names) && (forall n :: n in names <==> n in Names(schemas))
    ensures forall s :: s in Walk(schemas).result ==>
      exists k :: 0 <= k < |schemas| && s == schemas[k] && s.emittedName !in Names(schemas[k + 1..])
  {
    WalkGood(schemas);
    KeysAreNames(schemas);
    forall s | s in Walk(schemas).result
      ensures exists k :: 0 <= k < |schemas| && s == schemas[k] && s.emittedName !in Names(schemas[k + 1..])
    {
      var k := LastNamed(schemas, s.emittedName);
    }
  }

  lemma {:induction false} LastNamed(schemas: seq<Schema>, n: string) returns (k: nat)
    requires n in ByName(schemas)
    ensures k < |schemas| && schemas[k] == ByName(schemas)[n] && n !in Names(schemas[k + 1..])
    ensures n == schemas[k].emittedName
  {
    var front, last := schemas[..|schemas| - 1], schemas[|schemas| - 1];
    if last.emittedName == n {
      k := |schemas| - 1;
    } else {
      k := LastNamed(front, n);
      assert schemas[k + 1..] == front[k + 1..] + [last];
      assert Names(schemas[k + 1..]) == Names(front[k + 1..]) + [last.emittedName];
    }
  }

  /** Dependencies first, except along references whose target was logged. */
  lemma ReferencesPrecede(schemas: seq<Schema>, i: nat, d: string)
    requires i < |Walk(schemas).result|
    requires d in Walk(schemas).result[i].references && d in Names(schemas)
    ensures d in Walk(schemas).cycles || d in Names(Walk(schemas).result[..i])
  {
    WalkGood(schemas);
    KeysAreNames(schemas);
  }

  lemma {:induction false} PathDescends(schemas: seq<Schema>, p: seq<string>, lo: nat, hi: nat)
    requires p != [] && IsPath(ByName(schemas), p)
    requires forall i :: 0 < i < |p| ==> p[i] !in Walk(schemas).cycles
    requires lo < |Walk(schemas).result| && Walk(schemas).result[lo].emittedName == p[|p| - 1]
    requires hi < |Walk(schemas).result| && Walk(schemas).result[hi].emittedName == p[0]
    ensures if |p| == 1 then lo == hi else lo < hi
  {
    WalkGood(schemas);
    KeysAreNames(schemas);
    var result := Walk(schemas).result;
    if |p| == 1 {
      assert Names(result)[lo] == Names(result)[hi];
    } else {
      assert Edge(ByName(schemas), p[0], p[1]);
      assert result[hi] in result;
      ReferencesPrecede(schemas, hi, p[1]);
      var k :| 0 <= k < hi && Names(result[..hi])[k] == p[1];
      forall i | 0 <= i < |p[1..]| - 1 ensures Edge(ByName(schemas), p[1..][i], p[1..][i + 1]) {
        assert Edge(ByName(schemas), p[i + 1], p[i + 2]);
      }
      PathDescends(schemas, p[1..], lo, k);
    }
  }

  /** The logged names lie on cycles, and every cycle contains one of them. */
  lemma LoggedNamesCutEveryCycle(schemas: seq<Schema>)
    ensures forall c :: c in Walk(schemas).cycles ==> OnCycle(ByName(schemas), c)
    ensures forall p :: IsCycle(ByName(schemas), p) ==> exists i :: 0 <= i < |p| && p[i] in Walk(schemas).cycles
  {
    WalkGood(schemas);
    var result := Walk(schemas).result;
    forall p | IsCycle(ByName(schemas), p)
      ensures exists i :: 0 <= i < |p| && p[i] in Walk(schemas).cycles
    {
      if forall i :: 0 <= i < |p| ==> p[i] !in Walk(schemas).cycles {
        assert Edge(ByName(schemas), p[0], p[1]);
        assert p[0] in Walk(schemas).visited && p[0] in Names(result);
        var k :| 0 <= k < |result| && Names(result)[k] == p[0];
        PathDescends(schemas, p, k, k);
        assert false;
      }
    }
  }

  /** The warning fires exactly when the graph restricted to known names has a cycle. */
  lemma CyclesLoggedIffCyclic(schemas: seq<Schema>)
    ensures Walk(schemas).cycles == [] <==> Acyclic(ByName(schemas))
  {
    LoggedNamesCutEveryCycle(schemas);
    if Walk(schemas).cycles != [] {
      assert Walk(schemas).cycles[0] in Walk(schemas).cycles;
    }
  }

  /** Without a cycle the output is a topological order. */
  lemma AcyclicIsTopological(schemas: seq<Schema>, i: nat, d: string)
    requires Acyclic(ByName(schemas)) && i < |Walk(schemas).result|
    requires d in Walk(schemas).result[i].references && d in Names(schemas)
    ensures d in Names(Walk(schemas).result[..i])
  {
    CyclesLoggedIffCyclic(schemas);
    ReferencesPrecede(schemas, i, d);
  }

  lemma {:induction false} ByNameOfDistinct(schemas: seq<Schema>, s: Schema)
    requires Distinct(Names(schemas)) && s in schemas
    ensures s.emittedName in ByName(schemas) && ByName(schemas)[s.emittedName] == s
  {
    var front, last := schemas[..|schemas| - 1], schemas[|schemas| - 1];
    assert schemas == front + [last] && Names(schemas) == Names(front) + [last.emittedName];
    if s != last {
      assert s in front;
      var k :| 0 <= k < |front| && front[k] == s;
      assert Names(schemas)[k] == s.emittedName && Names(schemas)[|front|] == last.emittedName;
      assert forall i :: 0 <= i < |front| ==> Names(front)[i] == Names(schemas)[i];
      ByNameOfDistinct(front, s);
    }
  }

  lemma TableForgetsOrder(a: seq<Schema>, b: seq<Schema>)
    requires multiset(a) == multiset(b) && Distinct(Names(a)) && Distinct(Names(b))
    ensures ByName(a) == ByName(b)
  {
    KeysAreNames(a);
    KeysAreNames(b);
    forall n | n in ByName(a) ensures n in ByName(b) && ByName(b)[n] == ByName(a)[n] {
      TableEntry(a, b, n);
    }
    forall n | n in ByName(b) ensures n in ByName(a) {
      TableEntry(b, a, n);
    }
  }

  lemma TableEntry(a: seq<Schema>, b: seq<Schema>, n: string)
    requires multiset(a) == multiset(b) && Distinct(Names(b)) && n in ByName(a)
    ensures n in ByName(b) && ByName(b)[n] == ByName(a)[n]
  {
    var k := LastNamed(a, n);
    assert a[k] in multiset(b);
    ByNameOfDistinct(b, a[k]);
  }

  /** For distinct names, neither the output nor the cycle log depends on the order of the input. */
  lemma InputOrderIrrelevant(a: seq<Schema>, b: seq<Schema>)
    requires multiset(a) == multiset(b) && Distinct(Names(a)) && Distinct(Names(b))
    ensures Walk(a) == Walk(b)
  {
    TableForgetsOrder(a, b);
    KeysAreNames(a);
    KeysAreNames(b);
    DistinctSameMembers(Keys(a), Keys(b));
    SortStringsForgetsOrder(Keys(a), Keys(b));
  }
}
