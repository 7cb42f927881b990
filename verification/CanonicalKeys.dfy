/** Giving every extracted schema a key of its own (codegen/extract.ts, canonicalize). */
module CanonicalKeys {
  import opened Prelude

  /** An extracted schema; a missing literal or name is None. */
  datatype Schema = Schema(bindingName: Option<string>, kind: string, typeLiteral: Option<string>,
                           subtypeLiteral: Option<string>, fields: seq<Field>, enumValues: Option<seq<string>>,
                           bodyLen: nat, body: string)

  datatype Discriminant = Subtype(value: string) | Type(value: string) | Anonymous

  datatype Entry = Entry(canonicalKey: string, discriminant: Discriminant, schemaKind: string, fieldNames: seq<string>,
                         fields: seq<Field>, enumValues: Option<Option<seq<string>>>, bodyLen: nat,
                         minifiedIdThisVersion: Option<string>)

  /** The hash of a schema body with its minified names blanked out. */
  type Hash = string -> string

  /** The source treats the empty string like a missing one. */
  predicate Present(x: Option<string>) { x.Some? && x.value != "" }

  function BaseKey(s: Schema, hash: Hash): string {
    if Present(s.typeLiteral) && Present(s.subtypeLiteral) then "type/" + s.typeLiteral.value + "+subtype/" + s.subtypeLiteral.value
    else if Present(s.subtypeLiteral) then "subtype/" + s.subtypeLiteral.value
    else if Present(s.typeLiteral) then "type/" + s.typeLiteral.value
    else "anon/" + hash(s.body)
  }

  function DiscriminantOf(s: Schema): Discriminant {
    if Present(s.subtypeLiteral) then Subtype(s.subtypeLiteral.value)
    else if Present(s.typeLiteral) then Type(s.typeLiteral.value)
    else Anonymous
  }

  /** The entry made for a schema under the key it was given. */
  function EntryOf(s: Schema, key: string): Entry {
    Entry(key, DiscriminantOf(s), s.kind, Map(s.fields, (f: Field) => f.name), s.fields,
          if s.kind == "enum" then Some(s.enumValues) else None, s.bodyLen, s.bindingName)
  }

  // ---------- numbered keys ----------

  function Digits(n: nat): string {
    if n < 10 then [('0' as int + n) as char] else Digits(n / 10) + [('0' as int + n % 10) as char]
  }

  function ValueOf(s: string): int {
    if s == "" then 0 else 10 * ValueOf(s[..|s| - 1]) + (s[|s| - 1] as int - '0' as int)
  }

  lemma {:induction false} DigitsReadBack(n: nat)
    ensures ValueOf(Digits(n)) == n && forall i :: 0 <= i < |Digits(n)| ==> Digits(n)[i] != '#'
  {
    if n >= 10 {
      DigitsReadBack(n / 10);
      assert Digits(n)[..|Digits(n)| - 1] == Digits(n / 10);
    } else {
      assert Digits(n)[..0] == "";
    }
  }

  /** The key a schema tries at its n-th attempt. */
  function Numbered(key: string, n: nat): string {
    if n <= 1 then key else key + "#" + Digits(n)
  }

  lemma NumberedIs(key: string, n: nat)
    ensures Numbered(key, n) == if n <= 1 then key else key + "#" + Digits(n)
  {
  }

  lemma NumberedShape(key: string, n: nat)
    ensures n <= 1 ==> Numbered(key, n) == key
    ensures n > 1 ==> |Numbered(key, n)| > |key| && Numbered(key, n)[|key|] == '#' && Numbered(key, n)[|key| + 1..] == Digits(n)
  {
  }

  lemma NumberedInjective(key: string, m: nat, n: nat)
    requires 1 <= m && 1 <= n && Numbered(key, m) == Numbered(key, n)
    ensures m == n
  {
    hide Numbered, Digits;
    DigitsReadBack(m);
    DigitsReadBack(n);
    NumberedShape(key, m);
    NumberedShape(key, n);
  }

  /** The first attempt from the n-th on that is not used yet. */
  function FirstFree(used: set<string>, key: string, n: nat): nat
    decreases |used|
  {
    if Numbered(key, n) !in used then n else FirstFree(used - {Numbered(key, n)}, key, n + 1)
  }

  lemma {:induction false} FirstFreeIsFirst(used: set<string>, key: string, n: nat)
    requires n >= 1
    ensures var r := FirstFree(used, key, n);
      r >= n && Numbered(key, r) !in used && forall m :: n <= m < r ==> Numbered(key, m) in used
    decreases |used|
  {
    var k := Numbered(key, n);
    if k in used {
      FirstFreeIsFirst(used - {k}, key, n + 1);
      var r := FirstFree(used, key, n);
      if Numbered(key, r) == k { NumberedInjective(key, r, n); }
    }
  }

  lemma FirstFreeIsUnique(used: set<string>, key: string, r: nat)
    requires r >= 1 && Numbered(key, r) !in used && forall m :: 1 <= m < r ==> Numbered(key, m) in used
    ensures FirstFree(used, key, 1) == r
  {
    FirstFreeIsFirst(used, key, 1);
  }

  // ---------- the keys of a list of schemas ----------

  ghost function Used(keys: seq<string>): set<string> {
    set k | k in keys
  }

  ghost function Keys(schemas: seq<Schema>, hash: Hash): (r: seq<string>)
    ensures |r| == |schemas|
  {
    if schemas == [] then []
    else
      var n := |schemas| - 1;
      var before, key := Keys(schemas[..n], hash), BaseKey(schemas[n], hash);
      before + [Numbered(key, FirstFree(Used(before), key, 1))]
  }

  /** The table of entries, one schema after the other. */
  ghost function Table(schemas: seq<Schema>, hash: Hash): map<string, Entry> {
    if schemas == [] then map[]
    else
      var n := |schemas| - 1;
      var key := Keys(schemas, hash)[n];
      Table(schemas[..n], hash)[key := EntryOf(schemas[n], key)]
  }

  lemma {:induction false} TableKeys(schemas: seq<Schema>, hash: Hash)
    ensures Table(schemas, hash).Keys == Used(Keys(schemas, hash))
  {
    if schemas != [] {
      var n := |schemas| - 1;
      TableKeys(schemas[..n], hash);
      assert Keys(schemas, hash)[..n] == Keys(schemas[..n], hash);
    }
  }

  /** As many attempts as keys are taken leave one that is free. */
  lemma Pigeons(used: set<string>, key: string, n: nat)
    requires forall m :: 1 <= m <= n ==> Numbered(key, m) in used
    ensures n <= |used|
    decreases n
  {
    if n > 0 {
      var k := Numbered(key, n);
      forall m | 1 <= m <= n - 1 ensures Numbered(key, m) in used - {k} {
        if Numbered(key, m) == k { NumberedInjective(key, m, n); }
      }
      Pigeons(used - {k}, key, n - 1);
    }
  }

  method Canonicalize(schemas: seq<Schema>, hash: Hash) returns (out: map<string, Entry>)
    ensures out == Table(schemas, hash)
  {
    hide BaseKey, EntryOf, Numbered, FirstFree, Digits;
    out := map[];
    for i := 0 to |schemas|
      invariant out == Table(schemas[..i], hash)
    {
      assert schemas[..i + 1][..i] == schemas[..i];
      TableKeys(schemas[..i], hash);
      var s := schemas[i];
      var key := BaseKey(s, hash);
      var resolvedKey, collisionN := key, 1;
      NumberedIs(key, 1);
      while resolvedKey in out
        invariant collisionN >= 1 && resolvedKey == Numbered(key, collisionN)
        invariant forall m :: 1 <= m < collisionN ==> Numbered(key, m) in out
        decreases |out| + 1 - collisionN
      {
        Pigeons(out.Keys, key, collisionN);
        collisionN := collisionN + 1;
        resolvedKey := key + "#" + Digits(collisionN);
        NumberedIs(key, collisionN);
      }
      FirstFreeIsUnique(out.Keys, key, collisionN);
      out := out[resolvedKey := EntryOf(s, resolvedKey)];
    }
    assert schemas[..|schemas|] == schemas;
  }

  // ---------- nothing is lost ----------

  ghost predicate Distinct(keys: seq<string>) {
    forall i, j :: 0 <= i < j < |keys| ==> keys[i] != keys[j]
  }

  /** The keys are distinct, and under the i-th key the table holds the i-th schema's entry; it holds nothing else. */
  lemma {:induction false} EverySchemaHasItsOwnEntry(schemas: seq<Schema>, hash: Hash)
    ensures var keys, t := Keys(schemas, hash), Table(schemas, hash);
      && Distinct(keys) && |t| == |schemas| && t.Keys == Used(keys)
      && forall i :: 0 <= i < |schemas| ==> keys[i] in t && t[keys[i]] == EntryOf(schemas[i], keys[i])
  {
    hide BaseKey, EntryOf, Numbered, Used, Keys, Distinct, Table;
    TableKeys(schemas, hash);
    var keys := Keys(schemas, hash);
    if schemas == [] {
      NoKeys(schemas, hash);
    } else {
      var n, before := |schemas| - 1, Keys(schemas[..|schemas| - 1], hash);
      EverySchemaHasItsOwnEntry(schemas[..n], hash);
      LastKeyIsNew(schemas, hash);
      TableStep(schemas, hash);
      DistinctMore(before, keys[n]);
      GrowTable(Table(schemas[..n], hash), keys[n], EntryOf(schemas[n], keys[n]));
      assert keys == before + [keys[n]];
      forall i | 0 <= i < n ensures keys[i] == before[i] && keys[i] != keys[n] { DistinctAt(before + [keys[n]], i, n); }
    }
  }

  lemma NoKeys(schemas: seq<Schema>, hash: Hash)
    requires schemas == []
    ensures Distinct(Keys(schemas, hash)) && Table(schemas, hash) == map[]
  {
  }

  lemma TableStep(schemas: seq<Schema>, hash: Hash)
    requires schemas != []
    ensures var n, key := |schemas| - 1, Keys(schemas, hash)[|schemas| - 1];
      Table(schemas, hash) == Table(schemas[..n], hash)[key := EntryOf(schemas[n], key)]
      && Table(schemas[..n], hash).Keys == Used(Keys(schemas[..n], hash))
  {
    hide BaseKey, EntryOf, Keys;
    TableKeys(schemas[..|schemas| - 1], hash);
  }

  lemma DistinctMore(keys: seq<string>, key: string)
    requires Distinct(keys) && key !in Used(keys)
    ensures Distinct(keys + [key])
  {
  }

  lemma DistinctAt(keys: seq<string>, i: nat, j: nat)
    requires Distinct(keys) && i < j < |keys|
    ensures keys[i] != keys[j]
  {
  }

  lemma LastKeyIsNew(schemas: seq<Schema>, hash: Hash)
    requires schemas != []
    ensures var n, keys := |schemas| - 1, Keys(schemas, hash);
      keys[..n] == Keys(schemas[..n], hash) && keys[n] !in Used(keys[..n])
  {
    hide BaseKey, Numbered;
    var n := |schemas| - 1;
    FirstFreeIsFirst(Used(Keys(schemas[..n], hash)), BaseKey(schemas[n], hash), 1);
  }

  lemma GrowTable(t: map<string, Entry>, key: string, e: Entry)
    requires key !in t
    ensures |t[key := e]| == |t| + 1
  {
    assert t[key := e].Keys == t.Keys + {key};
  }

  // ---------- what the suffixes count ----------

  /** How many of the schemas have this base key. */
  ghost function Count(schemas: seq<Schema>, key: string, hash: Hash): nat {
    if schemas == [] then 0
    else Count(schemas[..|schemas| - 1], key, hash) + if BaseKey(schemas[|schemas| - 1], hash) == key then 1 else 0
  }

  /** The keys the schemas would have if each were numbered by its rank among those with the same base key. */
  ghost function Ranked(schemas: seq<Schema>, hash: Hash): (r: seq<string>)
    ensures |r| == |schemas|
  {
    if schemas == [] then []
    else
      var key := BaseKey(schemas[|schemas| - 1], hash);
      Ranked(schemas[..|schemas| - 1], hash) + [Numbered(key, Count(schemas, key, hash))]
  }

  lemma {:induction false} LowerRanksTaken(schemas: seq<Schema>, key: string, m: nat, hash: Hash)
    requires 1 <= m <= Count(schemas, key, hash)
    ensures Numbered(key, m) in Ranked(schemas, hash)
  {
    hide BaseKey, Numbered;
    var n := |schemas| - 1;
    if m <= Count(schemas[..n], key, hash) {
      LowerRanksTaken(schemas[..n], key, m, hash);
    } else {
      assert Ranked(schemas, hash)[n] == Numbered(key, m);
    }
  }

  /** Suffixes are ranks exactly when the ranked keys do not clash. */
  lemma {:induction false} SuffixesAreRanksIff(schemas: seq<Schema>, hash: Hash)
    ensures Keys(schemas, hash) == Ranked(schemas, hash) <==> Distinct(Ranked(schemas, hash))
  {
    hide BaseKey, Numbered, EntryOf;
    var keys, ranked := Keys(schemas, hash), Ranked(schemas, hash);
    EverySchemaHasItsOwnEntry(schemas, hash);
    if schemas != [] && Distinct(ranked) {
      var n := |schemas| - 1;
      var before, key := ranked[..n], BaseKey(schemas[n], hash);
      assert before == Ranked(schemas[..n], hash) && Distinct(before);
      SuffixesAreRanksIff(schemas[..n], hash);
      var r := Count(schemas, key, hash);
      forall m | 1 <= m < r ensures Numbered(key, m) in Used(before) { LowerRanksTaken(schemas[..n], key, m, hash); }
      assert ranked[n] == Numbered(key, r) && ranked[n] !in before;
      FirstFreeIsUnique(Used(before), key, r);
    }
  }

  ghost predicate NoHash(key: string) {
    forall i :: 0 <= i < |key| ==> key[i] != '#'
  }

  /** The first # of s is at position p, or s has none and ends there. */
  ghost predicate HashAt(s: string, p: nat) {
    p <= |s| && (forall i :: 0 <= i < p ==> s[i] != '#') && (p < |s| ==> s[p] == '#')
  }

  lemma HashIsUnique(s: string, p: nat, q: nat)
    requires HashAt(s, p) && HashAt(s, q)
    ensures p == q
  {
  }

  lemma NumberedHash(key: string, n: nat)
    requires NoHash(key)
    ensures HashAt(Numbered(key, n), |key|) && Numbered(key, n)[..|key|] == key
  {
    NumberedShape(key, n);
  }

  lemma NumberedApart(a: string, m: nat, b: string, n: nat)
    requires NoHash(a) && NoHash(b) && m >= 1 && n >= 1 && Numbered(a, m) == Numbered(b, n)
    ensures a == b && m == n
  {
    hide NoHash, HashAt, Numbered;
    NumberedHash(a, m);
    NumberedHash(b, n);
    HashIsUnique(Numbered(a, m), |a|, |b|);
    NumberedInjective(a, m, n);
  }

  lemma {:induction false} RankedAt(schemas: seq<Schema>, i: nat, hash: Hash)
    requires i < |schemas|
    ensures var key := BaseKey(schemas[i], hash);
      Ranked(schemas, hash)[i] == Numbered(key, Count(schemas[..i + 1], key, hash))
    decreases |schemas|
  {
    hide BaseKey, Numbered;
    var n := |schemas| - 1;
    if i < n {
      RankedAt(schemas[..n], i, hash);
      assert schemas[..n][..i + 1] == schemas[..i + 1];
    } else {
      assert schemas[..i + 1] == schemas;
    }
  }

  lemma CountNext(schemas: seq<Schema>, s: Schema, key: string, hash: Hash)
    ensures Count(schemas + [s], key, hash) == Count(schemas, key, hash) + if BaseKey(s, hash) == key then 1 else 0
    ensures Count([], key, hash) == 0
  {
    hide BaseKey;
    assert (schemas + [s])[..|schemas|] == schemas;
  }

  lemma {:induction false} CountGrows(schemas: seq<Schema>, i: nat, j: nat, key: string, hash: Hash)
    requires i <= j <= |schemas|
    ensures Count(schemas[..i], key, hash) <= Count(schemas[..j], key, hash)
    decreases j
  {
    hide BaseKey, Count;
    if i < j {
      CountGrows(schemas, i, j - 1, key, hash);
      CountNext(schemas[..j - 1], schemas[j - 1], key, hash);
      assert schemas[..j - 1] + [schemas[j - 1]] == schemas[..j];
    }
  }

  lemma RankedApart(schemas: seq<Schema>, a: nat, b: nat, hash: Hash)
    requires a < b < |schemas| && NoHash(BaseKey(schemas[a], hash)) && NoHash(BaseKey(schemas[b], hash))
    ensures Ranked(schemas, hash)[a] != Ranked(schemas, hash)[b]
  {
    hide BaseKey, Numbered, NoHash, Ranked;
    RankedAt(schemas, a, hash);
    RankedAt(schemas, b, hash);
    var ka, kb := BaseKey(schemas[a], hash), BaseKey(schemas[b], hash);
    CountGrows(schemas, a + 1, b, ka, hash);
    assert schemas[..a + 1][..a] == schemas[..a] && schemas[..b + 1][..b] == schemas[..b];
    if Ranked(schemas, hash)[a] == Ranked(schemas, hash)[b] {
      NumberedApart(ka, Count(schemas[..a + 1], ka, hash), kb, Count(schemas[..b + 1], kb, hash));
    }
  }

  /** Without a # in a base key, the n-th schema with some base key gets the suffix #n, and the first one none. */
  lemma SuffixesAreRanks(schemas: seq<Schema>, i: nat, hash: Hash)
    requires i < |schemas| && forall j :: 0 <= j < |schemas| ==> NoHash(BaseKey(schemas[j], hash))
    ensures var key := BaseKey(schemas[i], hash);
      Keys(schemas, hash)[i] == Numbered(key, Count(schemas[..i + 1], key, hash))
  {
    hide BaseKey, Numbered, NoHash, Keys, Ranked, Count;
    var ranked := Ranked(schemas, hash);
    forall a, b | 0 <= a < b < |schemas| ensures ranked[a] != ranked[b] { RankedApart(schemas, a, b, hash); }
    SuffixesAreRanksIff(schemas, hash);
    RankedAt(schemas, i, hash);
  }

  /** An object schema with a type literal and no subtype. */
  function Typed(literal: string, fields: seq<Field>): Schema {
    Schema(None, "object", Some(literal), None, fields, None, 0, "")
  }

  /** A # in a literal can take a suffix away: the second `x` cannot be `x#2` here. */
  lemma HashTakesASuffix(fields: seq<Field>, hash: Hash)
    ensures var list := [Typed("x#2", fields), Typed("x", fields), Typed("x", fields)];
      Keys(list, hash) != Ranked(list, hash)
  {
    var a, x := Typed("x#2", fields), Typed("x", fields);
    var list := [a, x, x];
    TypedKeys(fields, hash);
    hide Keys, Ranked, Count, BaseKey, Typed, Numbered;
    SuffixesAreRanksIff(list, hash);
    RankedAt(list, 0, hash);
    RankedAt(list, 2, hash);
    Counts(a, x, hash);
    assert list[..1] == [a] && list[..3] == list;
    NumberedIs("type/x#2", 1);
    TwoIs();
  }

  lemma TypedKeys(fields: seq<Field>, hash: Hash)
    ensures BaseKey(Typed("x#2", fields), hash) == "type/x#2" && BaseKey(Typed("x", fields), hash) == "type/x"
    ensures "type/x#2" != "type/x"
  {
    assert |"type/x#2"| != |"type/x"|;
  }

  lemma Counts(a: Schema, x: Schema, hash: Hash)
    requires BaseKey(a, hash) == "type/x#2" && BaseKey(x, hash) == "type/x"
    ensures Count([a], "type/x#2", hash) == 1 && Count([a, x, x], "type/x", hash) == 2
  {
    hide BaseKey, Count;
    assert |"type/x#2"| != |"type/x"|;
    CountNext([], a, "type/x#2", hash);
    CountNext([], a, "type/x", hash);
    CountNext([a], x, "type/x", hash);
    CountNext([a, x], x, "type/x", hash);
    assert [] + [a] == [a] && [a] + [x] == [a, x] && [a, x] + [x] == [a, x, x];
  }

  lemma TwoIs()
    ensures Numbered("type/x", 2) == "type/x#2"
  {
    assert Digits(2) == "2" && "type/x" + "#" + "2" == "type/x#2";
  }
}
