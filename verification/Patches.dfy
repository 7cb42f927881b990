/** The patch engine of the code generator (codegen/apply-patches.ts). */
module Patches {
  import opened Prelude
  import opened Ordering

  datatype Hint = Hint(on: string, values: seq<string>)

  /** A canonical entry; `rest` stands for the parts patches never touch. */
  datatype Entry = Entry(emittedName: string, fieldNames: seq<string>, fields: seq<Field>,
                         discriminantOverride: Option<Hint>, rest: string)

  datatype Keyed = Keyed(key: string, entry: Entry)

  /** A Map from canonical key to entry, in iteration order. */
  type Table = seq<Keyed>

  datatype Patch =
    | RenameSchema(from: string, to: string, reason: string)
    | ResolveAnon(canonicalKey: string, name: string, reason: string)
    | DiscriminantHint(schema: string, on: string, values: seq<string>, reason: string)
    | AddField(schema: string, field: string, arktype: string, reason: string)
    | FieldType(schema: string, field: string, arktype: string, reason: string)
    | RemoveField(schema: string, field: string, reason: string)

  /** What an error message says; the kind of a patch is given by its rank. */
  datatype Error =
    | TargetMissing(kind: nat, target: string, reason: string)
    | FieldExists(schema: string, field: string, reason: string)
    | FieldMissing(kind: nat, schema: string, field: string, reason: string)
    | NameTaken(name: string, prev: string, key: string)

  datatype Result<T> = Ok(value: T) | Err(error: Error)

  datatype Annotated = Annotated(entries: Table, nameToKey: map<string, string>, keyToName: map<string, string>,
                                 appliedPatchCount: nat)

  // ---------- application order ----------

  function Rank(p: Patch): nat {
    match p
    case RenameSchema(_, _, _) => 0
    case ResolveAnon(_, _, _) => 1
    case DiscriminantHint(_, _, _, _) => 2
    case AddField(_, _, _, _) => 3
    case FieldType(_, _, _, _) => 4
    case RemoveField(_, _, _) => 5
  }

  function StablePatchKey(p: Patch): string {
    match p
    case RenameSchema(from, to, _) => "renameSchema:" + from + ":" + to
    case ResolveAnon(key, name, _) => "resolveAnon:" + key + ":" + name
    case DiscriminantHint(schema, on, _, _) => "discriminantHint:" + schema + ":" + on
    case AddField(schema, field, _, _) => "addField:" + schema + ":" + field
    case FieldType(schema, field, _, _) => "fieldType:" + schema + ":" + field
    case RemoveField(schema, field, _) => "removeField:" + schema + ":" + field
  }

  /** The comparator does not put b strictly before a. */
  predicate PatchLe(a: Patch, b: Patch) {
    Rank(a) < Rank(b) || (Rank(a) == Rank(b) && LexLe(StablePatchKey(a), StablePatchKey(b)))
  }

  predicate KeyLe(a: Keyed, b: Keyed) {
    LexLe(a.key, b.key)
  }

  // ---------- one patch ----------

  function FindByName(t: Table, name: string): int {
    FindIndex(t, (k: Keyed) => k.entry.emittedName == name)
  }

  function FindByKey(t: Table, key: string): int {
    FindIndex(t, (k: Keyed) => k.key == key)
  }

  function SetEntry(t: Table, i: nat, e: Entry): Table
    requires i < |t|
  {
    t[i := t[i].(entry := e)]
  }

  predicate Renames(p: Patch) {
    p.RenameSchema? || p.ResolveAnon?
  }

  function RenameStep(t: Table, p: Patch): Result<Table>
    requires Renames(p)
  {
    var i := if p.RenameSchema? then FindByName(t, p.from) else FindByKey(t, p.canonicalKey);
    if i < 0 then Err(TargetMissing(Rank(p), if p.RenameSchema? then p.from else p.canonicalKey, p.reason))
    else Ok(SetEntry(t, i, t[i].entry.(emittedName := if p.RenameSchema? then p.to else p.name)))
  }

  function Patched(arktype: string): string {
    "__PATCH__:" + arktype
  }

  function IndexOfName(names: seq<string>, name: string): int {
    FindIndex(names, (n: string) => n == name)
  }

  function IndexOfField(fields: seq<Field>, name: string): int {
    FindIndex(fields, (f: Field) => f.name == name)
  }

  function RemoveAt<T>(s: seq<T>, i: nat): seq<T>
    requires i < |s|
  {
    s[..i] + s[i + 1..]
  }

  function EditEntry(e: Entry, p: Patch): Result<Entry>
    requires !Renames(p)
  {
    match p
    case DiscriminantHint(_, on, values, _) => Ok(e.(discriminantOverride := Some(Hint(on, values))))
    case AddField(_, field, arktype, _) =>
      if field in e.fieldNames then Err(FieldExists(p.schema, p.field, p.reason))
      else Ok(e.(fieldNames := e.fieldNames + [field], fields := e.fields + [Field(field, Patched(arktype))]))
    case RemoveField(_, field, _) =>
      var i := IndexOfName(e.fieldNames, field);
      if i < 0 then Err(FieldMissing(Rank(p), p.schema, p.field, p.reason))
      else Ok(e.(fieldNames := RemoveAt(e.fieldNames, i), fields := if i < |e.fields| then RemoveAt(e.fields, i) else e.fields))
    case FieldType(_, field, arktype, _) =>
      var i := IndexOfField(e.fields, field);
      if i < 0 then Err(FieldMissing(Rank(p), p.schema, p.field, p.reason))
      else Ok(e.(fields := e.fields[i := Field(e.fields[i].name, Patched(arktype))]))
  }

  function FieldStep(t: Table, p: Patch): Result<Table>
    requires !Renames(p)
  {
    var i := FindByName(t, p.schema);
    if i < 0 then Err(TargetMissing(Rank(p), p.schema, p.reason))
    else
      match EditEntry(t[i].entry, p)
      case Err(e) => Err(e)
      case Ok(entry) => Ok(SetEntry(t, i, entry))
  }

  // ---------- the phases ----------

  function RenamePhase(t: Table, patches: seq<Patch>): Result<Table>
    decreases |patches|
  {
    if patches == [] then Ok(t)
    else if !Renames(patches[0]) then RenamePhase(t, patches[1..])
    else
      match RenameStep(t, patches[0])
      case Err(e) => Err(e)
      case Ok(t') => RenamePhase(t', patches[1..])
  }

  function FieldPhase(t: Table, patches: seq<Patch>): Result<Table>
    decreases |patches|
  {
    if patches == [] then Ok(t)
    else if Renames(patches[0]) then FieldPhase(t, patches[1..])
    else
      match FieldStep(t, patches[0])
      case Err(e) => Err(e)
      case Ok(t') => FieldPhase(t', patches[1..])
  }

  /** The uniqueness check from entry i on. A previous holder whose key is empty counts as none. */
  function CheckUnique(t: Table, i: nat, seen: map<string, string>): Option<Error>
    decreases |t| - i
  {
    if i >= |t| then None
    else
      var k, name := t[i].key, t[i].entry.emittedName;
      if name in seen && seen[name] != "" then Some(NameTaken(name, seen[name], k))
      else CheckUnique(t, i + 1, seen[name := k])
  }

  function NameToKey(t: Table): map<string, string> {
    if t == [] then map[]
    else NameToKey(t[..|t| - 1])[t[|t| - 1].entry.emittedName := t[|t| - 1].key]
  }

  function KeyToName(t: Table): map<string, string> {
    if t == [] then map[]
    else KeyToName(t[..|t| - 1])[t[|t| - 1].key := t[|t| - 1].entry.emittedName]
  }

  function Cloned(canonical: Table, infer: string -> string): Table {
    var sorted := Sort(KeyLe, canonical);
    seq(|sorted|, i requires 0 <= i < |sorted| =>
      sorted[i].(entry := sorted[i].entry.(emittedName := infer(sorted[i].key))))
  }

  function ApplySorted(t: Table, sorted: seq<Patch>): Result<Annotated> {
    match RenamePhase(t, sorted)
    case Err(e) => Err(e)
    case Ok(renamed) =>
      if CheckUnique(renamed, 0, map[]).Some? then Err(CheckUnique(renamed, 0, map[]).value)
      else
        match FieldPhase(renamed, sorted)
        case Err(e) => Err(e)
        case Ok(final) => Ok(Annotated(final, NameToKey(final), KeyToName(final), |sorted|))
  }

  function Applied(canonical: Table, patches: seq<Patch>, infer: string -> string): Result<Annotated> {
    ApplySorted(Cloned(canonical, infer), Sort(PatchLe, patches))
  }

  // ---------- the algorithm ----------

  method ApplyPatches(canonical: Table, patches: seq<Patch>, infer: string -> string) returns (r: Result<Annotated>)
    ensures r == Applied(canonical, patches, infer)
  {
    hide Sort, RenameStep, FieldStep, PatchLe, RenamePhase, FieldPhase, CheckUnique, NameToKey, KeyToName, CountPhase;
    var byKey := Sort(KeyLe, canonical);
    var entries: Table := [];
    for i := 0 to |byKey|
      invariant entries == Cloned(canonical, infer)[..i]
    {
      entries := entries + [byKey[i].(entry := byKey[i].entry.(emittedName := infer(byKey[i].key)))];
    }
    assert entries == Cloned(canonical, infer);
    var sorted := Sort(PatchLe, patches);
    var renamed, renames := RunRenames(entries, sorted);
    if renamed.Err? {
      return Err(renamed.error);
    }
    var clash := FindClash(renamed.value);
    if clash.Some? {
      return Err(clash.value);
    }
    var edited, edits := RunEdits(renamed.value, sorted);
    if edited.Err? {
      return Err(edited.error);
    }
    var nameToKey, keyToName := NameMaps(edited.value);
    CountPhases(sorted);
    return Ok(Annotated(edited.value, nameToKey, keyToName, renames + edits));
  }

  method RunRenames(t: Table, sorted: seq<Patch>) returns (r: Result<Table>, applied: nat)
    ensures r == RenamePhase(t, sorted)
    ensures r.Ok? ==> applied == CountPhase(sorted, true)
  {
    hide RenameStep;
    var entries := t;
    applied := 0;
    for i := 0 to |sorted|
      invariant RenamePhase(t, sorted) == RenamePhase(entries, sorted[i..])
      invariant applied == CountPhase(sorted[..i], true)
    {
      assert sorted[..i + 1][..i] == sorted[..i];
      if Renames(sorted[i]) {
        var step := RenameStep(entries, sorted[i]);
        if step.Err? {
          return Err(step.error), applied;
        }
        entries := step.value;
        applied := applied + 1;
      }
    }
    assert sorted[..|sorted|] == sorted;
    r := Ok(entries);
  }

  method RunEdits(t: Table, sorted: seq<Patch>) returns (r: Result<Table>, applied: nat)
    ensures r == FieldPhase(t, sorted)
    ensures r.Ok? ==> applied == CountPhase(sorted, false)
  {
    hide FieldStep;
    var entries := t;
    applied := 0;
    for i := 0 to |sorted|
      invariant FieldPhase(t, sorted) == FieldPhase(entries, sorted[i..])
      invariant applied == CountPhase(sorted[..i], false)
    {
      assert sorted[..i + 1][..i] == sorted[..i];
      if !Renames(sorted[i]) {
        var step := FieldStep(entries, sorted[i]);
        if step.Err? {
          return Err(step.error), applied;
        }
        entries := step.value;
        applied := applied + 1;
      }
    }
    assert sorted[..|sorted|] == sorted;
    r := Ok(entries);
  }

  method FindClash(t: Table) returns (clash: Option<Error>)
    ensures clash == CheckUnique(t, 0, map[])
  {
    var seenNames: map<string, string> := map[];
    for i := 0 to |t|
      invariant CheckUnique(t, 0, map[]) == CheckUnique(t, i, seenNames)
    {
      var k, name := t[i].key, t[i].entry.emittedName;
      if name in seenNames && seenNames[name] != "" {
        return Some(NameTaken(name, seenNames[name], k));
      }
      seenNames := seenNames[name := k];
    }
    return None;
  }

  method NameMaps(t: Table) returns (nameToKey: map<string, string>, keyToName: map<string, string>)
    ensures nameToKey == NameToKey(t) && keyToName == KeyToName(t)
  {
    nameToKey, keyToName := map[], map[];
    for i := 0 to |t|
      invariant nameToKey == NameToKey(t[..i]) && keyToName == KeyToName(t[..i])
    {
      assert t[..i + 1][..i] == t[..i];
      nameToKey := nameToKey[t[i].entry.emittedName := t[i].key];
      keyToName := keyToName[t[i].key := t[i].entry.emittedName];
    }
    assert t[..|t|] == t;
  }

  /** How many patches belong to the rename phase, or to the field phase. */
  function CountPhase(patches: seq<Patch>, renames: bool): nat {
    if patches == [] then 0
    else CountPhase(patches[..|patches| - 1], renames) + if Renames(patches[|patches| - 1]) == renames then 1 else 0
  }

  lemma {:induction false} CountPhases(patches: seq<Patch>)
    ensures CountPhase(patches, true) + CountPhase(patches, false) == |patches|
  {
    if patches != [] { CountPhases(patches[..|patches| - 1]); }
  }

  // ---------- order independence ----------

  /** Patches of one kind with the same stable key are the same patch. */
  ghost predicate NoConflicts(patches: seq<Patch>) {
    forall a, b :: a in patches && b in patches && Rank(a) == Rank(b) && StablePatchKey(a) == StablePatchKey(b) ==> a == b
  }

  lemma PatchLeIsTotal()
    ensures TotalPreorder(PatchLe)
  {
    hide StablePatchKey, Rank, LexLe;
    forall a, b ensures PatchLe(a, b) || PatchLe(b, a) { LexTotal(StablePatchKey(a), StablePatchKey(b)); }
    forall a, b, c | PatchLe(a, b) && PatchLe(b, c) ensures PatchLe(a, c) {
      if Rank(a) == Rank(b) == Rank(c) {
        LexTransitive(StablePatchKey(a), StablePatchKey(b), StablePatchKey(c));
      }
    }
  }

  lemma TiesShareKeys(a: Patch, b: Patch)
    ensures PatchLe(a, b) && PatchLe(b, a) <==> Rank(a) == Rank(b) && StablePatchKey(a) == StablePatchKey(b)
  {
    hide StablePatchKey, Rank;
    LexTotal(StablePatchKey(a), StablePatchKey(b));
  }

  lemma ConflictsAreTies(patches: seq<Patch>)
    ensures NoConflicts(patches) <==> Antisymmetric(PatchLe, multiset(patches))
  {
    hide StablePatchKey, Rank, PatchLe;
    forall a, b ensures PatchLe(a, b) && PatchLe(b, a) <==> Rank(a) == Rank(b) && StablePatchKey(a) == StablePatchKey(b) {
      TiesShareKeys(a, b);
    }
    assert forall a :: a in multiset(patches) <==> a in patches;
  }

  /** All permutations of the list are applied in one and the same order if and only if no two patches conflict. */
  lemma ApplicationOrderFixedIff(patches: seq<Patch>)
    ensures ForgetsOrder(PatchLe, patches) <==> NoConflicts(patches)
  {
    hide PatchLe, NoConflicts;
    PatchLeIsTotal();
    ConflictsAreTies(patches);
    SortForgetsOrderIff(PatchLe, patches);
  }

  /** Patches that conflict are applied in the order of the input. */
  lemma ConflictsKeepInputOrder(patches: seq<Patch>, p: Patch)
    ensures Filter(Sort(PatchLe, patches), (q: Patch) => Ties(PatchLe, p, q)) == Filter(patches, (q: Patch) => Ties(PatchLe, p, q))
    ensures forall q :: Ties(PatchLe, p, q) <==> Rank(p) == Rank(q) && StablePatchKey(p) == StablePatchKey(q)
  {
    hide PatchLe, StablePatchKey, Rank;
    PatchLeIsTotal();
    SortStable(PatchLe, p, patches);
    forall q ensures Ties(PatchLe, p, q) <==> Rank(p) == Rank(q) && StablePatchKey(p) == StablePatchKey(q) { TiesShareKeys(p, q); }
  }

  /** Every permutation of the patch list gives the same tables or the same failure. */
  lemma PatchOrderIrrelevant(canonical: Table, a: seq<Patch>, b: seq<Patch>, infer: string -> string)
    requires multiset(a) == multiset(b) && NoConflicts(a)
    ensures Applied(canonical, a, infer) == Applied(canonical, b, infer)
  {
    hide PatchLe, NoConflicts, ApplySorted;
    PatchLeIsTotal();
    ConflictsAreTies(a);
    SortForgetsOrder(PatchLe, a, b);
  }

  // ---------- field names stay aligned ----------

  predicate Aligned(e: Entry) {
    e.fieldNames == Map(e.fields, (f: Field) => f.name)
  }

  ghost predicate AllAligned(t: Table) {
    forall k :: k in t ==> Aligned(k.entry)
  }

  lemma EditKeepsName(e: Entry, p: Patch)
    requires !Renames(p) && EditEntry(e, p).Ok?
    ensures EditEntry(e, p).value.emittedName == e.emittedName
  {
  }

  lemma EditKeepsAligned(e: Entry, p: Patch)
    requires Aligned(e) && !Renames(p) && EditEntry(e, p).Ok?
    ensures Aligned(EditEntry(e, p).value)
  {
    if p.RemoveField? {
      var i := IndexOfName(e.fieldNames, p.field);
      var r := EditEntry(e, p).value;
      assert forall j :: 0 <= j < |r.fields| ==> r.fieldNames[j] == r.fields[j].name;
    }
  }

  ghost predicate SameKeys(a: Table, b: Table) {
    |a| == |b| && forall i :: 0 <= i < |a| ==> a[i].key == b[i].key
  }

  ghost predicate SameNames(a: Table, b: Table) {
    |a| == |b| && forall i :: 0 <= i < |a| ==> a[i].entry.emittedName == b[i].entry.emittedName
  }

  lemma {:induction false} RenamePhaseKeeps(t: Table, patches: seq<Patch>)
    requires RenamePhase(t, patches).Ok?
    ensures var r := RenamePhase(t, patches).value; SameKeys(t, r) && (AllAligned(t) ==> AllAligned(r))
    decreases |patches|
  {
    if patches != [] {
      RenamePhaseKeeps(if Renames(patches[0]) then RenameStep(t, patches[0]).value else t, patches[1..]);
    }
  }

  lemma FieldStepKeeps(t: Table, p: Patch)
    requires !Renames(p) && FieldStep(t, p).Ok?
    ensures var r := FieldStep(t, p).value; SameKeys(t, r) && SameNames(t, r) && (AllAligned(t) ==> AllAligned(r))
  {
    hide EditEntry;
    var i := FindByName(t, p.schema);
    EditKeepsName(t[i].entry, p);
    if AllAligned(t) { EditKeepsAligned(t[i].entry, p); }
  }

  lemma {:induction false} FieldPhaseKeeps(t: Table, patches: seq<Patch>)
    requires FieldPhase(t, patches).Ok?
    ensures var r := FieldPhase(t, patches).value; SameKeys(t, r) && SameNames(t, r) && (AllAligned(t) ==> AllAligned(r))
    decreases |patches|
  {
    hide FieldStep;
    if patches != [] {
      if !Renames(patches[0]) { FieldStepKeeps(t, patches[0]); }
      FieldPhaseKeeps(if Renames(patches[0]) then t else FieldStep(t, patches[0]).value, patches[1..]);
    }
  }

  // ---------- the uniqueness check, exactly ----------

  /** Two entries share a name and the first of them has a key that is not empty. */
  ghost predicate Clash(t: Table, i: int, j: int) {
    0 <= i < j < |t| && t[i].entry.emittedName == t[j].entry.emittedName && t[i].key != ""
  }

  /** What the check has recorded when it reaches entry i without complaint. */
  ghost predicate SeenUpTo(t: Table, i: nat, seen: map<string, string>) {
    && i <= |t|
    && (forall j :: 0 <= j < i ==> t[j].entry.emittedName in seen)
    && (forall n :: n in seen ==> exists j :: LastHolder(t, i, n, j) && t[j].key == seen[n])
    && (forall j, k :: 0 <= k < i ==> !Clash(t, j, k))
  }

  ghost predicate LastHolder(t: Table, i: nat, n: string, j: int) {
    0 <= j < i <= |t| && t[j].entry.emittedName == n && forall k :: j < k < i ==> t[k].entry.emittedName != n
  }

  lemma {:induction false} CheckFrom(t: Table, i: nat, seen: map<string, string>)
    requires SeenUpTo(t, i, seen)
    ensures CheckUnique(t, i, seen).None? <==> forall j, k :: !Clash(t, j, k)
    decreases |t| - i
  {
    if i < |t| {
      var k, name := t[i].key, t[i].entry.emittedName;
      if name in seen && seen[name] != "" {
        var j :| LastHolder(t, i, name, j) && t[j].key == seen[name];
        assert Clash(t, j, i);
      } else {
        NoClashAt(t, i, seen);
        SeenNext(t, i, seen);
        CheckFrom(t, i + 1, seen[name := k]);
      }
    }
  }

  lemma NoClashAt(t: Table, i: nat, seen: map<string, string>)
    requires SeenUpTo(t, i, seen) && i < |t|
    requires t[i].entry.emittedName in seen ==> seen[t[i].entry.emittedName] == ""
    ensures forall j :: !Clash(t, j, i)
  {
    forall j ensures !Clash(t, j, i) {
      if 0 <= j < i && t[j].entry.emittedName == t[i].entry.emittedName {
        var l :| LastHolder(t, i, t[i].entry.emittedName, l) && t[l].key == "";
        if j < l { assert !Clash(t, j, l); }
      }
    }
  }

  lemma SeenNext(t: Table, i: nat, seen: map<string, string>)
    requires SeenUpTo(t, i, seen) && i < |t| && forall j :: !Clash(t, j, i)
    ensures SeenUpTo(t, i + 1, seen[t[i].entry.emittedName := t[i].key])
  {
    var name := t[i].entry.emittedName;
    var seen' := seen[name := t[i].key];
    forall n | n in seen' ensures exists j :: LastHolder(t, i + 1, n, j) && t[j].key == seen'[n] {
      if n == name {
        assert LastHolder(t, i + 1, n, i);
      } else {
        var j :| LastHolder(t, i, n, j) && t[j].key == seen[n];
        assert LastHolder(t, i + 1, n, j);
      }
    }
  }

  /** The check passes exactly when equal names occur only after an entry whose key is the empty string. */
  lemma CheckExact(t: Table)
    ensures CheckUnique(t, 0, map[]).None? <==> forall j, k :: !Clash(t, j, k)
  {
    CheckFrom(t, 0, map[]);
  }

  /** k is the first entry that clashes, and j the last one before it of the same name. */
  ghost predicate FirstClash(t: Table, j: int, k: int) {
    && Clash(t, j, k) && LastHolder(t, k, t[k].entry.emittedName, j)
    && forall a, b :: b < k ==> !Clash(t, a, b)
  }

  ghost predicate Reports(t: Table, j: int, k: int, e: Error) {
    FirstClash(t, j, k) && e == NameTaken(t[k].entry.emittedName, t[j].key, t[k].key)
  }

  lemma {:induction false} ClashFrom(t: Table, i: nat, seen: map<string, string>)
    requires SeenUpTo(t, i, seen) && CheckUnique(t, i, seen).Some?
    ensures exists j, k :: Reports(t, j, k, CheckUnique(t, i, seen).value)
    decreases |t| - i
  {
    var k, name := t[i].key, t[i].entry.emittedName;
    if name in seen && seen[name] != "" {
      var j :| LastHolder(t, i, name, j) && t[j].key == seen[name];
      assert Reports(t, j, i, CheckUnique(t, i, seen).value);
    } else {
      NoClashAt(t, i, seen);
      SeenNext(t, i, seen);
      ClashFrom(t, i + 1, seen[name := k]);
    }
  }

  /** The failure names the first entry that clashes, its name, and the last entry before it that has that name. */
  lemma ClashReported(t: Table)
    requires CheckUnique(t, 0, map[]).Some?
    ensures exists j, k :: Reports(t, j, k, CheckUnique(t, 0, map[]).value)
  {
    ClashFrom(t, 0, map[]);
  }

  // ---------- the name maps ----------

  ghost predicate DistinctKeys(t: Table) {
    forall i, j :: 0 <= i < j < |t| ==> t[i].key != t[j].key
  }

  ghost predicate DistinctNames(t: Table) {
    forall i, j :: 0 <= i < j < |t| ==> t[i].entry.emittedName != t[j].entry.emittedName
  }

  lemma {:induction false} KeyToNameOf(t: Table)
    requires DistinctKeys(t)
    ensures forall k :: k in KeyToName(t) <==> exists i :: 0 <= i < |t| && t[i].key == k
    ensures forall i :: 0 <= i < |t| ==> t[i].key in KeyToName(t) && KeyToName(t)[t[i].key] == t[i].entry.emittedName
  {
    if t != [] {
      var front := t[..|t| - 1];
      KeyToNameOf(front);
      assert forall i :: 0 <= i < |front| ==> front[i] == t[i];
    }
  }

  ghost predicate HasName(t: Table, n: string) {
    exists i :: 0 <= i < |t| && t[i].entry.emittedName == n
  }

  lemma HasNameFront(t: Table, n: string)
    requires t != []
    ensures HasName(t, n) <==> HasName(t[..|t| - 1], n) || t[|t| - 1].entry.emittedName == n
  {
    var front := t[..|t| - 1];
    if HasName(front, n) {
      var i :| 0 <= i < |front| && front[i].entry.emittedName == n;
      assert t[i].entry.emittedName == n;
    }
    if HasName(t, n) {
      var i :| 0 <= i < |t| && t[i].entry.emittedName == n;
      assert i == |front| || front[i].entry.emittedName == n;
    }
  }

  lemma {:induction false} NameToKeyOf(t: Table)
    ensures forall n :: n in NameToKey(t) <==> HasName(t, n)
    ensures forall n :: n in NameToKey(t) ==> exists i :: LastHolder(t, |t|, n, i) && t[i].key == NameToKey(t)[n]
  {
    hide HasName;
    if t == [] {
      assert forall n :: !HasName(t, n) by { NoNames(); }
    } else {
      var front, last := t[..|t| - 1], t[|t| - 1];
      NameToKeyOf(front);
      assert NameToKey(t) == NameToKey(front)[last.entry.emittedName := last.key];
      forall n | n in NameToKey(t) ensures exists i :: LastHolder(t, |t|, n, i) && t[i].key == NameToKey(t)[n] {
        if n == last.entry.emittedName {
          assert LastHolder(t, |t|, n, |t| - 1);
        } else {
          assert n in NameToKey(front);
          var i :| LastHolder(front, |front|, n, i) && front[i].key == NameToKey(front)[n];
          assert LastHolder(t, |t|, n, i);
        }
      }
      forall n ensures n in NameToKey(t) <==> HasName(t, n) { HasNameFront(t, n); }
    }
  }

  lemma NoNames()
    ensures forall n :: !HasName([], n)
  {
  }

  /** Each map undoes the other, over all entries. */
  ghost predicate Inverse(t: Table, nameToKey: map<string, string>, keyToName: map<string, string>) {
    && (forall i :: 0 <= i < |t| ==>
          && t[i].key in keyToName && keyToName[t[i].key] == t[i].entry.emittedName
          && t[i].entry.emittedName in nameToKey && nameToKey[t[i].entry.emittedName] == t[i].key)
    && (forall k :: k in keyToName ==> keyToName[k] in nameToKey && nameToKey[keyToName[k]] == k)
    && (forall n :: n in nameToKey ==> nameToKey[n] in keyToName && keyToName[nameToKey[n]] == n)
  }

  lemma HolderOf(t: Table, i: nat) returns (j: int)
    requires i < |t|
    ensures var n := t[i].entry.emittedName; n in NameToKey(t) && LastHolder(t, |t|, n, j) && t[j].key == NameToKey(t)[n]
  {
    hide NameToKey;
    var n := t[i].entry.emittedName;
    NameToKeyOf(t);
    assert HasName(t, n);
    assert n in NameToKey(t);
    j :| LastHolder(t, |t|, n, j) && t[j].key == NameToKey(t)[n];
  }

  lemma InverseIffDistinct(t: Table)
    requires DistinctKeys(t)
    ensures Inverse(t, NameToKey(t), KeyToName(t)) <==> DistinctNames(t)
  {
    hide NameToKey, KeyToName;
    KeyToNameOf(t);
    NameToKeyOf(t);
    if DistinctNames(t) {
      forall i | 0 <= i < |t| ensures t[i].entry.emittedName in NameToKey(t) && NameToKey(t)[t[i].entry.emittedName] == t[i].key {
        var j := HolderOf(t, i);
        assert i == j;
      }
    }
  }

  // ---------- the result ----------

  lemma {:induction false} InsertDistinct(x: Keyed, t: Table)
    requires DistinctKeys(t) && forall k :: k in t ==> k.key != x.key
    ensures DistinctKeys(Insert(KeyLe, x, t))
  {
    if t != [] && !KeyLe(x, t[0]) {
      InsertDistinct(x, t[1..]);
      InsertPermutes(KeyLe, x, t[1..]);
      var r := Insert(KeyLe, x, t[1..]);
      forall j | 0 <= j < |r| ensures r[j].key != t[0].key { assert r[j] in r; }
    }
  }

  lemma {:induction false} SortDistinct(t: Table)
    requires DistinctKeys(t)
    ensures DistinctKeys(Sort(KeyLe, t))
  {
    if t != [] {
      SortDistinct(t[1..]);
      SortMembers(KeyLe, t[1..]);
      InsertDistinct(t[0], Sort(KeyLe, t[1..]));
    }
  }

  lemma ClonedTable(canonical: Table, infer: string -> string)
    requires DistinctKeys(canonical)
    ensures DistinctKeys(Cloned(canonical, infer))
    ensures AllAligned(canonical) ==> AllAligned(Cloned(canonical, infer))
    ensures forall k :: HasKey(Cloned(canonical, infer), k) <==> HasKey(canonical, k)
  {
    hide Sort, KeyLe;
    var sorted, t := Sort(KeyLe, canonical), Cloned(canonical, infer);
    SortDistinct(canonical);
    SortMembers(KeyLe, canonical);
    if AllAligned(canonical) {
      forall x | x in t ensures Aligned(x.entry) {
        var i :| 0 <= i < |t| && t[i] == x;
        assert sorted[i] in canonical;
      }
    }
    forall k ensures HasKey(t, k) <==> HasKey(canonical, k) {
      SameKeysHasKey(sorted, t, k);
      SameMembersHasKey(sorted, canonical, k);
    }
  }

  lemma SameMembersHasKey(a: Table, b: Table, k: string)
    requires forall x :: x in a <==> x in b
    ensures HasKey(a, k) <==> HasKey(b, k)
  {
    if HasKey(a, k) {
      var i :| 0 <= i < |a| && a[i].key == k;
      assert a[i] in b;
    }
    if HasKey(b, k) {
      var i :| 0 <= i < |b| && b[i].key == k;
      assert b[i] in a;
    }
  }

  ghost predicate HasKey(t: Table, k: string) {
    exists i :: 0 <= i < |t| && t[i].key == k
  }

  lemma SameKeysHasKey(a: Table, b: Table, k: string)
    requires SameKeys(a, b)
    ensures HasKey(a, k) <==> HasKey(b, k)
  {
    if HasKey(a, k) {
      var i :| 0 <= i < |a| && a[i].key == k;
      assert b[i].key == k;
    }
    if HasKey(b, k) {
      var i :| 0 <= i < |b| && b[i].key == k;
      assert a[i].key == k;
    }
  }

  /** Some other entry carries the name of the entry whose key is the empty string. */
  ghost predicate EmptyKeyShares(t: Table) {
    exists i, j :: 0 <= i < |t| && 0 <= j < |t| && i != j && t[i].key == ""
      && t[i].entry.emittedName == t[j].entry.emittedName
  }

  /** The entries as the uniqueness check sees them: cloned, with inferred names, and renamed. */
  function CheckedEntries(canonical: Table, patches: seq<Patch>, infer: string -> string): Result<Table> {
    RenamePhase(Cloned(canonical, infer), Sort(PatchLe, patches))
  }

  /**
   What success means: no entry is lost or added, every patch was applied, aligned fields stay aligned, and the two
   name maps undo each other exactly when, at the check, no other entry shared the name of an entry with an empty key.
   */
  lemma SuccessIsCoherent(canonical: Table, patches: seq<Patch>, infer: string -> string)
    requires DistinctKeys(canonical) && Applied(canonical, patches, infer).Ok?
    ensures CheckedEntries(canonical, patches, infer).Ok?
    ensures var r := Applied(canonical, patches, infer).value;
      && |r.entries| == |canonical| && DistinctKeys(r.entries)
      && (forall k :: HasKey(r.entries, k) <==> HasKey(canonical, k))
      && r.appliedPatchCount == |patches|
      && (AllAligned(canonical) ==> AllAligned(r.entries))
      && (Inverse(r.entries, r.nameToKey, r.keyToName) <==> !EmptyKeyShares(CheckedEntries(canonical, patches, infer).value))
  {
    hide RenamePhase, FieldPhase, CheckUnique, NameToKey, KeyToName, Sort, PatchLe, KeyLe;
    var t, sorted := Cloned(canonical, infer), Sort(PatchLe, patches);
    ClonedTable(canonical, infer);
    SortSize(PatchLe, patches);
    SortSize(KeyLe, canonical);
    RenamePhaseKeeps(t, sorted);
    var renamed := RenamePhase(t, sorted).value;
    FieldPhaseKeeps(renamed, sorted);
    var final := FieldPhase(renamed, sorted).value;
    forall k ensures HasKey(final, k) <==> HasKey(canonical, k) {
      SameKeysHasKey(t, final, k);
      assert HasKey(t, k) <==> HasKey(final, k);
      assert HasKey(t, k) <==> HasKey(canonical, k);
    }
    CheckExact(renamed);
    InverseIffDistinct(final);
    NamesAfterCheck(renamed, final);
    SharesAlike(renamed, final);
  }

  lemma SharesAlike(a: Table, b: Table)
    requires SameKeys(a, b) && SameNames(a, b)
    ensures EmptyKeyShares(a) <==> EmptyKeyShares(b)
  {
    if EmptyKeyShares(a) {
      var i, j :| 0 <= i < |a| && 0 <= j < |a| && i != j && a[i].key == "" && a[i].entry.emittedName == a[j].entry.emittedName;
      assert b[i].key == "" && b[i].entry.emittedName == b[j].entry.emittedName;
    }
    if EmptyKeyShares(b) {
      var i, j :| 0 <= i < |b| && 0 <= j < |b| && i != j && b[i].key == "" && b[i].entry.emittedName == b[j].entry.emittedName;
      assert a[i].key == "" && a[i].entry.emittedName == a[j].entry.emittedName;
    }
  }

  /** Without an empty key in the input, success means mutually inverse name maps. */
  lemma NonEmptyKeysAreInverse(canonical: Table, patches: seq<Patch>, infer: string -> string)
    requires DistinctKeys(canonical) && !HasKey(canonical, "") && Applied(canonical, patches, infer).Ok?
    ensures var r := Applied(canonical, patches, infer).value; Inverse(r.entries, r.nameToKey, r.keyToName)
  {
    hide Applied, RenamePhase, Inverse, Sort;
    SuccessIsCoherent(canonical, patches, infer);
    var t, checked := Cloned(canonical, infer), CheckedEntries(canonical, patches, infer).value;
    ClonedTable(canonical, infer);
    RenamePhaseKeeps(t, Sort(PatchLe, patches));
    SameKeysHasKey(t, checked, "");
    assert !HasKey(checked, "");
  }

  lemma {:induction false} SortSize<T(!new)>(le: (T, T) -> bool, s: seq<T>)
    ensures |Sort(le, s)| == |s|
  {
    if s != [] {
      SortSize(le, s[1..]);
      InsertSize(le, s[0], Sort(le, s[1..]));
    }
  }

  lemma {:induction false} InsertSize<T(!new)>(le: (T, T) -> bool, x: T, s: seq<T>)
    ensures |Insert(le, x, s)| == |s| + 1
  {
    if s != [] && !le(x, s[0]) { InsertSize(le, x, s[1..]); }
  }

  lemma NamesAfterCheck(renamed: Table, final: Table)
    requires SameKeys(renamed, final) && SameNames(renamed, final)
    requires forall j, k :: !Clash(renamed, j, k)
    ensures DistinctNames(final) <==> !EmptyKeyShares(final)
  {
    if !EmptyKeyShares(final) {
      forall i, j | 0 <= i < j < |final| ensures final[i].entry.emittedName != final[j].entry.emittedName {
        assert !Clash(renamed, i, j);
      }
    }
  }

  /** The check lets a shared name pass when the first holder's key is the empty string. */
  lemma EmptyKeySlipsThrough(e: Entry, infer: string -> string)
    requires infer("") == infer("k") && Aligned(e)
    ensures var r := Applied([Keyed("", e), Keyed("k", e)], [], infer);
      r.Ok? && !Inverse(r.value.entries, r.value.nameToKey, r.value.keyToName)
  {
    var canonical := [Keyed("", e), Keyed("k", e)];
    assert canonical[1..] == [Keyed("k", e)] && canonical[1..][1..] == [];
    assert Sort(KeyLe, [Keyed("k", e)]) == [Keyed("k", e)];
    assert KeyLe(canonical[0], canonical[1]);
    assert Sort(KeyLe, canonical) == canonical;
    var t := Cloned(canonical, infer);
    assert t[0].key == "" && t[1].key == "k" && t[0].entry.emittedName == t[1].entry.emittedName;
    CheckExact(t);
    var none: seq<Patch> := [];
    assert Sort(PatchLe, none) == none;
    assert RenamePhase(t, none) == Ok(t);
    assert FieldPhase(t, none) == Ok(t);
    assert EmptyKeyShares(t) && CheckedEntries(canonical, none, infer) == Ok(t);
    SuccessIsCoherent(canonical, none, infer);
  }
}
