/** When two patches that share a stable key give different outcomes in the two orders (codegen/apply-patches.ts). */
module PatchConflicts {
  import opened Prelude
  import opened Ordering
  import opened Patches

  /** Same kind and same target, so that only payload and reason may differ. */
  predicate SameTarget(p: Patch, q: Patch) {
    match p
    case RenameSchema(from, to, _) => q.RenameSchema? && q.from == from && q.to == to
    case ResolveAnon(key, name, _) => q.ResolveAnon? && q.canonicalKey == key && q.name == name
    case DiscriminantHint(schema, on, _, _) => q.DiscriminantHint? && q.schema == schema && q.on == on
    case AddField(schema, field, _, _) => q.AddField? && q.schema == schema && q.field == field
    case FieldType(schema, field, _, _) => q.FieldType? && q.schema == schema && q.field == field
    case RemoveField(schema, field, _) => q.RemoveField? && q.schema == schema && q.field == field
  }

  lemma SameTargetTies(p: Patch, q: Patch)
    requires SameTarget(p, q)
    ensures PatchLe(p, q) && PatchLe(q, p)
  {
    hide LexLe;
    LexTotal(StablePatchKey(p), StablePatchKey(p));
    assert StablePatchKey(p) == StablePatchKey(q);
  }

  /** The phase the patch belongs to. */
  function Phase(t: Table, p: Patch, patches: seq<Patch>): Result<Table> {
    if Renames(p) then RenamePhase(t, patches) else FieldPhase(t, patches)
  }

  function PatchStep(t: Table, p: Patch): Result<Table> {
    if Renames(p) then RenameStep(t, p) else FieldStep(t, p)
  }

  lemma TwoSteps(t: Table, p: Patch, q: Patch)
    requires Renames(p) == Renames(q)
    ensures Phase(t, p, [p, q]) == if PatchStep(t, p).Err? then PatchStep(t, p) else PatchStep(PatchStep(t, p).value, q)
  {
    hide RenameStep, FieldStep;
    assert [p, q][1..] == [q] && [q][1..] == [];
    OneStep(t, q);
    if PatchStep(t, p).Ok? { OneStep(PatchStep(t, p).value, q); }
  }

  lemma OneStep(t: Table, p: Patch)
    ensures Phase(t, p, [p]) == PatchStep(t, p)
  {
    hide RenameStep, FieldStep;
    assert [p][1..] == [];
    if PatchStep(t, p).Ok? {
      assert RenamePhase(PatchStep(t, p).value, []) == Ok(PatchStep(t, p).value);
      assert FieldPhase(PatchStep(t, p).value, []) == Ok(PatchStep(t, p).value);
    }
  }

  // ---------- the outcome, kind by kind ----------

  /** More than one entry has the name. */
  predicate Ambiguous(t: Table, name: string) {
    var i := FindByName(t, name);
    i >= 0 && exists j :: i < j < |t| && t[j].entry.emittedName == name
  }

  /** More than one of the names is this one. */
  predicate Repeated(names: seq<string>, name: string) {
    var i := IndexOfName(names, name);
    i >= 0 && exists j :: i < j < |names| && names[j] == name
  }

  function Target(t: Table, p: Patch): int
    requires !Renames(p)
  {
    FindByName(t, p.schema)
  }

  /** Applied to this table, the two orders of p and q come to the same. */
  predicate Harmless(t: Table, p: Patch, q: Patch)
    requires SameTarget(p, q)
  {
    match p
    case RenameSchema(from, to, _) => p.reason == q.reason || Ambiguous(t, from) || (from == to && FindByName(t, from) >= 0)
    case ResolveAnon(key, _, _) => p.reason == q.reason || FindByKey(t, key) >= 0
    case DiscriminantHint(_, _, _, _) => if Target(t, p) >= 0 then p.values == q.values else p.reason == q.reason
    case AddField(_, _, _, _) => p.reason == q.reason
    case FieldType(_, field, _, _) =>
      if Target(t, p) >= 0 && IndexOfField(t[Target(t, p)].entry.fields, field) >= 0 then p.arktype == q.arktype
      else p.reason == q.reason
    case RemoveField(_, field, _) =>
      p.reason == q.reason || (Target(t, p) >= 0 && Repeated(t[Target(t, p)].entry.fieldNames, field))
  }

  lemma FoundAgain(t: Table, i: nat, e: Entry, name: string)
    requires i < |t| && FindByName(t, name) == i && e.emittedName == t[i].entry.emittedName
    ensures FindByName(SetEntry(t, i, e), name) == i
  {
    var t' := SetEntry(t, i, e);
    assert forall j :: 0 <= j < |t| ==> t'[j].entry.emittedName == t[j].entry.emittedName;
  }

  /** The second rename of a name finds its target exactly when another entry has the name, or nothing was changed. */
  lemma RenamedAgain(t: Table, i: nat, from: string, to: string)
    requires i < |t| && FindByName(t, from) == i
    ensures FindByName(SetEntry(t, i, t[i].entry.(emittedName := to)), from) >= 0 <==> Ambiguous(t, from) || from == to
  {
    var t' := SetEntry(t, i, t[i].entry.(emittedName := to));
    assert forall j :: 0 <= j < |t| && j != i ==> t'[j] == t[j];
    assert t'[i].entry.emittedName == to;
    if Ambiguous(t, from) {
      var j :| i < j < |t| && t[j].entry.emittedName == from;
      assert t'[j].entry.emittedName == from;
    }
  }

  lemma RenamesOutcome(t: Table, p: Patch, q: Patch)
    requires SameTarget(p, q) && p.RenameSchema?
    ensures Phase(t, p, [p, q]) == Phase(t, p, [q, p]) <==> Harmless(t, p, q)
    ensures Phase(t, p, [p, q]).Err? <==> Phase(t, p, [q, p]).Err?
    ensures Phase(t, p, [p, q]).Ok? ==> Phase(t, p, [p, q]) == Phase(t, p, [q, p])
  {
    TwoSteps(t, p, q);
    TwoSteps(t, q, p);
    hide Ambiguous, FindByName;
    var i := FindByName(t, p.from);
    if i >= 0 {
      assert i < |t| by { FindByNameBound(t, p.from); }
      RenamedAgain(t, i, p.from, p.to);
    } else {
      assert !Ambiguous(t, p.from) by { NotAmbiguous(t, p.from); }
    }
  }

  lemma FindByNameBound(t: Table, name: string)
    ensures FindByName(t, name) < |t|
  {
  }

  lemma NotAmbiguous(t: Table, name: string)
    ensures Ambiguous(t, name) ==> FindByName(t, name) >= 0
  {
  }

  lemma ResolvesOutcome(t: Table, p: Patch, q: Patch)
    requires SameTarget(p, q) && p.ResolveAnon?
    ensures Phase(t, p, [p, q]) == Phase(t, p, [q, p]) <==> Harmless(t, p, q)
    ensures Phase(t, p, [p, q]).Err? <==> Phase(t, p, [q, p]).Err?
    ensures Phase(t, p, [p, q]).Ok? ==> Phase(t, p, [p, q]) == Phase(t, p, [q, p])
  {
    TwoSteps(t, p, q);
    TwoSteps(t, q, p);
    var i := FindByKey(t, p.canonicalKey);
    if i >= 0 {
      var t' := SetEntry(t, i, t[i].entry.(emittedName := p.name));
      assert forall j :: 0 <= j < |t| ==> t'[j].key == t[j].key;
      assert FindByKey(t', p.canonicalKey) == i && SetEntry(t', i, t'[i].entry.(emittedName := p.name)) == t';
    }
  }

  /** Two hints for one schema: the second overwrites the first. */
  lemma LastHintWins(t: Table, p: Patch, q: Patch)
    requires SameTarget(p, q) && p.DiscriminantHint? && Target(t, p) >= 0
    ensures Phase(t, p, [p, q]) == PatchStep(t, q)
    ensures PatchStep(t, q).Ok? && PatchStep(t, q).value[Target(t, q)].entry.discriminantOverride == Some(Hint(q.on, q.values))
  {
    TwoSteps(t, p, q);
    var i := Target(t, p);
    var e := t[i].entry.(discriminantOverride := Some(Hint(p.on, p.values)));
    FoundAgain(t, i, e, p.schema);
    assert SetEntry(SetEntry(t, i, e), i, e.(discriminantOverride := Some(Hint(q.on, q.values))))
        == SetEntry(t, i, t[i].entry.(discriminantOverride := Some(Hint(q.on, q.values))));
  }

  /** Two types for one field: the second overwrites the first. */
  lemma LastTypeWins(t: Table, p: Patch, q: Patch)
    requires SameTarget(p, q) && p.FieldType? && Target(t, p) >= 0 && IndexOfField(t[Target(t, p)].entry.fields, p.field) >= 0
    ensures Phase(t, p, [p, q]) == PatchStep(t, q)
    ensures PatchStep(t, q).Ok?
    ensures var k := IndexOfField(t[Target(t, p)].entry.fields, p.field);
      PatchStep(t, q).value[Target(t, q)].entry.fields[k].rhs == Patched(q.arktype)
  {
    TwoSteps(t, p, q);
    var i := Target(t, p);
    var e := t[i].entry;
    var k := IndexOfField(e.fields, p.field);
    var fields := e.fields[k := Field(e.fields[k].name, Patched(p.arktype))];
    FoundAgain(t, i, e.(fields := fields), p.schema);
    FieldFoundAgain(e.fields, k, p.field, Patched(p.arktype));
    assert fields[k := Field(fields[k].name, Patched(q.arktype))] == e.fields[k := Field(e.fields[k].name, Patched(q.arktype))];
    assert SetEntry(SetEntry(t, i, e.(fields := fields)), i, e.(fields := e.fields[k := Field(e.fields[k].name, Patched(q.arktype))]))
        == SetEntry(t, i, e.(fields := e.fields[k := Field(e.fields[k].name, Patched(q.arktype))]));
  }

  lemma FieldFoundAgain(fields: seq<Field>, i: nat, name: string, rhs: string)
    requires i < |fields| && IndexOfField(fields, name) == i
    ensures IndexOfField(fields[i := Field(fields[i].name, rhs)], name) == i
  {
    var fields' := fields[i := Field(fields[i].name, rhs)];
    assert forall j :: 0 <= j < |fields| ==> fields'[j].name == fields[j].name;
  }

  /** Two additions of one field: the second always fails, and the failure names it. */
  lemma SecondAdditionFails(t: Table, p: Patch, q: Patch)
    requires SameTarget(p, q) && p.AddField?
    ensures PatchStep(t, p).Ok? ==> Phase(t, p, [p, q]) == Err(FieldExists(q.schema, q.field, q.reason))
    ensures PatchStep(t, p).Err? ==> Phase(t, p, [p, q]) == PatchStep(t, p)
    ensures PatchStep(t, p).Ok? <==> PatchStep(t, q).Ok?
  {
    TwoSteps(t, p, q);
    var i := Target(t, p);
    if PatchStep(t, p).Ok? {
      var e := t[i].entry;
      e := e.(fieldNames := e.fieldNames + [p.field], fields := e.fields + [Field(p.field, Patched(p.arktype))]);
      FoundAgain(t, i, e, p.schema);
    }
  }

  /** Removing a name once leaves it there exactly when it was there twice. */
  lemma RemovedOnce(names: seq<string>, name: string)
    requires IndexOfName(names, name) >= 0
    ensures IndexOfName(RemoveAt(names, IndexOfName(names, name)), name) >= 0 <==> Repeated(names, name)
  {
    var i := IndexOfName(names, name);
    var r := RemoveAt(names, i);
    assert forall j :: 0 <= j < |r| ==> r[j] == if j < i then names[j] else names[j + 1];
    if Repeated(names, name) {
      var j :| i < j < |names| && names[j] == name;
      assert r[j - 1] == name;
    }
    if IndexOfName(r, name) >= 0 {
      var j := IndexOfName(r, name);
      assert names[if j < i then j else j + 1] == name;
    }
  }

  /** The reason of a removal shows in its failure alone. */
  lemma RemovalIgnoresReason(t: Table, p: Patch, q: Patch)
    requires SameTarget(p, q) && p.RemoveField?
    ensures PatchStep(t, p).Ok? ==> PatchStep(t, p) == PatchStep(t, q)
    ensures PatchStep(t, p).Err? ==> PatchStep(t, q).Err?
    ensures PatchStep(t, p).Err? && p.reason != q.reason ==> PatchStep(t, p) != PatchStep(t, q)
  {
    hide FindByName, IndexOfName, IndexOfField, RemoveAt, SetEntry;
  }

  /** A second removal succeeds exactly when the name was there twice. */
  lemma SecondRemoval(t: Table, p: Patch, q: Patch)
    requires SameTarget(p, q) && p.RemoveField? && PatchStep(t, p).Ok?
    ensures Target(t, p) >= 0
    ensures PatchStep(PatchStep(t, p).value, q).Ok? <==> Repeated(t[Target(t, p)].entry.fieldNames, p.field)
  {
    hide Repeated, IndexOfName, IndexOfField;
    var i := Target(t, p);
    RemovedOnce(t[i].entry.fieldNames, p.field);
    FoundAgain(t, i, EditEntry(t[i].entry, p).value, p.schema);
  }

  lemma NoRemoval(t: Table, p: Patch)
    requires p.RemoveField? && PatchStep(t, p).Err?
    ensures Target(t, p) >= 0 ==> !Repeated(t[Target(t, p)].entry.fieldNames, p.field)
  {
    hide IndexOfName, IndexOfField;
  }

  lemma RemovesOutcome(t: Table, p: Patch, q: Patch)
    requires SameTarget(p, q) && p.RemoveField?
    ensures Phase(t, p, [p, q]) == Phase(t, p, [q, p]) <==> Harmless(t, p, q)
    ensures Phase(t, p, [p, q]).Err? <==> Phase(t, p, [q, p]).Err?
  {
    hide PatchStep, RenamePhase, FieldPhase, Repeated, FindByName;
    TwoSteps(t, p, q);
    TwoSteps(t, q, p);
    RemovalIgnoresReason(t, p, q);
    RemovalIgnoresReason(t, q, p);
    if PatchStep(t, p).Ok? {
      var u := PatchStep(t, p).value;
      RemovalIgnoresReason(u, p, q);
      RemovalIgnoresReason(u, q, p);
      SecondRemoval(t, p, q);
    } else {
      NoRemoval(t, p);
    }
  }

  lemma PatchedInjective(a: string, b: string)
    ensures Patched(a) == Patched(b) <==> a == b
  {
    assert Patched(a)[10..] == a && Patched(b)[10..] == b;
  }

  lemma HintsOutcome(t: Table, p: Patch, q: Patch)
    requires SameTarget(p, q) && p.DiscriminantHint?
    ensures Phase(t, p, [p, q]) == Phase(t, p, [q, p]) <==> Harmless(t, p, q)
    ensures Phase(t, p, [p, q]).Err? <==> Phase(t, p, [q, p]).Err?
  {
    if Target(t, p) >= 0 {
      LastHintWins(t, p, q);
      LastHintWins(t, q, p);
    } else {
      TwoSteps(t, p, q);
      TwoSteps(t, q, p);
    }
  }

  lemma TypesOutcome(t: Table, p: Patch, q: Patch)
    requires SameTarget(p, q) && p.FieldType?
    ensures Phase(t, p, [p, q]) == Phase(t, p, [q, p]) <==> Harmless(t, p, q)
    ensures Phase(t, p, [p, q]).Err? <==> Phase(t, p, [q, p]).Err?
  {
    PatchedInjective(p.arktype, q.arktype);
    hide Patched;
    if Target(t, p) >= 0 && IndexOfField(t[Target(t, p)].entry.fields, p.field) >= 0 {
      LastTypeWins(t, p, q);
      LastTypeWins(t, q, p);
    } else {
      TwoSteps(t, p, q);
      TwoSteps(t, q, p);
    }
  }

  lemma AddsOutcome(t: Table, p: Patch, q: Patch)
    requires SameTarget(p, q) && p.AddField?
    ensures Phase(t, p, [p, q]) == Phase(t, p, [q, p]) <==> Harmless(t, p, q)
    ensures Phase(t, p, [p, q]).Err? <==> Phase(t, p, [q, p]).Err?
  {
    SecondAdditionFails(t, p, q);
    SecondAdditionFails(t, q, p);
  }

  /** On any table, two patches of one target come to the same in both orders exactly when they are harmless to it. */
  lemma OrderMattersIff(t: Table, p: Patch, q: Patch)
    requires SameTarget(p, q)
    ensures Phase(t, p, [p, q]) == Phase(t, p, [q, p]) <==> Harmless(t, p, q)
    ensures Phase(t, p, [p, q]).Err? <==> Phase(t, p, [q, p]).Err?
    ensures Renames(p) && Phase(t, p, [p, q]).Ok? ==> Phase(t, p, [p, q]) == Phase(t, p, [q, p])
  {
    hide Phase, Harmless;
    match p
    case RenameSchema(_, _, _) => RenamesOutcome(t, p, q);
    case ResolveAnon(_, _, _) => ResolvesOutcome(t, p, q);
    case DiscriminantHint(_, _, _, _) => HintsOutcome(t, p, q);
    case AddField(_, _, _, _) => AddsOutcome(t, p, q);
    case FieldType(_, _, _, _) => TypesOutcome(t, p, q);
    case RemoveField(_, _, _) => RemovesOutcome(t, p, q);
  }

  // ---------- among other patches ----------

  lemma {:induction false} PhaseAppend(t: Table, p: Patch, a: seq<Patch>, b: seq<Patch>)
    ensures Phase(t, p, a + b) == if Phase(t, p, a).Err? then Phase(t, p, a) else Phase(Phase(t, p, a).value, p, b)
    decreases |a|
  {
    hide RenameStep, FieldStep;
    if a == [] {
      assert a + b == b;
    } else {
      assert (a + b)[0] == a[0] && (a + b)[1..] == a[1..] + b;
      if Renames(a[0]) != Renames(p) {
        PhaseAppend(t, p, a[1..], b);
      } else if PatchStep(t, a[0]).Ok? {
        PhaseAppend(PatchStep(t, a[0]).value, p, a[1..], b);
      }
    }
  }

  /**
   With any patches before and after the two, swapping them changes nothing when they are harmless to the table they
   meet, and changes the failure when they are not and one of them fails.
   */
  lemma SwapAmongOthers(t: Table, pre: seq<Patch>, p: Patch, q: Patch, post: seq<Patch>)
    requires SameTarget(p, q)
    ensures var m := Phase(t, p, pre);
      && (m.Err? || Harmless(m.value, p, q) ==> Phase(t, p, pre + [p, q] + post) == Phase(t, p, pre + [q, p] + post))
      && (m.Ok? && !Harmless(m.value, p, q) && Phase(m.value, p, [p, q]).Err? ==>
            Phase(t, p, pre + [p, q] + post).Err? && Phase(t, p, pre + [q, p] + post).Err?
            && Phase(t, p, pre + [p, q] + post) != Phase(t, p, pre + [q, p] + post))
  {
    hide Phase, Harmless;
    PhaseAppend(t, p, pre, [p, q]);
    PhaseAppend(t, p, pre, [q, p]);
    PhaseAppend(t, p, pre + [p, q], post);
    PhaseAppend(t, p, pre + [q, p], post);
    if Phase(t, p, pre).Ok? { OrderMattersIff(Phase(t, p, pre).value, p, q); }
  }

  /** A list of two patches of one target is already sorted. */
  lemma TwoAreSorted(p: Patch, q: Patch)
    requires SameTarget(p, q)
    ensures Sort(PatchLe, [p, q]) == [p, q]
  {
    hide PatchLe, SameTarget;
    SameTargetTies(p, q);
    assert [p, q][1..] == [q] && [q][1..] == [] && Sort(PatchLe, [q]) == [q];
  }

  lemma TwoApplied(t: Table, p: Patch, q: Patch)
    requires SameTarget(p, q)
    ensures var r, two := Phase(t, p, [p, q]), ApplySorted(t, [p, q]);
      if Renames(p) then (r.Err? ==> two == Err(r.error))
      else two == if CheckUnique(t, 0, map[]).Some? then Err(CheckUnique(t, 0, map[]).value)
                  else if r.Err? then Err(r.error) else Ok(Annotated(r.value, NameToKey(r.value), KeyToName(r.value), 2))
  {
    hide RenameStep, FieldStep, CheckUnique, NameToKey, KeyToName;
    assert [p, q][1..] == [q] && [q][1..] == [];
    if !Renames(p) {
      assert RenamePhase(t, [p, q]) == RenamePhase(t, [q]) == RenamePhase(t, []) == Ok(t);
    }
  }

  /**
   Through the whole engine, on any canonical table: two patches of one target give different results in the two orders
   if and only if they are not harmless to the cloned entries and, for edits, the entries pass the uniqueness check.
   */
  lemma ConflictsDependOnOrderIff(canonical: Table, p: Patch, q: Patch, infer: string -> string)
    requires SameTarget(p, q)
    ensures var t := Cloned(canonical, infer);
      Applied(canonical, [p, q], infer) != Applied(canonical, [q, p], infer)
      <==> !Harmless(t, p, q) && (Renames(p) || CheckUnique(t, 0, map[]).None?)
  {
    hide RenamePhase, FieldPhase, Harmless, ApplySorted, Cloned, CheckUnique, Sort;
    var t := Cloned(canonical, infer);
    TwoAreSorted(p, q);
    TwoAreSorted(q, p);
    OrderMattersIff(t, p, q);
    TwoApplied(t, p, q);
    TwoApplied(t, q, p);
    if Renames(p) && Phase(t, p, [p, q]) == Phase(t, p, [q, p]) { RenamesAlike(t, p, q); }
  }

  lemma RenamesAlike(t: Table, p: Patch, q: Patch)
    requires SameTarget(p, q) && Renames(p) && Phase(t, p, [p, q]) == Phase(t, p, [q, p])
    ensures ApplySorted(t, [p, q]) == ApplySorted(t, [q, p])
  {
    hide RenameStep, FieldStep, CheckUnique, NameToKey, KeyToName, RenamePhase, FieldPhase;
    var r := RenamePhase(t, [p, q]);
    assert r == RenamePhase(t, [q, p]);
    if r.Ok? {
      NothingToEdit(r.value, p, q);
      NothingToEdit(r.value, q, p);
    }
  }

  lemma NothingToEdit(t: Table, p: Patch, q: Patch)
    requires Renames(p) && Renames(q)
    ensures FieldPhase(t, [p, q]) == Ok(t)
  {
    assert [p, q][1..] == [q] && [q][1..] == [];
    assert FieldPhase(t, [q]) == FieldPhase(t, []);
  }

  // ---------- patches that share a stable key ----------

  function KindPrefix(p: Patch): string {
    match p
    case RenameSchema(_, _, _) => "renameSchema:"
    case ResolveAnon(_, _, _) => "resolveAnon:"
    case DiscriminantHint(_, _, _, _) => "discriminantHint:"
    case AddField(_, _, _, _) => "addField:"
    case FieldType(_, _, _, _) => "fieldType:"
    case RemoveField(_, _, _) => "removeField:"
  }

  /** The part of the key before its last separator. */
  function FirstPart(p: Patch): string {
    match p
    case RenameSchema(from, _, _) => from
    case ResolveAnon(key, _, _) => key
    case _ => p.schema
  }

  function SecondPart(p: Patch): string {
    match p
    case RenameSchema(_, to, _) => to
    case ResolveAnon(_, name, _) => name
    case DiscriminantHint(_, on, _, _) => on
    case _ => p.field
  }

  ghost predicate NoColon(s: string) {
    forall i :: 0 <= i < |s| ==> s[i] != ':'
  }

  lemma KeyOf(p: Patch)
    ensures StablePatchKey(p) == KindPrefix(p) + (FirstPart(p) + (":" + SecondPart(p)))
  {
  }

  /** The first colon of s is at position p. */
  ghost predicate FirstColon(s: string, p: nat) {
    p < |s| && s[p] == ':' && NoColon(s[..p])
  }

  lemma FirstColonIsUnique(s: string, p: nat, q: nat)
    requires FirstColon(s, p) && FirstColon(s, q)
    ensures p <= q
  {
    assert forall i :: 0 <= i < p ==> s[i] == s[..p][i];
  }

  lemma KeyParts(a: string, b: string, c: string, d: string)
    requires NoColon(a) && NoColon(c) && a + (":" + b) == c + (":" + d)
    ensures a == c && b == d
  {
    var s := a + (":" + b);
    assert s[..|a|] == a && s[..|c|] == c && s[|a| + 1..] == b && s[|c| + 1..] == d;
    FirstColonIsUnique(s, |a|, |c|);
    FirstColonIsUnique(s, |c|, |a|);
  }

  /** Patches of one kind and key have one target, if the first parts of the key have no colon. */
  lemma SameKeySameTarget(p: Patch, q: Patch)
    requires Rank(p) == Rank(q) && StablePatchKey(p) == StablePatchKey(q)
    requires NoColon(FirstPart(p)) && NoColon(FirstPart(q))
    ensures SameTarget(p, q)
  {
    KeyOf(p);
    KeyOf(q);
    hide NoColon, StablePatchKey;
    var prefix, a, b := KindPrefix(p), FirstPart(p) + (":" + SecondPart(p)), FirstPart(q) + (":" + SecondPart(q));
    assert (prefix + a)[|prefix|..] == a && (prefix + b)[|prefix|..] == b;
    KeyParts(FirstPart(p), SecondPart(p), FirstPart(q), SecondPart(q));
  }

  /** The same for conflicts as the comparator sees them: equal kind and key, with no colon in the first parts. */
  lemma ConflictsByKeyIff(canonical: Table, p: Patch, q: Patch, infer: string -> string)
    requires Rank(p) == Rank(q) && StablePatchKey(p) == StablePatchKey(q)
    requires NoColon(FirstPart(p)) && NoColon(FirstPart(q))
    ensures SameTarget(p, q)
    ensures var t := Cloned(canonical, infer);
      Applied(canonical, [p, q], infer) != Applied(canonical, [q, p], infer)
      <==> !Harmless(t, p, q) && (Renames(p) || CheckUnique(t, 0, map[]).None?)
  {
    hide StablePatchKey, SameTarget, Harmless, Applied, Cloned;
    SameKeySameTarget(p, q);
    ConflictsDependOnOrderIff(canonical, p, q, infer);
  }

  /** With a colon, patches of different targets share a key: one of these two renames succeeds in one order only. */
  lemma ColonsShareKeys(t: Table, x: string, reason: string)
    requires FindByName(t, x) >= 0 && FindByName(t, x + ":" + x) < 0
    ensures var p, q := RenameSchema(x, x + ":" + x, reason), RenameSchema(x + ":" + x, x, reason);
      && StablePatchKey(p) == StablePatchKey(q) && !SameTarget(p, q)
      && Sort(PatchLe, [p, q]) == [p, q] && Sort(PatchLe, [q, p]) == [q, p]
      && RenamePhase(t, Sort(PatchLe, [p, q])).Ok? && RenamePhase(t, Sort(PatchLe, [q, p])).Err?
  {
    var xx := x + ":" + x;
    var p, q := RenameSchema(x, xx, reason), RenameSchema(xx, x, reason);
    assert StablePatchKey(p) == StablePatchKey(q) by {
      assert "renameSchema:" + x + ":" + xx == "renameSchema:" + xx + ":" + x;
    }
    SameKeySorted(p, q);
    SameKeySorted(q, p);
    assert |xx| != |x|;
    hide StablePatchKey, PatchLe, Sort;
    TwoSteps(t, p, q);
    TwoSteps(t, q, p);
    var i := FindByName(t, x);
    var t' := SetEntry(t, i, t[i].entry.(emittedName := xx));
    assert t'[i].entry.emittedName == xx;
  }

  lemma SameKeySorted(p: Patch, q: Patch)
    requires Rank(p) == Rank(q) && StablePatchKey(p) == StablePatchKey(q)
    ensures Sort(PatchLe, [p, q]) == [p, q]
  {
    hide StablePatchKey, LexLe;
    LexTotal(StablePatchKey(p), StablePatchKey(q));
    assert [p, q][1..] == [q] && [q][1..] == [] && Sort(PatchLe, [q]) == [q];
  }
}
