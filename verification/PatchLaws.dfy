/** In which order patches are applied and what each does (codegen/apply-patches.ts), spelled out. */
module PatchLaws {
  import opened Prelude
  import opened Ordering
  import opened Alphabet
  import opened Patches
  import opened PatchConflicts

  // ---------- the order of application ----------

  /** Renames first, then edits: hints, additions, types, removals. */
  ghost predicate AppliedBefore(p: Patch, q: Patch) {
    || (p.RenameSchema? && !q.RenameSchema?)
    || (p.ResolveAnon? && (q.DiscriminantHint? || q.AddField? || q.FieldType? || q.RemoveField?))
    || (p.DiscriminantHint? && (q.AddField? || q.FieldType? || q.RemoveField?))
    || (p.AddField? && (q.FieldType? || q.RemoveField?))
    || (p.FieldType? && q.RemoveField?)
  }

  /** The two parts of the key with the separator between them. */
  function PartsOf(p: Patch): string {
    FirstPart(p) + ":" + SecondPart(p)
  }

  lemma {:induction false} SamePrefix(prefix: string, a: string, b: string)
    ensures LexLe(prefix + a, prefix + b) <==> LexLe(a, b)
  {
    if prefix == "" {
      assert prefix + a == a && prefix + b == b;
    } else {
      assert (prefix + a)[1..] == prefix[1..] + a && (prefix + b)[1..] == prefix[1..] + b;
      SamePrefix(prefix[1..], a, b);
    }
  }

  /** Whatever the input order: kinds are applied in their order, and patches of one kind alphabetically by their parts. */
  lemma AppliedInOrder(patches: seq<Patch>, i: nat, j: nat)
    requires i < j < |patches|
    ensures |Sort(PatchLe, patches)| == |patches|
    ensures var p, q := Sort(PatchLe, patches)[i], Sort(PatchLe, patches)[j];
      !AppliedBefore(q, p)
      && (KindPrefix(p) == KindPrefix(q) ==> PartsOf(p) == PartsOf(q) || Less(PartsOf(p), PartsOf(q)))
  {
    hide Sort, PatchLe, StablePatchKey, LexLe, Less;
    SortSize(PatchLe, patches);
    PatchLeIsTotal();
    SortSorts(PatchLe, patches);
    var p, q := Sort(PatchLe, patches)[i], Sort(PatchLe, patches)[j];
    assert PatchLe(p, q);
    PatchLeMeans(p, q);
  }

  lemma PatchLeMeans(p: Patch, q: Patch)
    requires PatchLe(p, q)
    ensures !AppliedBefore(q, p)
    ensures KindPrefix(p) == KindPrefix(q) ==> PartsOf(p) == PartsOf(q) || Less(PartsOf(p), PartsOf(q))
  {
    hide Less, LexLe, StablePatchKey;
    if KindPrefix(p) == KindPrefix(q) {
      PrefixIsKind(p, q);
      KeyOf(p);
      KeyOf(q);
      assert FirstPart(p) + (":" + SecondPart(p)) == PartsOf(p) && FirstPart(q) + (":" + SecondPart(q)) == PartsOf(q);
      SamePrefix(KindPrefix(p), PartsOf(p), PartsOf(q));
      LexLeIff(PartsOf(p), PartsOf(q));
    }
  }

  lemma PrefixIsKind(p: Patch, q: Patch)
    requires KindPrefix(p) == KindPrefix(q)
    ensures Rank(p) == Rank(q)
  {
    assert KindPrefix(p)[0..2] == KindPrefix(q)[0..2];
    var c, d := KindPrefix(p), KindPrefix(q);
    assert |c| == |d| && c[2] == d[2];
  }

  /** Two patches of different kinds, in either order, are applied in the order of their kinds. */
  lemma TwoKinds(p: Patch, q: Patch)
    requires AppliedBefore(p, q)
    ensures Sort(PatchLe, [p, q]) == [p, q] && Sort(PatchLe, [q, p]) == [p, q]
  {
    assert [p, q][1..] == [q] && [q, p][1..] == [p] && [q][1..] == [] && [p][1..] == [];
    assert Sort(PatchLe, [q]) == [q] && Sort(PatchLe, [p]) == [p];
  }

  lemma {:induction false} ThreeKinds(p: Patch, q: Patch, r: Patch, patches: seq<Patch>)
    requires AppliedBefore(p, q) && AppliedBefore(q, r) && multiset(patches) == multiset{p, q, r}
    ensures Sort(PatchLe, patches) == [p, q, r]
  {
    hide Sort, StablePatchKey;
    PatchLeIsTotal();
    SortSorts(PatchLe, patches);
    assert Sorted(PatchLe, [p, q, r]) && multiset([p, q, r]) == multiset{p, q, r};
    assert Antisymmetric(PatchLe, multiset(Sort(PatchLe, patches)));
    SortedUnique(PatchLe, Sort(PatchLe, patches), [p, q, r]);
  }

  // ---------- the table patches are applied to ----------

  /** A clone of c under its inferred name. */
  ghost predicate IsClone(c: Keyed, k: Keyed, infer: string -> string) {
    c.key == k.key && k.entry.emittedName == infer(c.key) && SameContents(c.entry, k.entry)
  }

  /** The entries are cloned in the alphabetical order of their keys, each with its inferred name and otherwise as it was. */
  lemma ClonedInOrder(canonical: Table, infer: string -> string)
    ensures var t := Cloned(canonical, infer);
      && |t| == |canonical|
      && (forall i, j :: 0 <= i < j < |t| ==> t[i].key == t[j].key || Less(t[i].key, t[j].key))
      && (forall k :: k in t ==> exists c :: c in canonical && IsClone(c, k, infer))
      && (forall c :: c in canonical ==> exists k :: k in t && IsClone(c, k, infer))
  {
    hide Sort, LexLe, Less;
    var sorted, t := Sort(KeyLe, canonical), Cloned(canonical, infer);
    KeyLeIsTotal();
    SortSorts(KeyLe, canonical);
    SortMembers(KeyLe, canonical);
    SortSize(KeyLe, canonical);
    forall i, j | 0 <= i < j < |t| ensures t[i].key == t[j].key || Less(t[i].key, t[j].key) {
      assert KeyLe(sorted[i], sorted[j]);
      LexLeIff(t[i].key, t[j].key);
    }
    forall k | k in t ensures exists c :: c in canonical && IsClone(c, k, infer) {
      var i :| 0 <= i < |t| && t[i] == k;
      assert sorted[i] in canonical && IsClone(sorted[i], k, infer);
    }
    forall c | c in canonical ensures exists k :: k in t && IsClone(c, k, infer) {
      var i :| 0 <= i < |sorted| && sorted[i] == c;
      assert t[i] in t && IsClone(c, t[i], infer);
    }
  }

  /** Alike but for the name. */
  ghost predicate SameContents(a: Entry, b: Entry) {
    a.fieldNames == b.fieldNames && a.fields == b.fields && a.discriminantOverride == b.discriminantOverride && a.rest == b.rest
  }

  lemma KeyLeIsTotal()
    ensures TotalPreorder(KeyLe)
  {
    forall a: Keyed, b: Keyed ensures KeyLe(a, b) || KeyLe(b, a) { LexTotal(a.key, b.key); }
    forall a: Keyed, b: Keyed, c: Keyed | KeyLe(a, b) && KeyLe(b, c) ensures KeyLe(a, c) { LexTransitive(a.key, b.key, c.key); }
  }

  // ---------- what one patch does ----------

  /** Entry i is the first of that name. */
  ghost predicate FirstNamed(t: Table, i: nat, name: string) {
    i < |t| && t[i].entry.emittedName == name && forall j :: 0 <= j < i ==> t[j].entry.emittedName != name
  }

  /** Only entry i differs, and only in its fields and field names. */
  ghost predicate FieldsBecome(t: Table, u: Table, i: nat, names: seq<string>, fields: seq<Field>) {
    i < |t| && u == t[i := t[i].(entry := t[i].entry.(fieldNames := names, fields := fields))]
  }

  lemma NotNamed(t: Table, name: string)
    ensures FindByName(t, name) < 0 <==> forall j :: 0 <= j < |t| ==> t[j].entry.emittedName != name
  {
  }

  /** An edit of an unknown schema fails with its name; only the first entry of a name is edited. */
  lemma EditsFirstNamed(t: Table, p: Patch, i: nat)
    requires !Renames(p)
    ensures (forall j :: 0 <= j < |t| ==> t[j].entry.emittedName != p.schema) ==>
      FieldStep(t, p).Err? && FieldStep(t, p).error.TargetMissing?
      && FieldStep(t, p).error.target == p.schema && FieldStep(t, p).error.reason == p.reason
    ensures FirstNamed(t, i, p.schema) ==> FindByName(t, p.schema) == i
  {
    NotNamed(t, p.schema);
  }

  /** An addition puts the field, marked as patched, behind the others; it fails if the name is there. */
  lemma AdditionAppends(t: Table, p: Patch, i: nat)
    requires p.AddField? && FirstNamed(t, i, p.schema)
    ensures var e, r := t[i].entry, FieldStep(t, p);
      && (r.Err? <==> p.field in e.fieldNames)
      && (r.Err? ==> r.error == FieldExists(p.schema, p.field, p.reason))
      && (r.Ok? ==> FieldsBecome(t, r.value, i, e.fieldNames + [p.field], e.fields + [Field(p.field, "__PATCH__:" + p.arktype)]))
  {
    EditsFirstNamed(t, p, i);
  }

  /** A type replaces the right-hand side of the first field of that name, marked as patched; it fails if there is none. */
  lemma TypeReplaces(t: Table, p: Patch, i: nat, k: nat)
    requires p.FieldType? && FirstNamed(t, i, p.schema)
    requires k < |t[i].entry.fields| && t[i].entry.fields[k].name == p.field
    requires forall j :: 0 <= j < k ==> t[i].entry.fields[j].name != p.field
    ensures var e, r := t[i].entry, FieldStep(t, p);
      r.Ok? && FieldsBecome(t, r.value, i, e.fieldNames, e.fields[k := Field(p.field, "__PATCH__:" + p.arktype)])
  {
    EditsFirstNamed(t, p, i);
  }

  lemma NoFieldToType(t: Table, p: Patch, i: nat)
    requires p.FieldType? && FirstNamed(t, i, p.schema)
    requires forall f :: f in t[i].entry.fields ==> f.name != p.field
    ensures var r := FieldStep(t, p);
      r.Err? && r.error.FieldMissing? && r.error.schema == p.schema && r.error.field == p.field && r.error.reason == p.reason
  {
    EditsFirstNamed(t, p, i);
  }

  /** A removal takes the first name and the field beside it away; it fails if there is none. */
  lemma RemovalCuts(t: Table, p: Patch, i: nat, front: seq<string>, back: seq<string>)
    requires p.RemoveField? && FirstNamed(t, i, p.schema)
    requires t[i].entry.fieldNames == front + [p.field] + back && p.field !in front
    requires |t[i].entry.fields| == |t[i].entry.fieldNames|
    ensures var e, r := t[i].entry, FieldStep(t, p);
      r.Ok? && FieldsBecome(t, r.value, i, front + back, e.fields[..|front|] + e.fields[|front| + 1..])
  {
    EditsFirstNamed(t, p, i);
    var names := t[i].entry.fieldNames;
    assert names[|front|] == p.field;
    assert forall j :: 0 <= j < |front| ==> names[j] == front[j] && front[j] in front;
    assert IndexOfName(names, p.field) == |front|;
    assert RemoveAt(names, |front|) == front + back;
  }

  lemma NothingToRemove(t: Table, p: Patch, i: nat)
    requires p.RemoveField? && FirstNamed(t, i, p.schema) && p.field !in t[i].entry.fieldNames
    ensures var r := FieldStep(t, p);
      r.Err? && r.error.FieldMissing? && r.error.schema == p.schema && r.error.field == p.field && r.error.reason == p.reason
  {
    EditsFirstNamed(t, p, i);
  }

  /** A hint is stored with the entry; everything else stays. */
  lemma HintIsStored(t: Table, p: Patch, i: nat)
    requires p.DiscriminantHint? && FirstNamed(t, i, p.schema)
    ensures FieldStep(t, p) == Ok(t[i := t[i].(entry := t[i].entry.(discriminantOverride := Some(Hint(p.on, p.values))))])
  {
    EditsFirstNamed(t, p, i);
  }

  /** A rename gives the first entry of the old name, or the entry of the key, its new name, and nothing else. */
  lemma RenameNames(t: Table, p: Patch, i: nat)
    requires Renames(p) && i < |t|
    requires if p.RenameSchema? then FirstNamed(t, i, p.from)
             else t[i].key == p.canonicalKey && forall j :: 0 <= j < i ==> t[j].key != p.canonicalKey
    ensures RenameStep(t, p) ==
      Ok(t[i := t[i].(entry := t[i].entry.(emittedName := if p.RenameSchema? then p.to else p.name))])
  {
  }

  lemma NothingToRename(t: Table, p: Patch)
    requires Renames(p)
    requires forall k :: k in t ==> if p.RenameSchema? then k.entry.emittedName != p.from else k.key != p.canonicalKey
    ensures var r := RenameStep(t, p);
      r.Err? && r.error.TargetMissing? && r.error.reason == p.reason
      && r.error.target == if p.RenameSchema? then p.from else p.canonicalKey
  {
  }

  // ---------- through the whole engine ----------

  /** Adding, retyping and removing one field, in whatever order the patches are given, leaves the entries as they were. */
  lemma AddTypeRemove(canonical: Table, add: Patch, retype: Patch, remove: Patch, patches: seq<Patch>, infer: string -> string,
                      i: nat)
    requires add.AddField? && retype.FieldType? && remove.RemoveField?
    requires add.schema == retype.schema == remove.schema && add.field == retype.field == remove.field
    requires multiset(patches) == multiset{add, retype, remove}
    requires var t := Cloned(canonical, infer);
      && CheckUnique(t, 0, map[]).None? && FirstNamed(t, i, add.schema) && Aligned(t[i].entry)
      && add.field !in t[i].entry.fieldNames
    ensures var r := Applied(canonical, patches, infer);
      r.Ok? && r.value.entries == Cloned(canonical, infer) && r.value.appliedPatchCount == 3
  {
    hide Sort, Cloned, CheckUnique, FieldStep, NameToKey, KeyToName;
    var t, sorted := Cloned(canonical, infer), [add, retype, remove];
    ThreeKinds(add, retype, remove, patches);
    assert RenamePhase(t, sorted) == Ok(t) by { NoRenames(t, add, retype, remove); }
    AddTypeRemoveSteps(t, add, retype, remove, i);
    ThreeEdits(t, add, retype, remove);
  }

  lemma NoRenames(t: Table, p: Patch, q: Patch, r: Patch)
    requires !Renames(p) && !Renames(q) && !Renames(r)
    ensures RenamePhase(t, [p, q, r]) == Ok(t)
  {
    assert [p, q, r][1..] == [q, r] && [q, r][1..] == [r] && [r][1..] == [];
    assert RenamePhase(t, [r]) == Ok(t);
  }

  lemma ThreeEdits(t: Table, p: Patch, q: Patch, r: Patch)
    requires !Renames(p) && !Renames(q) && !Renames(r)
    ensures FieldStep(t, p).Ok? && FieldStep(FieldStep(t, p).value, q).Ok? ==>
      FieldPhase(t, [p, q, r]) == FieldStep(FieldStep(FieldStep(t, p).value, q).value, r)
  {
    hide FieldStep;
    if FieldStep(t, p).Ok? && FieldStep(FieldStep(t, p).value, q).Ok? {
      assert [p, q, r][1..] == [q, r] && [q, r][1..] == [r];
      OneStep(FieldStep(FieldStep(t, p).value, q).value, r);
    }
  }

  lemma AddTypeRemoveSteps(t: Table, add: Patch, retype: Patch, remove: Patch, i: nat)
    requires add.AddField? && retype.FieldType? && remove.RemoveField?
    requires add.schema == retype.schema == remove.schema && add.field == retype.field == remove.field
    requires FirstNamed(t, i, add.schema) && Aligned(t[i].entry) && add.field !in t[i].entry.fieldNames
    ensures FieldStep(t, add).Ok? && FieldStep(FieldStep(t, add).value, retype).Ok?
    ensures FieldStep(FieldStep(FieldStep(t, add).value, retype).value, remove) == Ok(t)
  {
    hide FieldStep;
    var e := t[i].entry;
    var n := |e.fields|;
    AdditionAppends(t, add, i);
    var t1 := FieldStep(t, add).value;
    var e1 := t1[i].entry;
    assert forall j :: 0 <= j < n ==> e1.fields[j].name == e.fieldNames[j] && e.fieldNames[j] in e.fieldNames;
    TypeReplaces(t1, retype, i, n);
    var t2 := FieldStep(t1, retype).value;
    RemovalCuts(t2, remove, i, e.fieldNames, []);
    assert e.fieldNames + [] == e.fieldNames;
    var f2 := t2[i].entry.fields;
    assert f2[..n] + f2[n + 1..] == e.fields;
    assert t2[i := t2[i].(entry := t2[i].entry.(fieldNames := e.fieldNames, fields := e.fields))] == t;
  }

  /** An edit may use the name a rename gives, in whichever order the two are listed. */
  lemma EditsSeeNewNames(canonical: Table, rename: Patch, edit: Patch, infer: string -> string, i: nat)
    requires rename.RenameSchema? && edit.AddField? && edit.schema == rename.to
    requires var t := Cloned(canonical, infer);
      && FirstNamed(t, i, rename.from) && edit.field !in t[i].entry.fieldNames
      && forall j :: 0 <= j < |t| && j != i ==> t[j].entry.emittedName != rename.to
    requires CheckUnique(RenameStep(Cloned(canonical, infer), rename).value, 0, map[]).None?
    ensures var t, r := Cloned(canonical, infer), Applied(canonical, [edit, rename], infer);
      && r == Applied(canonical, [rename, edit], infer) && r.Ok?
      && r.value.entries == t[i := t[i].(entry := t[i].entry.(emittedName := rename.to,
           fieldNames := t[i].entry.fieldNames + [edit.field],
           fields := t[i].entry.fields + [Field(edit.field, "__PATCH__:" + edit.arktype)]))]
  {
    hide Sort, Cloned, CheckUnique, NameToKey, KeyToName, FieldStep, RenameStep;
    var t := Cloned(canonical, infer);
    TwoKinds(rename, edit);
    RenameNames(t, rename, i);
    var t1 := RenameStep(t, rename).value;
    AdditionAppends(t1, edit, i);
    assert [rename, edit][1..] == [edit] && [edit][1..] == [];
    assert RenamePhase(t1, [edit]) == RenamePhase(t1, []) == Ok(t1);
    assert RenamePhase(t, [rename, edit]) == Ok(t1);
    OneStep(t1, edit);
    assert FieldPhase(t1, [rename, edit]) == FieldStep(t1, edit);
  }
}
