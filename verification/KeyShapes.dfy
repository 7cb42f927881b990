/** The base keys of schemas and what their entries hold (codegen/extract.ts, canonicalize), spelled out. */
module KeyShapes {
  import opened Prelude
  import opened CanonicalKeys

  /** A literal, where the empty string counts as none. */
  function Literal(x: Option<string>): string {
    ValueOr(x, "")
  }

  /** The shape of a base key: type and subtype, one of them, or the hash of the body. */
  lemma BaseKeyShape(s: Schema, hash: Hash)
    ensures var t, u, key := Literal(s.typeLiteral), Literal(s.subtypeLiteral), BaseKey(s, hash);
      && (t != "" && u != "" ==> key == "type/" + t + "+subtype/" + u)
      && (t == "" && u != "" ==> key == "subtype/" + u)
      && (t != "" && u == "" ==> key == "type/" + t)
      && (t == "" && u == "" ==> key == "anon/" + hash(s.body))
  {
  }

  ghost predicate NoPlus(s: string) {
    forall i :: 0 <= i < |s| ==> s[i] != '+'
  }

  /** Without a plus sign in the types, named schemas share a base key exactly when they have the same literals. */
  lemma SameBaseKeyIff(a: Schema, b: Schema, hash: Hash)
    requires Literal(a.typeLiteral) != "" || Literal(a.subtypeLiteral) != ""
    requires Literal(b.typeLiteral) != "" || Literal(b.subtypeLiteral) != ""
    requires NoPlus(Literal(a.typeLiteral)) && NoPlus(Literal(b.typeLiteral))
    ensures BaseKey(a, hash) == BaseKey(b, hash) <==>
      Literal(a.typeLiteral) == Literal(b.typeLiteral) && Literal(a.subtypeLiteral) == Literal(b.subtypeLiteral)
  {
    hide BaseKey;
    var t, u, v, w := Literal(a.typeLiteral), Literal(a.subtypeLiteral), Literal(b.typeLiteral), Literal(b.subtypeLiteral);
    BaseKeyShape(a, hash);
    BaseKeyShape(b, hash);
    var k, l := BaseKey(a, hash), BaseKey(b, hash);
    if t == "" {
      assert k[0] == 's' && k[8..] == u;
      if v == "" { assert l[8..] == w; } else { assert l[0] == 't'; }
    } else {
      TypedShape(k, t, u);
      if v == "" {
        assert l[0] == 's';
      } else {
        TypedShape(l, v, w);
        TypeEnds(k[5..], t, v);
        TypeEnds(l[5..], v, t);
      }
    }
  }

  /** Behind its first five characters a typed key has the type up to the first plus sign. */
  lemma TypedShape(k: string, t: string, u: string)
    requires t != "" && k == if u != "" then "type/" + t + "+subtype/" + u else "type/" + t
    ensures k[0] == 't' && |k| >= 5 + |t| && k[5..5 + |t|] == t
    ensures if u == "" then |k| == 5 + |t| else |k| > 14 + |t| && k[5 + |t|] == '+' && k[14 + |t|..] == u
  {
    var rest := if u != "" then "+subtype/" + u else "";
    assert k == "type/" + (t + rest);
    if u != "" { assert k[14 + |t|..] == rest[9..]; }
  }

  /** A type that a key starts with is no longer than another, if the key has a plus sign or its end behind it. */
  lemma TypeEnds(k: string, t: string, v: string)
    requires |t| <= |k| && k[..|t|] == t && (|t| == |k| || k[|t|] == '+') && NoPlus(v)
    ensures |v| <= |k| && k[..|v|] == v ==> |v| <= |t|
  {
    if |v| <= |k| && k[..|v|] == v && |t| < |v| { PlusInside(k, v, |t|); }
  }

  lemma PlusInside(k: string, v: string, i: nat)
    requires i < |v| <= |k| && k[..|v|] == v
    ensures v[i] == k[i]
  {
  }

  /** With a plus sign in a type, two schemas of different literals can share a base key. */
  lemma PlusSharesKeys(a: Schema, b: Schema, t: string, u: string, hash: Hash)
    requires t != "" && u != "" && a.typeLiteral == Some(t + "+subtype/" + u) && a.subtypeLiteral.None?
    requires b.typeLiteral == Some(t) && b.subtypeLiteral == Some(u)
    ensures BaseKey(a, hash) == BaseKey(b, hash)
  {
    BaseKeyShape(a, hash);
    BaseKeyShape(b, hash);
    assert "type/" + (t + "+subtype/" + u) == "type/" + t + "+subtype/" + u;
  }

  /** An anonymous schema never has the base key of a named one. */
  lemma AnonymousApart(a: Schema, b: Schema, hash: Hash)
    requires Literal(a.typeLiteral) == "" && Literal(a.subtypeLiteral) == ""
    requires Literal(b.typeLiteral) != "" || Literal(b.subtypeLiteral) != ""
    ensures BaseKey(a, hash) != BaseKey(b, hash)
  {
    BaseKeyShape(a, hash);
    BaseKeyShape(b, hash);
    assert BaseKey(a, hash)[0] == 'a' && BaseKey(b, hash)[0] != 'a';
  }

  /** What an entry holds of its schema; enum members of enums alone. */
  lemma EntryHolds(s: Schema, key: string)
    ensures var e, t, u := EntryOf(s, key), Literal(s.typeLiteral), Literal(s.subtypeLiteral);
      && e.canonicalKey == key && e.schemaKind == s.kind && e.fields == s.fields && e.bodyLen == s.bodyLen
      && e.minifiedIdThisVersion == s.bindingName
      && |e.fieldNames| == |s.fields| && (forall i :: 0 <= i < |s.fields| ==> e.fieldNames[i] == s.fields[i].name)
      && e.enumValues == (if s.kind == "enum" then Some(s.enumValues) else None)
      && e.discriminant == (if u != "" then Subtype(u) else if t != "" then Type(t) else Anonymous)
  {
  }
}
