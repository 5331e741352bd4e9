/**
 The three fingerprint algorithms: each hashes the canonical text of a growing subset of
 a tool definition's fields.
 */
module ToolHashes {
  import opened Sequences
  import opened Json
  import opened JsonText
  import opened Canonical
  import Fingerprints
  import FingerprintSafety

  const FIELDS := ["name", "description", "inputSchema", "annotations", "outputSchema"]

  /** A missing field counts as null. */
  function FieldOrNull(tool: Json, key: string): Json {
    var f := Get(tool, key);
    if f.Some? then f.value else Null
  }

  function Field(tool: Json, i: nat): Member
    requires i < |FIELDS|
  {
    Member(FIELDS[i], FieldOrNull(tool, FIELDS[i]))
  }

  function Subset1(tool: Json): Json {
    Object([Field(tool, 0), Field(tool, 1), Field(tool, 2)])
  }

  function Subset2(tool: Json): Json {
    Object(Subset1(tool).members + [Field(tool, 3)])
  }

  function Subset3(tool: Json): Json {
    Object(Subset2(tool).members + [Field(tool, 4)])
  }

  function HashSubset(hash: string -> string, subset: Json): string {
    hash(CanonicalText(subset))
  }

  function Versions(hash: string -> string, tool: Json): Fingerprints.Hashes {
    Fingerprints.Hashes(HashSubset(hash, Subset1(tool)), HashSubset(hash, Subset2(tool)),
        HashSubset(hash, Subset3(tool)))
  }

  ghost predicate Injective(hash: string -> string) {
    forall a, b :: hash(a) == hash(b) ==> a == b
  }

  // ---------------------------------------------------------------- what each version sees

  lemma LookupWellFormed(ms: seq<Member>, key: string)
    requires WellFormedMembers(ms)
    ensures Lookup(ms, key).Some? ==> WellFormed(Lookup(ms, key).value)
  {
  }

  lemma FieldNamesDistinct()
    ensures forall i, j :: 0 <= i < j < |FIELDS| ==> FIELDS[i] != FIELDS[j]
  {
    assert |FIELDS[0]| == 4 && |FIELDS[1]| == 11 && |FIELDS[2]| == 11 && |FIELDS[3]| == 11 && |FIELDS[4]| == 12;
    assert FIELDS[1][0] == 'd' && FIELDS[2][0] == 'i' && FIELDS[3][0] == 'a';
  }

  /** The first `n` fields, in order. */
  function FirstFields(tool: Json, n: nat): (r: seq<Member>)
    requires n <= |FIELDS|
    ensures |r| == n && forall i :: 0 <= i < n ==> r[i] == Field(tool, i)
  {
    seq(n, i requires 0 <= i < n => Field(tool, i))
  }

  lemma SubsetsAreFields(tool: Json)
    ensures Subset1(tool) == Object(FirstFields(tool, 3))
    ensures Subset2(tool) == Object(FirstFields(tool, 4))
    ensures Subset3(tool) == Object(FirstFields(tool, 5))
  {
    assert Subset1(tool).members == FirstFields(tool, 3);
    assert Subset2(tool).members == FirstFields(tool, 4);
    assert Subset3(tool).members == FirstFields(tool, 5);
  }

  lemma FieldsWellFormed(tool: Json, n: nat)
    requires WellFormed(tool) && n <= |FIELDS|
    ensures WellFormed(Object(FirstFields(tool, n)))
  {
    var ms := FirstFields(tool, n);
    FieldNamesDistinct();
    forall i | 0 <= i < n
      ensures WellFormed(ms[i].json)
    {
      if tool.Object? {
        LookupWellFormed(tool.members, FIELDS[i]);
      }
    }
  }

  /** The first `n` fields of both tools agree up to key order. */
  ghost predicate FieldsAgree(a: Json, b: Json, n: nat)
    requires n <= |FIELDS|
  {
    forall i :: 0 <= i < n ==> Equivalent(FieldOrNull(a, FIELDS[i]), FieldOrNull(b, FIELDS[i]))
  }

  predicate SameKeys(a: seq<Member>, b: seq<Member>) {
    |a| == |b| && forall k :: 0 <= k < |a| ==> a[k].key == b[k].key
  }

  lemma HeldAt(a: seq<Member>, b: seq<Member>, i: nat)
    requires DistinctKeys(a) && SameKeys(a, b) && i < |a| && Holds(b, a[i])
    ensures Equivalent(a[i].json, b[i].json)
  {
    var j :| 0 <= j < |b| && b[j].key == a[i].key && Equivalent(a[i].json, b[j].json);
    assert a[j].key == a[i].key;
  }

  /** Objects with the same distinct keys in the same places compare field by field. */
  lemma EquivalentFields(a: seq<Member>, b: seq<Member>, i: nat)
    requires DistinctKeys(a) && SameKeys(a, b)
    requires Equivalent(Object(a), Object(b)) && i < |a|
    ensures Equivalent(a[i].json, b[i].json)
  {
    assert Holds(b, a[i]);
    HeldAt(a, b, i);
  }

  lemma FieldsEquivalent(a: seq<Member>, b: seq<Member>)
    requires SameKeys(a, b) && forall k :: 0 <= k < |a| ==> Equivalent(a[k].json, b[k].json)
    ensures Equivalent(Object(a), Object(b))
  {
    forall i | 0 <= i < |a|
      ensures Holds(b, a[i])
    {
      assert b[i].key == a[i].key && Equivalent(a[i].json, b[i].json);
    }
  }

  /** Subsets with the same fields are equal up to key order exactly when their fields are. */
  lemma SubsetsEquivalent(a: Json, b: Json, n: nat)
    requires n <= |FIELDS|
    ensures Equivalent(Object(FirstFields(a, n)), Object(FirstFields(b, n))) <==> FieldsAgree(a, b, n)
  {
    var ma, mb := FirstFields(a, n), FirstFields(b, n);
    FieldNamesDistinct();
    assert SameKeys(ma, mb) && DistinctKeys(ma);
    if Equivalent(Object(ma), Object(mb)) {
      forall i | 0 <= i < n
        ensures Equivalent(FieldOrNull(a, FIELDS[i]), FieldOrNull(b, FIELDS[i]))
      {
        EquivalentFields(ma, mb, i);
      }
    }
    if FieldsAgree(a, b, n) {
      FieldsEquivalent(ma, mb);
    }
  }

  /** The first `n` fields hash alike exactly when they agree up to key order. */
  lemma HashSeesFields(hash: string -> string, a: Json, b: Json, n: nat)
    requires Injective(hash) && WellFormed(a) && WellFormed(b) && n <= |FIELDS|
    ensures HashSubset(hash, Object(FirstFields(a, n))) == HashSubset(hash, Object(FirstFields(b, n)))
            <==> FieldsAgree(a, b, n)
  {
    FieldsWellFormed(a, n);
    FieldsWellFormed(b, n);
    CanonicalUnambiguous(Object(FirstFields(a, n)), Object(FirstFields(b, n)));
    SubsetsEquivalent(a, b, n);
  }

  /** Exactly when two definitions share a fingerprint, version by version. */
  lemma VersionsSee(hash: string -> string, a: Json, b: Json)
    requires Injective(hash) && WellFormed(a) && WellFormed(b)
    ensures Versions(hash, a).v1 == Versions(hash, b).v1 <==> FieldsAgree(a, b, 3)
    ensures Versions(hash, a).v2 == Versions(hash, b).v2 <==> FieldsAgree(a, b, 4)
    ensures Versions(hash, a).v3 == Versions(hash, b).v3 <==> FieldsAgree(a, b, 5)
  {
    SubsetsAreFields(a);
    SubsetsAreFields(b);
    HashSeesFields(hash, a, b, 3);
    HashSeesFields(hash, a, b, 4);
    HashSeesFields(hash, a, b, 5);
  }

  /** Subsets with different numbers of fields never hash alike. */
  lemma VersionsNeverMeet(hash: string -> string, a: Json, b: Json, n: nat, m: nat)
    requires Injective(hash) && WellFormed(a) && WellFormed(b) && n < m <= |FIELDS|
    ensures HashSubset(hash, Object(FirstFields(a, n))) != HashSubset(hash, Object(FirstFields(b, m)))
  {
    FieldsWellFormed(a, n);
    FieldsWellFormed(b, m);
    CanonicalUnambiguous(Object(FirstFields(a, n)), Object(FirstFields(b, m)));
  }

  /** The fingerprints of every tool definition there is. */
  ghost function Definitions(hash: string -> string): iset<Fingerprints.Hashes> {
    iset tool | WellFormed(tool) :: Versions(hash, tool)
  }

  /** The fingerprints of all tool definitions are what the fingerprint store relies on. */
  lemma HashesCoherent(hash: string -> string)
    requires Injective(hash)
    ensures FingerprintSafety.Coherent(Definitions(hash))
  {
    var defs := Definitions(hash);
    forall x, y | x in defs && y in defs
      ensures (x.v3 == y.v3 ==> x.v2 == y.v2) && (x.v2 == y.v2 ==> x.v1 == y.v1)
      ensures x.v1 != y.v2 && x.v1 != y.v3 && x.v2 != y.v3
    {
      var a :| WellFormed(a) && Versions(hash, a) == x;
      var b :| WellFormed(b) && Versions(hash, b) == y;
      VersionsSee(hash, a, b);
      SubsetsAreFields(a);
      SubsetsAreFields(b);
      VersionsNeverMeet(hash, a, b, 3, 4);
      VersionsNeverMeet(hash, a, b, 3, 5);
      VersionsNeverMeet(hash, a, b, 4, 5);
    }
  }

  // ---------------------------------------------------------------- what is hashed, letter by letter

  /** The canonical text of one field, or of null. */
  function FieldText(tool: Json, key: string): string {
    CanonicalText(if Get(tool, key).Some? then Get(tool, key).value else Null)
  }

  /** A field as it stands in the canonical text. */
  function Printed(tool: Json, key: string): string {
    "\"" + key + "\":" + FieldText(tool, key)
  }

  function Canon(tool: Json, key: string): Member {
    Member(key, Normalize(FieldOrNull(tool, key)))
  }

  predicate Letters(s: string) {
    forall i :: 0 <= i < |s| ==> 'a' <= s[i] <= 'z' || 'A' <= s[i] <= 'Z'
  }

  lemma CanonText(tool: Json, key: string)
    requires Letters(key)
    ensures SerializeMember(Canon(tool, key)) == Printed(tool, key)
  {
    PlainText(key);
    assert ['"'] + key + ['"'] + [':'] == "\"" + key + "\":";
  }

  lemma OneMore(ms: seq<Member>, x: Member, all: seq<Member>)
    requires ms != [] && all == ms + [x]
    ensures SerializeMembers(all) == SerializeMembers(ms) + "," + SerializeMember(x)
  {
    MembersSnoc(ms, x);
  }

  lemma OneMember(m: Member)
    ensures SerializeMembers([m]) == SerializeMember(m)
  {
    assert [m][1..] == [];
    EmptyAppend(SerializeMember(m));
  }

  /** The sorted members of a subset with these fields. */
  lemma SortedAs(tool: Json, n: nat, sorted: seq<Member>)
    requires n <= |FIELDS| && |sorted| == n && Sorted(sorted)
    requires forall x :: x in sorted ==> exists i :: 0 <= i < n && x == Canon(tool, FIELDS[i])
    ensures CanonicalText(Object(FirstFields(tool, n))) == "{" + SerializeMembers(sorted) + "}"
  {
    var ms := FirstFields(tool, n);
    FieldNamesDistinct();
    NormalizedObject(ms);
    forall x | x in sorted
      ensures x in Normalize(Object(ms)).members
    {
      var i :| 0 <= i < n && x == Canon(tool, FIELDS[i]);
      assert x == Member(ms[i].key, Normalize(ms[i].json));
    }
    SortedUnique(sorted, Normalize(Object(ms)).members);
  }

  const ASCENDING := ["annotations", "description", "inputSchema", "name", "outputSchema"]

  lemma NamesAscend()
    ensures forall i, j :: 0 <= i < j < 5 ==> KeyLess(ASCENDING[i], ASCENDING[j])
    ensures forall i :: 0 <= i < 5 ==> Letters(ASCENDING[i])
  {
    forall i, j | 0 <= i < j < 5
      ensures KeyLess(ASCENDING[i], ASCENDING[j])
    {
      FirstLetter(ASCENDING[i], ASCENDING[j]);
    }
  }

  /** The members in the order of the canonical text. */
  function Sorted5(tool: Json): (r: seq<Member>)
    ensures |r| == 5 && forall i :: 0 <= i < 5 ==> r[i] == Canon(tool, ASCENDING[i])
  {
    seq(5, i requires 0 <= i < 5 => Canon(tool, ASCENDING[i]))
  }

  lemma FirstLetter(a: string, b: string)
    requires a != "" && b != "" && a[0] < b[0]
    ensures KeyLess(a, b)
  {
  }

  lemma NamedAs()
    ensures ASCENDING[0] == FIELDS[3] && ASCENDING[1] == FIELDS[1] && ASCENDING[2] == FIELDS[2]
    ensures ASCENDING[3] == FIELDS[0] && ASCENDING[4] == FIELDS[4]
  {
  }

  lemma SortedMembers(tool: Json)
    ensures forall x :: x in Sorted5(tool)[1..4] ==> exists i :: 0 <= i < 3 && x == Canon(tool, FIELDS[i])
    ensures forall x :: x in Sorted5(tool)[..4] ==> exists i :: 0 <= i < 4 && x == Canon(tool, FIELDS[i])
    ensures forall x :: x in Sorted5(tool) ==> exists i :: 0 <= i < 5 && x == Canon(tool, FIELDS[i])
  {
    NamedAs();
    var s := Sorted5(tool);
    assert s[0] == Canon(tool, FIELDS[3]) && s[1] == Canon(tool, FIELDS[1]) && s[2] == Canon(tool, FIELDS[2]);
    assert s[3] == Canon(tool, FIELDS[0]) && s[4] == Canon(tool, FIELDS[4]);
  }

  /** Members one after the other, with commas. */
  lemma FourMembers(s: seq<Member>, p: seq<string>)
    requires |s| == |p| == 4 && forall i :: 0 <= i < 4 ==> SerializeMember(s[i]) == p[i]
    ensures SerializeMembers(s) == p[0] + "," + p[1] + "," + p[2] + "," + p[3]
  {
    ThreeMembers(s[..3], p[..3]);
    OneMore(s[..3], s[3], s);
  }

  lemma ThreeMembers(s: seq<Member>, p: seq<string>)
    requires |s| == |p| == 3 && forall i :: 0 <= i < 3 ==> SerializeMember(s[i]) == p[i]
    ensures SerializeMembers(s) == p[0] + "," + p[1] + "," + p[2]
  {
    assert s[..1] == [s[0]];
    OneMember(s[0]);
    OneMore(s[..1], s[1], s[..2]);
    OneMore(s[..2], s[2], s);
  }

  /** How the fields of a tool are printed. */
  function Printer(tool: Json): string -> string {
    (key: string) => Printed(tool, key)
  }

  lemma CanonTexts(tool: Json, i: nat)
    requires i < 5
    ensures SerializeMember(Sorted5(tool)[i]) == Printer(tool)(ASCENDING[i]) && Sorted5(tool)[i].key == ASCENDING[i]
  {
    NamesAscend();
    CanonText(tool, ASCENDING[i]);
  }

  /** The printed fields in ascending order of their names. */
  function PrintedFields(tool: Json): (p: seq<string>)
    ensures |p| == 5
  {
    Mapped(Printer(tool), ASCENDING)
  }

  lemma PrintedParts(s: seq<Member>, p: seq<string>)
    requires |s| == |p| == 5 && forall i :: 0 <= i < 5 ==> SerializeMember(s[i]) == p[i]
    ensures SerializeMembers(s[1..4]) == p[1] + "," + p[2] + "," + p[3]
    ensures SerializeMembers(s[..4]) == p[0] + "," + p[1] + "," + p[2] + "," + p[3]
    ensures SerializeMembers(s) == p[0] + "," + p[1] + "," + p[2] + "," + p[3] + "," + p[4]
  {
    ThreeMembers(s[1..4], p[1..4]);
    FourMembers(s[..4], p[..4]);
    OneMore(s[..4], s[4], s);
  }

  lemma SortedTexts(tool: Json)
    ensures var p := PrintedFields(tool);
            && SerializeMembers(Sorted5(tool)[1..4]) == p[1] + "," + p[2] + "," + p[3]
            && SerializeMembers(Sorted5(tool)[..4]) == p[0] + "," + p[1] + "," + p[2] + "," + p[3]
            && SerializeMembers(Sorted5(tool)) == p[0] + "," + p[1] + "," + p[2] + "," + p[3] + "," + p[4]
  {
    forall i | 0 <= i < 5
      ensures SerializeMember(Sorted5(tool)[i]) == PrintedFields(tool)[i]
    {
      CanonTexts(tool, i);
    }
    PrintedParts(Sorted5(tool), PrintedFields(tool));
  }

  lemma SortedSlices(tool: Json)
    ensures Sorted(Sorted5(tool)[1..4]) && Sorted(Sorted5(tool)[..4]) && Sorted(Sorted5(tool))
  {
    NamesAscend();
  }

  lemma SubsetText(tool: Json, n: nat, sorted: seq<Member>, text: string)
    requires n <= |FIELDS| && |sorted| == n && Sorted(sorted) && SerializeMembers(sorted) == text
    requires forall x :: x in sorted ==> exists i :: 0 <= i < n && x == Canon(tool, FIELDS[i])
    ensures CanonicalText(Object(FirstFields(tool, n))) == "{" + text + "}"
  {
    SortedAs(tool, n, sorted);
  }

  /** The canonical text of the first three, four and five fields. */
  lemma SubsetTexts(tool: Json)
    ensures var p := PrintedFields(tool);
            && CanonicalText(Object(FirstFields(tool, 3))) == "{" + (p[1] + "," + p[2] + "," + p[3]) + "}"
            && CanonicalText(Object(FirstFields(tool, 4))) == "{" + (p[0] + "," + p[1] + "," + p[2] + "," + p[3]) + "}"
            && CanonicalText(Object(FirstFields(tool, 5)))
               == "{" + (p[0] + "," + p[1] + "," + p[2] + "," + p[3] + "," + p[4]) + "}"
  {
    SortedSlices(tool);
    SortedMembers(tool);
    SortedTexts(tool);
    SubsetText(tool, 3, Sorted5(tool)[1..4], SerializeMembers(Sorted5(tool)[1..4]));
    SubsetText(tool, 4, Sorted5(tool)[..4], SerializeMembers(Sorted5(tool)[..4]));
    SubsetText(tool, 5, Sorted5(tool), SerializeMembers(Sorted5(tool)));
  }

  /**
   What is hashed under each version, letter by letter: an object of three, four or five fields,
   ascending, each as `"name":` and its own canonical text.
   */
  lemma HashedText(hash: string -> string, tool: Json)
    ensures var p := PrintedFields(tool);
            && Versions(hash, tool).v1 == hash("{" + (p[1] + "," + p[2] + "," + p[3]) + "}")
            && Versions(hash, tool).v2 == hash("{" + (p[0] + "," + p[1] + "," + p[2] + "," + p[3]) + "}")
            && Versions(hash, tool).v3
               == hash("{" + (p[0] + "," + p[1] + "," + p[2] + "," + p[3] + "," + p[4]) + "}")
  {
    SubsetsAreFields(tool);
    SubsetTexts(tool);
  }
}
