/**
 Canonical JSON: object keys sorted at every depth. The text is unambiguous up to the
 order of object keys.
 */
module Canonical {
  import opened Sequences
  import opened Json
  import opened JsonText

  // ---------------------------------------------------------------- key order

  /** The order of Rust strings: code points compared left to right. */
  predicate KeyLess(a: string, b: string) {
    if b == "" then false
    else if a == "" then true
    else a[0] < b[0] || (a[0] == b[0] && KeyLess(a[1..], b[1..]))
  }

  lemma {:induction false} KeyTotal(a: string, b: string)
    ensures a == b || KeyLess(a, b) || KeyLess(b, a)
  {
    if a != "" && b != "" && a[0] == b[0] {
      KeyTotal(a[1..], b[1..]);
      assert a == [a[0]] + a[1..] && b == [b[0]] + b[1..];
    }
  }

  lemma {:induction false} KeyIrreflexive(a: string)
    ensures !KeyLess(a, a)
  {
    if a != "" {
      KeyIrreflexive(a[1..]);
    }
  }

  lemma {:induction false} KeyTransitive(a: string, b: string, c: string)
    requires KeyLess(a, b) && KeyLess(b, c)
    ensures KeyLess(a, c)
  {
    if a != "" && a[0] == b[0] && b[0] == c[0] {
      KeyTransitive(a[1..], b[1..], c[1..]);
    }
  }

  /** Ascending: at the first difference the smaller character, or the end of the text. */
  predicate Ascends(a: string, b: string, p: int) {
    0 <= p <= |a| && p < |b| && a[..p] == b[..p] && (p == |a| || a[p] < b[p])
  }

  lemma SamePrefixFirst(a: string, b: string, p: int)
    requires Ascends(a, b, p)
    ensures p == 0 || (a != "" && b != "" && a[0] == b[0])
  {
    if p > 0 {
      assert a[..p][0] == a[0] && b[..p][0] == b[0];
    }
  }

  lemma {:induction false} KeyLessExactly(a: string, b: string)
    ensures KeyLess(a, b) <==> exists p :: Ascends(a, b, p)
  {
    if a != "" && b != "" && a[0] == b[0] {
      KeyLessExactly(a[1..], b[1..]);
      if p :| Ascends(a[1..], b[1..], p) {
        assert a[..p + 1] == [a[0]] + a[1..][..p] && b[..p + 1] == [b[0]] + b[1..][..p];
        assert Ascends(a, b, p + 1);
      }
      if p :| Ascends(a, b, p) {
        assert a[1..][..p - 1] == a[..p][1..] && b[1..][..p - 1] == b[..p][1..];
        assert Ascends(a[1..], b[1..], p - 1);
      }
    } else if KeyLess(a, b) {
      assert Ascends(a, b, 0);
    } else {
      forall p | Ascends(a, b, p)
        ensures p == 0
      {
        SamePrefixFirst(a, b, p);
      }
    }
  }

  // ---------------------------------------------------------------- sorting

  function InsertMember(m: Member, ms: seq<Member>): seq<Member> {
    if ms == [] || KeyLess(m.key, ms[0].key) then [m] + ms else [ms[0]] + InsertMember(m, ms[1..])
  }

  function SortMembers(ms: seq<Member>): seq<Member> {
    if ms == [] then [] else InsertMember(ms[0], SortMembers(ms[1..]))
  }

  predicate Sorted(ms: seq<Member>) {
    forall i, j :: 0 <= i < j < |ms| ==> KeyLess(ms[i].key, ms[j].key)
  }

  lemma {:induction false} InsertMembers(m: Member, ms: seq<Member>)
    ensures |InsertMember(m, ms)| == |ms| + 1
    ensures forall x :: x in InsertMember(m, ms) <==> x == m || x in ms
  {
    if ms != [] && !KeyLess(m.key, ms[0].key) {
      InsertMembers(m, ms[1..]);
      assert ms == [ms[0]] + ms[1..];
    }
  }

  lemma {:induction false} SortMembersSame(ms: seq<Member>)
    ensures |SortMembers(ms)| == |ms|
    ensures forall x :: x in SortMembers(ms) <==> x in ms
  {
    if ms != [] {
      SortMembersSame(ms[1..]);
      InsertMembers(ms[0], SortMembers(ms[1..]));
      assert ms == [ms[0]] + ms[1..];
    }
  }

  lemma {:induction false} InsertSorted(m: Member, ms: seq<Member>)
    requires Sorted(ms) && forall i :: 0 <= i < |ms| ==> ms[i].key != m.key
    ensures Sorted(InsertMember(m, ms))
  {
    if ms != [] {
      if KeyLess(m.key, ms[0].key) {
        forall i | 0 <= i < |ms|
          ensures KeyLess(m.key, ms[i].key)
        {
          if i > 0 {
            KeyTransitive(m.key, ms[0].key, ms[i].key);
          }
        }
      } else {
        KeyTotal(m.key, ms[0].key);
        InsertSorted(m, ms[1..]);
        InsertMembers(m, ms[1..]);
        var rest := InsertMember(m, ms[1..]);
        forall j | 0 <= j < |rest|
          ensures KeyLess(ms[0].key, rest[j].key)
        {
          assert rest[j] in rest;
          if rest[j] != m {
            var k :| 0 <= k < |ms[1..]| && ms[1..][k] == rest[j];
            assert ms[k + 1] == rest[j];
          }
        }
      }
    }
  }

  lemma {:induction false} SortMembersSorted(ms: seq<Member>)
    requires DistinctKeys(ms)
    ensures Sorted(SortMembers(ms))
  {
    if ms != [] {
      var rest := ms[1..];
      SortMembersSorted(rest);
      SortMembersSame(rest);
      var sorted := SortMembers(rest);
      forall i | 0 <= i < |sorted|
        ensures sorted[i].key != ms[0].key
      {
        assert sorted[i] in rest;
        var k :| 0 <= k < |rest| && rest[k] == sorted[i];
        assert ms[k + 1] == sorted[i];
      }
      InsertSorted(ms[0], sorted);
    }
  }

  lemma SortedKeysDistinct(ms: seq<Member>)
    requires Sorted(ms)
    ensures DistinctKeys(ms)
  {
    forall i, j | 0 <= i < j < |ms|
      ensures ms[i].key != ms[j].key
    {
      KeyIrreflexive(ms[i].key);
    }
  }

  /** A sorted list is determined by what it contains. */
  lemma {:induction false} SortedUnique(a: seq<Member>, b: seq<Member>)
    requires Sorted(a) && Sorted(b) && |a| == |b|
    requires forall x :: x in a ==> x in b
    ensures a == b
  {
    if a != [] {
      assert a[0] in a;
      var k :| 0 <= k < |b| && b[k] == a[0];
      FirstsAgree(a, b, k);
      forall x | x in a[1..]
        ensures x in b[1..]
      {
        var i :| 0 <= i < |a[1..]| && a[1..][i] == x;
        assert a[i + 1] == x && x in a && KeyLess(a[0].key, x.key);
        KeyIrreflexive(x.key);
        var j :| 0 <= j < |b| && b[j] == x;
        assert b[1..][j - 1] == x;
      }
      SortedUnique(a[1..], b[1..]);
      assert a == [a[0]] + a[1..] && b == [b[0]] + b[1..];
    }
  }

  /** The first of `a` sits first in `b`: otherwise `b` would lack room for the rest. */
  lemma FirstsAgree(a: seq<Member>, b: seq<Member>, k: nat)
    requires Sorted(a) && Sorted(b) && |a| == |b| && a != []
    requires forall x :: x in a ==> x in b
    requires k < |b| && b[k] == a[0]
    ensures k == 0
  {
    Embeds(a, b, |a| - 1);
    Position(a, b, 0, k);
  }

  /** Element `i` of `a` cannot sit before position `i` of `b`. */
  lemma {:induction false} Embeds(a: seq<Member>, b: seq<Member>, i: nat)
    requires Sorted(a) && Sorted(b) && i < |a|
    requires forall x :: x in a ==> x in b
    ensures forall j :: 0 <= j < |b| && b[j] == a[i] ==> j >= i
  {
    if i > 0 {
      Embeds(a, b, i - 1);
      forall j | 0 <= j < |b| && b[j] == a[i]
        ensures j >= i
      {
        assert a[i - 1] in a;
        var p :| 0 <= p < |b| && b[p] == a[i - 1];
        assert KeyLess(b[p].key, b[j].key);
        if j <= p {
          KeyIrreflexive(b[j].key);
          if j < p {
            KeyTransitive(b[j].key, b[p].key, b[j].key);
          }
        }
      }
    }
  }

  /** Nor after it, since the elements behind it must follow. */
  lemma {:induction false} Position(a: seq<Member>, b: seq<Member>, i: nat, j: nat)
    requires Sorted(a) && Sorted(b) && |a| == |b| && i < |a|
    requires forall x :: x in a ==> x in b
    requires j < |b| && b[j] == a[i]
    ensures j <= i
    decreases |a| - i
  {
    if i + 1 < |a| {
      assert a[i + 1] in a;
      var p :| 0 <= p < |b| && b[p] == a[i + 1];
      Position(a, b, i + 1, p);
      assert KeyLess(b[j].key, b[p].key);
      if p <= j {
        KeyIrreflexive(b[p].key);
        if p < j {
          KeyTransitive(b[p].key, b[j].key, b[p].key);
        }
      }
    }
  }

  // ---------------------------------------------------------------- canonical form

  /** Every object's members sorted, at every depth. */
  function Normalize(v: Json): Json
    decreases v, 0
  {
    match v
    case Array(items) => Array(NormalizeItems(items))
    case Object(ms) => Object(SortMembers(NormalizeMembers(ms)))
    case _ => v
  }

  function NormalizeItems(items: seq<Json>): (r: seq<Json>)
    ensures |r| == |items| && forall i :: 0 <= i < |items| ==> r[i] == Normalize(items[i])
    decreases items, 1
  {
    if items == [] then [] else [Normalize(items[0])] + NormalizeItems(items[1..])
  }

  function NormalizeMembers(ms: seq<Member>): (r: seq<Member>)
    ensures |r| == |ms| && forall i :: 0 <= i < |ms| ==> r[i] == Member(ms[i].key, Normalize(ms[i].json))
    decreases ms, 1
  {
    if ms == [] then [] else [Member(ms[0].key, Normalize(ms[0].json))] + NormalizeMembers(ms[1..])
  }

  function CanonicalText(v: Json): string {
    Serialize(Normalize(v))
  }

  /** Equal up to the order of object keys, at every depth. */
  ghost predicate Equivalent(v: Json, w: Json)
    decreases v, 0
  {
    match v
    case Array(a) =>
      w.Array? && |a| == |w.items| && forall i :: 0 <= i < |a| ==> Equivalent(a[i], w.items[i])
    case Object(a) =>
      w.Object? && |a| == |w.members| && forall i :: 0 <= i < |a| ==> Holds(w.members, a[i])
    case _ => v == w
  }

  /** The members include one of this key and an equivalent value. */
  ghost predicate Holds(ms: seq<Member>, m: Member)
    decreases m, 1
  {
    exists j :: 0 <= j < |ms| && ms[j].key == m.key && Equivalent(m.json, ms[j].json)
  }

  lemma NormalizedObject(ms: seq<Member>)
    requires DistinctKeys(ms)
    ensures Sorted(Normalize(Object(ms)).members) && |Normalize(Object(ms)).members| == |ms|
    ensures forall x :: x in Normalize(Object(ms)).members <==>
              exists i :: 0 <= i < |ms| && x == Member(ms[i].key, Normalize(ms[i].json))
  {
    var ns := NormalizeMembers(ms);
    assert forall i :: 0 <= i < |ms| ==> ns[i].key == ms[i].key;
    SortMembersSorted(ns);
    SortMembersSame(ns);
    forall x | x in ns
      ensures exists i :: 0 <= i < |ms| && x == Member(ms[i].key, Normalize(ms[i].json))
    {
      var i :| 0 <= i < |ns| && ns[i] == x;
      assert x == Member(ms[i].key, Normalize(ms[i].json));
    }
    forall i | 0 <= i < |ms|
      ensures Member(ms[i].key, Normalize(ms[i].json)) in ns
    {
      assert ns[i] in ns;
    }
  }

  /** In a canonical object the keys ascend: of two different ones the smaller comes first. */
  lemma CanonicalKeysAscend(ms: seq<Member>, i: nat, j: nat)
    requires DistinctKeys(ms) && i < j < |Normalize(Object(ms)).members|
    ensures var ns := Normalize(Object(ms)).members;
            exists p :: Ascends(ns[i].key, ns[j].key, p)
  {
    NormalizedObject(ms);
    KeyLessExactly(Normalize(Object(ms)).members[i].key, Normalize(Object(ms)).members[j].key);
  }

  lemma {:induction false} NormalizeWellFormed(v: Json)
    requires WellFormed(v)
    ensures WellFormed(Normalize(v))
    decreases v
  {
    match v {
      case Array(items) =>
        forall i | 0 <= i < |items|
          ensures WellFormed(Normalize(v).items[i])
        {
          NormalizeWellFormed(items[i]);
        }
      case Object(ms) =>
        NormalizedObject(ms);
        var ns := Normalize(v).members;
        SortedKeysDistinct(ns);
        forall i | 0 <= i < |ns|
          ensures WellFormed(ns[i].json)
        {
          assert ns[i] in ns;
          var j :| 0 <= j < |ms| && ns[i] == Member(ms[j].key, Normalize(ms[j].json));
          NormalizeWellFormed(ms[j].json);
        }
      case _ =>
    }
  }

  lemma {:induction false} EquivalentNormalizeSame(v: Json, w: Json)
    requires WellFormed(v) && WellFormed(w) && Equivalent(v, w)
    ensures Normalize(v) == Normalize(w)
    decreases v
  {
    match v {
      case Array(a) =>
        var na, nb := NormalizeItems(a), NormalizeItems(w.items);
        forall i | 0 <= i < |a|
          ensures na[i] == nb[i]
        {
          EquivalentNormalizeSame(a[i], w.items[i]);
        }
        assert na == nb;
      case Object(a) =>
        NormalizedObject(a);
        NormalizedObject(w.members);
        var na, nb := Normalize(v).members, Normalize(w).members;
        forall x | x in na
          ensures x in nb
        {
          var i :| 0 <= i < |a| && x == Member(a[i].key, Normalize(a[i].json));
          assert Holds(w.members, a[i]);
          var j :| 0 <= j < |w.members| && w.members[j].key == a[i].key && Equivalent(a[i].json, w.members[j].json);
          EquivalentNormalizeSame(a[i].json, w.members[j].json);
        }
        SortedUnique(na, nb);
      case _ =>
    }
  }

  lemma {:induction false} NormalizeSameEquivalent(v: Json, w: Json)
    requires WellFormed(v) && WellFormed(w) && Normalize(v) == Normalize(w)
    ensures Equivalent(v, w)
    decreases v
  {
    match v {
      case Array(a) =>
        forall i | 0 <= i < |a|
          ensures Equivalent(a[i], w.items[i])
        {
          assert NormalizeItems(a)[i] == NormalizeItems(w.items)[i];
          NormalizeSameEquivalent(a[i], w.items[i]);
        }
      case Object(a) =>
        NormalizedObject(a);
        NormalizedObject(w.members);
        forall i | 0 <= i < |a|
          ensures Holds(w.members, a[i])
        {
          var x := Member(a[i].key, Normalize(a[i].json));
          assert x in Normalize(v).members;
          var j :| 0 <= j < |w.members| && x == Member(w.members[j].key, Normalize(w.members[j].json));
          NormalizeSameEquivalent(a[i].json, w.members[j].json);
        }
      case _ =>
    }
  }

  /** Two values print the same canonical text exactly when they are equal up to key order. */
  lemma CanonicalUnambiguous(v: Json, w: Json)
    requires WellFormed(v) && WellFormed(w)
    ensures CanonicalText(v) == CanonicalText(w) <==> Equivalent(v, w)
  {
    if Equivalent(v, w) {
      EquivalentNormalizeSame(v, w);
    }
    if CanonicalText(v) == CanonicalText(w) {
      NormalizeWellFormed(v);
      NormalizeWellFormed(w);
      TextDetermines(Normalize(v), "", Normalize(w), "");
      NormalizeSameEquivalent(v, w);
    }
  }

  // ---------------------------------------------------------------- the writer

  /** The text buffer the writer appends to. */
  class TextBuffer {
    var text: string

    constructor ()
      ensures text == ""
    {
      text := "";
    }

    method Push(s: string)
      modifies this
      ensures text == old(text) + s
    {
      text := text + s;
    }
  }

  lemma {:induction false} InsertNormalized(m: Member, ms: seq<Member>)
    ensures NormalizeMembers(InsertMember(m, ms)) ==
            InsertMember(Member(m.key, Normalize(m.json)), NormalizeMembers(ms))
  {
    if ms == [] || KeyLess(m.key, ms[0].key) {
      assert ([m] + ms)[1..] == ms;
    } else {
      InsertNormalized(m, ms[1..]);
      assert InsertMember(m, ms)[1..] == InsertMember(m, ms[1..]);
      assert NormalizeMembers(ms)[1..] == NormalizeMembers(ms[1..]);
    }
  }

  /** Sorting looks at keys only. */
  lemma {:induction false} SortNormalized(ms: seq<Member>)
    ensures NormalizeMembers(SortMembers(ms)) == SortMembers(NormalizeMembers(ms))
  {
    if ms != [] {
      SortNormalized(ms[1..]);
      InsertNormalized(ms[0], SortMembers(ms[1..]));
      assert NormalizeMembers(ms)[1..] == NormalizeMembers(ms[1..]);
    }
  }

  function Comma(i: nat): string {
    if i > 0 then [','] else ""
  }

  lemma {:induction false} MoreItemsSnoc(items: seq<Json>, x: Json)
    ensures MoreItems(items + [x]) == MoreItems(items) + [','] + Serialize(x)
  {
    if items == [] {
      EmptyAppend([x]);
      assert [x][1..] == [];
      EmptyAppend([','] + Serialize(x));
      EmptyAppend([',']);
    } else {
      MoreItemsSnoc(items[1..], x);
      FirstOfAppend(items, [x]);
      AppendAssociates([','] + Serialize(items[0]), MoreItems(items[1..]) + [','], Serialize(x));
      AppendAssociates([','] + Serialize(items[0]), MoreItems(items[1..]), [',']);
    }
  }

  lemma ItemsSnoc(items: seq<Json>, x: Json)
    ensures SerializeItems(items + [x]) == SerializeItems(items) + Comma(|items|) + Serialize(x)
  {
    if items == [] {
      EmptyAppend([x]);
      assert [x][1..] == [];
      EmptyAppend(Serialize(x));
    } else {
      FirstOfAppend(items, [x]);
      MoreItemsSnoc(items[1..], x);
      AppendAssociates(Serialize(items[0]), MoreItems(items[1..]) + [','], Serialize(x));
      AppendAssociates(Serialize(items[0]), MoreItems(items[1..]), [',']);
    }
  }

  lemma {:induction false} MoreMembersSnoc(ms: seq<Member>, x: Member)
    ensures MoreMembers(ms + [x]) == MoreMembers(ms) + [','] + SerializeMember(x)
  {
    if ms == [] {
      EmptyAppend([x]);
      assert [x][1..] == [];
      EmptyAppend([','] + SerializeMember(x));
      EmptyAppend([',']);
    } else {
      MoreMembersSnoc(ms[1..], x);
      FirstOfAppend(ms, [x]);
      AppendAssociates([','] + SerializeMember(ms[0]), MoreMembers(ms[1..]) + [','], SerializeMember(x));
      AppendAssociates([','] + SerializeMember(ms[0]), MoreMembers(ms[1..]), [',']);
    }
  }

  lemma MembersSnoc(ms: seq<Member>, x: Member)
    ensures SerializeMembers(ms + [x]) == SerializeMembers(ms) + Comma(|ms|) + SerializeMember(x)
  {
    if ms == [] {
      EmptyAppend([x]);
      assert [x][1..] == [];
      EmptyAppend(SerializeMember(x));
    } else {
      FirstOfAppend(ms, [x]);
      MoreMembersSnoc(ms[1..], x);
      AppendAssociates(SerializeMember(ms[0]), MoreMembers(ms[1..]) + [','], SerializeMember(x));
      AppendAssociates(SerializeMember(ms[0]), MoreMembers(ms[1..]), [',']);
    }
  }

  lemma Enclosed(base: string, open: string, x: string, close: string)
    ensures ((base + open) + x) + close == base + (open + x + close)
  {
  }

  method WriteCanonical(v: Json, out: TextBuffer)
    modifies out
    ensures out.text == old(out.text) + CanonicalText(v)
    decreases v, 1
  {
    match v {
      case Array(items) =>
        Enclosed(out.text, ['['], SerializeItems(NormalizeItems(items)), [']']);
        out.Push(['[']);
        WriteItems(items, out);
        out.Push([']']);
      case Object(ms) =>
        SortNormalized(ms);
        Enclosed(out.text, ['{'], SerializeMembers(NormalizeMembers(SortMembers(ms))), ['}']);
        out.Push(['{']);
        WriteMembers(ms, out);
        out.Push(['}']);
      case _ =>
        out.Push(Serialize(v));
    }
  }

  /** One more item in the buffer. */
  lemma ItemsProgress(base: string, text: string, ns: seq<Json>, i: nat)
    requires i < |ns| && text == base + SerializeItems(ns[..i])
    ensures text + Comma(i) + Serialize(ns[i]) == base + SerializeItems(ns[..i + 1])
  {
    assert ns[..i + 1] == ns[..i] + [ns[i]];
    ItemsSnoc(ns[..i], ns[i]);
    AppendAssociates(base, SerializeItems(ns[..i]), Comma(i));
    AppendAssociates(base, SerializeItems(ns[..i]) + Comma(i), Serialize(ns[i]));
  }

  method WriteItems(items: seq<Json>, out: TextBuffer)
    modifies out
    ensures out.text == old(out.text) + SerializeItems(NormalizeItems(items))
    decreases items, 0
  {
    ghost var ns, base := NormalizeItems(items), out.text;
    EmptyAppend(base);
    var i := 0;
    while i < |items|
      invariant 0 <= i <= |items| == |ns|
      invariant out.text == base + SerializeItems(ns[..i])
    {
      ItemsProgress(base, out.text, ns, i);
      EmptyAppend(out.text);
      if i > 0 {
        out.Push([',']);
      }
      WriteCanonical(items[i], out);
      i := i + 1;
    }
    assert ns[..i] == ns;
  }

  /** One more member in the buffer. */
  lemma MembersProgress(base: string, text: string, ns: seq<Member>, i: nat)
    requires i < |ns| && text == base + SerializeMembers(ns[..i])
    ensures text + Comma(i) + Quote(ns[i].key) + [':'] + Serialize(ns[i].json) == base + SerializeMembers(ns[..i + 1])
  {
    assert ns[..i + 1] == ns[..i] + [ns[i]];
    MembersSnoc(ns[..i], ns[i]);
    AppendAssociates(base, SerializeMembers(ns[..i]), Comma(i));
    AppendAssociates(base, SerializeMembers(ns[..i]) + Comma(i), SerializeMember(ns[i]));
    AppendAssociates(text + Comma(i), Quote(ns[i].key), [':']);
    AppendAssociates(text + Comma(i), Quote(ns[i].key) + [':'], Serialize(ns[i].json));
  }

  method WriteMembers(ms: seq<Member>, out: TextBuffer)
    modifies out
    ensures out.text == old(out.text) + SerializeMembers(NormalizeMembers(SortMembers(ms)))
    decreases ms, 0
  {
    var sorted := SortMembers(ms);
    SortMembersSame(ms);
    ghost var ns, base := NormalizeMembers(sorted), out.text;
    EmptyAppend(base);
    var i := 0;
    while i < |sorted|
      invariant 0 <= i <= |sorted| == |ns|
      invariant out.text == base + SerializeMembers(ns[..i])
    {
      MembersProgress(base, out.text, ns, i);
      EmptyAppend(out.text);
      if i > 0 {
        out.Push([',']);
      }
      out.Push(Quote(sorted[i].key));
      out.Push([':']);
      assert sorted[i] in ms;
      WriteCanonical(sorted[i].json, out);
      i := i + 1;
    }
    assert ns[..i] == ns;
  }
}
