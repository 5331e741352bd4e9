/** What a JSON object holds, as a matter of its members: what every look-up finds. */
module JsonMembers {
  import opened Common
  import opened Json

  /** An object with this member. */
  predicate Has(v: Json, key: string, w: Json) {
    v.Object? && Member(key, w) in v.members
  }

  lemma GetIsHas(v: Json, key: string, w: Json)
    requires WellFormed(v)
    ensures Get(v, key) == Some(w) <==> Has(v, key, w)
  {
    if v.Object? {
      var k := KeyIndex(v.members, key);
      if Has(v, key, w) {
        var i :| 0 <= i < |v.members| && v.members[i] == Member(key, w);
        assert v.members[k].key == v.members[i].key;
      }
      if k < |v.members| {
        assert v.members[k] == Member(key, v.members[k].json);
      }
    }
  }

  lemma GetStrIsHas(v: Json, key: string, s: string)
    requires WellFormed(v)
    ensures GetStr(v, key) == Some(s) <==> Has(v, key, Str(s))
  {
    GetIsHas(v, key, Str(s));
    assert GetStr(v, key) == Some(s) <==> Get(v, key) == Some(Str(s));
  }

  lemma MemberWellFormed(v: Json, key: string, w: Json)
    requires WellFormed(v) && Has(v, key, w)
    ensures WellFormed(w)
  {
    var i :| 0 <= i < |v.members| && v.members[i] == Member(key, w);
  }
}
