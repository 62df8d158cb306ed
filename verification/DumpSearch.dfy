/** Searching a dump's records by kind, binding and sub-key. */
module DumpSearch {
  import opened Texts
  import opened DumpRecords
  import opened DumpText
  import RecordLaws

  /** The first record with this kind, binding and sub-key: what `Dump`'s indexes hold. */
  function Find(rs: seq<Record>, kind: string, owner: string, sub: string): (r: Option<Record>)
    ensures r.Some? ==> r.value in rs && Indexed(r.value, kind, owner, sub)
    ensures r.None? ==> forall rec :: rec in rs ==> !Indexed(rec, kind, owner, sub)
  {
    if rs == [] then None
    else if Indexed(rs[0], kind, owner, sub) then Some(rs[0])
    else Find(rs[1..], kind, owner, sub)
  }

  /** A member's name, an input's or an enum member's first field. */
  function SubOf(rec: Record): string
  {
    if rec.kind == "member" then NamePart(rec.key)
    else if rec.kind == "input" || rec.kind == "enum" then FirstField(rec)
    else ""
  }

  predicate Indexed(rec: Record, kind: string, owner: string, sub: string)
  {
    rec.kind == kind && BindingOf(rec) == owner && SubOf(rec) == sub
  }

  function BindingKeys(rs: seq<Record>): set<string>
  {
    set rec | rec in rs && rec.kind == "name" :: rec.key
  }

  /** Within one kind, binding and sub-key, there is one identity. */
  lemma {:induction false} IndexDetermines(a: Record, b: Record)
    requires CheckRecord(a) && CheckRecord(b) && Indexed(a, b.kind, BindingOf(b), SubOf(b))
    ensures Identity(a) == Identity(b)
  {
    RecordLaws.KeyPresent(a);
    RecordLaws.KeyPresent(b);
    hide CheckRecord, IsKey, OwnerPart, NamePart;
    if a.kind == "member" {
      RecordLaws.MemberKey(a.key);
      RecordLaws.MemberKey(b.key);
    }
  }

  lemma {:induction false} FindAgain(rs: seq<Record>, rec: Record)
    requires AllChecked(rs) && DistinctIdentities(rs) && rec in rs
    ensures Find(rs, rec.kind, BindingOf(rec), SubOf(rec)) == Some(rec)
  {
    hide CheckRecord, Identity, Indexed, BindingOf, SubOf;
    var found := Find(rs, rec.kind, BindingOf(rec), SubOf(rec));
    SelfIndexed(rec);
    assert found.Some?;
    IndexDetermines(found.value, rec);
    var i :| 0 <= i < |rs| && rs[i] == rec;
    var j :| 0 <= j < |rs| && rs[j] == found.value;
    assert i < j ==> Identity(rs[i]) != Identity(rs[j]);
    assert j < i ==> Identity(rs[j]) != Identity(rs[i]);
  }

  lemma {:induction false} SelfIndexed(rec: Record)
    ensures Indexed(rec, rec.kind, BindingOf(rec), SubOf(rec))
  {
  }
}
