/** `Dump`: the checks and the indexes its constructor builds in two passes over the records. */
module DumpIndex {
  import opened Texts
  import opened DumpRecords
  import opened DumpText
  import opened DumpSearch
  import DumpStructure

  type Index = map<string, map<string, Record>>

  function LookUp(index: Index, owner: string, sub: string): Option<Record>
  {
    if owner in index && sub in index[owner] then Some(index[owner][sub]) else None
  }

  // --- what the passes compute -------------------------------------------------------------

  function ByIdentity(rs: seq<Record>): map<seq<string>, Record>
  {
    if rs == [] then map[]
    else ByIdentity(rs[..|rs| - 1])[Identity(rs[|rs| - 1]) := rs[|rs| - 1]]
  }

  function Bindings(rs: seq<Record>): map<string, string>
  {
    if rs == [] then map[]
    else
      var before, rec := Bindings(rs[..|rs| - 1]), rs[|rs| - 1];
      if rec.kind == "name" then before[rec.key := FirstField(rec)] else before
  }

  function Formats(rs: seq<Record>): map<string, Record>
  {
    if rs == [] then map[]
    else
      var before, rec := Formats(rs[..|rs| - 1]), rs[|rs| - 1];
      if rec.kind == "format" then before[rec.key := rec] else before
  }

  /** `index.setdefault(owner, {})[sub] = rec` */
  function Put(index: Index, owner: string, sub: string, rec: Record): Index
  {
    index[owner := (if owner in index then index[owner] else map[])[sub := rec]]
  }

  function IndexOfKind(rs: seq<Record>, kind: string): Index
  {
    if rs == [] then map[]
    else
      var before, rec := IndexOfKind(rs[..|rs| - 1], kind), rs[|rs| - 1];
      if rec.kind == kind then Put(before, BindingOf(rec), SubOf(rec), rec) else before
  }

  // --- what they amount to -----------------------------------------------------------------

  lemma {:induction false} NoTables(rs: seq<Record>)
    ensures ByIdentity(rs[..0]) == map[] && Bindings(rs[..0]) == map[] && Formats(rs[..0]) == map[]
  {
  }

  lemma {:induction false} TablesStep(rs: seq<Record>, i: nat)
    requires i < |rs|
    ensures ByIdentity(rs[..i + 1]) == ByIdentity(rs[..i])[Identity(rs[i]) := rs[i]]
    ensures Bindings(rs[..i + 1]) == if rs[i].kind == "name" then Bindings(rs[..i])[rs[i].key := FirstField(rs[i])] else Bindings(rs[..i])
    ensures Formats(rs[..i + 1]) == if rs[i].kind == "format" then Formats(rs[..i])[rs[i].key := rs[i]] else Formats(rs[..i])
  {
    hide Identity;
    assert rs[..i + 1][..i] == rs[..i];
  }

  lemma {:induction false} IdentitiesHeld(rs: seq<Record>, id: seq<string>)
    ensures id in ByIdentity(rs) <==> exists rec :: rec in rs && Identity(rec) == id
    ensures id in ByIdentity(rs) ==> ByIdentity(rs)[id] in rs && Identity(ByIdentity(rs)[id]) == id
  {
    hide Identity;
    if rs != [] {
      var last := |rs| - 1;
      assert rs == rs[..last] + [rs[last]];
      IdentitiesHeld(rs[..last], id);
    }
  }

  lemma {:induction false} BindingsHeld(rs: seq<Record>, key: string)
    ensures key in Bindings(rs) <==> exists rec :: rec in rs && IsRecordOf(rec, "name", key)
    ensures key in Bindings(rs) ==> exists rec ::
      rec in rs && IsRecordOf(rec, "name", key) && FirstField(rec) == Bindings(rs)[key]
  {
    if rs != [] {
      var last := |rs| - 1;
      assert rs == rs[..last] + [rs[last]];
      BindingsHeld(rs[..last], key);
      assert IsRecordOf(rs[last], "name", key) ==> rs[last] in rs;
      if rec :| rec in rs[..last] && IsRecordOf(rec, "name", key) && key in Bindings(rs[..last])
                && FirstField(rec) == Bindings(rs[..last])[key] {
        assert rec in rs;
      }
    }
  }

  lemma {:induction false} FormatsHeld(rs: seq<Record>, key: string)
    ensures key in Formats(rs) <==> exists rec :: rec in rs && IsRecordOf(rec, "format", key)
    ensures key in Formats(rs) ==> Formats(rs)[key] in rs && IsRecordOf(Formats(rs)[key], "format", key)
  {
    if rs != [] {
      var last := |rs| - 1;
      assert rs == rs[..last] + [rs[last]];
      FormatsHeld(rs[..last], key);
      assert IsRecordOf(rs[last], "format", key) ==> rs[last] in rs;
      if rec :| rec in rs[..last] && IsRecordOf(rec, "format", key) { assert rec in rs; }
    }
  }

  function Optional(formats: map<string, Record>, key: string): Option<Record>
  {
    if key in formats then Some(formats[key]) else None
  }

  lemma {:induction false} FormatIndexed(rec: Record, key: string)
    ensures IsRecordOf(rec, "format", key) <==> Indexed(rec, "format", key, "")
  {
  }

  /** The table of formats finds what a search of the records finds. */
  lemma {:induction false} FormatFinds(rs: seq<Record>, key: string)
    requires DistinctIdentities(rs)
    ensures Optional(Formats(rs), key) == Find(rs, "format", key, "")
  {
    hide DistinctIdentities, Find, Formats, IsRecordOf, Indexed;
    FormatsHeld(rs, key);
    var found := Find(rs, "format", key, "");
    forall rec ensures IsRecordOf(rec, "format", key) <==> Indexed(rec, "format", key, "") { FormatIndexed(rec, key); }
    if found.Some? {
      SameFormat(Formats(rs)[key], found.value, key);
      NamesUnique(rs, Formats(rs)[key], found.value);
    }
  }

  lemma {:induction false} SameFormat(a: Record, b: Record, key: string)
    requires IsRecordOf(a, "format", key) && IsRecordOf(b, "format", key)
    ensures Identity(a) == Identity(b)
  {
  }

  lemma {:induction false} IndexHolds(rs: seq<Record>, kind: string, owner: string, sub: string)
    ensures LookUp(IndexOfKind(rs, kind), owner, sub).Some? <==> exists rec :: rec in rs && Indexed(rec, kind, owner, sub)
    ensures var found := LookUp(IndexOfKind(rs, kind), owner, sub);
      found.Some? ==> found.value in rs && Indexed(found.value, kind, owner, sub)
  {
    hide BindingOf, SubOf;
    if rs != [] {
      var last := |rs| - 1;
      assert rs == rs[..last] + [rs[last]];
      IndexHolds(rs[..last], kind, owner, sub);
      assert Indexed(rs[last], kind, owner, sub) ==> rs[last] in rs;
      if rec :| rec in rs[..last] && Indexed(rec, kind, owner, sub) {
        assert rec in rs;
      }
    }
  }

  /** In a dump with distinct identities, an index finds what a search of the records finds. */
  lemma {:induction false} IndexFinds(rs: seq<Record>, kind: string, owner: string, sub: string)
    requires AllChecked(rs) && DistinctIdentities(rs)
    ensures LookUp(IndexOfKind(rs, kind), owner, sub) == Find(rs, kind, owner, sub)
  {
    hide CheckRecord, DistinctIdentities, BindingOf, SubOf, IndexOfKind, LookUp;
    IndexHolds(rs, kind, owner, sub);
    var found := LookUp(IndexOfKind(rs, kind), owner, sub);
    if found.Some? {
      FindAgain(rs, found.value);
    }
  }

  lemma {:induction false} NamesUnique(rs: seq<Record>, a: Record, b: Record)
    requires DistinctIdentities(rs) && a in rs && b in rs && Identity(a) == Identity(b)
    ensures a == b
  {
    hide Identity;
    var i :| 0 <= i < |rs| && rs[i] == a;
    var j :| 0 <= j < |rs| && rs[j] == b;
    assert Identity(rs[i]) == Identity(rs[j]);
  }

  /** The record's binding is declared and may carry it. */
  predicate OwnedBy(bindings: map<string, string>, rec: Record)
  {
    rec.kind == "format" || (BindingOf(rec) in bindings && Allows(bindings[BindingOf(rec)], rec.kind))
  }

  lemma {:induction false} OwnedExact(rs: seq<Record>, rec: Record)
    requires DistinctIdentities(rs)
    ensures OwnedBy(Bindings(rs), rec) <==>
      rec.kind == "format" || exists name :: name in rs && NamesFor(name, BindingOf(rec), rec.kind)
  {
    hide DistinctIdentities, Allows, BindingOf, Bindings;
    var key := BindingOf(rec);
    BindingsHeld(rs, key);
    if key in Bindings(rs) {
      var held :| held in rs && IsRecordOf(held, "name", key) && FirstField(held) == Bindings(rs)[key];
      forall name | name in rs && name.kind == "name" && name.key == key ensures name == held {
        NamesUnique(rs, name, held);
      }
      assert OwnedBy(Bindings(rs), rec) && rec.kind != "format" ==> NamesFor(held, key, rec.kind);
    }
    assert forall name :: name in rs && NamesFor(name, key, rec.kind) ==> IsRecordOf(name, "name", key);
  }

  /** Every record the kind of binding requires is there. */
  predicate Fulfilled(bindings: map<string, string>, records: map<seq<string>, Record>, key: string)
    requires key in bindings
  {
    forall needed :: needed in Required(bindings[key]) ==> [needed, key] in records
  }

  lemma {:induction false} RequiredPlain(kind: string, needed: string)
    requires needed in Required(kind)
    ensures needed in ["call", "mro", "abstract", "requires"]
  {
  }

  lemma {:induction false} NeededHeld(rs: seq<Record>, needed: string, key: string)
    requires needed in ["call", "mro", "abstract", "requires"]
    ensures [needed, key] in ByIdentity(rs) <==> exists rec :: rec in rs && IsRecordOf(rec, needed, key)
  {
    IdentitiesHeld(rs, [needed, key]);
    assert forall rec :: rec in rs && IsRecordOf(rec, needed, key) ==> Identity(rec) == [needed, key];
    assert forall rec :: rec in rs && Identity(rec) == [needed, key] ==> IsRecordOf(rec, needed, key);
  }

  lemma {:induction false} FulfilledExact(rs: seq<Record>, name: Record)
    requires DistinctIdentities(rs) && name in rs && name.kind == "name"
    ensures name.key in Bindings(rs)
    ensures Fulfilled(Bindings(rs), ByIdentity(rs), name.key) <==>
      forall needed :: needed in Required(FirstField(name)) ==> exists rec :: rec in rs && IsRecordOf(rec, needed, name.key)
  {
    hide DistinctIdentities, Required, Bindings, ByIdentity, IsRecordOf;
    BindingHeldOnce(rs, name);
    forall needed | needed in Required(FirstField(name))
      ensures [needed, name.key] in ByIdentity(rs) <==> exists rec :: rec in rs && IsRecordOf(rec, needed, name.key)
    {
      RequiredPlain(FirstField(name), needed);
      NeededHeld(rs, needed, name.key);
    }
  }

  lemma {:induction false} BindingHeldOnce(rs: seq<Record>, name: Record)
    requires DistinctIdentities(rs) && name in rs && name.kind == "name"
    ensures name.key in Bindings(rs) && Bindings(rs)[name.key] == FirstField(name)
  {
    hide DistinctIdentities, Bindings;
    BindingsHeld(rs, name.key);
    assert IsRecordOf(name, "name", name.key);
    var held :| held in rs && IsRecordOf(held, "name", name.key) && FirstField(held) == Bindings(rs)[name.key];
    NamesUnique(rs, name, held);
  }

  ghost predicate AllFulfilled(bindings: map<string, string>, records: map<seq<string>, Record>)
  {
    forall key :: key in bindings ==> Fulfilled(bindings, records, key)
  }

  lemma {:induction false} CompleteFulfills(rs: seq<Record>)
    requires DistinctIdentities(rs) && Complete(rs)
    ensures AllFulfilled(Bindings(rs), ByIdentity(rs))
  {
    hide DistinctIdentities, Bindings, ByIdentity, Fulfilled;
    forall key | key in Bindings(rs) ensures Fulfilled(Bindings(rs), ByIdentity(rs), key) {
      BindingsHeld(rs, key);
      var name :| name in rs && IsRecordOf(name, "name", key);
      FulfilledExact(rs, name);
    }
  }

  lemma {:induction false} FulfilledCompletes(rs: seq<Record>)
    requires DistinctIdentities(rs) && AllFulfilled(Bindings(rs), ByIdentity(rs))
    ensures Complete(rs)
  {
    hide DistinctIdentities, Bindings, ByIdentity, Fulfilled;
    forall name | name in rs && name.kind == "name"
      ensures forall needed :: needed in Required(FirstField(name)) ==>
        exists rec :: rec in rs && IsRecordOf(rec, needed, name.key)
    {
      FulfilledExact(rs, name);
    }
  }

  lemma {:induction false} CompleteExact(rs: seq<Record>)
    requires DistinctIdentities(rs)
    ensures AllFulfilled(Bindings(rs), ByIdentity(rs)) <==> Complete(rs)
  {
    hide *;
    if Complete(rs) { CompleteFulfills(rs); }
    if AllFulfilled(Bindings(rs), ByIdentity(rs)) { FulfilledCompletes(rs); }
  }

  // --- the object --------------------------------------------------------------------------

  class Loaded {
    var records: map<seq<string>, Record>
    var bindings: map<string, string>
    var formats: map<string, Record>
    var members: Index
    var inputs: Index
    var enums: Index

    constructor ()
    {
      records, bindings, formats, members, inputs, enums := map[], map[], map[], map[], map[], map[];
    }

    /** The fields hold exactly these records. */
    ghost predicate Holds(rs: seq<Record>)
      reads this
    {
      (forall rec :: rec in rs ==> Identity(rec) in records && records[Identity(rec)] == rec)
      && (forall id :: id in records ==> records[id] in rs)
      && (forall rec :: rec in rs && rec.kind == "name" ==> rec.key in bindings && bindings[rec.key] == FirstField(rec))
      && bindings.Keys == BindingKeys(rs)
      && (forall key :: Optional(formats, key) == Find(rs, "format", key, ""))
      && (forall owner, sub :: LookUp(members, owner, sub) == Find(rs, "member", owner, sub))
      && (forall owner, sub :: LookUp(inputs, owner, sub) == Find(rs, "input", owner, sub))
      && forall owner, sub :: LookUp(enums, owner, sub) == Find(rs, "enum", owner, sub)
    }

    /** The first pass: every record under its identity, or false on a duplicate. */
    method Register(rs: seq<Record>) returns (ok: bool)
      modifies this`records, this`bindings, this`formats
      ensures ok <==> DistinctIdentities(rs)
      ensures ok ==> records == ByIdentity(rs) && bindings == Bindings(rs) && formats == Formats(rs)
    {
      hide Identity, ByIdentity, Bindings, Formats;
      records, bindings, formats := map[], map[], map[];
      NoTables(rs);
      for i := 0 to |rs|
        invariant records == ByIdentity(rs[..i]) && bindings == Bindings(rs[..i]) && formats == Formats(rs[..i])
        invariant DistinctIdentities(rs[..i])
      {
        var rec, before := rs[i], rs[..i];
        assert rs[..i + 1] == before + [rec];
        TablesStep(rs, i);
        IdentitiesHeld(before, Identity(rec));
        if Identity(rec) in records {
          Duplicate(rs, i);
          return false;
        }
        DistinctMore(before, rec);
        records := records[Identity(rec) := rec];
        if rec.kind == "name" {
          bindings := bindings[rec.key := FirstField(rec)];
        } else if rec.kind == "format" {
          formats := formats[rec.key := rec];
        }
      }
      assert rs[..|rs|] == rs;
      return true;
    }

    /** The second pass: every record's binding is declared and may carry it; index the ones with a sub-key. */
    method IndexAll(rs: seq<Record>) returns (ok: bool)
      requires bindings == Bindings(rs)
      modifies this`members, this`inputs, this`enums
      ensures ok <==> forall rec :: rec in rs ==> OwnedBy(Bindings(rs), rec)
      ensures ok ==> members == IndexOfKind(rs, "member") && inputs == IndexOfKind(rs, "input") && enums == IndexOfKind(rs, "enum")
    {
      hide OwnedBy, Bindings, BindingOf, SubOf, Put;
      members, inputs, enums := map[], map[], map[];
      for i := 0 to |rs|
        invariant forall rec :: rec in rs[..i] ==> OwnedBy(Bindings(rs), rec)
        invariant members == IndexOfKind(rs[..i], "member") && inputs == IndexOfKind(rs[..i], "input")
        invariant enums == IndexOfKind(rs[..i], "enum")
      {
        var rec := rs[i];
        assert rs[..i + 1] == rs[..i] + [rec] && rs[..i + 1][..i] == rs[..i];
        if !OwnedBy(bindings, rec) {
          return false;
        }
        if rec.kind == "member" {
          members := Put(members, BindingOf(rec), SubOf(rec), rec);
        } else if rec.kind == "input" {
          inputs := Put(inputs, BindingOf(rec), SubOf(rec), rec);
        } else if rec.kind == "enum" {
          enums := Put(enums, BindingOf(rec), SubOf(rec), rec);
        }
      }
      assert rs[..|rs|] == rs;
      return true;
    }

    /** The last pass: every binding has the records its kind requires. */
    method CheckRequired() returns (ok: bool)
      ensures ok <==> AllFulfilled(bindings, records)
    {
      hide Fulfilled;
      var keys := bindings.Keys;
      while keys != {}
        invariant keys <= bindings.Keys
        invariant forall key :: key in bindings.Keys - keys ==> Fulfilled(bindings, records, key)
      {
        var key :| key in keys;
        if !Fulfilled(bindings, records, key) {
          return false;
        }
        keys := keys - {key};
      }
      return true;
    }

    /** Load a dump's records; false where the source raises `DumpError`. */
    method Load(rs: seq<Record>) returns (ok: bool)
      requires AllChecked(rs)
      modifies this
      ensures ok <==> Structured(rs)
      ensures ok <==> DumpStructure.Distinct(rs) && DumpStructure.Carried(rs) && DumpStructure.Furnished(rs)
      ensures ok ==> Holds(rs)
    {
      hide *;
      DumpStructure.StructureExact(rs);
      ok := Register(rs);
      if !ok {
        StructuredParts(rs);
        return false;
      }
      ok := IndexAll(rs);
      OwnedWhole(rs);
      StructuredParts(rs);
      if !ok {
        return false;
      }
      ok := CheckRequired();
      CompleteExact(rs);
      if ok {
        HoldsWhole(rs);
      }
    }

    lemma {:induction false} HoldsWhole(rs: seq<Record>)
      requires AllChecked(rs) && DistinctIdentities(rs)
      requires records == ByIdentity(rs) && bindings == Bindings(rs) && formats == Formats(rs)
      requires members == IndexOfKind(rs, "member") && inputs == IndexOfKind(rs, "input") && enums == IndexOfKind(rs, "enum")
      ensures Holds(rs)
    {
      hide CheckRecord, DistinctIdentities, IndexOfKind, LookUp, Find, Bindings, ByIdentity, Formats, Optional;
      forall key ensures Optional(formats, key) == Find(rs, "format", key, "") { FormatFinds(rs, key); }
      forall rec | rec in rs ensures Identity(rec) in records && records[Identity(rec)] == rec {
        IdentitiesHeld(rs, Identity(rec));
        NamesUnique(rs, rec, records[Identity(rec)]);
      }
      forall id | id in records ensures records[id] in rs { IdentitiesHeld(rs, id); }
      forall rec | rec in rs && rec.kind == "name" ensures rec.key in bindings && bindings[rec.key] == FirstField(rec) {
        BindingHeldOnce(rs, rec);
      }
      forall key ensures key in bindings <==> key in BindingKeys(rs) { BindingsHeld(rs, key); }
      forall kind, owner, sub ensures LookUp(IndexOfKind(rs, kind), owner, sub) == Find(rs, kind, owner, sub) {
        IndexFinds(rs, kind, owner, sub);
      }
    }
  }

  lemma {:induction false} StructuredParts(rs: seq<Record>)
    ensures Structured(rs) <==> DistinctIdentities(rs) && Owned(rs) && Complete(rs)
  {
  }

  lemma {:induction false} OwnedWhole(rs: seq<Record>)
    requires DistinctIdentities(rs)
    ensures (forall rec :: rec in rs ==> OwnedBy(Bindings(rs), rec)) <==> Owned(rs)
  {
    hide DistinctIdentities, OwnedBy, NamesFor, Bindings, BindingOf;
    forall rec | rec in rs
      ensures OwnedBy(Bindings(rs), rec) <==>
        rec.kind == "format" || exists name :: name in rs && NamesFor(name, BindingOf(rec), rec.kind)
    {
      OwnedExact(rs, rec);
    }
  }

  lemma {:induction false} Duplicate(rs: seq<Record>, i: nat)
    requires i < |rs| && exists rec :: rec in rs[..i] && Identity(rec) == Identity(rs[i])
    ensures !DistinctIdentities(rs)
  {
    hide Identity;
    var rec :| rec in rs[..i] && Identity(rec) == Identity(rs[i]);
    var j :| 0 <= j < i && rs[..i][j] == rec;
    assert Identity(rs[j]) == Identity(rs[i]);
  }

  lemma {:induction false} DistinctMore(rs: seq<Record>, rec: Record)
    requires DistinctIdentities(rs) && forall r :: r in rs ==> Identity(r) != Identity(rec)
    ensures DistinctIdentities(rs + [rec])
  {
    hide Identity;
    var all := rs + [rec];
    forall i, j | 0 <= i < j < |all| ensures Identity(all[i]) != Identity(all[j]) {
      assert all[i] == rs[i] && all[i] in rs;
      assert j < |rs| ==> Identity(rs[i]) != Identity(rs[j]);
    }
  }
}
