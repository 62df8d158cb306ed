/** What a loadable dump is, family of records by family of records. */
module DumpStructure {
  import opened Texts
  import opened DumpRecords
  import opened DumpText
  import opened CompareSpec
  import CompareExact
  import RecordLaws

  /** Which bindings may carry a record of a kind. */
  predicate MayCarry(bindingKind: string, kind: string)
  {
    (kind == "name" && IsBindingKind(bindingKind))
    || (kind == "mro" && bindingKind in ["class", "model", "protocol", "enum"])
    || (kind == "call" && bindingKind in ["function", "callable", "class"])
    || (kind == "member" && bindingKind in ["class", "model", "protocol", "enum"])
    || (kind == "input" && bindingKind in ["model", "typeddict"])
    || (kind == "abstract" && bindingKind in ["class", "model"])
    || (kind == "requires" && bindingKind == "protocol")
    || (kind == "enum" && bindingKind == "enum")
  }

  /** Which bindings must carry one: all that may have bases, a call, abstract methods or demands. */
  predicate MustCarry(bindingKind: string, kind: string)
  {
    kind in ["mro", "call", "abstract", "requires"] && MayCarry(bindingKind, kind)
  }

  lemma {:induction false} AllowsExact(bindingKind: string, kind: string)
    requires IsBindingKind(bindingKind)
    ensures Allows(bindingKind, kind) <==> MayCarry(bindingKind, kind)
  {
    match bindingKind
    case "function" =>
    case "callable" =>
    case "class" =>
    case "model" =>
    case "protocol" =>
    case "enum" =>
    case "typeddict" =>
    case _ =>
  }

  lemma {:induction false} RequiredExact(bindingKind: string, kind: string)
    requires IsBindingKind(bindingKind)
    ensures kind in Required(bindingKind) <==> MustCarry(bindingKind, kind)
  {
    match bindingKind
    case "function" =>
    case "callable" =>
    case "class" =>
    case "model" =>
    case "protocol" =>
    case "enum" =>
    case _ =>
  }

  /** No two records stand for one thing. */
  ghost predicate Distinct(rs: seq<Record>) { forall i, j :: 0 <= i < j < |rs| ==> !Same(rs[i], rs[j]) }

  /** Every record but a format is of a binding that may carry it. */
  ghost predicate Carried(rs: seq<Record>)
  {
    forall rec :: rec in rs && rec.kind != "format" ==>
      exists name :: name in rs && name.kind == "name" && BelongsTo(rec, name.key) && MayCarry(FirstField(name), rec.kind)
  }

  /** Every binding has the records it must carry. */
  ghost predicate Furnished(rs: seq<Record>)
  {
    forall name, kind :: name in rs && name.kind == "name" && MustCarry(FirstField(name), kind) ==>
      exists rec :: rec in rs && rec.kind == kind && rec.key == name.key
  }

  lemma {:induction false} DistinctExact(rs: seq<Record>)
    ensures DistinctIdentities(rs) <==> Distinct(rs)
  {
    forall i, j | 0 <= i < j < |rs| ensures Identity(rs[i]) != Identity(rs[j]) <==> !Same(rs[i], rs[j]) {
      CompareExact.SameIdentity(rs[i], rs[j]);
    }
    hide Identity, Same;
  }

  lemma {:induction false} NamedKind(name: Record)
    requires CheckRecord(name) && name.kind == "name"
    ensures IsBindingKind(FirstField(name)) && IsKey(name.key) && name.key != ""
  {
    RecordLaws.KeyPresent(name);
    RecordLaws.KeyShape(name.key);
    hide IsKey;
  }

  lemma {:induction false} CarrierExact(rec: Record, name: Record)
    requires CheckRecord(rec) && CheckRecord(name) && name.kind == "name"
    ensures NamesFor(name, BindingOf(rec), rec.kind) <==> BelongsTo(rec, name.key) && MayCarry(FirstField(name), rec.kind)
  {
    NamedKind(name);
    AllowsExact(FirstField(name), rec.kind);
    CompareExact.BelongsExact(rec, name.key);
    hide CheckRecord, BelongsTo, MayCarry, BindingOf, FirstField, Allows;
  }

  lemma {:induction false} CarriedExact(rs: seq<Record>)
    requires AllChecked(rs)
    ensures Owned(rs) <==> Carried(rs)
  {
    forall rec, name | rec in rs && name in rs && name.kind == "name"
      ensures NamesFor(name, BindingOf(rec), rec.kind) <==> BelongsTo(rec, name.key) && MayCarry(FirstField(name), rec.kind)
    {
      CarrierExact(rec, name);
    }
    hide CheckRecord, BelongsTo, MayCarry, BindingOf, FirstField, Allows, NamesFor;
    if Owned(rs) {
      forall rec | rec in rs && rec.kind != "format"
        ensures exists name :: name in rs && name.kind == "name" && BelongsTo(rec, name.key) && MayCarry(FirstField(name), rec.kind)
      {
        var name :| name in rs && NamesFor(name, BindingOf(rec), rec.kind);
      }
    }
  }

  lemma {:induction false} FurnishedExact(rs: seq<Record>)
    requires AllChecked(rs)
    ensures Complete(rs) <==> Furnished(rs)
  {
    forall name, kind | name in rs && name.kind == "name"
      ensures kind in Required(FirstField(name)) <==> MustCarry(FirstField(name), kind)
    {
      NamedKind(name);
      RequiredExact(FirstField(name), kind);
    }
    hide CheckRecord, MustCarry, Required, FirstField;
    if Complete(rs) {
      forall name, kind | name in rs && name.kind == "name" && MustCarry(FirstField(name), kind)
        ensures exists rec :: rec in rs && rec.kind == kind && rec.key == name.key
      {
        var rec :| rec in rs && IsRecordOf(rec, kind, name.key);
      }
    }
    if Furnished(rs) {
      forall name, needed | name in rs && name.kind == "name" && needed in Required(FirstField(name))
        ensures exists rec :: rec in rs && IsRecordOf(rec, needed, name.key)
      {
        var rec :| rec in rs && rec.kind == needed && rec.key == name.key;
        assert IsRecordOf(rec, needed, name.key);
      }
    }
  }

  /** A record list loads exactly when nothing stands in it twice, every record is of a binding that may carry it,
      and every binding has what it must. */
  lemma {:induction false} StructureExact(rs: seq<Record>)
    requires AllChecked(rs)
    ensures Structured(rs) <==> Distinct(rs) && Carried(rs) && Furnished(rs)
  {
    DistinctExact(rs);
    CarriedExact(rs);
    FurnishedExact(rs);
    hide AllChecked, DistinctIdentities, Owned, Complete, Distinct, Carried, Furnished;
  }

  /** Records come in the order of their kinds. */
  lemma {:induction false} RankExact(i: nat, j: nat)
    requires i < j < |KINDS|
    ensures Le(KindRank(KINDS[i]), KindRank(KINDS[j])) && KindRank(KINDS[i]) != KindRank(KINDS[j])
  {
    assert KindRank(KINDS[i]) == ["0", "1", "2", "3", "4", "5", "6", "7", "8"][i];
    assert KindRank(KINDS[j]) == ["0", "1", "2", "3", "4", "5", "6", "7", "8"][j];
  }
}
