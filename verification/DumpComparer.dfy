/** The loops of `compare_dumps`, over sets of findings: a finding is its text, so each counts once. */
module DumpComparer {
  import opened DumpRecords
  import opened DumpText
  import opened DumpSearch
  import opened DumpCompare
  import CompareExact
  import CompareLaws
  import CompareSpec

  lemma {:induction false} GatherStep(was: seq<Record>, i: nat, now: seq<Record>, kind: string, key: string)
    requires i < |was|
    ensures Gather(was[..i + 1], now, kind, key)
      == Gather(was[..i], now, kind, key) + (if OfBinding(was[i], kind, key) then About(was[i], now) else {})
  {
    hide About, OfBinding;
    assert was[..i + 1] == was[..i] + [was[i]];
    var before, all := Gather(was[..i], now, kind, key), Gather(was[..i + 1], now, kind, key);
    forall f | f in all ensures f in before || (OfBinding(was[i], kind, key) && f in About(was[i], now)) {
      var rec :| rec in was[..i + 1] && OfBinding(rec, kind, key) && f in About(rec, now);
    }
  }

  /** The loop over the old inputs, members or enum members of a binding. */
  method CompareIndexed(was: seq<Record>, now: seq<Record>, kind: string, key: string) returns (out: set<Finding>)
    ensures out == Gather(was, now, kind, key)
  {
    hide About, Gather, OfBinding;
    out := {};
    GatherNone(now, kind, key);
    for i := 0 to |was|
      invariant out == Gather(was[..i], now, kind, key)
    {
      GatherStep(was, i, now, kind, key);
      if OfBinding(was[i], kind, key) {
        out := out + About(was[i], now);
      }
    }
    assert was[..|was|] == was;
  }

  lemma {:induction false} GatherNone(now: seq<Record>, kind: string, key: string)
    ensures Gather([], now, kind, key) == {} && FormatFindings([], now) == {}
  {
  }

  /** The loop over the inputs the newer dump adds. */
  method CompareNewInputs(was: seq<Record>, now: seq<Record>, key: string) returns (out: set<Finding>)
    ensures out == NewInputFindings(was, now, key)
  {
    hide AddsRequired, InputSite, SubOf;
    out := {};
    for i := 0 to |now|
      invariant out == NewInputFindings(was, now[..i], key)
    {
      assert now[..i + 1] == now[..i] + [now[i]];
      if AddsRequired(now[i], was, key) {
        out := out + {Finding(InputSite(key, SubOf(now[i])), NewRequiredInput)};
      }
    }
    assert now[..|now|] == now;
  }

  lemma {:induction false} FormatStep(was: seq<Record>, i: nat, now: seq<Record>)
    requires i < |was|
    ensures FormatFindings(was[..i + 1], now)
      == FormatFindings(was[..i], now) + (if was[i].kind == "format" then About(was[i], now) else {})
  {
    hide About;
    assert was[..i + 1] == was[..i] + [was[i]];
    forall f | f in FormatFindings(was[..i + 1], now)
      ensures f in FormatFindings(was[..i], now) || (was[i].kind == "format" && f in About(was[i], now))
    {
      var rec :| rec in was[..i + 1] && rec.kind == "format" && f in About(rec, now);
    }
  }

  method CompareFormats(was: seq<Record>, now: seq<Record>) returns (out: set<Finding>)
    ensures out == FormatFindings(was, now)
  {
    hide About, FormatFindings;
    out := {};
    GatherNone(now, "format", "");
    for i := 0 to |was|
      invariant out == FormatFindings(was[..i], now)
    {
      FormatStep(was, i, now);
      if was[i].kind == "format" {
        out := out + About(was[i], now);
      }
    }
    assert was[..|was|] == was;
  }

  /** One binding of the older dump. */
  method CompareBinding(was: seq<Record>, now: seq<Record>, key: string) returns (out: set<Finding>)
    requires key in BindingKeys(was)
    ensures out == BindingFindings(was, now, key)
    ensures CompareSpec.Loadable(was) && CompareSpec.Loadable(now) ==>
      forall f :: f in out <==> CompareExact.OfBindingReported(was, now, key, f)
  {
    hide PairFindings, Gather, NewInputFindings, CompareSpec.Loadable, CompareExact.OfBindingReported;
    if CompareSpec.Loadable(was) && CompareSpec.Loadable(now) {
      forall f { CompareExact.OfBindingExact(was, now, key, f); }
    }
    var name := Find(was, "name", key, "");
    var again := Find(now, "name", key, "");
    assert name.Some? by { KeyNamed(was, key); }
    if again.None? {
      return {Finding(key, Removed)};
    }
    if FirstField(again.value) != FirstField(name.value) {
      return {Finding(key, KindChanged(FirstField(name.value), FirstField(again.value)))};
    }
    out := PairFindings(was, now, "mro", key) + PairFindings(was, now, "call", key);
    var more := CompareIndexed(was, now, "input", key);
    out := out + more;
    more := CompareNewInputs(was, now, key);
    out := out + more;
    more := CompareIndexed(was, now, "member", key);
    out := out + more + PairFindings(was, now, "abstract", key) + PairFindings(was, now, "requires", key);
    more := CompareIndexed(was, now, "enum", key);
    out := out + more;
  }

  lemma {:induction false} KeyNamed(rs: seq<Record>, key: string)
    requires key in BindingKeys(rs)
    ensures Find(rs, "name", key, "").Some?
  {
    var rec :| rec in rs && rec.kind == "name" && rec.key == key;
    assert Indexed(rec, "name", key, "");
  }

  /** Old bindings first, then old formats. */
  method CompareDumps(was: seq<Record>, now: seq<Record>) returns (out: set<Finding>)
    ensures out == Findings(was, now)
    ensures forall f :: f in out ==> CompareLaws.WellPlaced(was, now, f)
    ensures CompareSpec.Loadable(was) && CompareSpec.Loadable(now) ==> forall f :: f in out <==> CompareSpec.Reported(was, now, f)
  {
    hide BindingFindings, FormatFindings, BindingKeys, CompareLaws.WellPlaced, CompareSpec.Loadable, CompareSpec.Reported;
    if CompareSpec.Loadable(was) && CompareSpec.Loadable(now) {
      forall f { CompareExact.FindingsExact(was, now, f); }
    }
    out := {};
    var keys := BindingKeys(was);
    ghost var done: set<string> := {};
    while keys != {}
      invariant keys !! done && keys + done == BindingKeys(was)
      invariant out == set key, f | key in done && f in BindingFindings(was, now, key) :: f
    {
      var key :| key in keys;
      var more := CompareBinding(was, now, key);
      keys, out, done := keys - {key}, out + more, done + {key};
    }
    assert done == BindingKeys(was);
    var formats := CompareFormats(was, now);
    out := out + formats;
    forall f | f in out ensures CompareLaws.WellPlaced(was, now, f) { CompareLaws.FindingsPlaced(was, now, f); }
  }
}
