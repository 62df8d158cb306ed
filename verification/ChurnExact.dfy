/** Which sites break between two dumps, and what share of them. */
module ChurnExact {
  import opened Texts
  import opened DumpRecords
  import opened DumpText
  import opened DumpSearch
  import opened DumpCompare
  import opened CompareSpec
  import CompareExact
  import CompareLaws

  /** The record is a site: a binding, a member, an input or a format. */
  predicate IsSite(rec: Record) { rec.kind in ["name", "member", "input", "format"] }

  /** The binding a site belongs to; a format is its own. */
  function OwnerFor(rec: Record): string
  {
    if rec.kind == "format" then "format " + rec.key else if rec.kind == "member" then BindingOf(rec) else rec.key
  }

  lemma {:induction false} EntryExact(rec: Record)
    ensures SiteEntry(rec) == if IsSite(rec) then Some((SiteFor(rec), OwnerFor(rec))) else None
  {
  }

  /** The sites of a dump, each with the owner of the last record there. */
  lemma {:induction false} SitesExact(rs: seq<Record>, site: string)
    ensures site in Sites(rs) <==> exists rec :: rec in rs && IsSite(rec) && SiteFor(rec) == site
    ensures site in Sites(rs) ==>
      exists i ::
        0 <= i < |rs| && IsSite(rs[i]) && SiteFor(rs[i]) == site && Sites(rs)[site] == OwnerFor(rs[i])
        && forall j :: i < j < |rs| && IsSite(rs[j]) ==> SiteFor(rs[j]) != site
  {
    if rs != [] {
      var last := |rs| - 1;
      EntryExact(rs[last]);
      hide IsSite, SiteFor, OwnerFor, SiteEntry;
      assert rs == rs[..last] + [rs[last]];
      SitesExact(rs[..last], site);
      if site in Sites(rs[..last]) && !(IsSite(rs[last]) && SiteFor(rs[last]) == site) {
        var i :| 0 <= i < last && IsSite(rs[..last][i]) && SiteFor(rs[..last][i]) == site && Sites(rs[..last])[site] == OwnerFor(rs[..last][i])
          && forall j :: i < j < last && IsSite(rs[..last][j]) ==> SiteFor(rs[..last][j]) != site;
        assert rs[..last][i] == rs[i];
        forall j | i < j < |rs| && IsSite(rs[j]) ensures SiteFor(rs[j]) != site {
          if j < last { assert rs[..last][j] == rs[j]; }
        }
      }
    }
  }

  /** A required input the newer dump adds at a site that is not old, to the binding `key`. */
  ghost predicate AddsTo(was: seq<Record>, now: seq<Record>, key: string)
  {
    exists n ::
      n in now && n.kind == "input" && n.key == key && SiteFor(n) !in Sites(was)
      && Reported(was, now, Finding(SiteFor(n), NewRequiredInput))
  }

  /** What the site broke by: a finding about it, a required input added to it, or its binding gone. */
  ghost predicate Breaks(was: seq<Record>, now: seq<Record>, site: string)
  {
    (site in Sites(was) && exists f :: Reported(was, now, f) && f.site == site)
    || AddsTo(was, now, site)
    || (site in Sites(was) && (exists o :: o in was && o.kind == "name" && o.key == Sites(was)[site])
        && forall n :: n in now && n.kind == "name" ==> n.key != Sites(was)[site])
  }

  lemma {:induction false} ChargedInput(was: seq<Record>, now: seq<Record>, n: Record)
    requires AllChecked(now) && n in now && n.kind == "input"
    ensures SiteFor(n) in Sites(now) && Sites(now)[SiteFor(n)] == n.key
  {
    SitesExact(now, SiteFor(n));
    InputIsSite(n);
    CompareLaws.KeyOf(n);
    CompareLaws.KeySite(n.key);
    hide CheckRecord, Sites, IsSite, SiteFor, SiteEntry, OwnerFor, InputSite, IsKey, CompareLaws.Unmarked;
    var i :| 0 <= i < |now| && IsSite(now[i]) && SiteFor(now[i]) == SiteFor(n) && Sites(now)[SiteFor(n)] == OwnerFor(now[i]);
    EntryExact(now[i]);
    CompareLaws.InputOwner(now[i], n.key, FirstField(n));
  }

  lemma {:induction false} InputIsSite(n: Record)
    requires n.kind == "input"
    ensures IsSite(n) && SiteFor(n) == InputSite(n.key, FirstField(n))
  {
  }

  /** The broken sites are those that a finding, an addition or a removal breaks. */
  lemma {:induction false} BrokenExact(was: seq<Record>, now: seq<Record>, site: string)
    requires Loadable(was) && Loadable(now)
    ensures Chargeable(was, now)
    ensures site in Broken(was, now) <==> Breaks(was, now, site)
  {
    CompareLaws.NamesCharged(was, now);
    hide CheckRecord, DistinctIdentities, Reported, Sites, SiteFor, IsSite;
    ChargedExact(was, now, site);
    GoneExact(was, now, site);
    hide Findings, Charged, BindingKeys, AllChecked;
  }

  lemma {:induction false} GoneExact(was: seq<Record>, now: seq<Record>, site: string)
    ensures site in Sites(was) && Sites(was)[site] in BindingKeys(was) - BindingKeys(now) <==>
      site in Sites(was) && (exists o :: o in was && o.kind == "name" && o.key == Sites(was)[site])
      && forall n :: n in now && n.kind == "name" ==> n.key != Sites(was)[site]
  {
    hide Sites;
  }

  lemma {:induction false} ChargedExact(was: seq<Record>, now: seq<Record>, site: string)
    requires Loadable(was) && Loadable(now) && Chargeable(was, now)
    ensures (exists f :: f in Findings(was, now) && Charged(was, now, f.site) == site) <==>
      (site in Sites(was) && exists f :: Reported(was, now, f) && f.site == site) || AddsTo(was, now, site)
  {
    forall f ensures f in Findings(was, now) <==> Reported(was, now, f) { CompareExact.FindingsExact(was, now, f); }
    hide CheckRecord, DistinctIdentities, Findings, Reported, Sites, SiteFor;
    if f :| f in Findings(was, now) && Charged(was, now, f.site) == site {
      if f.site !in Sites(was) { AddedFinding(was, now, f, site); }
    }
    if AddsTo(was, now, site) {
      var n :| n in now && n.kind == "input" && n.key == site && SiteFor(n) !in Sites(was)
        && Reported(was, now, Finding(SiteFor(n), NewRequiredInput));
      ChargedInput(was, now, n);
      assert Charged(was, now, Finding(SiteFor(n), NewRequiredInput).site) == site;
    }
  }

  lemma {:induction false} AddedFinding(was: seq<Record>, now: seq<Record>, f: Finding, site: string)
    requires Loadable(now) && f in Findings(was, now) && f.site !in Sites(was) && Reported(was, now, f)
    requires f.site in Sites(now) && Sites(now)[f.site] == site
    ensures AddsTo(was, now, site)
  {
    CompareLaws.FindingsPlaced(was, now, f);
    var n :| n in now && n.kind == "input" && f.site == InputSite(n.key, FirstField(n)) && n.key in Sites(was);
    assert SiteFor(n) == f.site;
    ChargedInput(was, now, n);
    hide Reported, Sites, SiteFor, Findings;
    assert f == Finding(SiteFor(n), NewRequiredInput);
  }

  /** Churn is the broken sites in a hundred old ones, and nothing where there are none. */
  lemma {:induction false} ChurnShare(was: seq<Record>, now: seq<Record>)
    requires Chargeable(was, now)
    ensures Churn(was, now) * (|Sites(was)| as real) == if |Sites(was)| == 0 then 0.0 else (100 * |Broken(was, now)|) as real
    ensures |Sites(was)| == 0 ==> Churn(was, now) == 0.0
  {
    hide Sites, Broken;
  }
}
