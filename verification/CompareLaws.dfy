/** Laws of the comparison: where findings point, and what they add up to. */
module CompareLaws {
  import opened Texts
  import opened EncodedValues
  import opened DumpRecords
  import opened DumpText
  import opened DumpSearch
  import opened DumpCompare
  import RecordLaws

  // --- sites and their text ----------------------------------------------------------------

  /** No `": "` inside. */
  predicate Unmarked(t: string)
  {
    forall i :: 0 <= i < |t| - 1 ==> t[i] != ':' || t[i + 1] != ' '
  }

  lemma {:induction false} SiteReads(site: string, wording: string)
    requires Unmarked(site)
    ensures SiteOf(site + (": " + wording)) == site
  {
    var text := site + (": " + wording);
    if site != "" {
      assert text[1..] == site[1..] + (": " + wording);
      assert Unmarked(site[1..]) by {
        forall i | 0 <= i < |site[1..]| - 1 ensures site[1..][i] != ':' || site[1..][i + 1] != ' ' {
          assert site[1..][i] == site[i + 1] && site[1..][i + 1] == site[i + 2];
        }
      }
      SiteReads(site[1..], wording);
      assert site == [site[0]] + site[1..];
      assert text[0] == site[0] && (|site| > 1 ==> text[1] == site[1]) && (|site| == 1 ==> text[1] == ':');
    }
  }

  lemma {:induction false} SpaceFree(t: string)
    requires NoBlank(t)
    ensures ' ' !in t && Unmarked(t)
  {
  }

  /** The spaces of an input site stand around the word between its two halves. */
  lemma {:induction false} InputSiteUnmarked(key: string, sub: string)
    requires ' ' !in key && ' ' !in sub && key != "" && key[|key| - 1] != ':'
    ensures Unmarked(InputSite(key, sub))
  {
    var site := InputSite(key, sub);
    var mid := " input ";
    forall i | 0 <= i < |site| - 1 ensures site[i] != ':' || site[i + 1] != ' ' {
      if i + 1 < |key| {
        assert site[i + 1] == key[i + 1];
      } else if i + 1 < |key| + 7 {
        assert site[i + 1] == mid[i + 1 - |key|];
        if i >= |key| { assert site[i] == mid[i - |key|]; }
      } else {
        assert site[i + 1] == sub[i + 1 - |key| - 7];
      }
    }
  }

  lemma {:induction false} KeySite(key: string)
    requires IsKey(key)
    ensures ' ' !in key && key != "" && key[|key| - 1] != ':' && Unmarked(key) && key[0] != 'f'
  {
    RecordLaws.KeyShape(key);
    SpaceFree(key);
    var colon := IndexOf(key, ':');
    KeyHead(key[..colon]);
    hide IsKey, IndexOf, NoBlank;
    assert key[|key| - 1] == key[colon + 1..][|key| - colon - 2];
    assert key[0] == key[..colon][0];
  }

  lemma {:induction false} KeyHead(t: string)
    requires Split(t, '.')[0] == "otto"
    ensures t != "" && t[0] == 'o'
  {
    assert Split("", '.') == [""];
    assert Split(t, '.')[0][0] == 'o';
  }

  lemma {:induction false} SiteKeys(rs: seq<Record>, site: string)
    ensures site in Sites(rs) <==> exists rec :: rec in rs && SiteEntry(rec).Some? && SiteEntry(rec).value.0 == site
    ensures site in Sites(rs) ==>
      exists rec :: rec in rs && SiteEntry(rec) == Some((site, Sites(rs)[site]))
  {
    hide SiteEntry;
    if rs != [] {
      var last := |rs| - 1;
      assert rs == rs[..last] + [rs[last]];
      SiteKeys(rs[..last], site);
    }
  }

  /** Every site of a parsed dump survives being cut out of a finding. */
  lemma {:induction false} EntryUnmarked(rec: Record)
    requires CheckRecord(rec) && SiteEntry(rec).Some?
    ensures Unmarked(SiteEntry(rec).value.0)
  {
    RecordLaws.FieldsPresent(rec);
    if rec.kind == "format" {
      FormatKey(rec);
      FormatUnmarked(rec.key);
    } else {
      KeyOf(rec);
      KeySite(rec.key);
      if rec.kind == "input" {
        InputValue(rec);
        InputSiteUnmarked(rec.key, FirstField(rec));
      }
    }
  }

  lemma {:induction false} KeyOf(rec: Record)
    requires CheckRecord(rec) && rec.kind != "format"
    ensures IsKey(rec.key)
  {
  }

  lemma {:induction false} FormatKey(rec: Record)
    requires CheckRecord(rec) && rec.kind == "format"
    ensures ':' !in rec.key
  {
    hide IsKey, CheckFields, CheckMember;
    RecordLaws.FormatNameClean(rec.key);
  }

  lemma {:induction false} FormatUnmarked(name: string)
    requires ':' !in name
    ensures Unmarked(FormatSite(name))
  {
    var site := FormatSite(name);
    forall i | 0 <= i < |site| ensures site[i] != ':' {
      if i < 7 { assert site[i] == "format "[i]; } else { assert site[i] == name[i - 7]; }
    }
  }

  lemma {:induction false} InputValue(rec: Record)
    requires CheckRecord(rec) && rec.kind == "input"
    ensures CheckValue(FirstField(rec)) && ' ' !in FirstField(rec)
  {
    hide IsKey, CheckFormat, CheckMember;
    RecordLaws.ValueClean(rec.fields[0]);
    SpaceFree(rec.fields[0]);
  }

  /** Cutting a finding's text at its first mark gives its site back. */
  lemma {:induction false} FindingSite(rs: seq<Record>, f: Finding, wording: string)
    requires AllChecked(rs) && f.site in Sites(rs)
    ensures SiteOf(FindingText(f, wording)) == f.site
  {
    hide CheckRecord, SiteEntry, SiteOf;
    SiteKeys(rs, f.site);
    var rec :| rec in rs && SiteEntry(rec) == Some((f.site, Sites(rs)[f.site]));
    EntryUnmarked(rec);
    SiteReads(f.site, wording);
  }

  // --- findings name sites -----------------------------------------------------------------

  /** A finding names an old site, or is a new required input of a binding that is an old site. */
  ghost predicate WellPlaced(was: seq<Record>, now: seq<Record>, f: Finding)
  {
    f.site in Sites(was)
    || (f.fact == NewRequiredInput
        && exists rec :: rec in now && rec.kind == "input" && f.site == InputSite(rec.key, FirstField(rec)) && rec.key in Sites(was))
  }

  lemma {:induction false} EntrySite(rs: seq<Record>, rec: Record)
    requires rec in rs && SiteEntry(rec).Some?
    ensures SiteEntry(rec).value.0 in Sites(rs)
  {
    SiteKeys(rs, SiteEntry(rec).value.0);
  }

  lemma {:induction false} BindingIsSite(rs: seq<Record>, key: string)
    requires key in BindingKeys(rs)
    ensures key in Sites(rs)
  {
    var rec :| rec in rs && rec.kind == "name" && rec.key == key;
    EntrySite(rs, rec);
  }

  lemma {:induction false} AboutPlaced(rec: Record, was: seq<Record>, now: seq<Record>, f: Finding)
    requires rec in was && f in About(rec, now)
    ensures f.site in Sites(was) || (rec.kind == "enum" && f.site == rec.key)
  {
    hide InputFacts, MemberFacts, EnumFacts, FormatFacts, Find, Sites;
    if rec.kind != "enum" { EntrySite(was, rec); }
  }

  lemma {:induction false} GatherPlaced(was: seq<Record>, now: seq<Record>, kind: string, key: string, f: Finding)
    requires key in Sites(was) && f in Gather(was, now, kind, key)
    ensures f.site in Sites(was)
  {
    hide About, Sites;
    var rec :| rec in was && OfBinding(rec, kind, key) && f in About(rec, now);
    AboutPlaced(rec, was, now, f);
  }

  lemma {:induction false} PairPlaced(was: seq<Record>, now: seq<Record>, kind: string, key: string, f: Finding)
    requires f in PairFindings(was, now, kind, key)
    ensures f.site == key
  {
    hide MroFacts, CallFacts, ObligationFacts, Find, Callable;
  }

  lemma {:induction false} NewInputPlaced(was: seq<Record>, now: seq<Record>, key: string, f: Finding)
    requires key in Sites(was) && f in NewInputFindings(was, now, key)
    ensures WellPlaced(was, now, f)
  {
    hide Find, Sites;
    var rec :| rec in now && AddsRequired(rec, was, key) && f == Finding(InputSite(key, SubOf(rec)), NewRequiredInput);
  }

  lemma {:induction false} BindingPlaced(was: seq<Record>, now: seq<Record>, key: string, f: Finding)
    requires key in Sites(was) && f in BindingFindings(was, now, key)
    ensures WellPlaced(was, now, f)
  {
    hide Gather, NewInputFindings, PairFindings, Find, Sites;
    if f in NewInputFindings(was, now, key) {
      NewInputPlaced(was, now, key, f);
    } else if kind :| kind in ["input", "member", "enum"] && f in Gather(was, now, kind, key) {
      GatherPlaced(was, now, kind, key, f);
    } else if kind :| kind in ["mro", "call", "abstract", "requires"] && f in PairFindings(was, now, kind, key) {
      PairPlaced(was, now, kind, key, f);
    }
  }

  /** Every finding of `compare_dumps` is well placed. */
  lemma {:induction false} FindingsPlaced(was: seq<Record>, now: seq<Record>, f: Finding)
    requires f in Findings(was, now)
    ensures WellPlaced(was, now, f)
  {
    hide BindingFindings, FormatFindings, Find, Sites, BindingKeys, WellPlaced;
    if key :| key in BindingKeys(was) && f in BindingFindings(was, now, key) {
      BindingIsSite(was, key);
      BindingPlaced(was, now, key, f);
    } else {
      FormatsPlaced(was, now, f);
    }
  }

  lemma {:induction false} FormatsPlaced(was: seq<Record>, now: seq<Record>, f: Finding)
    requires f in FormatFindings(was, now)
    ensures WellPlaced(was, now, f)
  {
    hide About, Sites;
    var rec :| rec in was && rec.kind == "format" && f in About(rec, now);
    AboutPlaced(rec, was, now, f);
  }

  // --- churn -------------------------------------------------------------------------------

  lemma {:induction false} WellPlacedChargeable(was: seq<Record>, now: seq<Record>, f: Finding)
    requires WellPlaced(was, now, f)
    ensures f.site in Sites(was) || f.site in Sites(now)
  {
    hide Sites, InputSite;
    if f.site !in Sites(was) {
      var rec :| rec in now && rec.kind == "input" && f.site == InputSite(rec.key, FirstField(rec)) && rec.key in Sites(was);
      EntrySite(now, rec);
    }
  }

  /** `_compare_v2` finds every named site. */
  lemma {:induction false} NamesCharged(was: seq<Record>, now: seq<Record>)
    ensures Chargeable(was, now)
  {
    forall f | f in Findings(was, now) ensures f.site in Sites(was) || f.site in Sites(now) {
      FindingsPlaced(was, now, f);
      WellPlacedChargeable(was, now, f);
    }
  }

  lemma {:induction false} FirstSpace(a: string, b: string, x: string, y: string)
    requires ' ' !in a && ' ' !in b && a + ([' '] + x) == b + ([' '] + y)
    ensures a == b
  {
    IndexOfConcat(a, ' ', x);
    IndexOfConcat(b, ' ', y);
    assert (a + ([' '] + x))[..|a|] == a && (b + ([' '] + y))[..|b|] == b;
  }

  lemma {:induction false} InputSiteSpace(key: string, sub: string)
    ensures InputSite(key, sub) == key + ([' '] + ("input " + sub))
    ensures ' ' in InputSite(key, sub)
  {
    assert " input " + sub == [' '] + ("input " + sub);
    assert InputSite(key, sub)[|key|] == ' ';
  }

  /** Only an input of the same binding is spelled like this input. */
  lemma {:induction false} InputOwner(rec: Record, key: string, sub: string)
    requires CheckRecord(rec) && ' ' !in key && key != "" && key[0] != 'f'
    requires SiteEntry(rec).Some? && SiteEntry(rec).value.0 == InputSite(key, sub)
    ensures SiteEntry(rec).value.1 == key
  {
    InputSiteSpace(key, sub);
    assert InputSite(key, sub)[0] == key[0];
    if rec.kind != "format" {
      KeyOf(rec);
      KeySite(rec.key);
      InputSiteSpace(rec.key, FirstField(rec));
      hide CheckRecord, IsKey, InputSite;
      if rec.kind == "input" {
        FirstSpace(key, rec.key, "input " + sub, "input " + FirstField(rec));
      }
    }
  }

  /** A well-placed finding is charged to an old site. */
  lemma {:induction false} ChargedOld(was: seq<Record>, now: seq<Record>, f: Finding)
    requires AllChecked(now) && WellPlaced(was, now, f)
    ensures (f.site in Sites(was) || f.site in Sites(now)) && Charged(was, now, f.site) in Sites(was)
  {
    hide CheckRecord, Sites, SiteEntry, InputSite;
    WellPlacedChargeable(was, now, f);
    if f.site !in Sites(was) {
      var input :| input in now && input.kind == "input" && f.site == InputSite(input.key, FirstField(input)) && input.key in Sites(was);
      SiteKeys(now, f.site);
      var rec :| rec in now && SiteEntry(rec) == Some((f.site, Sites(now)[f.site]));
      KeyOf(input);
      KeySite(input.key);
      InputOwner(rec, input.key, FirstField(input));
    }
  }

  /** The broken sites are old sites, so churn is a percentage. */
  lemma {:induction false} ChurnBounded(was: seq<Record>, now: seq<Record>)
    requires AllChecked(was) && AllChecked(now)
    ensures Chargeable(was, now)
    ensures Broken(was, now) <= Sites(was).Keys
    ensures 0.0 <= Churn(was, now) <= 100.0
  {
    hide CheckRecord, Findings, Sites, SiteEntry, WellPlaced, Charged, AllChecked, BindingKeys;
    NamesCharged(was, now);
    forall f | f in Findings(was, now) ensures Charged(was, now, f.site) in Sites(was) {
      FindingsPlaced(was, now, f);
      ChargedOld(was, now, f);
    }
    SubsetSize(Broken(was, now), Sites(was).Keys);
    if |Sites(was)| > 0 { Share(|Broken(was, now)|, |Sites(was)|); }
  }

  lemma {:induction false} Share(part: nat, whole: nat)
    requires part <= whole && whole > 0
    ensures 0.0 <= (100 * part) as real / whole as real <= 100.0
  {
    assert (100 * part) as real <= 100.0 * (whole as real);
  }
}
