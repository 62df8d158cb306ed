/** What a collation writes into a cell, over the records themselves. */
module MatrixExact {
  import opened Texts
  import opened MatrixSpec
  import opened MatrixLaws

  // --- which records count -----------------------------------------------------------------

  /** A record of this surface and profile, from the bed, that says something about the contract. */
  predicate Says(m: Matrix, place: Place, kind: string, rec: Record)
  {
    rec.format == 1 && rec.venue == "bed" && rec.surface == Some(place.0) && rec.profile == Some(place.1)
    && place.0 in m.contracts && place.1 in m.profiles && rec.kind == kind
    && (if kind == "domain-exclusion" then true
        else kind in ["observation", "control"] && rec.outcome in ["passed", "failed", "xfailed"])
  }

  predicate Observes(m: Matrix, records: seq<Record>, place: Place, rec: Record) { rec in records && Says(m, place, "observation", rec) }

  predicate Excludes(m: Matrix, records: seq<Record>, place: Place, rec: Record) { rec in records && Says(m, place, "domain-exclusion", rec) }

  predicate Controls(m: Matrix, records: seq<Record>, place: Place, rec: Record) { rec in records && Says(m, place, "control", rec) }

  lemma {:induction false} SaysExact(rec: Record, m: Matrix, place: Place, kind: string)
    ensures CountsFor(rec, m, place, kind) <==> Says(m, place, kind, rec)
  {
    assert "observation"[0] == 'o' && "control"[0] == 'c' && "domain-exclusion"[0] == 'd';
  }

  /** A reason a record is dropped for, whatever else is wrong with it. */
  predicate Objects(rec: Record, m: Matrix, reason: Reason)
  {
    match reason
    case BadFormat => rec.format != 1
    case OtherVenue => rec.venue != "bed"
    case NoSurface => rec.surface.None?
    case NoProfile => rec.profile.None?
    case Undeclared => rec.surface.Some? && rec.profile.Some? && (rec.surface.value !in m.contracts || rec.profile.value !in m.profiles)
    case NotEvidence => rec.kind in ["observation", "control"] && rec.outcome !in ["passed", "failed", "xfailed"]
    case UnknownKind => rec.kind !in ["observation", "control", "domain-exclusion"]
  }

  function Rank(reason: Reason): nat
  {
    match reason
    case BadFormat => 0
    case OtherVenue => 1
    case NoSurface => 2
    case NoProfile => 3
    case Undeclared => 4
    case NotEvidence => 5
    case UnknownKind => 6
  }

  /** A record is dropped for the first reason that objects, and kept if none does. */
  lemma {:induction false} DroppedExact(rec: Record, m: Matrix)
    ensures Dropped(rec, m).None? <==> forall reason :: !Objects(rec, m, reason)
    ensures Dropped(rec, m).Some? ==>
      Objects(rec, m, Dropped(rec, m).value) && forall reason :: Objects(rec, m, reason) ==> Rank(Dropped(rec, m).value) <= Rank(reason)
  {
    if Dropped(rec, m).None? {
      forall reason ensures !Objects(rec, m, reason) {}
    } else {
      assert Objects(rec, m, Dropped(rec, m).value);
    }
  }

  /** A cell's evidence of one kind: the records that say it, by label. */
  lemma {:induction false} EvidenceExact(records: seq<Record>, m: Matrix, place: Place, kind: string)
    ensures forall rec :: rec in Sorted(records, m, place, kind) <==> rec in records && Says(m, place, kind, rec)
    ensures ByLabel(Sorted(records, m, place, kind))
  {
    SortedMembers(records, m, place, kind);
    forall rec ensures CountsFor(rec, m, place, kind) <==> Says(m, place, kind, rec) { SaysExact(rec, m, place, kind); }
    hide CountsFor, Says, Counting, Sort, ByLabel;
    SortedLabels(Counting(records, m, place, kind));
  }

  lemma {:induction false} SortedLabels(xs: seq<Keyed<Record>>)
    requires forall x :: x in xs ==> x.key == [x.item.cellLabel]
    ensures ByLabel(Items(Sort(xs)))
  {
    SortStable(xs);
    var r := Items(Sort(xs));
    hide Sort;
    forall i, j | 0 <= i < j < |r| ensures Le(r[i].cellLabel, r[j].cellLabel) {
      var x, y := Sort(xs)[i], Sort(xs)[j];
      assert x in Sort(xs) && y in Sort(xs) && x.item == r[i] && y.item == r[j];
      LabelOrder(x.item.cellLabel, y.item.cellLabel);
    }
  }

  lemma {:induction false} LabelOrder(a: string, b: string)
    ensures LeLex([a], [b]) ==> Le(a, b)
  {
    LeTotal(a, a);
  }

  ghost predicate ByLabel(records: seq<Record>)
  {
    forall i, j :: 0 <= i < j < |records| ==> Le(records[i].cellLabel, records[j].cellLabel)
  }

  // --- pieces ------------------------------------------------------------------------------

  /** `a` stands somewhere before `b`. */
  predicate Before(order: seq<string>, a: string, b: string)
  {
    exists i, j :: 0 <= i < j < |order| && order[i] == a && order[j] == b
  }

  /** The elements come in the profile's order. */
  ghost predicate FollowsOrder(order: seq<string>, out: seq<string>)
  {
    forall j, k :: 0 <= j < k < |out| ==> Before(order, out[j], out[k])
  }

  function Named(records: seq<Record>): set<string> { set rec | rec in records :: rec.element }

  lemma {:induction false} BeforeLater(order: seq<string>, a: string, b: string)
    requires order != []
    ensures Before(order[1..], a, b) ==> Before(order, a, b)
    ensures a == order[0] && b in order[1..] ==> Before(order, a, b)
  {
    if i, j :| 0 <= i < j < |order[1..]| && order[1..][i] == a && order[1..][j] == b {
      assert order[i + 1] == a && order[j + 1] == b;
    }
    if a == order[0] && b in order[1..] {
      var j :| 0 <= j < |order[1..]| && order[1..][j] == b;
      assert order[j + 1] == b;
    }
  }

  /** The observed elements: those of the profile some record names, in the profile's order. */
  lemma {:induction false} ElementsExact(order: seq<string>, records: seq<Record>)
    ensures FollowsOrder(order, Elements(order, records))
    ensures forall e :: e in Elements(order, records) <==> e in order && e in Named(records)
  {
    forall e ensures Names(records, e) <==> e in Named(records) { NamedExact(records, e); }
    hide Named, Names, Before;
    if order != [] {
      ElementsExact(order[1..], records);
      FollowsTail(order, Elements(order[1..], records), Elements(order, records));
    }
  }

  lemma {:induction false} FollowsTail(order: seq<string>, rest: seq<string>, out: seq<string>)
    requires order != [] && (out == rest || out == [order[0]] + rest)
    requires FollowsOrder(order[1..], rest) && forall e :: e in rest ==> e in order[1..]
    ensures FollowsOrder(order, out)
  {
    hide Before;
    var d := |out| - |rest|;
    forall j, k | 0 <= j < k < |out| ensures Before(order, out[j], out[k]) {
      BeforeLater(order, out[j], out[k]);
      assert out[k] == rest[k - d] && out[k] in rest;
      assert j >= d ==> out[j] == rest[j - d];
    }
  }

  lemma {:induction false} NamedExact(records: seq<Record>, e: string)
    ensures Names(records, e) <==> e in Named(records)
  {
  }

  lemma {:induction false} LatestExact(ts: seq<string>)
    requires ts != []
    ensures Latest(ts) in ts && forall t :: t in ts ==> Le(t, Latest(ts))
  {
    var rest := Latest(ts[1..]);
    LeTotal(ts[0], rest);
    LeTotal(ts[0], ts[0]);
    if |ts| > 1 {
      LatestExact(ts[1..]);
      forall t | t in ts ensures Le(t, Latest(ts)) {
        if t in ts[1..] { LeTransitive(t, rest, Latest(ts)); }
      }
    } else {
      assert ts[1..] == [];
      EmptyLeast(ts[0]);
    }
  }

  lemma {:induction false} EmptyLeast(t: string)
    ensures Le(t, "") ==> t == ""
  {
  }

  lemma {:induction false} CollectExact(records: seq<Record>, field: Record -> string)
    ensures |Collect(records, field)| == |records|
    ensures forall t :: t in Collect(records, field) <==> exists rec :: rec in records && field(rec) == t
  {
    if records != [] {
      CollectExact(records[1..], field);
      assert records == [records[0]] + records[1..];
    }
  }

  /** Joined texts, one after the other. */
  lemma {:induction false} JoinedExact(a: seq<string>, b: seq<string>, sep: string)
    requires a != [] && b != []
    ensures JoinAll(a + b, sep) == JoinAll(a, sep) + (sep + JoinAll(b, sep))
    ensures |a| == 1 ==> JoinAll(a, sep) == a[0]
  {
    if |a| == 1 {
      assert (a + b)[1..] == b;
    } else {
      assert (a + b)[1..] == a[1..] + b;
      JoinedExact(a[1..], b, sep);
      Assoc(a[0], sep + JoinAll(a[1..], sep), sep + JoinAll(b, sep));
      Assoc(sep, JoinAll(a[1..], sep), sep + JoinAll(b, sep));
    }
  }

  /** The texts each once, in order. */
  ghost predicate Lists(ts: seq<string>, all: set<string>)
  {
    (forall i, j :: 0 <= i < j < |ts| ==> Le(ts[i], ts[j]) && ts[i] != ts[j]) && forall t :: t in ts <==> t in all
  }

  lemma {:induction false} UniqueExact(ts: seq<string>)
    ensures Lists(SortUnique(ts), set t | t in ts)
  {
    SortTextsSorts(Dedupe(ts));
    SortTextsDistinct(Dedupe(ts));
    hide SortTexts, Dedupe;
  }

  // --- exclusions --------------------------------------------------------------------------

  /** An exclusion is the record's that has the least label of its element. */
  ghost predicate FirstOf(exclusions: seq<Record>, x: Exclusion)
  {
    exists rec ::
      rec in exclusions && rec.element == x.element && rec.probed == x.probed && rec.probeResult == x.probeResult
      && forall other :: other in exclusions && other.element == x.element ==> Le(rec.cellLabel, other.cellLabel)
  }

  lemma {:induction false} TailByLabel(records: seq<Record>)
    requires records != [] && ByLabel(records)
    ensures ByLabel(records[1..]) && forall rec :: rec in records[1..] ==> Le(records[0].cellLabel, rec.cellLabel)
  {
    var rest := records[1..];
    forall i, j | 0 <= i < j < |rest| ensures Le(rest[i].cellLabel, rest[j].cellLabel) {
      assert Le(records[i + 1].cellLabel, records[j + 1].cellLabel);
    }
    forall rec | rec in rest ensures Le(records[0].cellLabel, rec.cellLabel) {
      var k :| 0 <= k < |rest| && rest[k] == rec;
      assert records[k + 1] == rec;
    }
  }

  lemma {:induction false} ConsByLabel(rec: Record, rest: seq<Record>)
    requires ByLabel(rest) && forall other :: other in rest ==> Le(rec.cellLabel, other.cellLabel)
    ensures ByLabel([rec] + rest)
  {
    var all := [rec] + rest;
    forall i, j | 0 <= i < j < |all| ensures Le(all[i].cellLabel, all[j].cellLabel) {
      assert all[j] == rest[j - 1] && rest[j - 1] in rest;
      assert i > 0 ==> all[i] == rest[i - 1];
    }
  }

  lemma {:induction false} OfElementOrdered(records: seq<Record>, element: string)
    requires ByLabel(records)
    ensures ByLabel(OfElement(records, element))
  {
    if records != [] {
      TailByLabel(records);
      hide ByLabel;
      OfElementOrdered(records[1..], element);
      ConsByLabel(records[0], OfElement(records[1..], element));
      assert [] + OfElement(records[1..], element) == OfElement(records[1..], element);
    }
  }

  lemma {:induction false} HeadFirst(exclusions: seq<Record>, element: string)
    requires ByLabel(exclusions)
    ensures var mine := OfElement(exclusions, element);
      mine != [] ==> FirstOf(exclusions, Exclusion(element, mine[0].probed, mine[0].probeResult))
  {
    OfElementOrdered(exclusions, element);
    var mine := OfElement(exclusions, element);
    hide OfElement;
    if mine != [] {
      LeTotal(mine[0].cellLabel, mine[0].cellLabel);
      assert mine[0] in mine;
      forall other | other in exclusions && other.element == element ensures Le(mine[0].cellLabel, other.cellLabel) {
        assert other in mine;
        var k :| 0 <= k < |mine| && mine[k] == other;
      }
    }
  }

  lemma {:induction false} ExcludedExact(elements: seq<string>, exclusions: seq<Record>)
    requires ByLabel(exclusions) && forall e :: e in elements ==> e in Named(exclusions)
    ensures var out := Excluded(elements, exclusions);
      |out| == |elements| && forall k :: 0 <= k < |out| ==> out[k].element == elements[k] && FirstOf(exclusions, out[k])
  {
    hide ByLabel, FirstOf;
    if elements != [] {
      HeadFirst(exclusions, elements[0]);
      assert elements[0] in Named(exclusions);
      ExcludedExact(elements[1..], exclusions);
    }
  }

  // --- controls ----------------------------------------------------------------------------

  /** A passed control of the surface on this very label. */
  ghost predicate PassedOn(controls: seq<Record>, expected: string, at: string, nodeid: string)
  {
    exists c :: c in controls && c.outcome == "passed" && c.cellLabel == at && c.nodeid == nodeid && expected + "[" <= nodeid
  }

  lemma {:induction false} ControlsExact(expected: string, controls: seq<Record>)
    requires PassedControls(expected, controls).Some?
    ensures forall at :: at in PassedControls(expected, controls).value <==> exists nodeid :: PassedOn(controls, expected, at, nodeid)
    ensures forall at :: at in PassedControls(expected, controls).value ==>
      PassedOn(controls, expected, at, PassedControls(expected, controls).value[at])
  {
    if controls != [] {
      var last := |controls| - 1;
      var before, rec := controls[..last], controls[last];
      assert controls == before + [rec];
      ControlsExact(expected, before);
      ControlsMore(before, rec, expected);
      var all := PassedControls(expected, controls).value;
      hide PassedOn, IsControlOf;
      forall at ensures at in all <==> exists nodeid :: PassedOn(controls, expected, at, nodeid) {
        if at in all { assert PassedOn(controls, expected, at, all[at]); }
        if nodeid :| PassedOn(controls, expected, at, nodeid) {
          assert PassedOn(before, expected, at, nodeid) ==> at in PassedControls(expected, before).value;
        }
      }
    }
  }

  lemma {:induction false} ControlsMore(before: seq<Record>, rec: Record, expected: string)
    ensures forall at, nodeid :: PassedOn(before + [rec], expected, at, nodeid) <==>
      PassedOn(before, expected, at, nodeid)
      || (Passed(rec) && IsControlOf(rec.nodeid, expected) && rec.cellLabel == at && rec.nodeid == nodeid)
  {
    forall at, nodeid ensures PassedOn(before + [rec], expected, at, nodeid) <==>
      PassedOn(before, expected, at, nodeid)
      || (Passed(rec) && IsControlOf(rec.nodeid, expected) && rec.cellLabel == at && rec.nodeid == nodeid)
    {
      assert rec in before + [rec];
      if PassedOn(before, expected, at, nodeid) {
        var c :| c in before && c.outcome == "passed" && c.cellLabel == at && c.nodeid == nodeid && expected + "[" <= nodeid;
        assert c in before + [rec];
      }
    }
  }

  // --- routes ------------------------------------------------------------------------------

  /** A route is an observation, with a control that passed on its label, if one did. */
  ghost predicate Cites(rec: Record, route: Route, controls: seq<Record>, expected: string)
  {
    route.cellLabel == rec.cellLabel && route.element == rec.element && route.term == rec.term && route.transfer == rec.transfer
    && route.outcome == rec.outcome
    && (match route.control
        case Some(nodeid) => PassedOn(controls, expected, rec.cellLabel, nodeid)
        case None => forall nodeid :: !PassedOn(controls, expected, rec.cellLabel, nodeid))
  }

  /** Routes come by element and then by label. */
  predicate RoutesOrdered(observed: seq<string>, routes: seq<Route>)
  {
    forall i, j :: 0 <= i < j < |routes| ==>
      Before(observed, routes[i].element, routes[j].element)
      || (routes[i].element == routes[j].element && Le(routes[i].cellLabel, routes[j].cellLabel))
  }

  lemma {:induction false} RoutesMember(observed: seq<string>, observations: seq<Record>, controls: map<string, string>)
    ensures forall route :: route in Routes(observed, observations, controls) <==>
      exists rec :: rec in observations && rec.element in observed && route == RouteOf(rec, controls)
  {
    hide RouteOf;
    if observed != [] {
      RoutesMember(observed[1..], observations, controls);
      var mine := OfElement(observations, observed[0]);
      forall route ensures route in RoutesOf(mine, controls) <==>
        exists rec :: rec in observations && rec.element == observed[0] && route == RouteOf(rec, controls)
      {
        if route in RoutesOf(mine, controls) {
          var i :| 0 <= i < |mine| && RoutesOf(mine, controls)[i] == route;
          assert mine[i] in mine;
        }
        if rec :| rec in observations && rec.element == observed[0] && route == RouteOf(rec, controls) {
          assert rec in mine;
          var i :| 0 <= i < |mine| && mine[i] == rec;
          assert RoutesOf(mine, controls)[i] == route;
        }
      }
      assert observed == [observed[0]] + observed[1..];
      hide RoutesOf, OfElement;
    }
  }

  lemma {:induction false} RouteCites(rec: Record, controls: seq<Record>, expected: string)
    requires PassedControls(expected, controls).Some?
    ensures Cites(rec, RouteOf(rec, PassedControls(expected, controls).value), controls, expected)
  {
    ControlsExact(expected, controls);
    hide PassedControls, PassedOn;
  }

  lemma {:induction false} OrderedJoin(observed: seq<string>, first: seq<Route>, rest: seq<Route>)
    requires observed != [] && RoutesOrdered(observed[1..], rest)
    requires forall i :: 0 <= i < |first| ==> first[i].element == observed[0]
    requires forall i, j :: 0 <= i < j < |first| ==> Le(first[i].cellLabel, first[j].cellLabel)
    requires forall j :: 0 <= j < |rest| ==> rest[j].element in observed[1..]
    ensures RoutesOrdered(observed, first + rest)
  {
    hide Before, Le;
    var all := first + rest;
    forall i, j | 0 <= i < j < |all|
      ensures Before(observed, all[i].element, all[j].element) || (all[i].element == all[j].element && Le(all[i].cellLabel, all[j].cellLabel))
    {
      BeforeLater(observed, all[i].element, all[j].element);
      if j >= |first| {
        assert all[j] == rest[j - |first|];
        if i >= |first| { assert all[i] == rest[i - |first|]; }
      }
    }
  }

  lemma {:induction false} FirstRoutes(observations: seq<Record>, element: string, controls: map<string, string>)
    requires ByLabel(observations)
    ensures var first := RoutesOf(OfElement(observations, element), controls);
      (forall i :: 0 <= i < |first| ==> first[i].element == element)
      && forall i, j :: 0 <= i < j < |first| ==> Le(first[i].cellLabel, first[j].cellLabel)
  {
    var mine := OfElement(observations, element);
    OfElementOrdered(observations, element);
    hide Le;
    forall i | 0 <= i < |mine| ensures mine[i].element == element { assert mine[i] in mine; }
    hide OfElement;
  }

  lemma {:induction false} RoutesInOrder(observed: seq<string>, observations: seq<Record>, controls: map<string, string>)
    requires ByLabel(observations)
    ensures RoutesOrdered(observed, Routes(observed, observations, controls))
  {
    if observed != [] {
      FirstRoutes(observations, observed[0], controls);
      RoutesInOrder(observed[1..], observations, controls);
      RoutesMember(observed[1..], observations, controls);
      RoutesStep(observed, observations, controls);
      hide Routes, RoutesOf, OfElement, RoutesOrdered, ByLabel;
      var rest := Routes(observed[1..], observations, controls);
      forall j | 0 <= j < |rest| ensures rest[j].element in observed[1..] { assert rest[j] in rest; }
      OrderedJoin(observed, RoutesOf(OfElement(observations, observed[0]), controls), rest);
    }
  }

  lemma {:induction false} RoutesStep(observed: seq<string>, observations: seq<Record>, controls: map<string, string>)
    requires observed != []
    ensures Routes(observed, observations, controls)
      == RoutesOf(OfElement(observations, observed[0]), controls) + Routes(observed[1..], observations, controls)
  {
  }
}
