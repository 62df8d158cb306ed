/** Folding observation records into a support matrix: which cell each cell's evidence earns. */
module MatrixSpec {
  import opened Texts

  const FORMAT := 1

  /** One record of a run. */
  datatype Record = Record(
    format: int, venue: string, surface: Option<string>, profile: Option<string>, kind: string, outcome: string,
    cellLabel: string, element: string, term: string, transfer: string, observable: Option<string>, nodeid: string,
    probed: string, probeResult: string, asOf: string, failureSummary: Option<string>)

  /** An element the environment could not express the observable on. */
  datatype Exclusion = Exclusion(element: string, probed: string, probeResult: string)

  /** What one measured route answered, and the control that passed beside it. */
  datatype Route = Route(
    cellLabel: string, element: string, term: string, transfer: string, outcome: string, control: Option<string>)

  /** A cell of the matrix; `Other` is any cell no collation wrote. */
  datatype Cell =
    | Other(text: string)
    | NotObservable(asOf: string, probed: string, probeResult: string, excluded: seq<Exclusion>)
    | Measured(
        broken: bool, contract: string, asOf: string, observedOn: seq<string>, routes: seq<Route>,
        excluded: seq<Exclusion>, observable: string, control: Option<string>, failureSummary: Option<string>)

  type Place = (string, string)

  /** The axes, each surface's contract and positive control, and the cells. */
  datatype Matrix = Matrix(
    contracts: map<string, string>, controls: map<string, string>, profiles: map<string, seq<string>>,
    cells: map<Place, Cell>)

  /** Every surface has a control, and every surface and profile a cell. */
  ghost predicate WellFormed(m: Matrix)
  {
    m.contracts.Keys == m.controls.Keys
    && forall place :: place in m.cells <==> place.0 in m.contracts && place.1 in m.profiles
  }

  // --- which records count -----------------------------------------------------------------

  predicate IsEvidential(outcome: string) { outcome in ["passed", "failed", "xfailed"] }

  datatype Reason = BadFormat | OtherVenue | NoSurface | NoProfile | Undeclared | NotEvidence | UnknownKind

  /** The first objection to a record: its format or venue, no cell or an undeclared one, no evidence, an unknown kind. */
  function Dropped(rec: Record, m: Matrix): Option<Reason>
  {
    if rec.format != FORMAT then Some(BadFormat)
    else if rec.venue != "bed" then Some(OtherVenue)
    else if rec.surface.None? then Some(NoSurface)
    else if rec.profile.None? then Some(NoProfile)
    else if rec.surface.value !in m.contracts || rec.profile.value !in m.profiles then Some(Undeclared)
    else if (rec.kind == "observation" || rec.kind == "control") && !IsEvidential(rec.outcome) then Some(NotEvidence)
    else if rec.kind !in ["observation", "domain-exclusion", "control"] then Some(UnknownKind)
    else None
  }

  /** The record counts for this cell, as this kind of evidence. */
  predicate CountsFor(rec: Record, m: Matrix, place: Place, kind: string)
  {
    Dropped(rec, m).None? && rec.surface == Some(place.0) && rec.profile == Some(place.1) && rec.kind == kind
  }

  function Counting(records: seq<Record>, m: Matrix, place: Place, kind: string): (r: seq<Keyed<Record>>)
    ensures forall x :: x in r <==> x.item in records && CountsFor(x.item, m, place, kind) && x.key == [x.item.cellLabel]
  {
    if records == [] then []
    else
      (if CountsFor(records[0], m, place, kind) then [Keyed([records[0].cellLabel], records[0])] else [])
      + Counting(records[1..], m, place, kind)
  }

  function Items(xs: seq<Keyed<Record>>): (r: seq<Record>)
    ensures |r| == |xs| && forall i :: 0 <= i < |xs| ==> r[i] == xs[i].item
  {
    if xs == [] then [] else [xs[0].item] + Items(xs[1..])
  }

  /** A cell's records of one kind, by label. */
  function Sorted(records: seq<Record>, m: Matrix, place: Place, kind: string): seq<Record>
  {
    Items(Sort(Counting(records, m, place, kind)))
  }

  /** Everything the records say about one cell. */
  datatype Evidence = Evidence(observations: seq<Record>, exclusions: seq<Record>, controls: seq<Record>)

  function EvidenceFor(records: seq<Record>, m: Matrix, place: Place): Evidence
  {
    Evidence(
      Sorted(records, m, place, "observation"), Sorted(records, m, place, "domain-exclusion"),
      Sorted(records, m, place, "control"))
  }

  predicate HasEvidence(e: Evidence) { e.observations != [] || e.exclusions != [] || e.controls != [] }

  // --- pieces of a cell --------------------------------------------------------------------

  predicate Passed(rec: Record) { rec.outcome == "passed" }

  /** `sorted` on distinct strings. */
  function SortUnique(ts: seq<string>): seq<string>
  {
    SortTexts(Dedupe(ts))
  }

  function JoinAll(parts: seq<string>, sep: string): string
  {
    if parts == [] then "" else if |parts| == 1 then parts[0] else parts[0] + (sep + JoinAll(parts[1..], sep))
  }

  function Latest(ts: seq<string>): string
  {
    if ts == [] then ""
    else
      var rest := Latest(ts[1..]);
      if Le(ts[0], rest) then rest else ts[0]
  }

  function Collect(records: seq<Record>, field: Record -> string): seq<string>
  {
    if records == [] then [] else [field(records[0])] + Collect(records[1..], field)
  }

  predicate Names(records: seq<Record>, element: string) { exists rec :: rec in records && rec.element == element }

  /** The profile's elements some record names, in the profile's order. */
  function Elements(order: seq<string>, records: seq<Record>): (r: seq<string>)
    ensures forall e :: e in r <==> e in order && Names(records, e)
  {
    if order == [] then []
    else (if Names(records, order[0]) then [order[0]] else []) + Elements(order[1..], records)
  }

  function OfElement(records: seq<Record>, element: string): (r: seq<Record>)
    ensures forall rec :: rec in r <==> rec in records && rec.element == element
  {
    if records == [] then []
    else (if records[0].element == element then [records[0]] else []) + OfElement(records[1..], element)
  }

  /** Each excluded element with its first exclusion. */
  function Excluded(elements: seq<string>, exclusions: seq<Record>): seq<Exclusion>
  {
    if elements == [] then []
    else
      var mine := OfElement(exclusions, elements[0]);
      (if mine == [] then [] else [Exclusion(elements[0], mine[0].probed, mine[0].probeResult)])
      + Excluded(elements[1..], exclusions)
  }

  /** `text` starts a nodeid parametrized on a cell. */
  predicate IsControlOf(nodeid: string, expected: string) { expected + "[" <= nodeid }

  /** The controls that passed, by cell label; none at all if one of them is some other surface's. */
  function PassedControls(expected: string, controls: seq<Record>): Option<map<string, string>>
  {
    if controls == [] then Some(map[])
    else
      var last, before := controls[|controls| - 1], PassedControls(expected, controls[..|controls| - 1]);
      if before.None? || !Passed(last) then before
      else if !IsControlOf(last.nodeid, expected) then None
      else Some(before.value[last.cellLabel := last.nodeid])
  }

  /** The labels observed to pass that no passed control stands behind. */
  function Unbacked(observations: seq<Record>, controls: map<string, string>): set<string>
  {
    set rec | rec in observations && Passed(rec) && rec.cellLabel !in controls :: rec.cellLabel
  }

  function RoutesOf(records: seq<Record>, controls: map<string, string>): (r: seq<Route>)
    ensures |r| == |records|
    ensures forall i :: 0 <= i < |r| ==> r[i] == RouteOf(records[i], controls)
  {
    if records == [] then [] else [RouteOf(records[0], controls)] + RoutesOf(records[1..], controls)
  }

  function RouteOf(rec: Record, controls: map<string, string>): Route
  {
    Route(rec.cellLabel, rec.element, rec.term, rec.transfer, rec.outcome,
          if rec.cellLabel in controls then Some(controls[rec.cellLabel]) else None)
  }

  /** The per-route breakdown, by element and then by label. */
  function Routes(observed: seq<string>, observations: seq<Record>, controls: map<string, string>): seq<Route>
  {
    if observed == [] then []
    else RoutesOf(OfElement(observations, observed[0]), controls) + Routes(observed[1..], observations, controls)
  }

  function Watched(observations: seq<Record>, observable: string): seq<string>
  {
    if observations == [] then []
    else
      (if observations[0].observable == Some(observable) then [observations[0].element] else [])
      + Watched(observations[1..], observable)
  }

  function Attributed(observables: seq<string>, observations: seq<Record>, everywhere: set<string>): seq<string>
  {
    if observables == [] then []
    else
      var on := Watched(observations, observables[0]);
      [if (set e | e in on) == everywhere then observables[0]
       else observables[0] + (" (on " + (JoinAll(SortUnique(on), ", ") + ")"))]
      + Attributed(observables[1..], observations, everywhere)
  }

  /** One text for what was observed: the common observable, or all of them, attributed; none if any is missing. */
  function ObservableOf(observations: seq<Record>): (r: Option<string>)
    ensures r.None? <==> exists rec :: rec in observations && rec.observable.None?
  {
    if exists rec :: rec in observations && rec.observable.None? then None
    else
      var all := SortUnique(Collect(observations, (rec: Record) => if rec.observable.Some? then rec.observable.value else ""));
      if |all| == 1 then Some(all[0])
      else Some(JoinAll(Attributed(all, observations, set rec | rec in observations :: rec.element), " | "))
  }

  function FailureText(rec: Record): string
  {
    rec.cellLabel + (": " + (if rec.failureSummary.Some? && rec.failureSummary.value != "" then rec.failureSummary.value else rec.outcome))
  }

  function NotPassed(records: seq<Record>): (r: seq<Record>)
    ensures forall rec :: rec in r <==> rec in records && !Passed(rec)
  {
    if records == [] then [] else (if Passed(records[0]) then [] else [records[0]]) + NotPassed(records[1..])
  }

  const SUMMARY_LIMIT := 2000

  function FailureSummary(broken: seq<Record>): string
  {
    var text := JoinAll(SortUnique(Collect(broken, FailureText)), "; ");
    if |text| <= SUMMARY_LIMIT then text else text[..SUMMARY_LIMIT]
  }

  // --- the verdict -------------------------------------------------------------------------

  predicate Disjoint(a: seq<string>, b: seq<string>) { forall e :: e in a ==> e !in b }

  /** The first label in order: the list is sorted by label. */
  function WholeCellControl(observations: seq<Record>, controls: map<string, string>): Option<string>
  {
    if observations != [] && forall rec :: rec in observations ==> rec.cellLabel in controls
    then Some(controls[observations[0].cellLabel]) else None
  }

  /** What a cell becomes on its evidence, if anything may be written at all. */
  function Verdict(m: Matrix, place: Place, e: Evidence): Option<Cell>
    requires place.0 in m.contracts && place.0 in m.controls && place.1 in m.profiles
  {
    if e.observations == [] && e.exclusions == [] then None
    else
      var order := m.profiles[place.1];
      var observed, excluded := Elements(order, e.observations), Elements(order, e.exclusions);
      var asOf := Latest(Collect(e.observations + e.exclusions, (rec: Record) => rec.asOf));
      var out := Excluded(excluded, e.exclusions);
      if !Disjoint(observed, excluded) then None
      else if observed == [] then
        if out == [] then None
        else
          Some(NotObservable(asOf, JoinAll(SortUnique(Collect(e.exclusions, (rec: Record) => rec.probed)), "; "),
                             JoinAll(SortUnique(Collect(e.exclusions, (rec: Record) => rec.probeResult)), "; "), out))
      else
        var controls := PassedControls(m.controls[place.0], e.controls);
        if controls.None? || Unbacked(e.observations, controls.value) != {} then None
        else
          var observable, broken := ObservableOf(e.observations), NotPassed(e.observations);
          if observable.None? then None
          else
            Some(Measured(
              broken != [], m.contracts[place.0], asOf, observed, Routes(observed, e.observations, controls.value), out,
              observable.value, WholeCellControl(e.observations, controls.value),
              if broken == [] then None else Some(FailureSummary(broken))))
  }

  /** What a collation puts in one cell. */
  function CellAfter(m: Matrix, records: seq<Record>, place: Place): Cell
    requires WellFormed(m) && place in m.cells
  {
    var e := EvidenceFor(records, m, place);
    if !HasEvidence(e) then m.cells[place]
    else match Verdict(m, place, e) case None => m.cells[place] case Some(cell) => cell
  }

  /** `collate`'s matrix. */
  function Collated(m: Matrix, records: seq<Record>): Matrix
    requires WellFormed(m)
  {
    m.(cells := map place | place in m.cells :: CellAfter(m, records, place))
  }
}
