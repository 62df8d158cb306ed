/** Every field of a cell a collation writes, and exactly when it writes none. */
module MatrixVerdict {
  import opened Texts
  import opened MatrixSpec
  import opened MatrixLaws
  import opened MatrixExact

  // --- what was watched --------------------------------------------------------------------

  /** The elements an observable was watched on. */
  function WatchedOn(observations: seq<Record>, observable: string): set<string>
  {
    set rec | rec in observations && rec.observable == Some(observable) :: rec.element
  }

  function Everywhere(observations: seq<Record>): set<string> { set rec | rec in observations :: rec.element }

  function Observables(observations: seq<Record>): set<string>
  {
    set rec | rec in observations && rec.observable.Some? :: rec.observable.value
  }

  /** An observable, with the elements it was watched on where those are not all of them. */
  ghost predicate Attributes(observations: seq<Record>, observable: string, part: string)
  {
    exists on ::
      Lists(on, WatchedOn(observations, observable))
      && part == if WatchedOn(observations, observable) == Everywhere(observations) then observable
                 else observable + (" (on " + (JoinAll(on, ", ") + ")"))
  }

  /** The one observable of all records, or each, attributed, in order. */
  ghost predicate Describes(observations: seq<Record>, text: string)
  {
    exists all, parts: seq<string> ::
      Lists(all, Observables(observations))
      && |parts| == |all| && (forall i :: 0 <= i < |all| ==> Attributes(observations, all[i], parts[i]))
      && text == if |all| == 1 then all[0] else JoinAll(parts, " | ")
  }

  lemma {:induction false} WatchedExact(observations: seq<Record>, observable: string)
    ensures (set e | e in Watched(observations, observable)) == WatchedOn(observations, observable)
  {
    if observations != [] {
      WatchedExact(observations[1..], observable);
      assert observations == [observations[0]] + observations[1..];
      var on, rest := Watched(observations, observable), Watched(observations[1..], observable);
      assert forall e :: e in rest <==> e in WatchedOn(observations[1..], observable);
      assert forall e :: e in on <==> e in WatchedOn(observations, observable);
    }
  }

  lemma {:induction false} PartExact(observations: seq<Record>, observable: string)
    ensures var on := Watched(observations, observable);
      Attributes(observations, observable,
        if (set e | e in on) == (set rec | rec in observations :: rec.element) then observable
        else observable + (" (on " + (JoinAll(SortUnique(on), ", ") + ")")))
  {
    WatchedExact(observations, observable);
    UniqueExact(Watched(observations, observable));
    hide Watched, SortUnique, JoinAll, Lists, WatchedOn;
  }

  lemma {:induction false} AttributedExact(observables: seq<string>, observations: seq<Record>)
    ensures var parts := Attributed(observables, observations, set rec | rec in observations :: rec.element);
      |parts| == |observables| && forall i :: 0 <= i < |parts| ==> Attributes(observations, observables[i], parts[i])
  {
    hide Attributes;
    if observables != [] {
      PartExact(observations, observables[0]);
      AttributedExact(observables[1..], observations);
    }
  }

  function Text(rec: Record): string { if rec.observable.Some? then rec.observable.value else "" }

  lemma {:induction false} ObservablesExact(observations: seq<Record>)
    requires forall rec :: rec in observations ==> rec.observable.Some?
    ensures Lists(SortUnique(Collect(observations, Text)), Observables(observations))
  {
    CollectExact(observations, Text);
    var ts := Collect(observations, Text);
    UniqueExact(ts);
    hide SortUnique, Collect;
    assert (set t | t in ts) == Observables(observations);
  }

  lemma {:induction false} CollectSame(records: seq<Record>, f: Record -> string, g: Record -> string)
    requires forall rec :: f(rec) == g(rec)
    ensures Collect(records, f) == Collect(records, g)
  {
    if records != [] { CollectSame(records[1..], f, g); }
  }

  lemma {:induction false} ObservableExact(observations: seq<Record>)
    requires ObservableOf(observations).Some?
    ensures Describes(observations, ObservableOf(observations).value)
  {
    var f := (rec: Record) => if rec.observable.Some? then rec.observable.value else "";
    CollectSame(observations, f, Text);
    var all := SortUnique(Collect(observations, f));
    ObservablesExact(observations);
    AttributedExact(all, observations);
    hide Collect, SortUnique, Lists, Attributes, Attributed, JoinAll;
  }

  // --- what went wrong ---------------------------------------------------------------------

  /** The line for an observation that did not pass: its label, and its summary or else its outcome. */
  function FailureLine(rec: Record): string
  {
    rec.cellLabel + (": " + (match rec.failureSummary case Some(text) => (if text == "" then rec.outcome else text) case None => rec.outcome))
  }

  /** The lines of all of them, each once and in order, cut after 2000 characters. */
  ghost predicate Summarizes(observations: seq<Record>, text: string)
  {
    exists lines ::
      Lists(lines, set rec | rec in observations && rec.outcome != "passed" :: FailureLine(rec))
      && var whole := JoinAll(lines, "; "); text == if |whole| <= 2000 then whole else whole[..2000]
  }

  lemma {:induction false} SummaryExact(observations: seq<Record>)
    ensures Summarizes(observations, FailureSummary(NotPassed(observations)))
  {
    var broken := NotPassed(observations);
    var ts := Collect(broken, FailureText);
    CollectExact(broken, FailureText);
    UniqueExact(ts);
    forall rec ensures FailureText(rec) == FailureLine(rec) { SameLine(rec); }
    hide Collect, SortUnique, JoinAll, NotPassed, FailureText, FailureLine, Lists;
    assert (set t | t in ts) == set rec | rec in observations && rec.outcome != "passed" :: FailureLine(rec);
  }

  lemma {:induction false} SameLine(rec: Record)
    ensures FailureText(rec) == FailureLine(rec)
  {
  }

  // --- the cell ----------------------------------------------------------------------------

  /** The latest date of the records that count. */
  ghost predicate LatestOf(e: Evidence, asOf: string)
  {
    (exists rec :: rec in e.observations + e.exclusions && rec.asOf == asOf)
    && forall rec :: rec in e.observations + e.exclusions ==> Le(rec.asOf, asOf)
  }

  lemma {:induction false} DateExact(e: Evidence)
    requires e.observations != [] || e.exclusions != []
    ensures LatestOf(e, Latest(Collect(e.observations + e.exclusions, (rec: Record) => rec.asOf)))
  {
    var f := (rec: Record) => rec.asOf;
    CollectExact(e.observations + e.exclusions, f);
    LatestExact(Collect(e.observations + e.exclusions, f));
    hide Collect, Latest;
  }

  /** The exclusions: one for each excluded element of the profile, in its order, from the first record of it. */
  ghost predicate ExclusionsFit(order: seq<string>, exclusions: seq<Record>, out: seq<Exclusion>)
  {
    exists elements ::
      FollowsOrder(order, elements) && (forall x :: x in elements <==> x in order && x in Named(exclusions))
      && |out| == |elements| && forall k :: 0 <= k < |out| ==> out[k].element == elements[k] && FirstOf(exclusions, out[k])
  }

  lemma {:induction false} ExclusionsExact(order: seq<string>, exclusions: seq<Record>)
    requires ByLabel(exclusions)
    ensures ExclusionsFit(order, exclusions, Excluded(Elements(order, exclusions), exclusions))
  {
    ElementsExact(order, exclusions);
    ExcludedExact(Elements(order, exclusions), exclusions);
    hide Elements, Excluded, FollowsOrder, FirstOf, Named;
  }

  /** The routes: one for each observation on an element of the profile, and in order. */
  ghost predicate RoutesFit(observedOn: seq<string>, e: Evidence, expected: string, routes: seq<Route>)
  {
    RoutesOrdered(observedOn, routes)
    && (forall route :: route in routes ==>
          exists rec :: rec in e.observations && rec.element in observedOn && Cites(rec, route, e.controls, expected))
    && forall rec :: rec in e.observations && rec.element in observedOn ==>
         exists route :: route in routes && Cites(rec, route, e.controls, expected)
  }

  lemma {:induction false} RoutesExact(observedOn: seq<string>, e: Evidence, expected: string)
    requires ByLabel(e.observations) && PassedControls(expected, e.controls).Some?
    ensures RoutesFit(observedOn, e, expected, Routes(observedOn, e.observations, PassedControls(expected, e.controls).value))
  {
    var controls := PassedControls(expected, e.controls).value;
    var routes := Routes(observedOn, e.observations, controls);
    RoutesMember(observedOn, e.observations, controls);
    RoutesInOrder(observedOn, e.observations, controls);
    hide Routes, PassedControls, Cites, RoutesOrdered, ByLabel, RouteOf;
    forall rec | rec in e.observations ensures Cites(rec, RouteOf(rec, controls), e.controls, expected) {
      RouteCites(rec, e.controls, expected);
    }
    forall rec | rec in e.observations && rec.element in observedOn
      ensures exists route :: route in routes && Cites(rec, route, e.controls, expected)
    {
      assert RouteOf(rec, controls) in routes;
    }
  }

  /** The cell's own control: the one of the least label, and only where every label has one. */
  ghost predicate ControlFits(e: Evidence, expected: string, control: Option<string>)
  {
    match control
    case None => exists rec :: rec in e.observations && forall nodeid :: !PassedOn(e.controls, expected, rec.cellLabel, nodeid)
    case Some(nodeid) =>
      (forall rec :: rec in e.observations ==> exists id :: PassedOn(e.controls, expected, rec.cellLabel, id))
      && exists rec ::
           rec in e.observations && PassedOn(e.controls, expected, rec.cellLabel, nodeid)
           && forall other :: other in e.observations ==> Le(rec.cellLabel, other.cellLabel)
  }

  lemma {:induction false} ControlExact(e: Evidence, expected: string)
    requires ByLabel(e.observations) && PassedControls(expected, e.controls).Some? && e.observations != []
    ensures ControlFits(e, expected, WholeCellControl(e.observations, PassedControls(expected, e.controls).value))
  {
    var controls := PassedControls(expected, e.controls).value;
    ControlsExact(expected, e.controls);
    LeastFirst(e.observations);
    hide PassedControls, PassedOn, ByLabel;
    assert e.observations[0] in e.observations;
    if rec :| rec in e.observations && rec.cellLabel !in controls {
      assert forall nodeid :: !PassedOn(e.controls, expected, rec.cellLabel, nodeid);
    }
  }

  lemma {:induction false} LeastFirst(records: seq<Record>)
    requires ByLabel(records) && records != []
    ensures forall rec :: rec in records ==> Le(records[0].cellLabel, rec.cellLabel)
  {
    LeTotal(records[0].cellLabel, records[0].cellLabel);
    forall rec | rec in records ensures Le(records[0].cellLabel, rec.cellLabel) {
      var i :| 0 <= i < |records| && records[i] == rec;
    }
  }

  /** What a measured cell says of the routes: whether one broke, where, which, and under what control. */
  ghost predicate RouteFieldsFit(m: Matrix, place: Place, e: Evidence, cell: Cell)
    requires place.0 in m.contracts && place.0 in m.controls && place.1 in m.profiles && cell.Measured?
  {
    var order, expected := m.profiles[place.1], m.controls[place.0];
    (cell.broken <==> exists rec :: rec in e.observations && rec.outcome != "passed")
    && FollowsOrder(order, cell.observedOn) && (forall x :: x in cell.observedOn <==> x in order && x in Named(e.observations))
    && RoutesFit(cell.observedOn, e, expected, cell.routes)
    && ControlFits(e, expected, cell.control)
  }

  /** What it says beside them: the contract, the date, what was excluded, what was watched and what went wrong. */
  ghost predicate TextFieldsFit(m: Matrix, place: Place, e: Evidence, cell: Cell)
    requires place.0 in m.contracts && place.1 in m.profiles && cell.Measured?
  {
    cell.contract == m.contracts[place.0]
    && LatestOf(e, cell.asOf)
    && ExclusionsFit(m.profiles[place.1], e.exclusions, cell.excluded)
    && Describes(e.observations, cell.observable)
    && (cell.failureSummary.Some? <==> exists rec :: rec in e.observations && rec.outcome != "passed")
    && (cell.failureSummary.Some? ==> Summarizes(e.observations, cell.failureSummary.value))
  }

  /** Each field of a measured cell. */
  ghost predicate MeasuredFits(m: Matrix, place: Place, e: Evidence, cell: Cell)
    requires place.0 in m.contracts && place.0 in m.controls && place.1 in m.profiles
  {
    cell.Measured? && RouteFieldsFit(m, place, e, cell) && TextFieldsFit(m, place, e, cell)
  }

  /** Each field of a cell nothing could be observed on. */
  ghost predicate UnobservableFits(m: Matrix, place: Place, e: Evidence, cell: Cell)
    requires place.1 in m.profiles
  {
    cell.NotObservable? && LatestOf(e, cell.asOf) && ExclusionsFit(m.profiles[place.1], e.exclusions, cell.excluded)
    && (exists probes ::
          Lists(probes, set rec | rec in e.exclusions :: rec.probed) && cell.probed == JoinAll(probes, "; "))
    && exists results ::
         Lists(results, set rec | rec in e.exclusions :: rec.probeResult) && cell.probeResult == JoinAll(results, "; ")
  }

  /** Some element of the profile is observed. */
  ghost predicate Observed(m: Matrix, place: Place, e: Evidence)
    requires place.1 in m.profiles
  {
    exists x :: x in m.profiles[place.1] && x in Named(e.observations)
  }

  /** No honest cell: nothing about the host, an element both observed and excluded, an exclusion of no element
      of the profile, another surface's control, a pass without a control, or an observable left out. */
  ghost predicate Refuses(m: Matrix, place: Place, e: Evidence)
    requires place.0 in m.controls && place.1 in m.profiles
  {
    var order, expected := m.profiles[place.1], m.controls[place.0];
    (e.observations == [] && e.exclusions == [])
    || (exists x :: x in order && x in Named(e.observations) && x in Named(e.exclusions))
    || (if Observed(m, place, e) then
          (exists c :: c in e.controls && c.outcome == "passed" && !(expected + "[" <= c.nodeid))
          || (exists rec :: rec in e.observations && rec.outcome == "passed" && forall nodeid :: !PassedOn(e.controls, expected, rec.cellLabel, nodeid))
          || (exists rec :: rec in e.observations && rec.observable.None?)
        else forall x :: x in order ==> x !in Named(e.exclusions))
  }

  // --- the verdict -------------------------------------------------------------------------

  /** The evidence's lists are by label, as `_evidence` sorts them. */
  ghost predicate InLabelOrder(e: Evidence) { ByLabel(e.observations) && ByLabel(e.exclusions) && ByLabel(e.controls) }

  lemma {:induction false} ListEmpty(ts: seq<string>)
    ensures ts == [] <==> forall t :: t !in ts
  {
    if ts != [] { assert ts[0] in ts; }
  }

  /** The tests a verdict passes before it looks at controls. */
  lemma {:induction false} SplitExact(m: Matrix, place: Place, e: Evidence)
    requires place.0 in m.controls && place.1 in m.profiles
    ensures var (observed, excluded) := (Elements(m.profiles[place.1], e.observations), Elements(m.profiles[place.1], e.exclusions));
      (observed != [] <==> Observed(m, place, e))
      && (!Disjoint(observed, excluded) <==>
            exists x :: x in m.profiles[place.1] && x in Named(e.observations) && x in Named(e.exclusions))
      && (excluded == [] <==> forall x :: x in m.profiles[place.1] ==> x !in Named(e.exclusions))
  {
    var order := m.profiles[place.1];
    ElementsExact(order, e.observations);
    ElementsExact(order, e.exclusions);
    ListEmpty(Elements(order, e.observations));
    ListEmpty(Elements(order, e.exclusions));
    hide Elements, Named, FollowsOrder;
  }

  lemma {:induction false} ControlTests(e: Evidence, expected: string)
    ensures PassedControls(expected, e.controls).None? <==>
      exists c :: c in e.controls && c.outcome == "passed" && !(expected + "[" <= c.nodeid)
    ensures PassedControls(expected, e.controls).Some? ==>
      (Unbacked(e.observations, PassedControls(expected, e.controls).value) != {} <==>
         exists rec :: rec in e.observations && rec.outcome == "passed" && forall nodeid :: !PassedOn(e.controls, expected, rec.cellLabel, nodeid))
  {
    PassedExact(expected, e.controls);
    if PassedControls(expected, e.controls).Some? {
      ControlsExact(expected, e.controls);
      BackedRoutes(e.observations, PassedControls(expected, e.controls).value);
    }
    hide PassedControls, PassedOn, Unbacked, ControlPassed;
  }

  /** The stages of a verdict. */
  lemma {:induction false} Stages(m: Matrix, place: Place, e: Evidence)
    requires place.0 in m.contracts && place.0 in m.controls && place.1 in m.profiles
    ensures var (order, expected) := (m.profiles[place.1], m.controls[place.0]);
      var (observed, excluded) := (Elements(order, e.observations), Elements(order, e.exclusions));
      var controls := PassedControls(expected, e.controls);
      Verdict(m, place, e).None? <==>
        (e.observations == [] && e.exclusions == []) || !Disjoint(observed, excluded)
        || (if observed == [] then Excluded(excluded, e.exclusions) == []
            else controls.None? || Unbacked(e.observations, controls.value) != {} || ObservableOf(e.observations).None?)
  {
    hide Elements, Excluded, PassedControls, Routes, ObservableOf, NotPassed, Collect, Latest, SortUnique, FailureSummary, WholeCellControl,
      Disjoint, Unbacked, JoinAll;
  }

  /** No cell is written exactly when there is a reason to refuse it. */
  lemma {:induction false} RefusedExact(m: Matrix, place: Place, e: Evidence)
    requires place.0 in m.contracts && place.0 in m.controls && place.1 in m.profiles && InLabelOrder(e)
    ensures Verdict(m, place, e).None? <==> Refuses(m, place, e)
  {
    var order := m.profiles[place.1];
    Stages(m, place, e);
    SplitExact(m, place, e);
    ControlTests(e, m.controls[place.0]);
    ElementsExact(order, e.exclusions);
    ExcludedExact(Elements(order, e.exclusions), e.exclusions);
    hide Elements, Excluded, PassedControls, ObservableOf, Verdict, Disjoint, Unbacked, Named, Observed, PassedOn, ByLabel, FollowsOrder, FirstOf;
  }

  /** Some observation did not pass, exactly when the list of those is not empty. */
  lemma {:induction false} BrokenExact(observations: seq<Record>)
    ensures NotPassed(observations) != [] <==> exists rec :: rec in observations && rec.outcome != "passed"
  {
    AllPassed(observations);
  }

  /** The cell a verdict writes, field by field. */
  lemma {:induction false} Fields(m: Matrix, place: Place, e: Evidence)
    requires place.0 in m.contracts && place.0 in m.controls && place.1 in m.profiles && Verdict(m, place, e).Some?
    ensures var (order, expected, cell) := (m.profiles[place.1], m.controls[place.0], Verdict(m, place, e).value);
      var observed := Elements(order, e.observations);
      (e.observations != [] || e.exclusions != [])
      && if observed == [] then
           cell == NotObservable(
             Latest(Collect(e.observations + e.exclusions, (rec: Record) => rec.asOf)),
             JoinAll(SortUnique(Collect(e.exclusions, (rec: Record) => rec.probed)), "; "),
             JoinAll(SortUnique(Collect(e.exclusions, (rec: Record) => rec.probeResult)), "; "),
             Excluded(Elements(order, e.exclusions), e.exclusions))
         else
           var controls := PassedControls(expected, e.controls);
           controls.Some? && ObservableOf(e.observations).Some?
           && cell == Measured(
                NotPassed(e.observations) != [], m.contracts[place.0],
                Latest(Collect(e.observations + e.exclusions, (rec: Record) => rec.asOf)), observed,
                Routes(observed, e.observations, controls.value), Excluded(Elements(order, e.exclusions), e.exclusions),
                ObservableOf(e.observations).value, WholeCellControl(e.observations, controls.value),
                if NotPassed(e.observations) == [] then None else Some(FailureSummary(NotPassed(e.observations))))
  {
    hide Elements, Excluded, PassedControls, Routes, ObservableOf, NotPassed, Collect, Latest, SortUnique, FailureSummary, WholeCellControl,
      Disjoint, Unbacked, JoinAll;
  }

  lemma {:induction false} ProbesExact(records: seq<Record>)
    ensures Lists(SortUnique(Collect(records, (rec: Record) => rec.probed)), set rec | rec in records :: rec.probed)
    ensures Lists(SortUnique(Collect(records, (rec: Record) => rec.probeResult)), set rec | rec in records :: rec.probeResult)
  {
    var f, g := (rec: Record) => rec.probed, (rec: Record) => rec.probeResult;
    CollectExact(records, f);
    CollectExact(records, g);
    UniqueExact(Collect(records, f));
    UniqueExact(Collect(records, g));
    hide Collect, SortUnique, Lists;
    assert (set t | t in Collect(records, f)) == set rec | rec in records :: rec.probed;
    assert (set t | t in Collect(records, g)) == set rec | rec in records :: rec.probeResult;
  }

  /** What a collation writes in a cell fits its evidence field by field. */
  lemma {:induction false} CellExact(m: Matrix, place: Place, e: Evidence)
    requires place.0 in m.contracts && place.0 in m.controls && place.1 in m.profiles && InLabelOrder(e) && Verdict(m, place, e).Some?
    ensures if Observed(m, place, e) then MeasuredFits(m, place, e, Verdict(m, place, e).value)
            else UnobservableFits(m, place, e, Verdict(m, place, e).value)
  {
    Fields(m, place, e);
    SplitExact(m, place, e);
    DateExact(e);
    ExclusionsExact(m.profiles[place.1], e.exclusions);
    if Observed(m, place, e) {
      MeasuredExact(m, place, e);
    } else {
      ProbesExact(e.exclusions);
      hide Elements, Excluded, Collect, Latest, SortUnique, Verdict, JoinAll, Observed, ByLabel, Lists, ExclusionsFit, LatestOf, Disjoint, Named;
    }
  }

  /** The fields of a cell some element was observed for. */
  lemma {:induction false} MeasuredFields(m: Matrix, place: Place, e: Evidence)
    requires place.0 in m.contracts && place.0 in m.controls && place.1 in m.profiles && Verdict(m, place, e).Some?
    requires Observed(m, place, e)
    ensures var (order, expected, cell) := (m.profiles[place.1], m.controls[place.0], Verdict(m, place, e).value);
      var (observed, controls) := (Elements(order, e.observations), PassedControls(expected, e.controls));
      e.observations != [] && controls.Some? && ObservableOf(e.observations).Some? && cell.Measured?
      && cell.broken == (NotPassed(e.observations) != []) && cell.contract == m.contracts[place.0]
      && cell.asOf == Latest(Collect(e.observations + e.exclusions, (rec: Record) => rec.asOf)) && cell.observedOn == observed
      && cell.routes == Routes(observed, e.observations, controls.value)
      && cell.excluded == Excluded(Elements(order, e.exclusions), e.exclusions)
      && cell.observable == ObservableOf(e.observations).value && cell.control == WholeCellControl(e.observations, controls.value)
      && cell.failureSummary == if NotPassed(e.observations) == [] then None else Some(FailureSummary(NotPassed(e.observations)))
  {
    hide *;
    Fields(m, place, e);
    SomeObserved(m, place, e);
    SplitExact(m, place, e);
  }

  lemma {:induction false} MeasuredRoutes(m: Matrix, place: Place, e: Evidence)
    requires place.0 in m.contracts && place.0 in m.controls && place.1 in m.profiles && Verdict(m, place, e).Some? && Observed(m, place, e)
    requires ByLabel(e.observations)
    ensures Verdict(m, place, e).value.Measured? && RouteFieldsFit(m, place, e, Verdict(m, place, e).value)
  {
    var order, expected := m.profiles[place.1], m.controls[place.0];
    hide *;
    MeasuredFields(m, place, e);
    ElementsExact(order, e.observations);
    RoutesExact(Elements(order, e.observations), e, expected);
    ControlExact(e, expected);
    BrokenExact(e.observations);
    RouteFields(m, place, e, Verdict(m, place, e).value);
  }

  lemma {:induction false} RouteFields(m: Matrix, place: Place, e: Evidence, cell: Cell)
    requires place.0 in m.contracts && place.0 in m.controls && place.1 in m.profiles && cell.Measured?
    requires cell.broken <==> exists rec :: rec in e.observations && rec.outcome != "passed"
    requires FollowsOrder(m.profiles[place.1], cell.observedOn)
    requires forall x :: x in cell.observedOn <==> x in m.profiles[place.1] && x in Named(e.observations)
    requires RoutesFit(cell.observedOn, e, m.controls[place.0], cell.routes) && ControlFits(e, m.controls[place.0], cell.control)
    ensures RouteFieldsFit(m, place, e, cell)
  {
    hide RoutesFit, ControlFits, FollowsOrder, Named;
  }

  lemma {:induction false} MeasuredTexts(m: Matrix, place: Place, e: Evidence)
    requires place.0 in m.contracts && place.0 in m.controls && place.1 in m.profiles && Verdict(m, place, e).Some? && Observed(m, place, e)
    requires ByLabel(e.exclusions)
    ensures Verdict(m, place, e).value.Measured? && TextFieldsFit(m, place, e, Verdict(m, place, e).value)
  {
    MeasuredFields(m, place, e);
    hide Elements, Excluded, PassedControls, Routes, ObservableOf, NotPassed, Collect, Latest, FailureSummary, WholeCellControl,
      Verdict, Observed, ByLabel, Named, ExclusionsFit, Describes, Summarizes, LatestOf;
    DateExact(e);
    ExclusionsExact(m.profiles[place.1], e.exclusions);
    ObservableExact(e.observations);
    SummaryExact(e.observations);
    BrokenExact(e.observations);
  }

  lemma {:induction false} MeasuredExact(m: Matrix, place: Place, e: Evidence)
    requires place.0 in m.contracts && place.0 in m.controls && place.1 in m.profiles && InLabelOrder(e) && Verdict(m, place, e).Some?
    requires Observed(m, place, e)
    ensures MeasuredFits(m, place, e, Verdict(m, place, e).value)
  {
    MeasuredRoutes(m, place, e);
    MeasuredTexts(m, place, e);
    hide Verdict, Observed, RouteFieldsFit, TextFieldsFit, ByLabel;
  }

  lemma {:induction false} SomeObserved(m: Matrix, place: Place, e: Evidence)
    requires place.1 in m.profiles && Observed(m, place, e)
    ensures e.observations != []
  {
  }

  // --- a whole collation -------------------------------------------------------------------

  /** The evidence is the records that say something of the cell, of each kind, by label. */
  ghost predicate Gathered(m: Matrix, records: seq<Record>, place: Place, e: Evidence)
  {
    InLabelOrder(e)
    && (forall rec :: rec in e.observations <==> Observes(m, records, place, rec))
    && (forall rec :: rec in e.exclusions <==> Excludes(m, records, place, rec))
    && (forall rec :: rec in e.controls <==> Controls(m, records, place, rec))
  }

  lemma {:induction false} GatheredExact(m: Matrix, records: seq<Record>, place: Place)
    ensures Gathered(m, records, place, EvidenceFor(records, m, place))
  {
    EvidenceExact(records, m, place, "observation");
    EvidenceExact(records, m, place, "domain-exclusion");
    EvidenceExact(records, m, place, "control");
    hide Sorted, Says, ByLabel;
  }

  /** The cell a collation leaves: as it was without evidence or where it is refused, else what the evidence says. */
  ghost predicate CellFits(m: Matrix, place: Place, e: Evidence, before: Cell, after: Cell)
    requires place.0 in m.contracts && place.0 in m.controls && place.1 in m.profiles
  {
    if !HasEvidence(e) || Refuses(m, place, e) then after == before
    else if Observed(m, place, e) then MeasuredFits(m, place, e, after)
    else UnobservableFits(m, place, e, after)
  }

  /** Every cell fits the records that count for it. */
  lemma {:induction false} CollatedFits(m: Matrix, records: seq<Record>, place: Place)
    requires WellFormed(m) && place in m.cells
    ensures var e := EvidenceFor(records, m, place);
      Gathered(m, records, place, e) && CellFits(m, place, e, m.cells[place], Collated(m, records).cells[place])
  {
    var e := EvidenceFor(records, m, place);
    GatheredExact(m, records, place);
    hide Verdict, EvidenceFor, Refuses, MeasuredFits, UnobservableFits, ByLabel, Observes, Excludes, Controls, Observed, HasEvidence;
    RefusedExact(m, place, e);
    if Verdict(m, place, e).Some? { CellExact(m, place, e); }
  }

  lemma {:induction false} RefusalOf(m: Matrix, records: seq<Record>, place: Place)
    requires WellFormed(m) && place in m.cells
    ensures var e := EvidenceFor(records, m, place); Verdict(m, place, e).None? <==> Refuses(m, place, e)
  {
    GatheredExact(m, records, place);
    hide Verdict, EvidenceFor, Refuses, ByLabel, Observes, Excludes, Controls;
    RefusedExact(m, place, EvidenceFor(records, m, place));
  }
}
