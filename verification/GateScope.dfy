/** Which gates a diff needs: classifying its changes, and the commands each column runs. */
module GateScope {
  import opened Texts

  datatype Class = NoClass | Docs | Web | TestsLeaf | TestsStructural | SrcLeaf | Scripts | Escalate | Full

  datatype Status = Added | Modified | Deleted

  datatype Change = Change(path: string, status: Status)

  datatype LaneKind = Tree | File | Unreadable | Marker | Stray

  /** A lane row: its commit commands (or the full gate instead), its tip commands, and its kind. */
  datatype Lane = Lane(atCommit: seq<string>, full: bool, atTip: seq<string>, kind: LaneKind)

  /** What the tables and the sources at both revisions say of paths, changes and lines: `modules` are the
      test modules at head, `selects` those quick runs a test of. */
  datatype Rules = Rules(
    releaseOwned: Change -> bool,
    classOf: string -> Option<Class>,
    isSrc: string -> bool,
    nested: string -> bool,
    srcKey: string -> string,
    bedLanes: string -> seq<string>,
    captures: string -> seq<string>,
    owning: string -> seq<Lane>,
    readers: string -> Option<seq<string>>,
    structural: Change -> bool,
    special: Change -> Option<Lane>,
    leftForQuick: Change -> bool,
    family: Change -> bool,
    readerFamily: string -> bool,
    bedHalf: Change -> bool,
    unitTrees: string -> Option<seq<string>>,
    riders: seq<string>,
    modules: set<string>,
    selects: string -> bool,
    bedScripts: string -> bool,
    buildFiles: string -> bool,
    bedLine: string -> bool,
    decorate: string -> string)

  const MAX_SRC_PACKAGES := 2

  // --- paths -------------------------------------------------------------------------------

  /** `path` is the root or lies under it. */
  predicate Within(path: string, root: string) { path == root || root + "/" <= path }

  predicate EndsInPy(path: string) { |path| >= 3 && path[|path| - 3..] == ".py" }

  predicate IsScript(path: string) { "scripts/" <= path }

  predicate IsTestPath(path: string) { "tests/" <= path }

  function FirstParts(path: string, n: nat): string
  {
    var parts := Split(path, '/');
    Join(if |parts| <= n then parts else parts[..n], '/')
  }

  /** The package, the tree and the top directory of a test path: where quick may run it, nearest first. */
  function Candidates(path: string): seq<string>
  {
    [FirstParts(path, 3), FirstParts(path, 2), FirstParts(path, 1)]
  }

  /** A test module at head that lies within the root, and that quick selects a test from. */
  predicate QuickRuns(r: Rules, m: string, root: string)
  {
    m in r.modules && r.selects(m) && Within(m, root)
  }

  /** `_QuickRoots.runnable` */
  predicate Runnable(r: Rules, root: string)
  {
    exists m :: m in r.modules && QuickRuns(r, m, root)
  }

  /** The first root quick can run. */
  function FirstRunnable(r: Rules, roots: seq<string>): (first: Option<string>)
    ensures first.Some? ==> first.value in roots && Runnable(r, first.value)
    ensures first.None? ==> forall root :: root in roots ==> !Runnable(r, root)
  {
    if roots == [] then None
    else if Runnable(r, roots[0]) then Some(roots[0])
    else FirstRunnable(r, roots[1..])
  }

  function SurvivingRoot(r: Rules, path: string): Option<string>
  {
    FirstRunnable(r, Candidates(path))
  }

  predicate Under(root: string, other: string) { root != other && other + "/" <= root }

  /** The roots not nested under another. */
  function Outermost(roots: set<string>): set<string>
  {
    set root | root in roots && !exists other :: other in roots && Under(root, other)
  }

  // --- what one change adds ----------------------------------------------------------------

  datatype Why = NoRow | NoRoot | NoReader | NoTree | LaneIsFull | TooManyPackages

  /** What the loop collects. */
  datatype Acc = Acc(
    classes: set<Class>, quick: set<string>, guards: set<string>, packages: set<string>, paths: set<string>,
    special: set<string>, specialTip: set<string>, bed: set<string>, unknown: set<string>, full: set<(string, Why)>,
    bedModules: set<string>)

  function Nothing(): Acc { Acc({}, {}, {}, {}, {}, {}, {}, {}, {}, {}, {}) }

  function Merge(a: Acc, b: Acc): Acc
  {
    Acc(a.classes + b.classes, a.quick + b.quick, a.guards + b.guards, a.packages + b.packages, a.paths + b.paths,
        a.special + b.special, a.specialTip + b.specialTip, a.bed + b.bed, a.unknown + b.unknown, a.full + b.full,
        a.bedModules + b.bedModules)
  }

  function Items(xs: seq<string>): set<string> { set x | x in xs }

  /** `_route_lane`: a lane row's commands, or its reason for the full gate. */
  function LaneAcc(path: string, lane: Lane): Acc
  {
    Nothing().(special := if lane.full then {} else Items(lane.atCommit), specialTip := Items(lane.atTip),
               full := if lane.full then {(path, LaneIsFull)} else {})
  }

  function LanesAcc(path: string, lanes: seq<Lane>): Acc
  {
    if lanes == [] then Nothing() else Merge(LanesAcc(path, lanes[..|lanes| - 1]), LaneAcc(path, lanes[|lanes| - 1]))
  }

  /** `add_root` */
  function RootAcc(r: Rules, path: string): Acc
  {
    match SurvivingRoot(r, path)
    case Some(root) => Nothing().(quick := {root})
    case None => Nothing().(full := {(path, NoRoot)})
  }

  function ReadersAcc(r: Rules, readers: seq<string>): Acc
  {
    if readers == [] then Nothing()
    else
      var last := readers[|readers| - 1];
      Merge(ReadersAcc(r, readers[..|readers| - 1]),
            if r.readerFamily(last) then Nothing().(guards := {last}) else RootAcc(r, last))
  }

  /** A changed test module. */
  function TestAcc(r: Rules, c: Change): Acc
  {
    var lane := r.special(c);
    var routed :=
      if lane.Some? then
        Merge(LaneAcc(c.path, lane.value),
              if (lane.value.kind.File? || lane.value.kind.Marker?) && r.leftForQuick(c) then RootAcc(r, c.path) else Nothing())
      else if r.family(c) then Nothing().(guards := {c.path})
      else RootAcc(r, c.path);
    Merge(routed, Nothing().(classes := {if r.structural(c) then TestsStructural else TestsLeaf},
                             bedModules := if r.bedHalf(c) then {c.path} else {}))
  }

  function Alive(r: Rules, roots: seq<string>): set<string> { set root | root in roots && Runnable(r, root) }

  /** A changed source file of a package. */
  function SrcAcc(r: Rules, path: string): Acc
  {
    var key := r.srcKey(path);
    match r.unitTrees(key)
    case None => Nothing().(packages := {key}, unknown := {path}, full := {(path, NoRow)}, classes := {Full})
    case Some(trees) =>
      var alive := Alive(r, trees);
      Nothing().(packages := {key}, classes := {SrcLeaf}, quick := alive + Alive(r, r.riders),
                 full := if alive == {} then {(path, NoTree)} else {})
  }

  function ClassAcc(r: Rules, c: Change): Acc
  {
    var cls, path := r.classOf(c.path), c.path;
    if cls.None? then Nothing().(unknown := {path}, full := {(path, NoRow)}, classes := {Full})
    else if r.readers(path).Some? then
      var readers := r.readers(path).value;
      Merge(ReadersAcc(r, readers), Nothing().(classes := {TestsLeaf}, full := if readers == [] then {(path, NoReader)} else {}))
    else if cls == Some(TestsLeaf) then TestAcc(r, c)
    else if cls == Some(SrcLeaf) then SrcAcc(r, path)
    else
      Nothing().(classes := {cls.value},
                 packages := if cls == Some(Escalate) && r.isSrc(path) && r.nested(path) then {r.srcKey(path)} else {})
  }

  /** Everything one change adds. */
  function ChangeAcc(r: Rules, c: Change): Acc
  {
    Merge(Merge(Nothing().(paths := {c.path}, bed := if r.isSrc(c.path) then Items(r.bedLanes(r.srcKey(c.path))) else {},
                           specialTip := Items(r.captures(c.path))),
                LanesAcc(c.path, r.owning(c.path))),
          ClassAcc(r, c))
  }

  function Collected(r: Rules, changes: seq<Change>): Acc
  {
    if changes == [] then Nothing()
    else
      var last := changes[|changes| - 1];
      if r.releaseOwned(last) then Merge(Collected(r, changes[..|changes| - 1]), Nothing().(classes := {NoClass}))
      else Merge(Collected(r, changes[..|changes| - 1]), ChangeAcc(r, last))
  }

  // --- the scope ---------------------------------------------------------------------------

  /** What classifying a diff yields. */
  datatype Scope = Scope(acc: Acc, present: set<string>, quickPaths: set<string>)

  predicate FullGate(acc: Acc) { Escalate in acc.classes || Full in acc.classes || acc.full != {} }

  /** More than two packages escalate; structural test changes include leaf ones. */
  function Escalated(acc: Acc): Acc
  {
    var wide :=
      if |acc.packages| > MAX_SRC_PACKAGES
      then acc.(classes := acc.classes - {SrcLeaf} + {Escalate}, full := acc.full + {("", TooManyPackages)})
      else acc;
    if TestsStructural in wide.classes then wide.(classes := wide.classes - {TestsLeaf}) else wide
  }

  function Present(r: Rules, changes: seq<Change>): set<string>
  {
    set c | c in changes && !r.releaseOwned(c) && c.status != Deleted :: c.path
  }

  /** `classify` */
  function Classify(r: Rules, changes: seq<Change>): Scope
  {
    var acc := Escalated(Collected(r, changes));
    Scope(acc, Present(r, changes), if FullGate(acc) then {} else Outermost(acc.quick))
  }

  // --- commands ----------------------------------------------------------------------------

  /** One line to run: a fixed text, or quick over some paths. */
  datatype Line = Text(text: string) | Quick(paths: set<string>)

  function Lines(ts: set<string>): set<Line> { set t | t in ts :: Text(t) }

  predicate Running(classes: set<Class>) { TestsLeaf in classes || TestsStructural in classes || SrcLeaf in classes }

  function TyLine(path: string): string
  {
    if IsScript(path) then "uv run ty check --extra-search-path . " + path else "uv run ty check " + path
  }

  const FULL_LINES: set<string> := {"make check-python", "make check-ts", "make docs", "make coverage-bed"}

  /** `_commit_lines` */
  function CommitLines(r: Rules, s: Scope): set<Line>
  {
    var classes, python := s.acc.classes, set p | p in s.present && EndsInPy(p);
    (if FullGate(s.acc) then
       Lines(FULL_LINES) + Lines(s.acc.bed)
       + (if exists p :: p in s.acc.paths && r.buildFiles(p) then {Text("make quick-guards")} else {})
     else
       (if Running(classes) && s.quickPaths != {} then {Quick(s.quickPaths)} else {})
       + (if SrcLeaf in classes || Scripts in classes then set p | p in python && !IsTestPath(p) :: Text(TyLine(p)) else {})
       + (if Running(classes) || Scripts in classes then set p | p in python :: Text("uv run ruff check " + p) else {})
       + (if Running(classes) then {Text("make lint-arch")} else {})
       + (if s.acc.guards != {} || TestsStructural in classes || SrcLeaf in classes || Scripts in classes
          then {Text("make quick-guards")} else {}))
    + (if Docs in classes then {Text("make docs")} else {})
    + (if Web in classes then {Text("make check-ts"), Text("make test-ts")} else {})
    + Lines(s.acc.special)
  }

  predicate StaticReach(s: Scope)
  {
    (exists cls :: cls in s.acc.classes && cls in {TestsLeaf, TestsStructural, SrcLeaf, Scripts, Escalate, Full})
    || exists p :: p in s.acc.paths && EndsInPy(p)
  }

  predicate BedReach(r: Rules, s: Scope)
  {
    SrcLeaf in s.acc.classes || Escalate in s.acc.classes || Full in s.acc.classes
    || (exists p :: p in s.acc.paths && r.bedScripts(p)) || s.acc.bedModules != {} || s.acc.full != {}
  }

  /** `_tip_lines` */
  function TipLines(r: Rules, s: Scope): set<Line>
  {
    (if StaticReach(s) then {Text("make check-python"), Text("make collect-check")} else {})
    + (if BedReach(r, s) then {Text("make coverage-bed")} else {})
    + Lines(s.acc.bed)
    + Lines(set line | line in s.acc.specialTip && r.bedLine(line))
  }

  function Decorated(r: Rules, line: Line): Line
  {
    match line case Text(t) => Text(r.decorate(t)) case Quick(_) => line
  }

  /** `commands`: the lines of a column, each once. */
  function Commands(r: Rules, s: Scope, tip: bool): set<Line>
  {
    set line | line in {Text("make check-breaking")} + (if tip then TipLines(r, s) else CommitLines(r, s)) :: Decorated(r, line)
  }
}
