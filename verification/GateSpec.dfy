/** What each kept change asks of the two columns, over changes and rules alone. */
module GateSpec {
  import opened Texts
  import opened GateScope

  // --- what one kept change asks for -------------------------------------------------------

  predicate Kept(r: Rules, changes: seq<Change>, c: Change) { c in changes && !r.releaseOwned(c) }

  predicate IsTest(r: Rules, c: Change) { r.classOf(c.path) == Some(TestsLeaf) && r.readers(c.path).None? }

  predicate IsSource(r: Rules, c: Change) { r.classOf(c.path) == Some(SrcLeaf) && r.readers(c.path).None? }

  /** A measured matrix's reader that stays a test of its own. */
  predicate IsReader(r: Rules, c: Change, reader: string)
  {
    r.classOf(c.path).Some? && r.readers(c.path).Some? && reader in r.readers(c.path).value
  }

  /** A path without a row, and a source of a package without one, take the full gate. */
  predicate Unknown(r: Rules, c: Change)
  {
    r.classOf(c.path).None? || (IsSource(r, c) && r.unitTrees(r.srcKey(c.path)).None?)
  }

  /** The class of a change. */
  predicate Classed(r: Rules, c: Change, cls: Class)
  {
    if Unknown(r, c) then cls == Full
    else if r.readers(c.path).Some? then cls == TestsLeaf
    else if IsTest(r, c) then cls == if r.structural(c) then TestsStructural else TestsLeaf
    else r.classOf(c.path) == Some(cls)
  }

  /** The nearest of package, tree and top directory that quick can run. */
  predicate Nearest(r: Rules, path: string, root: string)
  {
    Runnable(r, root)
    && (root == FirstParts(path, 3)
        || (root == FirstParts(path, 2) && !Runnable(r, FirstParts(path, 3)))
        || (root == FirstParts(path, 1) && !Runnable(r, FirstParts(path, 2)) && !Runnable(r, FirstParts(path, 3))))
  }

  predicate NoneNear(r: Rules, path: string)
  {
    !Runnable(r, FirstParts(path, 1)) && !Runnable(r, FirstParts(path, 2)) && !Runnable(r, FirstParts(path, 3))
  }

  /** Quick is to run the path: a test without a lane that is no guard or that its lane leaves in part, or a reader that is none. */
  predicate ForQuick(r: Rules, c: Change, path: string)
  {
    (IsTest(r, c) && path == c.path
     && if r.special(c).Some? then r.special(c).value.kind in {File, Marker} && r.leftForQuick(c) else !r.family(c))
    || (IsReader(r, c, path) && !r.readerFamily(path))
  }

  /** The change has quick run the root: near a path quick is to run, or a test tree or a rider of a source. */
  predicate AsksRoot(r: Rules, c: Change, root: string)
  {
    (exists path :: path in [c.path] + (if r.readers(c.path).Some? then r.readers(c.path).value else [])
                    && ForQuick(r, c, path) && Nearest(r, path, root))
    || (IsSource(r, c) && r.unitTrees(r.srcKey(c.path)).Some? && Runnable(r, root)
        && (root in r.unitTrees(r.srcKey(c.path)).value || root in r.riders))
  }

  /** A guard: a changed test of the family without a lane, or a reader of the family. */
  predicate AsksGuard(r: Rules, c: Change, path: string)
  {
    (IsTest(r, c) && path == c.path && r.special(c).None? && r.family(c)) || (IsReader(r, c, path) && r.readerFamily(path))
  }

  /** A lane of the change: of a tree that holds it, or of the test itself. */
  predicate HasLane(r: Rules, c: Change, lane: Lane)
  {
    lane in r.owning(c.path) || (IsTest(r, c) && r.special(c) == Some(lane))
  }

  /** A reason for the full gate. */
  predicate AsksFull(r: Rules, c: Change)
  {
    Unknown(r, c)
    || (exists lane :: lane in r.owning(c.path) + (if r.special(c).Some? then [r.special(c).value] else [])
                       && HasLane(r, c, lane) && lane.full)
    || (exists path :: path in [c.path] + (if r.readers(c.path).Some? then r.readers(c.path).value else [])
                       && ForQuick(r, c, path) && NoneNear(r, path))
    || (r.classOf(c.path).Some? && r.readers(c.path) == Some([]))
    || (IsSource(r, c) && r.unitTrees(r.srcKey(c.path)).Some?
        && forall tree :: tree in r.unitTrees(r.srcKey(c.path)).value ==> !Runnable(r, tree))
  }

  /** The package a source change counts for. */
  predicate OfPackage(r: Rules, c: Change, key: string)
  {
    key == r.srcKey(c.path)
    && (IsSource(r, c) || (r.classOf(c.path) == Some(Escalate) && r.readers(c.path).None? && r.isSrc(c.path) && r.nested(c.path)))
  }

  predicate BedLane(r: Rules, c: Change, line: string) { r.isSrc(c.path) && line in r.bedLanes(r.srcKey(c.path)) }

  ghost predicate CommitLane(r: Rules, c: Change, line: string) { exists lane :: HasLane(r, c, lane) && !lane.full && line in lane.atCommit }

  ghost predicate TipLane(r: Rules, c: Change, line: string)
  {
    line in r.captures(c.path) || exists lane :: HasLane(r, c, lane) && line in lane.atTip
  }

  // --- what the tip holds ------------------------------------------------------------------

  predicate IsPython(cls: Class) { cls in {TestsLeaf, TestsStructural, SrcLeaf, Scripts, Escalate, Full} }

  /** A Python file, or a change of a Python class. */
  predicate WantsStatic(r: Rules, c: Change) { EndsInPy(c.path) || exists cls :: IsPython(cls) && Classed(r, c, cls) }

  /** A source, an escalating or an unknown path, a script or a test of the bed half, or a reason for the full gate. */
  predicate WantsBed(r: Rules, c: Change)
  {
    Classed(r, c, SrcLeaf) || Classed(r, c, Escalate) || Classed(r, c, Full) || r.bedScripts(c.path)
    || (IsTest(r, c) && r.bedHalf(c)) || AsksFull(r, c)
  }

  /** A line of the tip, before its range. */
  ghost predicate AtTip(r: Rules, changes: seq<Change>, line: string)
  {
    line == "make check-breaking"
    || (line in {"make check-python", "make collect-check"} && exists c :: Kept(r, changes, c) && WantsStatic(r, c))
    || (line == "make coverage-bed" && exists c :: Kept(r, changes, c) && WantsBed(r, c))
    || (exists c :: Kept(r, changes, c) && BedLane(r, c, line))
    || (r.bedLine(line) && exists c :: Kept(r, changes, c) && TipLane(r, c, line))
  }

  // --- what the commit column holds --------------------------------------------------------

  ghost predicate SomeClassed(r: Rules, changes: seq<Change>, cls: Class) { exists c :: Kept(r, changes, c) && Classed(r, c, cls) }

  /** The packages the kept changes count for. */
  function PackagesOf(r: Rules, changes: seq<Change>): set<string>
  {
    set c | c in changes && Kept(r, changes, c) && OfPackage(r, c, r.srcKey(c.path)) :: r.srcKey(c.path)
  }

  predicate Wide(r: Rules, changes: seq<Change>) { |PackagesOf(r, changes)| > 2 }

  /** The commit column is the full gate. */
  ghost predicate TakesFull(r: Rules, changes: seq<Change>)
  {
    Wide(r, changes)
    || exists c :: Kept(r, changes, c) && (Classed(r, c, Escalate) || Classed(r, c, Full) || AsksFull(r, c))
  }

  ghost predicate RunsTests(r: Rules, changes: seq<Change>)
  {
    SomeClassed(r, changes, TestsLeaf) || SomeClassed(r, changes, TestsStructural) || SomeClassed(r, changes, SrcLeaf)
  }

  ghost predicate AskedRoot(r: Rules, changes: seq<Change>, root: string) { exists c :: Kept(r, changes, c) && AsksRoot(r, c, root) }

  /** A root some kept change asks for, under none of the others. */
  ghost predicate QuickRoot(r: Rules, changes: seq<Change>, root: string)
  {
    AskedRoot(r, changes, root) && forall other :: AskedRoot(r, changes, other) && root != other ==> !(other + "/" <= root)
  }

  ghost predicate StillPython(r: Rules, changes: seq<Change>, path: string)
  {
    EndsInPy(path) && exists c :: Kept(r, changes, c) && c.path == path && c.status != Deleted
  }

  /** The guards run for a guard, for a structural, source or script change. */
  ghost predicate WantsGuards(r: Rules, changes: seq<Change>)
  {
    (exists c, path :: Kept(r, changes, c) && AsksGuard(r, c, path))
    || SomeClassed(r, changes, TestsStructural) || SomeClassed(r, changes, SrcLeaf) || SomeClassed(r, changes, Scripts)
  }

  /** A fixed line of the commit column, before its range. */
  ghost predicate AtCommit(r: Rules, changes: seq<Change>, line: string)
  {
    line == "make check-breaking"
    || (if TakesFull(r, changes) then
          line in {"make check-python", "make check-ts", "make docs", "make coverage-bed"}
          || (exists c :: Kept(r, changes, c) && BedLane(r, c, line))
          || (line == "make quick-guards" && exists c :: Kept(r, changes, c) && r.buildFiles(c.path))
        else
          (line == "make lint-arch" && RunsTests(r, changes))
          || (line == "make quick-guards" && WantsGuards(r, changes))
          || (exists path ::
                StillPython(r, changes, path)
                && ((line == "uv run ruff check " + path && (RunsTests(r, changes) || SomeClassed(r, changes, Scripts)))
                    || (!("tests/" <= path) && (SomeClassed(r, changes, SrcLeaf) || SomeClassed(r, changes, Scripts))
                        && line == if "scripts/" <= path then "uv run ty check --extra-search-path . " + path else "uv run ty check " + path))))
    || (line == "make docs" && SomeClassed(r, changes, Docs))
    || (line in {"make check-ts", "make test-ts"} && SomeClassed(r, changes, Web))
    || (exists c :: Kept(r, changes, c) && CommitLane(r, c, line))
  }
}
