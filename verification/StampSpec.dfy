/** The coverage stamp as functions: what each part of start, mark, finish and check does to the files. */
module StampSpec {
  import opened Texts

  // --- what a run sees ---------------------------------------------------------------------

  /** Dirt of a working tree: modified tracked files, untracked files, and ignored sources. */
  datatype Dirt = Dirt(tracked: seq<string>, untracked: seq<string>, ignored: seq<string>)

  /** One checkout as the tool reads it: HEAD's tree, its dirt, its test roots, the interpreter, the built assets. */
  datatype Env = Env(tree: string, dirt: Dirt, roots: seq<string>, python: string, assets: string)

  datatype Gate = Gate(threshold: string, selection: string, browsers: string, primary: string, workers: string)

  datatype Refusal =
    | TrackedDirty
    | UntrackedSources(paths: set<string>)
    | IgnoredSource(path: string)
    | Overridden(names: seq<string>)
    | ForeignPython(version: string)

  function StripSlashes(t: string): string
  {
    if t != "" && t[|t| - 1] == '/' then StripSlashes(t[..|t| - 1]) else t
  }

  /** The path lies under `src` or a test root. */
  predicate UnderRoot(path: string, roots: seq<string>)
  {
    exists root :: root in ["src"] + roots && StripSlashes(root) + "/" <= path
  }

  /** The files the live checkout would import that the commit lacks. */
  function Blocking(env: Env): set<string>
  {
    (set path | path in env.dirt.untracked && UnderRoot(path, env.roots)) + set path | path in env.dirt.ignored
  }

  function DirtRefusals(env: Env): set<Refusal>
  {
    var ignored := set path | path in env.dirt.ignored;
    var untracked := Blocking(env) - ignored;
    (if env.dirt.tracked != [] then {TrackedDirty} else {})
    + (if untracked != {} then {UntrackedSources(untracked)} else {})
    + set path | path in Blocking(env) && path in ignored :: IgnoredSource(path)
  }

  /** `3.12.4` -> `3.12` */
  function MajorMinor(version: string): string
  {
    var parts := Split(version, '.');
    if |parts| <= 2 then version else parts[0] + ("." + parts[1])
  }

  /** Why a run here cannot be stamped. */
  function Refusals(env: Env, gate: Gate, overridden: seq<string>): set<Refusal>
  {
    DirtRefusals(env)
    + (if overridden != [] then {Refusal.Overridden(overridden)} else {})
    + (if MajorMinor(env.python) != gate.primary then {ForeignPython(env.python)} else {})
  }

  // --- the files ---------------------------------------------------------------------------

  datatype Mark = Mark(leg: string, at: int)

  /** What `start` records for `finish`. */
  datatype Pending = Pending(
    tree: string, dirt: Dirt, python: string, assets: string, refusals: set<Refusal>, gate: Gate, started: int,
    marks: seq<Mark>)

  datatype PendingFile = Record(pending: Pending) | Garbled

  datatype Stamp = Stamp(format: int, tree: string, python: string, assets: string, gate: Option<Gate>)

  datatype StampFile = Stamped(stamp: Stamp) | Unreadable

  const FORMAT := 1

  /** Seconds each marked leg took, none negative. */
  function LegSeconds(previous: int, marks: seq<Mark>): seq<nat>
    decreases marks
  {
    if marks == [] then []
    else
      [if marks[0].at > previous then marks[0].at - previous else 0] + LegSeconds(marks[0].at, marks[1..])
  }

  // --- the operations ----------------------------------------------------------------------

  /** What `start` writes after dropping the tree's stamp. */
  function Recorded(tree: string, env: Env, gate: Gate, overridden: seq<string>, now: int): Pending
  {
    Pending(tree, env.dirt, env.python, env.assets, Refusals(env, gate, overridden), gate, now, [])
  }

  /** The record with one more mark. */
  function Marked(file: PendingFile, mark: Mark): PendingFile
  {
    match file
    case Record(p) => Record(p.(marks := p.marks + [mark]))
    case Garbled => Garbled
  }

  /** `finish` sees what `start` saw. */
  predicate Unchanged(p: Pending, env: Env)
  {
    p.tree == env.tree && p.dirt == env.dirt && p.python == env.python && p.assets == env.assets
  }

  function StampOf(p: Pending): Stamp
  {
    Stamp(FORMAT, p.tree, p.python, p.assets, Some(p.gate))
  }

  datatype Problem =
    | NoStamp | BadStamp | BadFormat | TreeDiffers | PythonDiffers | AssetsDiffer | BadGate | GateDiffers(name: string)

  function GateProblems(recorded: Gate, gate: Gate): set<Problem>
  {
    (if recorded.threshold != gate.threshold then {GateDiffers("threshold")} else {})
    + (if recorded.selection != gate.selection then {GateDiffers("selection")} else {})
    + (if recorded.browsers != gate.browsers then {GateDiffers("browsers")} else {})
  }

  /** Why the stamp file, if any, does not speak for this checkout. */
  function Problems(file: Option<StampFile>, env: Env, gate: Gate): set<Problem>
  {
    match file
    case None => {NoStamp}
    case Some(Unreadable) => {BadStamp}
    case Some(Stamped(stamp)) =>
      (if stamp.format != FORMAT then {BadFormat} else {})
      + (if stamp.tree != env.tree then {TreeDiffers} else {})
      + (if stamp.python != env.python then {PythonDiffers} else {})
      + (if stamp.assets != env.assets then {AssetsDiffer} else {})
      + (if stamp.gate.None? then {BadGate} else GateProblems(stamp.gate.value, gate))
  }

  /** `check`'s exit status: 0 trust the stamp, 1 run the gate, 2 stop. */
  function Verdict(file: Option<StampFile>, env: Env, gate: Gate, overridden: seq<string>): nat
  {
    if Refusals(env, gate, overridden) != {} then 2 else if Problems(file, env, gate) != {} then 1 else 0
  }

  /** The stamp names exactly this tree, interpreter and assets, under this gate. */
  predicate Speaks(stamp: Stamp, env: Env, gate: Gate)
  {
    stamp.format == 1 && stamp.tree == env.tree && stamp.python == env.python && stamp.assets == env.assets
    && stamp.gate.Some? && stamp.gate.value.threshold == gate.threshold
    && stamp.gate.value.selection == gate.selection && stamp.gate.value.browsers == gate.browsers
  }

  /** Nothing stops a run here from being stamped: nothing modified, no source the commit lacks, no override, the
      primary interpreter. */
  predicate Clean(env: Env, gate: Gate, overridden: seq<string>)
  {
    env.dirt.tracked == [] && env.dirt.ignored == [] && overridden == []
    && (forall path :: path in env.dirt.untracked ==> !UnderRoot(path, env.roots))
    && MajorMinor(env.python) == gate.primary
  }

  /** The tree's stamp file reads and speaks for the checkout. */
  predicate Vouches(file: Option<StampFile>, env: Env, gate: Gate)
  {
    file.Some? && file.value.Stamped? && Speaks(file.value.stamp, env, gate)
  }

  /** `check` answers 2 where nothing could be stamped, else 0 for a stamp that speaks for the checkout, else 1. */
  lemma {:induction false} VerdictExact(file: Option<StampFile>, env: Env, gate: Gate, overridden: seq<string>)
    ensures Verdict(file, env, gate, overridden) == 2 <==> !Clean(env, gate, overridden)
    ensures Verdict(file, env, gate, overridden) == 0 <==> Clean(env, gate, overridden) && Vouches(file, env, gate)
    ensures Verdict(file, env, gate, overridden) == 1 <==> Clean(env, gate, overridden) && !Vouches(file, env, gate)
  {
    RefusalsExact(env, gate, overridden);
    hide Refusals, Clean;
  }

  /** A run is refused nothing exactly on a clean checkout. */
  lemma {:induction false} RefusalsExact(env: Env, gate: Gate, overridden: seq<string>)
    ensures Refusals(env, gate, overridden) == {} <==> Clean(env, gate, overridden)
  {
    hide UnderRoot, MajorMinor;
    var ignored := set path | path in env.dirt.ignored;
    if env.dirt.ignored != [] {
      assert env.dirt.ignored[0] in Blocking(env) && env.dirt.ignored[0] in ignored;
      assert IgnoredSource(env.dirt.ignored[0]) in DirtRefusals(env);
    } else {
      assert ignored == {};
      assert Blocking(env) == set path | path in env.dirt.untracked && UnderRoot(path, env.roots);
      if path :| path in env.dirt.untracked && UnderRoot(path, env.roots) {
        assert path in Blocking(env) - ignored;
        assert UntrackedSources(Blocking(env) - ignored) in DirtRefusals(env);
      }
    }
  }

  /** Each refusal, and when it is made. */
  lemma {:induction false} RefusalMade(env: Env, gate: Gate, overridden: seq<string>, refusal: Refusal)
    ensures refusal in Refusals(env, gate, overridden) <==>
      match refusal
      case TrackedDirty => env.dirt.tracked != []
      case UntrackedSources(paths) =>
        paths != {} && forall path :: path in paths <==>
          path in env.dirt.untracked && UnderRoot(path, env.roots) && path !in env.dirt.ignored
      case IgnoredSource(path) => path in env.dirt.ignored
      case Overridden(names) => overridden != [] && names == overridden
      case ForeignPython(version) => version == env.python && MajorMinor(version) != gate.primary
  {
    hide UnderRoot, MajorMinor;
    var ignored := set path | path in env.dirt.ignored;
    if refusal.UntrackedSources? {
      var listed := Blocking(env) - ignored;
      assert forall path :: path in listed <==>
          path in env.dirt.untracked && UnderRoot(path, env.roots) && path !in env.dirt.ignored;
      assert refusal.paths == listed <==> forall path :: path in refusal.paths <==> path in listed;
    }
  }

  /** A path lies under `src`, or under a root written with any number of slashes at its end. */
  lemma {:induction false} UnderRootExact(path: string, roots: seq<string>)
    ensures UnderRoot(path, roots) <==>
      "src/" <= path
      || exists root, base: string :: root in roots && Slashed(root, base) && base + "/" <= path
  {
    assert StripSlashes("src") == "src" by { assert "src"[2] == 'c'; }
    assert "src" + "/" == "src/";
    forall root ensures Slashed(root, StripSlashes(root)) { Stripped(root); }
    if root, base: string :| root in roots && Slashed(root, base) && base + "/" <= path { StrippedOnly(root, base); }
    hide StripSlashes;
  }

  /** `root` is `base` and then slashes only. */
  predicate Slashed(root: string, base: string)
  {
    base <= root && (base == "" || base[|base| - 1] != '/') && forall i :: |base| <= i < |root| ==> root[i] == '/'
  }

  lemma {:induction false} Stripped(root: string)
    ensures Slashed(root, StripSlashes(root))
  {
    if root != "" && root[|root| - 1] == '/' {
      Stripped(root[..|root| - 1]);
      assert root == root[..|root| - 1] + "/";
    }
  }

  lemma {:induction false} StrippedOnly(root: string, base: string)
    requires Slashed(root, base)
    ensures StripSlashes(root) == base
  {
    if root != base {
      var shorter := root[..|root| - 1];
      assert root[|root| - 1] == '/';
      assert base <= shorter;
      StrippedOnly(shorter, base);
    }
  }

  /** An interpreter's first two numbers. */
  lemma {:induction false} MajorMinorExact(major: string, minor: string, rest: string)
    requires '.' !in major && '.' !in minor
    ensures MajorMinor(major) == major
    ensures MajorMinor(major + (['.'] + minor)) == major + (['.'] + minor)
    ensures MajorMinor(major + (['.'] + (minor + (['.'] + rest)))) == major + (['.'] + minor)
  {
    SplitWhole(major, '.');
    SplitWhole(minor, '.');
    SplitConcat(major, minor, '.');
    SplitConcat(minor, rest, '.');
    SplitConcat(major, minor + (['.'] + rest), '.');
    SplitNonempty(rest);
  }

  lemma {:induction false} SplitNonempty(t: string)
    ensures |Split(t, '.')| >= 1
  {
  }

  /** When the last leg ended, or `previous` without one. */
  function LastMark(previous: int, marks: seq<Mark>): int
  {
    if marks == [] then previous else marks[|marks| - 1].at
  }

  /** How far the clock stepped back between one mark and the next, in all. */
  function SteppedBack(previous: int, marks: seq<Mark>): nat
    decreases marks
  {
    if marks == [] then 0
    else (if marks[0].at < previous then previous - marks[0].at else 0) + SteppedBack(marks[0].at, marks[1..])
  }

  /** The legs' seconds add up to the time of the last mark, and to as much more as the clock stepped back:
      to exactly that time if and only if the marks come in order. */
  lemma {:induction false} LegsWithin(previous: int, marks: seq<Mark>)
    ensures |LegSeconds(previous, marks)| == |marks|
    ensures Total(LegSeconds(previous, marks)) == LastMark(previous, marks) - previous + SteppedBack(previous, marks)
    ensures SteppedBack(previous, marks) == 0 <==>
      forall i :: 0 <= i < |marks| ==> LastMark(previous, marks[..i]) <= marks[i].at
    decreases marks
  {
    if marks != [] {
      var first, rest := marks[0].at, marks[1..];
      LegsWithin(first, rest);
      assert previous <= first <==> LastMark(previous, marks[..0]) <= marks[0].at;
      forall i | 0 <= i < |rest| ensures LastMark(first, rest[..i]) == LastMark(previous, marks[..i + 1]) {
        assert marks[..i + 1] == [marks[0]] + rest[..i];
      }
      assert forall i :: 0 < i < |marks| ==> marks[i] == rest[i - 1];
      if SteppedBack(first, rest) == 0 {
        forall i | 0 < i < |marks| ensures LastMark(previous, marks[..i]) <= marks[i].at {
          assert LastMark(first, rest[..i - 1]) <= rest[i - 1].at;
        }
      }
      if forall i :: 0 <= i < |marks| ==> LastMark(previous, marks[..i]) <= marks[i].at {
        forall i | 0 <= i < |rest| ensures LastMark(first, rest[..i]) <= rest[i].at {
          assert LastMark(previous, marks[..i + 1]) <= marks[i + 1].at;
        }
      }
    }
  }

  function Total(xs: seq<nat>): nat
  {
    if xs == [] then 0 else xs[0] + Total(xs[1..])
  }
}
