/** Every interleaving of start, mark, finish and check with edits, over all checkouts of a clone. */
module StampRuns {
  import opened Texts
  import opened StampSpec

  // --- operations in flight ----------------------------------------------------------------

  /** One part of an operation: a look at the checkout, or a read or write of the stamp files. */
  datatype Move =
    | SeeTree | SeeDirt | SeePython | SeeRoots | SeeAssets
    | DropStamp | ReadStamp | WriteStamp
    | ReadRecord | DropRecord | WriteRecord | WriteMark
    | Answer

  /** An operation: `start`, `mark`, `finish` or `check`. */
  datatype Op = Start(gate: Gate, overridden: seq<string>) | Leg(leg: string) | Finish | Check(gate: Gate, overridden: seq<string>)

  /** The parts of an operation in the order it takes them. */
  function Moves(op: Op): (r: seq<Move>)
    ensures r != []
  {
    match op
    case Start(_, _) => [SeeTree, DropStamp, SeeDirt, SeePython, SeeRoots, SeeAssets, WriteRecord]
    case Leg(_) => [ReadRecord, WriteMark]
    case Finish => [ReadRecord, DropRecord, SeeTree, SeeDirt, SeePython, SeeAssets, WriteStamp]
    case Check(_, _) => [SeeTree, ReadStamp, SeePython, SeeAssets, SeeDirt, SeeRoots, Answer]
  }

  /** An operation of a checkout: how far it is, what it has seen of the checkout, and the record and the stamp
      file it read. */
  datatype Flight = Flight(
    checkout: string, op: Op, at: nat, seen: Env, record: Option<Pending>, file: Option<StampFile>)

  function Launched(checkout: string, op: Op): Flight
  {
    Flight(checkout, op, 0, Env("", Dirt([], [], []), [], "", ""), None, None)
  }

  /** The part it takes next, which tells the operation. */
  function Next(f: Flight): (r: Option<Move>)
    ensures r == Some(DropStamp) || r == Some(WriteRecord) ==> f.op.Start?
    ensures r == Some(WriteMark) ==> f.op.Leg?
    ensures r == Some(WriteStamp) || r == Some(DropRecord) ==> f.op.Finish?
    ensures r == Some(ReadStamp) ==> f.op.Check?
    ensures r == Some(Answer) ==> f.op.Check? && f.at == 6
  {
    if f.at < |Moves(f.op)| then Some(Moves(f.op)[f.at]) else None
  }

  /** What a look adds to what was seen before. */
  function Looked(seen: Env, env: Env, move: Move): Env
  {
    match move
    case SeeTree => seen.(tree := env.tree)
    case SeeDirt => seen.(dirt := env.dirt)
    case SeePython => seen.(python := env.python)
    case SeeRoots => seen.(roots := env.roots)
    case SeeAssets => seen.(assets := env.assets)
    case _ => seen
  }

  // --- steps -------------------------------------------------------------------------------

  datatype World = World(
    envs: map<string, Env>, now: int, stamps: map<string, StampFile>, pending: map<string, PendingFile>,
    flights: map<nat, Flight>)

  /** One step: part of an operation, or anything the developer or the machine does between two parts. */
  datatype Action =
    | Launch(id: nat, checkout: string, op: Op)
    | Advance(id: nat)
    | Edit(checkout: string, env: Env)
    | Elapse(now: int)
    | Damage(tree: string, garbled: string)
    | Lose(trees: set<string>, checkouts: set<string>)

  predicate Enabled(w: World, a: Action)
  {
    match a
    case Launch(id, _, _) => id !in w.flights
    case Advance(id) => id in w.flights && Next(w.flights[id]).Some? && w.flights[id].checkout in w.envs
    case _ => true
  }

  function StampAt(w: World, tree: string): Option<StampFile>
  {
    if tree in w.stamps then Some(w.stamps[tree]) else None
  }

  /** The checkout's record, if it reads. */
  function RecordAt(w: World, checkout: string): Option<Pending>
  {
    if checkout in w.pending && w.pending[checkout].Record? then Some(w.pending[checkout].pending) else None
  }

  /** `finish` writes a stamp. */
  predicate Writes(p: Pending, seen: Env) { p.refusals == {} && Unchanged(p, seen) }

  /** The next part of an operation. The last part ends it, and so does a record that is not there to read or
      to remove. */
  function Advanced(w: World, id: nat): World
    requires Enabled(w, Advance(id))
  {
    var f := w.flights[id];
    var further := f.(at := f.at + 1);
    match Next(f).value
    case DropStamp => w.(stamps := w.stamps - {f.seen.tree}, flights := w.flights[id := further])
    case ReadStamp => w.(flights := w.flights[id := further.(file := StampAt(w, f.seen.tree))])
    case ReadRecord =>
      var record := RecordAt(w, f.checkout);
      w.(flights := if record.Some? then w.flights[id := further.(record := record)] else w.flights - {id})
    case DropRecord =>
      w.(pending := w.pending - {f.checkout},
         flights := if f.checkout in w.pending then w.flights[id := further] else w.flights - {id})
    case WriteRecord =>
      w.(pending := w.pending[f.checkout := Record(Recorded(f.seen.tree, f.seen, f.op.gate, f.op.overridden, w.now))],
         flights := w.flights - {id})
    case WriteMark =>
      w.(pending := if f.record.Some? then w.pending[f.checkout := Marked(Record(f.record.value), Mark(f.op.leg, w.now))]
                    else w.pending,
         flights := w.flights - {id})
    case WriteStamp =>
      w.(stamps := if f.record.Some? && Writes(f.record.value, f.seen)
                   then w.stamps[f.seen.tree := Stamped(StampOf(f.record.value))] else w.stamps,
         flights := w.flights - {id})
    case Answer => w.(flights := w.flights - {id})
    case look => w.(flights := w.flights[id := further.(seen := Looked(f.seen, w.envs[f.checkout], look))])
  }

  function Step(w: World, a: Action): World
    requires Enabled(w, a)
  {
    match a
    case Launch(id, checkout, op) => w.(flights := w.flights[id := Launched(checkout, op)])
    case Advance(id) => Advanced(w, id)
    case Edit(checkout, env) => w.(envs := w.envs[checkout := env])
    case Elapse(now) => w.(now := now)
    case Damage(tree, garbled) =>
      w.(stamps := if tree in w.stamps then w.stamps[tree := Unreadable] else w.stamps,
         pending := if garbled in w.pending then w.pending[garbled := Garbled] else w.pending)
    case Lose(trees, checkouts) => w.(stamps := w.stamps - trees, pending := w.pending - checkouts)
  }

  /** A finite run: its states, and the action between each two. */
  datatype Run = Run(states: seq<World>, acts: seq<Action>)

  ghost predicate IsRun(run: Run)
  {
    |run.states| == |run.acts| + 1
    && run.states[0].stamps == map[] && run.states[0].pending == map[] && run.states[0].flights == map[]
    && forall i :: 0 <= i < |run.acts| ==>
         Enabled(run.states[i], run.acts[i]) && run.states[i + 1] == Step(run.states[i], run.acts[i])
  }

  /** Step `i` takes the part `move` of a flight. */
  predicate Takes(run: Run, i: nat, move: Move)
    requires i < |run.acts| && |run.states| == |run.acts| + 1
  {
    run.acts[i].Advance? && Enabled(run.states[i], run.acts[i])
    && Next(run.states[i].flights[run.acts[i].id]) == Some(move)
  }

  /** The flight step `i` advances. */
  function FlightAt(run: Run, i: nat): Flight
    requires i < |run.acts| && |run.states| == |run.acts| + 1
    requires run.acts[i].Advance? && Enabled(run.states[i], run.acts[i])
  {
    run.states[i].flights[run.acts[i].id]
  }

  // --- where records and stamps come from --------------------------------------------------

  /** Step `i` is a `start` recording `p`, up to the marks added since. */
  predicate Begins(run: Run, i: nat, p: Pending)
    requires i < |run.acts| && |run.states| == |run.acts| + 1
  {
    Takes(run, i, WriteRecord)
    && var f := FlightAt(run, i);
       f.op.Start? && p.(marks := []) == Recorded(f.seen.tree, f.seen, f.op.gate, f.op.overridden, run.states[i].now)
  }

  /** Some step before `n` is a `start` recording `p`. */
  ghost predicate Begun(run: Run, n: nat, p: Pending)
    requires n <= |run.acts| && |run.states| == |run.acts| + 1
  {
    exists i :: 0 <= i < n && Begins(run, i, p)
  }

  /** Step `k` is a `finish` that writes the stamp of `p`. */
  predicate Finishes(run: Run, k: nat, p: Pending)
    requires k < |run.acts| && |run.states| == |run.acts| + 1
  {
    Takes(run, k, WriteStamp) && FlightAt(run, k).record == Some(p) && Writes(p, FlightAt(run, k).seen)
  }

  /** Step `m` is a `start` dropping the stamp of `tree`. */
  predicate Starts(run: Run, m: nat, tree: string)
    requires m < |run.acts| && |run.states| == |run.acts| + 1
  {
    Takes(run, m, DropStamp) && FlightAt(run, m).seen.tree == tree
  }

  /** The stamp was written for `p` by a `finish` at step `k`, after its own `start`, and no `start` on its
      tree came after it. */
  ghost predicate Written(run: Run, n: nat, k: nat, p: Pending, tree: string, stamp: Stamp)
    requires n <= |run.acts| && |run.states| == |run.acts| + 1
  {
    k < n && Finishes(run, k, p) && Begun(run, k, p) && tree == p.tree && stamp == StampOf(p)
    && forall m :: k < m < n ==> !Starts(run, m, tree)
  }

  ghost predicate Justified(run: Run, n: nat, tree: string, stamp: Stamp)
    requires n <= |run.acts| && |run.states| == |run.acts| + 1
  {
    exists k, p :: 0 <= k && Written(run, n, k, p, tree, stamp)
  }

  /** Every record in the files or in flight comes from a `start`, and every stamp from a `finish`. */
  ghost predicate Grounded(run: Run, n: nat)
    requires n <= |run.acts| && |run.states| == |run.acts| + 1
  {
    var w := run.states[n];
    (forall c :: c in w.pending && w.pending[c].Record? ==> Begun(run, n, w.pending[c].pending))
    && (forall id :: id in w.flights && w.flights[id].record.Some? ==> Begun(run, n, w.flights[id].record.value))
    && forall tree :: tree in w.stamps && w.stamps[tree].Stamped? ==> Justified(run, n, tree, w.stamps[tree].stamp)
  }

  lemma {:induction false} BegunLater(run: Run, n: nat, p: Pending, q: Pending)
    requires n < |run.acts| && |run.states| == |run.acts| + 1
    requires Begun(run, n, p) && p.(marks := []) == q.(marks := [])
    ensures Begun(run, n + 1, q)
  {
    hide Begins;
    var i :| 0 <= i < n && Begins(run, i, p);
    SameBegins(run, i, p, q);
  }

  lemma {:induction false} SameBegins(run: Run, i: nat, p: Pending, q: Pending)
    requires i < |run.acts| && |run.states| == |run.acts| + 1 && p.(marks := []) == q.(marks := [])
    ensures Begins(run, i, p) <==> Begins(run, i, q)
  {
  }

  lemma {:induction false} JustifiedLater(run: Run, n: nat, tree: string, stamp: Stamp)
    requires n < |run.acts| && |run.states| == |run.acts| + 1
    requires Justified(run, n, tree, stamp) && !Starts(run, n, tree)
    ensures Justified(run, n + 1, tree, stamp)
  {
    hide Finishes, Begun, Starts;
    var k, p :| 0 <= k && Written(run, n, k, p, tree, stamp);
    assert Written(run, n + 1, k, p, tree, stamp);
  }

  /** The records after an advance. */
  function Records(w: World, f: Flight): map<string, PendingFile>
  {
    match Next(f)
    case Some(WriteRecord) => w.pending[f.checkout := Record(Recorded(f.seen.tree, f.seen, f.op.gate, f.op.overridden, w.now))]
    case Some(WriteMark) =>
      if f.record.Some? then w.pending[f.checkout := Marked(Record(f.record.value), Mark(f.op.leg, w.now))] else w.pending
    case Some(DropRecord) => w.pending - {f.checkout}
    case _ => w.pending
  }

  /** The stamps after an advance. */
  function Stamps(w: World, f: Flight): map<string, StampFile>
  {
    match Next(f)
    case Some(DropStamp) => w.stamps - {f.seen.tree}
    case Some(WriteStamp) =>
      if f.record.Some? && Writes(f.record.value, f.seen) then w.stamps[f.seen.tree := Stamped(StampOf(f.record.value))]
      else w.stamps
    case _ => w.stamps
  }

  /** What an advance leaves of the files. */
  lemma {:induction false} AdvanceFiles(w: World, id: nat)
    requires Enabled(w, Advance(id))
    ensures var (v, f) := (Advanced(w, id), w.flights[id]);
      v.envs == w.envs && v.now == w.now && v.pending == Records(w, f) && v.stamps == Stamps(w, f)
  {
    hide Recorded, Writes, StampOf, Next, Marked;
  }

  /** And of the flights: one goes a part further or ends, the others stay as they are. */
  lemma {:induction false} AdvanceFlights(w: World, id: nat)
    requires Enabled(w, Advance(id))
    ensures var (v, f) := (Advanced(w, id), w.flights[id]);
      (forall other :: other != id ==> (other in v.flights <==> other in w.flights))
      && (forall other :: other != id && other in v.flights ==> v.flights[other] == w.flights[other])
      && (id in v.flights ==> v.flights[id] == f.(at := f.at + 1, seen := Looked(f.seen, w.envs[f.checkout], Next(f).value),
           record := if Next(f) == Some(ReadRecord) then RecordAt(w, f.checkout) else f.record,
           file := if Next(f) == Some(ReadStamp) then StampAt(w, f.seen.tree) else f.file))
  {
    hide Recorded, Writes, StampOf, Next, Marked, RecordAt, StampAt;
  }

  lemma {:induction false} RecordsGrounded(run: Run, n: nat)
    requires IsRun(run) && n < |run.acts| && Grounded(run, n)
    ensures var w := run.states[n + 1];
      forall c :: c in w.pending && w.pending[c].Record? ==> Begun(run, n + 1, w.pending[c].pending)
  {
    hide Justified, Begun, Advanced, Begins, Recorded;
    var (v, w, a) := (run.states[n], run.states[n + 1], run.acts[n]);
    if a.Advance? { AdvanceFiles(v, a.id); }
    forall c | c in w.pending && w.pending[c].Record? ensures Begun(run, n + 1, w.pending[c].pending) {
      var p := w.pending[c].pending;
      if c in v.pending && v.pending[c] == w.pending[c] {
        BegunLater(run, n, p, p);
      } else {
        var f := v.flights[a.id];
        if Next(f) == Some(WriteRecord) {
          RecordBegins(run, n, p);
          BegunHere(run, n, p);
        } else {
          BegunLater(run, n, f.record.value, p);
        }
      }
    }
  }

  lemma {:induction false} RecordBegins(run: Run, n: nat, p: Pending)
    requires n < |run.acts| && |run.states| == |run.acts| + 1 && Takes(run, n, WriteRecord)
    requires var f := FlightAt(run, n); p == Recorded(f.seen.tree, f.seen, f.op.gate, f.op.overridden, run.states[n].now)
    ensures Begins(run, n, p)
  {
    hide Refusals;
  }

  lemma {:induction false} BegunHere(run: Run, n: nat, p: Pending)
    requires n < |run.acts| && |run.states| == |run.acts| + 1 && Begins(run, n, p)
    ensures Begun(run, n + 1, p)
  {
    hide Begins;
  }

  lemma {:induction false} FlightsGrounded(run: Run, n: nat)
    requires IsRun(run) && n < |run.acts| && Grounded(run, n)
    ensures var w := run.states[n + 1];
      forall id :: id in w.flights && w.flights[id].record.Some? ==> Begun(run, n + 1, w.flights[id].record.value)
  {
    hide Justified, Begun, Advanced, Moves;
    var (v, w, a) := (run.states[n], run.states[n + 1], run.acts[n]);
    if a.Advance? { AdvanceFlights(v, a.id); }
    forall id | id in w.flights && w.flights[id].record.Some? ensures Begun(run, n + 1, w.flights[id].record.value) {
      var p := w.flights[id].record.value;
      if id in v.flights && v.flights[id].record == Some(p) {
        BegunLater(run, n, p, p);
      } else {
        assert a.Advance? && RecordAt(v, v.flights[id].checkout) == Some(p);
        BegunLater(run, n, p, p);
      }
    }
  }

  lemma {:induction false} WrittenHere(run: Run, n: nat, p: Pending)
    requires n < |run.acts| && |run.states| == |run.acts| + 1 && Finishes(run, n, p) && Begun(run, n, p)
    ensures Justified(run, n + 1, p.tree, StampOf(p))
  {
    hide Finishes, Begun, Starts;
    assert Written(run, n + 1, n, p, p.tree, StampOf(p));
  }

  lemma {:induction false} StampsGrounded(run: Run, n: nat)
    requires IsRun(run) && n < |run.acts| && Grounded(run, n)
    ensures var w := run.states[n + 1];
      forall tree :: tree in w.stamps && w.stamps[tree].Stamped? ==> Justified(run, n + 1, tree, w.stamps[tree].stamp)
  {
    hide Justified, Begun, Advanced, Moves, Recorded, StampOf;
    var (v, w, a) := (run.states[n], run.states[n + 1], run.acts[n]);
    if a.Advance? {
      AdvanceFiles(v, a.id);
      }
    forall tree | tree in w.stamps && w.stamps[tree].Stamped? ensures Justified(run, n + 1, tree, w.stamps[tree].stamp) {
      if a.Advance? && Next(v.flights[a.id]) == Some(WriteStamp) && v.flights[a.id].record.Some?
         && Writes(v.flights[a.id].record.value, v.flights[a.id].seen) && tree == v.flights[a.id].seen.tree {
        WrittenHere(run, n, v.flights[a.id].record.value);
      } else {
        assert tree in v.stamps && v.stamps[tree] == w.stamps[tree] && !Starts(run, n, tree);
        JustifiedLater(run, n, tree, v.stamps[tree].stamp);
      }
    }
  }

  lemma {:induction false} AllGrounded(run: Run, n: nat)
    requires IsRun(run) && n <= |run.acts|
    ensures Grounded(run, n)
  {
    hide Begun, Justified, Enabled, Step;
    if n > 0 {
      AllGrounded(run, n - 1);
      RecordsGrounded(run, n - 1);
      FlightsGrounded(run, n - 1);
      StampsGrounded(run, n - 1);
    }
  }

  // --- what a flight saw -------------------------------------------------------------------

  /** What `seen` has by the look `move` is what `env` has. */
  predicate SawIn(seen: Env, env: Env, move: Move)
  {
    match move
    case SeeTree => seen.tree == env.tree
    case SeeDirt => seen.dirt == env.dirt
    case SeePython => seen.python == env.python
    case SeeRoots => seen.roots == env.roots
    case SeeAssets => seen.assets == env.assets
    case _ => true
  }

  /** Step `j` is where flight `id` took its `m`-th part, which gave it what it still holds of the checkout
      and of the stamp files. */
  ghost predicate Took(run: Run, j: nat, id: nat, m: nat, f: Flight)
    requires j < |run.acts| && |run.states| == |run.acts| + 1
  {
    run.acts[j] == Advance(id) && Enabled(run.states[j], run.acts[j])
    && var g := run.states[j].flights[id];
       g.at == m && g.op == f.op && g.checkout == f.checkout && SawIn(f.seen, run.states[j].envs[f.checkout], Next(g).value)
       && (Next(g).value == ReadStamp ==> f.file == StampAt(run.states[j], f.seen.tree))
       && (Next(g).value == ReadRecord ==> f.record == RecordAt(run.states[j], f.checkout))
  }

  /** No operation looks at one thing twice. */
  lemma {:induction false} LooksOnce(op: Op, i: nat, j: nat)
    requires i < |Moves(op)| && j < |Moves(op)| && i != j
    ensures Moves(op)[i] != Moves(op)[j]
  {
  }

  lemma {:induction false} LookKeeps(seen: Env, env: Env, later: Env, earlier: Move, move: Move)
    requires earlier != move && SawIn(seen, env, earlier)
    ensures SawIn(Looked(seen, later, move), env, earlier)
  {
  }

  /** Every part of a flight happened at a step of the run: what it has seen was so then. */
  lemma {:induction false} FlightHistory(run: Run, n: nat, id: nat, m: nat) returns (j: nat)
    requires IsRun(run) && n <= |run.acts| && id in run.states[n].flights && m < run.states[n].flights[id].at
    ensures run.states[n].flights[id].at <= |Moves(run.states[n].flights[id].op)|
    ensures j < n && Took(run, j, id, m, run.states[n].flights[id])
    decreases n
  {
    hide Advanced, Moves, Looked, SawIn, StampAt, RecordAt;
    var (v, w, a) := (run.states[n - 1], run.states[n], run.acts[n - 1]);
    if a.Advance? { AdvanceFlights(v, a.id); }
    if a == Advance(id) && v.flights[id].at == m {
      j := n - 1;
      LookSees(v.flights[id].seen, v.envs[v.flights[id].checkout], Next(v.flights[id]).value);
    } else {
      j := FlightHistory(run, n - 1, id, m);
      if a == Advance(id) { HistoryKeeps(run, n - 1, id, m, j); }
    }
  }

  lemma {:induction false} LookSees(seen: Env, env: Env, move: Move)
    ensures SawIn(Looked(seen, env, move), env, move)
    ensures move == ReadStamp ==> Looked(seen, env, move).tree == seen.tree
  {
  }

  lemma {:induction false} HistoryKeeps(run: Run, n: nat, id: nat, m: nat, j: nat)
    requires IsRun(run) && n < |run.acts| && run.acts[n] == Advance(id) && id in run.states[n + 1].flights
    requires j < n && m < run.states[n].flights[id].at && Took(run, j, id, m, run.states[n].flights[id])
    ensures Took(run, j, id, m, run.states[n + 1].flights[id])
  {
    hide Advanced, Moves, Looked, SawIn, StampAt, RecordAt;
    var v := run.states[n];
    var f := v.flights[id];
    AdvanceFlights(v, id);
    LooksOnce(f.op, m, f.at);
    LookKeeps(f.seen, run.states[j].envs[f.checkout], v.envs[f.checkout], Next(run.states[j].flights[id]).value, Next(f).value);
    if f.op.Check? {
      TreeFirst(f);
      LookTree(f.seen, v.envs[f.checkout], Next(f).value);
    }
  }

  lemma {:induction false} TreeFirst(f: Flight)
    requires Next(f).Some? && f.op.Check? && f.at > 0
    ensures Next(f).value != SeeTree
  {
  }

  lemma {:induction false} LookTree(seen: Env, env: Env, move: Move)
    requires move != SeeTree
    ensures Looked(seen, env, move).tree == seen.tree
  {
  }

  // --- the main theorem --------------------------------------------------------------------

  /** A run of the gate that passed: step `i` is its `start` and step `k` its `finish`. */
  predicate Passed(run: Run, i: nat, k: nat, p: Pending)
    requires i < k < |run.acts| && |run.states| == |run.acts| + 1
  {
    Begins(run, i, p) && Finishes(run, k, p)
  }

  /** Step `n` is a `check` answering 0. */
  predicate Trusts(run: Run, n: nat)
    requires n < |run.acts| && |run.states| == |run.acts| + 1
  {
    Takes(run, n, Answer)
    && var f := FlightAt(run, n); Verdict(f.file, f.seen, f.op.gate, f.op.overridden) == 0
  }

  /** `check` answers 0 only when a gate run passed on the tree it saw: its `start` refused nothing, its
      `finish` saw the same tree, dirt, interpreter and assets, those are the ones `check` saw, the gate
      declared then is the gate declared now, and no `start` on the tree came between that `finish` and
      the step `r` where `check` read the stamp. */
  lemma {:induction false} CheckTrustsOnlyPassedRuns(run: Run, n: nat) returns (i: nat, k: nat, r: nat, p: Pending)
    requires IsRun(run) && n < |run.acts| && Trusts(run, n)
    ensures i < k < r < n && Passed(run, i, k, p) && Took(run, r, run.acts[n].id, 1, FlightAt(run, n))
    ensures var f := FlightAt(run, n);
      p.refusals == {} && p.tree == f.seen.tree && p.python == f.seen.python && p.assets == f.seen.assets
      && p.gate.threshold == f.op.gate.threshold && p.gate.selection == f.op.gate.selection
      && p.gate.browsers == f.op.gate.browsers && Clean(f.seen, f.op.gate, f.op.overridden)
      && forall m :: k < m < r ==> !Starts(run, m, f.seen.tree)
  {
    hide Begins, Finishes, Starts, Step, Refusals, SawIn, Verdict, Clean;
    var f := FlightAt(run, n);
    r := FlightHistory(run, n, run.acts[n].id, 1);
    assert Next(run.states[r].flights[run.acts[n].id]).value == ReadStamp;
    VerdictExact(f.file, f.seen, f.op.gate, f.op.overridden);
    AllGrounded(run, r);
    var stamp := f.file.value.stamp;
    assert Justified(run, r, f.seen.tree, stamp);
    k, p :| 0 <= k && Written(run, r, k, p, f.seen.tree, stamp);
    i :| 0 <= i < k && Begins(run, i, p);
    FinishWrites(run, k, p);
  }

  lemma {:induction false} FinishWrites(run: Run, k: nat, p: Pending)
    requires k < |run.acts| && |run.states| == |run.acts| + 1 && Finishes(run, k, p)
    ensures p.refusals == {}
  {
  }

  /** What a passed run saw: the same tree, dirt, interpreter and assets at both ends, and nothing to refuse. */
  lemma {:induction false} PassedSawTheSame(run: Run, i: nat, k: nat, p: Pending)
    requires i < k < |run.acts| && |run.states| == |run.acts| + 1 && Passed(run, i, k, p)
    ensures var (before, after) := (FlightAt(run, i), FlightAt(run, k));
      before.op.Start? && Clean(before.seen, before.op.gate, before.op.overridden)
      && after.seen.tree == before.seen.tree && after.seen.dirt == before.seen.dirt
      && after.seen.python == before.seen.python && after.seen.assets == before.seen.assets
  {
    var before := FlightAt(run, i);
    RefusalsExact(before.seen, before.op.gate, before.op.overridden);
    hide Refusals, Clean;
  }

  /** After a `start` on a tree, its stamp is gone until a `finish` writes it again. */
  lemma {:induction false} StartDropsStamp(run: Run, m: nat, n: nat, tree: string)
    requires IsRun(run) && m < n <= |run.acts| && Starts(run, m, tree)
    requires tree in run.states[n].stamps && run.states[n].stamps[tree].Stamped?
    ensures exists k, p :: m < k < n && Finishes(run, k, p) && p.tree == tree && run.states[n].stamps[tree].stamp == StampOf(p)
  {
    hide Finishes, Starts, Step, Enabled, Begun;
    AllGrounded(run, n);
    var k, p :| 0 <= k && Written(run, n, k, p, tree, run.states[n].stamps[tree].stamp);
    SettleIsNoStart(run, k, p, m, tree);
  }

  lemma {:induction false} SettleIsNoStart(run: Run, k: nat, p: Pending, m: nat, tree: string)
    requires k < |run.acts| && m < |run.acts| && |run.states| == |run.acts| + 1
    requires Finishes(run, k, p) && Starts(run, m, tree)
    ensures k != m
  {
  }
}
