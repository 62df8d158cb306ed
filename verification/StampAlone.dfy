/** An operation that nothing comes between does in its parts what it is there to do, and no more. */
module StampAlone {
  import opened Texts
  import opened StampSpec
  import opened StampRuns

  /** Where the clone is when the flight has taken its next `n` parts with nothing in between. */
  function Alone(w: World, id: nat, n: nat): World
    decreases n
  {
    if n == 0 || !Enabled(w, Advance(id)) then w else Alone(Step(w, Advance(id)), id, n - 1)
  }

  /** The flight is under way and has done nothing yet. */
  predicate Launching(w: World, id: nat, checkout: string, op: Op)
  {
    checkout in w.envs && id in w.flights && w.flights[id] == Launched(checkout, op)
  }

  /** The clone after a flight, if it left these stamp files. */
  function Left(w: World, id: nat, stamps: map<string, StampFile>, pending: map<string, PendingFile>): World
  {
    w.(stamps := stamps, pending := pending, flights := w.flights - {id})
  }

  /** The clone with the flight `f` on its way. */
  function At(w: World, id: nat, f: Flight, stamps: map<string, StampFile>, pending: map<string, PendingFile>): World
  {
    w.(stamps := stamps, pending := pending, flights := w.flights[id := f])
  }

  /** A flight with a part left takes it. */
  lemma {:induction false} Turn(w: World, id: nat, f: Flight, stamps: map<string, StampFile>,
                                pending: map<string, PendingFile>, n: nat)
    requires f.checkout in w.envs && f.at < |Moves(f.op)|
    ensures var here := At(w, id, f, stamps, pending);
      Enabled(here, Advance(id)) && Alone(here, id, n + 1) == Alone(Advanced(here, id), id, n)
  {
  }

  predicate Looks(move: Move)
  {
    move.SeeTree? || move.SeeDirt? || move.SeePython? || move.SeeRoots? || move.SeeAssets?
  }

  predicate Ends(move: Move)
  {
    move.WriteRecord? || move.WriteMark? || move.WriteStamp? || move.Answer?
  }

  /** A look adds what it sees to the flight. */
  lemma {:induction false} LookTurn(w: World, id: nat, f: Flight, seen: Env, stamps: map<string, StampFile>,
                                    pending: map<string, PendingFile>, n: nat)
    requires f.checkout in w.envs && f.at < |Moves(f.op)| && Looks(Moves(f.op)[f.at])
    requires seen == Looked(f.seen, w.envs[f.checkout], Moves(f.op)[f.at])
    ensures Alone(At(w, id, f, stamps, pending), id, n + 1)
         == Alone(At(w, id, Flight(f.checkout, f.op, f.at + 1, seen, f.record, f.file), stamps, pending), id, n)
  {
    Turn(w, id, f, stamps, pending, n);
    hide Alone;
    var g := Flight(f.checkout, f.op, f.at + 1, seen, f.record, f.file);
    assert w.flights[id := f][id := g] == w.flights[id := g];
  }

  /** What the first `k` parts of an operation have seen of a checkout that stays as it is. */
  function SeenAfter(op: Op, env: Env, k: nat): Env
    requires k <= |Moves(op)|
  {
    if k == 0 then Env("", Dirt([], [], []), [], "", "") else Looked(SeenAfter(op, env, k - 1), env, Moves(op)[k - 1])
  }

  /** Some looks in a row. */
  lemma {:induction false} LookTurns(w: World, id: nat, f: Flight, looks: nat, stamps: map<string, StampFile>,
                                     pending: map<string, PendingFile>, n: nat)
    requires f.checkout in w.envs && f.at + looks <= |Moves(f.op)|
    requires f.seen == SeenAfter(f.op, w.envs[f.checkout], f.at)
    requires forall k :: f.at <= k < f.at + looks ==> Looks(Moves(f.op)[k])
    ensures var seen := SeenAfter(f.op, w.envs[f.checkout], f.at + looks);
      Alone(At(w, id, f, stamps, pending), id, n + looks)
      == Alone(At(w, id, Flight(f.checkout, f.op, f.at + looks, seen, f.record, f.file), stamps, pending), id, n)
    decreases looks
  {
    hide Alone, At, Moves, Looked, Looks, Enabled, Next;
    if looks > 0 {
      var seen := SeenAfter(f.op, w.envs[f.checkout], f.at + 1);
      LookTurn(w, id, f, seen, stamps, pending, n + (looks - 1));
      LookTurns(w, id, Flight(f.checkout, f.op, f.at + 1, seen, f.record, f.file), looks - 1, stamps, pending, n);
    } else {
      assert f == Flight(f.checkout, f.op, f.at, f.seen, f.record, f.file);
    }
  }

  // --- the other parts ---------------------------------------------------------------------

  lemma {:induction false} DropStampTurn(w: World, id: nat, f: Flight, stamps: map<string, StampFile>,
                                         pending: map<string, PendingFile>, n: nat)
    requires f.checkout in w.envs && f.at < |Moves(f.op)| && Moves(f.op)[f.at] == DropStamp
    ensures Alone(At(w, id, f, stamps, pending), id, n + 1)
         == Alone(At(w, id, f.(at := f.at + 1), stamps - {f.seen.tree}, pending), id, n)
  {
    Turn(w, id, f, stamps, pending, n);
    hide Alone;
    assert w.flights[id := f][id := f.(at := f.at + 1)] == w.flights[id := f.(at := f.at + 1)];
  }

  lemma {:induction false} ReadStampTurn(w: World, id: nat, f: Flight, stamps: map<string, StampFile>,
                                         pending: map<string, PendingFile>, n: nat)
    requires f.checkout in w.envs && f.at < |Moves(f.op)| && Moves(f.op)[f.at] == ReadStamp
    ensures var file := if f.seen.tree in stamps then Some(stamps[f.seen.tree]) else None;
      Alone(At(w, id, f, stamps, pending), id, n + 1)
      == Alone(At(w, id, f.(at := f.at + 1, file := file), stamps, pending), id, n)
  {
    Turn(w, id, f, stamps, pending, n);
    hide Alone;
    var g := f.(at := f.at + 1, file := StampAt(At(w, id, f, stamps, pending), f.seen.tree));
    assert w.flights[id := f][id := g] == w.flights[id := g];
  }

  lemma {:induction false} ReadRecordTurn(w: World, id: nat, f: Flight, stamps: map<string, StampFile>,
                                          pending: map<string, PendingFile>, n: nat)
    requires f.checkout in w.envs && f.at < |Moves(f.op)| && Moves(f.op)[f.at] == ReadRecord
    ensures f.checkout in pending && pending[f.checkout].Record? ==>
      Alone(At(w, id, f, stamps, pending), id, n + 1)
      == Alone(At(w, id, f.(at := f.at + 1, record := Some(pending[f.checkout].pending)), stamps, pending), id, n)
    ensures f.checkout !in pending || pending[f.checkout].Garbled? ==>
      Alone(At(w, id, f, stamps, pending), id, n + 1) == Left(w, id, stamps, pending)
  {
    Turn(w, id, f, stamps, pending, n);
    if f.checkout in pending && pending[f.checkout].Record? {
      hide Alone;
      var g := f.(at := f.at + 1, record := Some(pending[f.checkout].pending));
      assert w.flights[id := f][id := g] == w.flights[id := g];
    } else {
      assert w.flights[id := f] - {id} == w.flights - {id};
    }
  }

  lemma {:induction false} DropRecordTurn(w: World, id: nat, f: Flight, stamps: map<string, StampFile>,
                                          pending: map<string, PendingFile>, n: nat)
    requires f.checkout in w.envs && f.at < |Moves(f.op)| && Moves(f.op)[f.at] == DropRecord && f.checkout in pending
    ensures Alone(At(w, id, f, stamps, pending), id, n + 1)
         == Alone(At(w, id, f.(at := f.at + 1), stamps, pending - {f.checkout}), id, n)
  {
    Turn(w, id, f, stamps, pending, n);
    hide Alone;
    assert w.flights[id := f][id := f.(at := f.at + 1)] == w.flights[id := f.(at := f.at + 1)];
  }

  /** The last part ends the flight. */
  lemma {:induction false} LastTurn(w: World, id: nat, f: Flight, stamps: map<string, StampFile>,
                                    pending: map<string, PendingFile>)
    requires f.checkout in w.envs && f.at < |Moves(f.op)| && Ends(Moves(f.op)[f.at])
    ensures var after := Advanced(At(w, id, f, stamps, pending), id);
      Alone(At(w, id, f, stamps, pending), id, 1) == Left(w, id, after.stamps, after.pending)
  {
    Turn(w, id, f, stamps, pending, 0);
    assert w.flights[id := f] - {id} == w.flights - {id};
  }

  lemma {:induction false} WriteRecordTurn(w: World, id: nat, f: Flight, stamps: map<string, StampFile>,
                                           pending: map<string, PendingFile>)
    requires f.checkout in w.envs && f.at < |Moves(f.op)| && Moves(f.op)[f.at] == WriteRecord && f.op.Start?
    ensures Alone(At(w, id, f, stamps, pending), id, 1)
         == Left(w, id, stamps, pending[f.checkout := Record(Recorded(f.seen.tree, f.seen, f.op.gate, f.op.overridden, w.now))])
  {
    hide Recorded, Alone;
    LastTurn(w, id, f, stamps, pending);
  }

  // --- whole operations --------------------------------------------------------------------

  lemma {:induction false} Embarks(w: World, id: nat, checkout: string, op: Op)
    requires Launching(w, id, checkout, op)
    ensures w == At(w, id, Launched(checkout, op), w.stamps, w.pending)
  {
    assert w.flights == w.flights[id := w.flights[id]];
  }

  lemma {:induction false} StartSees(op: Op, env: Env)
    requires op.Start?
    ensures SeenAfter(op, env, 2) == SeenAfter(op, env, 1) && SeenAfter(op, env, 1).tree == env.tree
    ensures SeenAfter(op, env, 6) == env
  {
    assert SeenAfter(op, env, 3) == SeenAfter(op, env, 1).(dirt := env.dirt);
    assert SeenAfter(op, env, 5) == SeenAfter(op, env, 3).(python := env.python, roots := env.roots);
  }

  lemma {:induction false} FinishSees(env: Env)
    ensures SeenAfter(Finish, env, 2) == SeenAfter(Finish, env, 0)
    ensures var seen := SeenAfter(Finish, env, 6);
      (seen.tree, seen.dirt, seen.python, seen.assets) == (env.tree, env.dirt, env.python, env.assets)
  {
    assert SeenAfter(Finish, env, 4) == SeenAfter(Finish, env, 2).(tree := env.tree, dirt := env.dirt);
  }

  lemma {:induction false} CheckSees(op: Op, env: Env)
    requires op.Check?
    ensures SeenAfter(op, env, 2) == SeenAfter(op, env, 1) && SeenAfter(op, env, 1).tree == env.tree
    ensures SeenAfter(op, env, 6) == env
  {
    assert SeenAfter(op, env, 3) == SeenAfter(op, env, 1).(python := env.python);
    assert SeenAfter(op, env, 5) == SeenAfter(op, env, 3).(assets := env.assets, dirt := env.dirt);
  }

  lemma {:induction false} StartTurns(w: World, id: nat, checkout: string, op: Op, n: nat)
    requires op.Start? && Launching(w, id, checkout, op)
    ensures var env := w.envs[checkout];
      Alone(w, id, 6 + n) == Alone(At(w, id, Flight(checkout, op, 6, env, None, None), w.stamps - {env.tree}, w.pending), id, n)
  {
    hide Alone, At, Enabled, Next, Looked;
    var env, stamps := w.envs[checkout], w.stamps - {w.envs[checkout].tree};
    Embarks(w, id, checkout, op);
    StartSees(op, env);
    var f := Flight(checkout, op, 1, SeenAfter(op, env, 1), None, None);
    LookTurns(w, id, Launched(checkout, op), 1, w.stamps, w.pending, n + 5);
    DropStampTurn(w, id, f, w.stamps, w.pending, n + 4);
    LookTurns(w, id, f.(at := 2), 4, stamps, w.pending, n);
  }

  /** A `start` drops the tree's stamp and records what it sees and refuses. */
  lemma {:induction false} StartAlone(w: World, id: nat, checkout: string, gate: Gate, overridden: seq<string>)
    requires Launching(w, id, checkout, Start(gate, overridden))
    ensures var env := w.envs[checkout];
      Alone(w, id, 7) == Left(w, id, w.stamps - {env.tree},
        w.pending[checkout :=
          Record(Pending(env.tree, env.dirt, env.python, env.assets, Refusals(env, gate, overridden), gate, w.now, []))])
  {
    var env, op := w.envs[checkout], Start(gate, overridden);
    var last, stamps := Flight(checkout, op, 6, env, None, None), w.stamps - {w.envs[checkout].tree};
    hide Alone, Refusals, Enabled, Looked, At, Left;
    StartTurns(w, id, checkout, op, 1);
    WriteRecordTurn(w, id, last, stamps, w.pending);
  }

  /** A `mark` adds one mark to a record that reads, and does nothing without one. */
  lemma {:induction false} LegAlone(w: World, id: nat, checkout: string, leg: string)
    requires Launching(w, id, checkout, Leg(leg))
    ensures checkout in w.pending && w.pending[checkout].Record? ==>
      var p := w.pending[checkout].pending;
      Alone(w, id, 2) == Left(w, id, w.stamps, w.pending[checkout := Record(p.(marks := p.marks + [Mark(leg, w.now)]))])
    ensures checkout !in w.pending || w.pending[checkout].Garbled? ==> Alone(w, id, 2) == Left(w, id, w.stamps, w.pending)
  {
    Embarks(w, id, checkout, Leg(leg));
    var f := Launched(checkout, Leg(leg));
    ReadRecordTurn(w, id, f, w.stamps, w.pending, 1);
    if checkout in w.pending && w.pending[checkout].Record? {
      LastTurn(w, id, f.(at := 1, record := Some(w.pending[checkout].pending)), w.stamps, w.pending);
      hide Alone;
    }
  }

  lemma {:induction false} FinishTurns(w: World, id: nat, checkout: string, n: nat)
    requires Launching(w, id, checkout, Finish)
    requires checkout in w.pending && w.pending[checkout].Record?
    ensures var (seen, p) := (SeenAfter(Finish, w.envs[checkout], 6), w.pending[checkout].pending);
      Alone(w, id, 6 + n)
      == Alone(At(w, id, Flight(checkout, Finish, 6, seen, Some(p), None), w.stamps, w.pending - {checkout}), id, n)
  {
    hide Alone, At, Enabled, Next, Looked;
    var env, p := w.envs[checkout], w.pending[checkout].pending;
    var f := Flight(checkout, Finish, 1, SeenAfter(Finish, env, 0), Some(p), None);
    Embarks(w, id, checkout, Finish);
    FinishSees(env);
    ReadRecordTurn(w, id, Launched(checkout, Finish), w.stamps, w.pending, n + 5);
    DropRecordTurn(w, id, f, w.stamps, w.pending, n + 4);
    LookTurns(w, id, f.(at := 2), 4, w.stamps, w.pending - {checkout}, n);
  }

  /** A `finish` takes a record that reads, and stamps the tree exactly if nothing was refused and nothing changed. */
  lemma {:induction false} FinishAlone(w: World, id: nat, checkout: string)
    requires Launching(w, id, checkout, Finish)
    ensures checkout in w.pending && w.pending[checkout].Record? ==>
      var (env, p) := (w.envs[checkout], w.pending[checkout].pending);
      Alone(w, id, 7) == Left(w, id,
        if p.refusals == {} && (p.tree, p.dirt, p.python, p.assets) == (env.tree, env.dirt, env.python, env.assets)
        then w.stamps[env.tree := Stamped(Stamp(1, env.tree, env.python, env.assets, Some(p.gate)))] else w.stamps,
        w.pending - {checkout})
    ensures checkout !in w.pending || w.pending[checkout].Garbled? ==> Alone(w, id, 7) == Left(w, id, w.stamps, w.pending)
  {
    var env := w.envs[checkout];
    FinishSees(env);
    if checkout in w.pending && w.pending[checkout].Record? {
      var last := Flight(checkout, Finish, 6, SeenAfter(Finish, env, 6), Some(w.pending[checkout].pending), None);
      FinishTurns(w, id, checkout, 1);
      LastTurn(w, id, last, w.stamps, w.pending - {checkout});
      hide Alone, SeenAfter;
    } else {
      Embarks(w, id, checkout, Finish);
      ReadRecordTurn(w, id, Launched(checkout, Finish), w.stamps, w.pending, 6);
    }
  }

  lemma {:induction false} CheckTurns(w: World, id: nat, checkout: string, op: Op, n: nat)
    requires op.Check? && Launching(w, id, checkout, op)
    ensures var env := w.envs[checkout];
      var file := if env.tree in w.stamps then Some(w.stamps[env.tree]) else None;
      Alone(w, id, 6 + n) == Alone(At(w, id, Flight(checkout, op, 6, env, None, file), w.stamps, w.pending), id, n)
  {
    hide Alone, At, Enabled, Next, Looked;
    var env := w.envs[checkout];
    Embarks(w, id, checkout, op);
    CheckSees(op, env);
    var f := Flight(checkout, op, 1, SeenAfter(op, env, 1), None, None);
    LookTurns(w, id, Launched(checkout, op), 1, w.stamps, w.pending, n + 5);
    ReadStampTurn(w, id, f, w.stamps, w.pending, n + 4);
    var file := if env.tree in w.stamps then Some(w.stamps[env.tree]) else None;
    LookTurns(w, id, f.(at := 2, file := file), 4, w.stamps, w.pending, n);
  }

  /** A `check` comes to its answer having seen the checkout as it is and its tree's stamp file as it is; its answer
      changes nothing. */
  lemma {:induction false} CheckAlone(w: World, id: nat, checkout: string, op: Op, n: nat)
    requires op.Check? && Launching(w, id, checkout, op)
    ensures var env := w.envs[checkout];
      var file := if env.tree in w.stamps then Some(w.stamps[env.tree]) else None;
      Alone(w, id, 6 + n) == Alone(At(w, id, Flight(checkout, op, 6, env, None, file), w.stamps, w.pending), id, n)
    ensures Alone(w, id, 7) == Left(w, id, w.stamps, w.pending)
  {
    var env := w.envs[checkout];
    var file := if env.tree in w.stamps then Some(w.stamps[env.tree]) else None;
    CheckTurns(w, id, checkout, op, n);
    CheckTurns(w, id, checkout, op, 1);
    LastTurn(w, id, Flight(checkout, op, 6, env, None, file), w.stamps, w.pending);
    hide Alone;
  }
}
