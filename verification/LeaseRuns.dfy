/** Every interleaving of lease verbs with the machine: who may lose the bed, and when. */
module LeaseRuns {
  import opened Texts
  import opened Processes
  import opened LeaseSpec
  import opened LeaseLaws

  // --- the machine -----------------------------------------------------------------------

  /** Where a non-forced release is: draining, drained, or past its re-read. */
  datatype Phase =
    | Draining(record: Record)
    | Drained(record: Record, left: set<Pid>)
    | ReadBack(record: Record, current: Option<Record>, left: set<Pid>)

  /** A release in flight: the holder pid it was given, and the process running it. */
  datatype Release = Release(pid: Pid, me: Pid, phase: Phase)

  datatype World = World(files: Files, procs: Procs, now: int, releases: map<nat, Release>)

  /** One atomic step: a locked section, an observation by a drain, or anything the machine does. */
  datatype Action =
    | Acquire(pid: Pid, purpose: string, ttl: nat, who: Caller)
    | ShowStatus
    | Begin(id: nat, pid: Pid, me: Pid, force: bool)
    | DrainEmpties(id: nat)
    | DrainTimesOut(id: nat)
    | ReadAgain(id: nat)
    | Finish(id: nat)
    | Elapse(procs: Procs, now: int)

  predicate Enabled(w: World, a: Action)
  {
    match a
    case Begin(id, _, _, _) => id !in w.releases
    case DrainEmpties(id) =>
      id in w.releases && w.releases[id].phase.Draining?
      && Survivors(w.procs, w.releases[id].phase.record, w.releases[id].me) == {}
    case DrainTimesOut(id) => id in w.releases && w.releases[id].phase.Draining?
    case ReadAgain(id) => id in w.releases && w.releases[id].phase.Drained?
    case Finish(id) => id in w.releases && w.releases[id].phase.ReadBack?
    case _ => true
  }

  function Step(w: World, a: Action): World
    requires Enabled(w, a)
  {
    match a
    case Acquire(pid, purpose, ttl, who) =>
      w.(files := TryAcquire(w.files, w.procs, w.now, pid, purpose, ttl, who).0)
    case ShowStatus => w.(files := Status(w.files))
    case Begin(id, pid, me, force) =>
      var (files, outcome) := BeginRelease(w.files, w.procs, pid, force);
      w.(files := files,
         releases := if outcome.MustDrain? then w.releases[id := Release(pid, me, Draining(outcome.record))]
                     else w.releases)
    case DrainEmpties(id) =>
      var rel := w.releases[id];
      w.(releases := w.releases[id := rel.(phase := Drained(rel.phase.record, {}))])
    case DrainTimesOut(id) =>
      var rel := w.releases[id];
      w.(releases := w.releases[id := rel.(phase := Drained(rel.phase.record,
                                                            Survivors(w.procs, rel.phase.record, rel.me)))])
    case ReadAgain(id) =>
      var rel := w.releases[id];
      if w.files.disk.Unreadable? then w.(releases := w.releases - {id})
      else
        var (current, left) := Reread(w.files.disk, w.procs, rel.phase.record, rel.phase.left, rel.me);
        w.(releases := w.releases[id := rel.(phase := ReadBack(rel.phase.record, current, left))])
    case Finish(id) =>
      var phase := w.releases[id].phase;
      w.(files := FinishRelease(w.files, phase.record, phase.current, phase.left).0,
         releases := w.releases - {id})
    case Elapse(procs, now) => w.(procs := procs, now := now)
  }

  /** A finite run: its states, and the action between each two. */
  datatype Run = Run(states: seq<World>, acts: seq<Action>)

  predicate DistinctGroups(r: Record)
  {
    forall i, j :: 0 <= i < j < |r.groups| ==> r.groups[i].pgid != r.groups[j].pgid
  }

  predicate Init(w: World)
  {
    w.releases == map[] && (w.files.disk.Held? ==> DistinctGroups(w.files.disk.record))
  }

  predicate IsRun(run: Run)
  {
    |run.states| == |run.acts| + 1 && Init(run.states[0])
    && forall i :: 0 <= i < |run.acts| ==>
         Enabled(run.states[i], run.acts[i]) && run.states[i + 1] == Step(run.states[i], run.acts[i])
  }

  // --- one step --------------------------------------------------------------------------

  /** The same lease, with every group it had and maybe more. */
  predicate Continues(r: Record, later: Record)
  {
    later == r.(groups := later.groups) && r.groups <= later.groups
  }

  predicate HoldsOn(disk: Disk, r: Record)
  {
    disk.Held? && Continues(r, disk.record)
  }

  /** The finishing release found its own record unchanged and nobody left. */
  predicate FinishesEmpty(w: World, id: nat, r: Record)
  {
    id in w.releases && w.releases[id].phase.ReadBack?
    && w.releases[id].phase.current == Some(r) && SameRun(Some(w.releases[id].phase.record), Some(r))
    && w.releases[id].phase.left == {}
  }

  /** A step ends a lease only by taking over a dead run, by force, or by finishing an empty release. */
  lemma {:induction false} StepKeepsLease(w: World, a: Action)
    requires Enabled(w, a) && w.files.disk.Held?
    requires !HoldsOn(Step(w, a).files.disk, w.files.disk.record)
    ensures (a.Acquire? && Dead(w.procs, w.files.disk.record))
         || (a.Begin? && a.force)
         || (a.Finish? && FinishesEmpty(w, a.id, w.files.disk.record))
  {
    hide Dead, IsRunMember, Survivors;
  }

  lemma {:induction false} StepKeepsDistinct(w: World, a: Action)
    requires Enabled(w, a) && (w.files.disk.Held? ==> DistinctGroups(w.files.disk.record))
    ensures Step(w, a).files.disk.Held? ==> DistinctGroups(Step(w, a).files.disk.record)
  {
    hide Dead, IsRunMember, Survivors;
    if a.Acquire? && w.files.disk.Held? && a.pid in w.procs {
      var groups, mine := w.files.disk.record.groups, GroupOf(w.procs, a.pid);
      assert forall g :: g in groups ==> g.pgid in PgidsOf(groups);
    }
  }

  // --- what a release in flight knows ----------------------------------------------------

  /**
   * Release `id`, as it stands at `n`, began at `b` for the live holder and has been in flight since; if it
   * counts nobody left, the run was over at `d`.
   */
  ghost predicate Tells(run: Run, n: nat, id: nat, b: nat, d: nat)
    requires IsRun(run) && n < |run.states| && id in run.states[n].releases
  {
    var rel := run.states[n].releases[id];
    var record := rel.phase.record;
    b < n && b <= d <= n
    && run.acts[b] == Begin(id, rel.pid, rel.me, false)
    && run.states[b].files.disk == Held(record) && record.pid == rel.pid
    && HolderRuns(run.states[b].procs, record)
    && (forall k :: b < k <= n ==> id in run.states[k].releases && run.states[k].releases[id].pid == rel.pid)
    && (rel.phase.Drained? && rel.phase.left == {} ==> RunOver(run.states[d].procs, record, rel.me))
    && (rel.phase.ReadBack? && rel.phase.left == {} && SameRun(Some(record), rel.phase.current) ==>
          RunOver(run.states[d].procs, rel.phase.current.value, rel.me))
  }

  /** Who is left depends on the holder and the groups only. */
  lemma {:induction false} SameOver(procs: Procs, a: Record, b: Record, me: Pid)
    requires a.pid == b.pid && a.pidStarted == b.pidStarted && a.groups == b.groups
    ensures RunOver(procs, a, me) <==> RunOver(procs, b, me)
  {
    hide Above, RunningMembers;
    assert forall p :: Excused(procs, a, me, p) <==> Excused(procs, b, me, p);
    hide Excused;
  }

  lemma {:induction false} ReleaseHistory(run: Run, n: nat, id: nat) returns (b: nat, d: nat)
    requires IsRun(run) && n < |run.states| && id in run.states[n].releases
    ensures Tells(run, n, id, b, d)
    decreases n
  {
    hide Dead, IsRunMember, Survivors, Sibling, TryAcquire, Status, FinishRelease, RunOver;
    assert n > 0;
    var w, a := run.states[n - 1], run.acts[n - 1];
    assert run.states[n] == Step(w, a);
    if id !in w.releases {
      b, d := n - 1, n - 1;
    } else {
      b, d := ReleaseHistory(run, n - 1, id);
      var rel := w.releases[id];
      if a == DrainEmpties(id) || a == DrainTimesOut(id) {
        SurvivorsExact(w.procs, rel.phase.record, rel.me);
        d := n - 1;
      } else if a == ReadAgain(id) {
        var (current, left) := Reread(w.files.disk, w.procs, rel.phase.record, rel.phase.left, rel.me);
        if SameRun(Some(rel.phase.record), current) {
          if current.value.groups != rel.phase.record.groups {
            if left == {} {
              assert Survivors(w.procs, current.value, rel.me) <= left;
              SurvivorsExact(w.procs, current.value, rel.me);
              d := n - 1;
            }
          } else {
            SameOver(run.states[d].procs, current.value, rel.phase.record, rel.me);
          }
        }
      }
    }
  }

  // --- safety over whole runs ------------------------------------------------------------

  /** Step `i` took the bed from record `r` for a reason. */
  ghost predicate Justified(run: Run, i: nat, r: Record)
    requires IsRun(run) && i < |run.acts|
  {
    var w, a := run.states[i], run.acts[i];
    w.files.disk == Held(r) &&
    match a
    case Acquire(_, _, _, _) => !SomeoneRuns(w.procs, r)
    case Begin(_, _, _, force) => force
    case Finish(id) => exists b, d :: ReleasedEmpty(run, i, id, r, b, d)
    case _ => false
  }

  /** The holder of `r`, alive, began release `id` at `b`; at `d`, in between, whoever ran in a group of `r` was
      the releasing process, one of its ancestors or a sibling. */
  ghost predicate ReleasedEmpty(run: Run, i: nat, id: nat, r: Record, b: nat, d: nat)
    requires IsRun(run) && i < |run.acts|
  {
    b <= d <= i && run.acts[b].Begin? && run.acts[b].id == id && run.acts[b].pid == r.pid && !run.acts[b].force
    && run.states[b].files.disk.Held? && SameRun(Some(run.states[b].files.disk.record), Some(r))
    && HolderRuns(run.states[b].procs, r)
    && RunOver(run.states[d].procs, r, run.acts[b].me)
  }

  lemma {:induction false} StepJustified(run: Run, i: nat)
    requires IsRun(run) && i < |run.acts| && run.states[i].files.disk.Held?
    requires !HoldsOn(run.states[i + 1].files.disk, run.states[i].files.disk.record)
    ensures Justified(run, i, run.states[i].files.disk.record)
  {
    hide Dead, Survivors, Step, SomeoneRuns, RunOver;
    var w, a := run.states[i], run.acts[i];
    StepKeepsLease(w, a);
    DeadExact(w.procs, w.files.disk.record);
    if a.Finish? {
      var b, d := ReleaseHistory(run, i, a.id);
      assert ReleasedEmpty(run, i, a.id, w.files.disk.record, b, d);
    }
  }

  lemma {:induction false} ContinuesTransitive(a: Record, b: Record, c: Record)
    requires Continues(a, b) && Continues(b, c)
    ensures Continues(a, c)
  {
  }

  /**
   * The bed is single-tenant: between a moment when run A holds it and any later moment when A's lease
   * (with every group registered so far) is gone, some step took it from A's record for a reason.
   */
  lemma {:induction false} LeaseSafety(run: Run, s: nat, t: nat) returns (i: nat)
    requires IsRun(run) && s <= t < |run.states| && run.states[s].files.disk.Held?
    requires !HoldsOn(run.states[t].files.disk, run.states[s].files.disk.record)
    ensures s <= i < t && HoldsOn(run.states[i].files.disk, run.states[s].files.disk.record)
    ensures Justified(run, i, run.states[i].files.disk.record)
    decreases t - s
  {
    hide Step, Justified, Init;
    var r := run.states[s].files.disk.record;
    if HoldsOn(run.states[t - 1].files.disk, r) {
      i := t - 1;
      if HoldsOn(run.states[t].files.disk, run.states[i].files.disk.record) {
        ContinuesTransitive(r, run.states[i].files.disk.record, run.states[t].files.disk.record);
      } else {
        StepJustified(run, i);
      }
    } else {
      i := LeaseSafety(run, s, t - 1);
    }
  }

  /** No release of `pid` is in flight. */
  predicate NoneInFlight(w: World, pid: Pid)
  {
    forall id :: id in w.releases ==> w.releases[id].pid != pid
  }

  /** From `s` to `t` nobody asks to release the run of `pid`, and nobody releases by force. */
  predicate NoneRelease(run: Run, s: nat, t: nat, pid: Pid)
    requires IsRun(run) && s <= t < |run.states|
  {
    forall i :: s <= i < t && run.acts[i].Begin? ==> !run.acts[i].force && run.acts[i].pid != pid
  }

  lemma {:induction false} StillNone(run: Run, s: nat, n: nat, pid: Pid)
    requires IsRun(run) && s <= n < |run.states| && NoneInFlight(run.states[s], pid) && NoneRelease(run, s, n, pid)
    ensures NoneInFlight(run.states[n], pid)
    decreases n - s
  {
    hide TryAcquire, Status, FinishRelease, Reread, Survivors, Init;
    if s < n {
      StillNone(run, s, n - 1, pid);
      assert run.states[n] == Step(run.states[n - 1], run.acts[n - 1]);
    }
  }

  /** While a release of its holder is neither in flight nor begun, and none is forced, a record goes only by
      being taken over dead. */
  lemma {:induction false} OnlyDeadGo(run: Run, s: nat, i: nat, r: Record)
    requires IsRun(run) && s <= i < |run.acts| && NoneInFlight(run.states[s], r.pid) && NoneRelease(run, s, i + 1, r.pid)
    requires HoldsOn(run.states[i].files.disk, r) && !HoldsOn(run.states[i + 1].files.disk, r)
    ensures Dead(run.states[i].procs, run.states[i].files.disk.record)
  {
    hide Dead, Survivors, Step, Init;
    var w, a := run.states[i], run.acts[i];
    if HoldsOn(run.states[i + 1].files.disk, w.files.disk.record) {
      ContinuesTransitive(r, w.files.disk.record, run.states[i + 1].files.disk.record);
    }
    StepKeepsLease(w, a);
    StillNone(run, s, i, r.pid);
    if a.Finish? {
      var b, d := ReleaseHistory(run, i, a.id);
    }
  }

  /** The step that took the bed from `r`. */
  lemma {:induction false} WhenLost(run: Run, s: nat, t: nat, r: Record) returns (i: nat)
    requires IsRun(run) && s <= t < |run.states| && HoldsOn(run.states[s].files.disk, r) && !HoldsOn(run.states[t].files.disk, r)
    ensures s <= i < t && HoldsOn(run.states[i].files.disk, r) && !HoldsOn(run.states[i + 1].files.disk, r)
    decreases t - s
  {
    hide IsRun, HoldsOn;
    if HoldsOn(run.states[t - 1].files.disk, r) { i := t - 1; } else { i := WhenLost(run, s, t - 1, r); }
  }

  /** A holder that stays alive, that nobody is releasing and nobody evicts keeps the bed, whatever other
      runs' releases do meanwhile, and its groups only grow. */
  lemma {:induction false} LiveHolderKeeps(run: Run, s: nat, t: nat)
    requires IsRun(run) && s <= t < |run.states| && run.states[s].files.disk.Held?
    requires forall i :: s <= i < t ==> HolderAlive(run.states[i].procs, run.states[s].files.disk.record)
    requires var pid := run.states[s].files.disk.record.pid; NoneInFlight(run.states[s], pid) && NoneRelease(run, s, t, pid)
    ensures HoldsOn(run.states[t].files.disk, run.states[s].files.disk.record)
  {
    hide RunningMembers, Step, Init, Enabled, Survivors, NoneInFlight;
    var r := run.states[s].files.disk.record;
    forall i | s <= i < t && HoldsOn(run.states[i].files.disk, r)
      ensures !Dead(run.states[i].procs, run.states[i].files.disk.record)
    {
      assert HolderAlive(run.states[i].procs, r);
    }
    if !HoldsOn(run.states[t].files.disk, r) {
      var i := WhenLost(run, s, t, r);
      OnlyDeadGo(run, s, i, r);
    }
  }

  /** A recorded group with a running member holds the bed as well as a live holder does. */
  lemma {:induction false} LiveGroupKeeps(run: Run, s: nat, t: nat, pgid: Pid)
    requires IsRun(run) && s <= t < |run.states| && run.states[s].files.disk.Held?
    requires pgid in PgidsOf(run.states[s].files.disk.record.groups)
    requires forall i :: s <= i < t ==> RunningMembers(run.states[i].procs, pgid) != {}
    requires var pid := run.states[s].files.disk.record.pid; NoneInFlight(run.states[s], pid) && NoneRelease(run, s, t, pid)
    ensures HoldsOn(run.states[t].files.disk, run.states[s].files.disk.record)
  {
    hide RunningMembers, Step, Init, Enabled, Survivors, NoneInFlight;
    var r := run.states[s].files.disk.record;
    var g :| g in r.groups && g.pgid == pgid;
    forall i | s <= i < t && HoldsOn(run.states[i].files.disk, r)
      ensures !Dead(run.states[i].procs, run.states[i].files.disk.record)
    {
      assert g in run.states[i].files.disk.record.groups;
      assert RunningMembers(run.states[i].procs, g.pgid) != {};
    }
    if !HoldsOn(run.states[t].files.disk, r) {
      var i := WhenLost(run, s, t, r);
      OnlyDeadGo(run, s, i, r);
    }
  }

  /** From `s` to `t` nobody releases by force. */
  predicate NoneForced(run: Run, s: nat, t: nat)
    requires IsRun(run) && s <= t < |run.states|
  {
    forall i :: s <= i < t && run.acts[i].Begin? ==> !run.acts[i].force
  }

  /** From `s` to `t` someone in a group of `r` runs that nothing excuses, whichever release of the run asks. */
  ghost predicate LeftBehind(run: Run, s: nat, t: nat, r: Record)
    requires IsRun(run) && s <= t < |run.states|
  {
    (forall i :: s <= i < t ==> SomeoneRuns(run.states[i].procs, r))
    && forall b, i :: s <= b <= i < t && run.acts[b].Begin? && run.acts[b].pid == r.pid ==>
         !RunOver(run.states[i].procs, r, run.acts[b].me)
  }

  lemma {:induction false} MoreGroups(procs: Procs, r: Record, later: Record, me: Pid)
    requires Continues(r, later)
    ensures RunOver(procs, later, me) ==> RunOver(procs, r, me)
    ensures SomeoneRuns(procs, r) ==> SomeoneRuns(procs, later)
  {
    hide Above, RunningMembers;
    assert forall p :: Excused(procs, r, me, p) <==> Excused(procs, later, me, p);
    hide Excused;
  }

  /** A process of the run that nothing excuses keeps the bed through every release of the run that is not forced. */
  lemma {:induction false} LeftBehindKeeps(run: Run, s: nat, t: nat)
    requires IsRun(run) && s <= t < |run.states| && run.states[s].files.disk.Held?
    requires NoneForced(run, s, t) && NoneInFlight(run.states[s], run.states[s].files.disk.record.pid)
    requires LeftBehind(run, s, t, run.states[s].files.disk.record)
    ensures HoldsOn(run.states[t].files.disk, run.states[s].files.disk.record)
  {
    hide RunOver, SomeoneRuns, Step, Init, Dead, Survivors;
    var r := run.states[s].files.disk.record;
    if !HoldsOn(run.states[t].files.disk, r) {
      var i := WhenLost(run, s, t, r);
      var w, a := run.states[i], run.acts[i];
      var later := w.files.disk.record;
      if HoldsOn(run.states[i + 1].files.disk, later) { ContinuesTransitive(r, later, run.states[i + 1].files.disk.record); }
      StepKeepsLease(w, a);
      DeadExact(w.procs, later);
      MoreGroups(w.procs, r, later, later.pid);
      if a.Finish? {
        var b, d := ReleaseHistory(run, i, a.id);
        MoreGroups(run.states[d].procs, r, later, run.acts[b].me);
      }
    }
  }

  /** A run's recorded groups are distinct in every reachable state. */
  lemma {:induction false} GroupsDistinct(run: Run, n: nat)
    requires IsRun(run) && n < |run.states|
    ensures run.states[n].files.disk.Held? ==> DistinctGroups(run.states[n].files.disk.record)
  {
    if n > 0 {
      GroupsDistinct(run, n - 1);
      StepKeepsDistinct(run.states[n - 1], run.acts[n - 1]);
    }
  }

  // --- expiry ----------------------------------------------------------------------------

  function Expiring(f: Files, expires: int): Files
  {
    if f.disk.Held? then f.(disk := Held(f.disk.record.(expires := expires))) else f
  }

  /** Neither the clock nor the record's expiry changes what an acquire decides. */
  lemma {:induction false} ExpiryNeverDecides(f: Files, procs: Procs, now: int, later: int, expires: int, pid: Pid, purpose: string,
                           ttl: nat, who: Caller)
    ensures TryAcquire(f, procs, now, pid, purpose, ttl, who).1
         == TryAcquire(Expiring(f, expires), procs, later, pid, purpose, ttl, who).1
  {
    if f.disk.Held? {
      var r, e := f.disk.record, f.disk.record.(expires := expires);
      assert IsRunMember(procs, r, pid) == IsRunMember(procs, e, pid);
      assert Dead(procs, r) == Dead(procs, e);
      hide IsRunMember, Dead, GroupNote;
    }
  }

  // --- the reservations file -------------------------------------------------------------

  /** What the last section of a release renders agrees with the record exactly when `current` still describes it. */
  lemma {:induction false} FinishAgrees(f: Files, record: Record, current: Option<Record>, left: set<Pid>)
    requires !f.disk.Unreadable?
    ensures var (after, outcome) := FinishRelease(f, record, current, left);
      (outcome != LostRace ==> Agrees(after))
      && (outcome == LostRace ==> (Agrees(after) <==> Entries(current) == Entries(ReadRecord(f.disk))))
  {
  }

  /** The lost race as written: the cell has changed hands, and the file names the run that lost it. */
  lemma {:induction false} LostRaceMisreports(f: Files, record: Record, other: Record)
    requires f.disk == Held(other) && other.caller.user != record.caller.user
    requires !SameRun(Some(record), Some(other))
    ensures var (after, outcome) := FinishRelease(f, record, Some(record), {});
      outcome == LostRace && after.disk == Held(other) && !Agrees(after)
  {
  }

  predicate LosesRace(w: World, a: Action)
  {
    a.Finish? && a.id in w.releases && w.releases[a.id].phase.ReadBack?
    && FinishRelease(w.files, w.releases[a.id].phase.record, w.releases[a.id].phase.current,
                     w.releases[a.id].phase.left).1 == LostRace
  }

  /** An acquire that does not fail, a status, or a release that does not go on to drain. */
  predicate Renders(w: World, a: Action)
  {
    match a
    case Acquire(pid, purpose, ttl, who) => TryAcquire(w.files, w.procs, w.now, pid, purpose, ttl, who).1 != Failed
    case ShowStatus => true
    case Begin(_, pid, _, force) => !BeginRelease(w.files, w.procs, pid, force).1.MustDrain?
    case Finish(_) => !LosesRace(w, a)
    case _ => false
  }

  /** From any stale file over a readable record, such a step restores agreement; every other step but a lost race keeps it. */
  lemma {:induction false} StepAgrees(w: World, a: Action)
    requires Enabled(w, a) && !w.files.disk.Unreadable?
    ensures !Step(w, a).files.disk.Unreadable?
    ensures Renders(w, a) || (Agrees(w.files) && !LosesRace(w, a)) ==> Agrees(Step(w, a).files)
  {
    hide Dead, IsRunMember, Survivors, GroupNote;
  }

  lemma {:induction false} StaysReadable(run: Run, s: nat, t: nat)
    requires IsRun(run) && s <= t < |run.states| && !run.states[s].files.disk.Unreadable?
    ensures !run.states[t].files.disk.Unreadable?
    decreases t - s
  {
    hide Step, Agrees, Renders, LosesRace;
    if s < t {
      StepAgrees(run.states[s], run.acts[s]);
      StaysReadable(run, s + 1, t);
    }
  }

  /** Once the file agreed, it can be wrong later only if a release lost its race and no verb has rendered since. */
  lemma {:induction false} StaleOnlyAfterLostRace(run: Run, s: nat, t: nat) returns (i: nat)
    requires IsRun(run) && s <= t < |run.states|
    requires !run.states[s].files.disk.Unreadable? && Agrees(run.states[s].files)
    requires !run.states[t].files.disk.Unreadable? && !Agrees(run.states[t].files)
    ensures s <= i < t && LosesRace(run.states[i], run.acts[i])
    ensures forall j :: i < j < t ==> !Renders(run.states[j], run.acts[j])
    decreases t - s
  {
    hide Step, Agrees, Renders, LosesRace, Init;
    StaysReadable(run, s, t - 1);
    StepAgrees(run.states[t - 1], run.acts[t - 1]);
    if LosesRace(run.states[t - 1], run.acts[t - 1]) {
      i := t - 1;
    } else {
      i := StaleOnlyAfterLostRace(run, s, t - 1);
    }
  }

  // --- a run that reaches the lost race ----------------------------------------------------

  const ALICE := Caller("alice@host", "alice", "/a", ["bed"])
  const BOB := Caller("bob@host", "bob", "/b", ["bed"])

  /** Two launchers, each leading its own group. */
  function TwoRuns(): Procs { map[10 := Proc(5, 10, 1, false), 20 := Proc(6, 20, 1, false)] }

  function AliceRecord(): Record { Record(ALICE, 10, 5, [Group(10, 10, Holder)], 0, 1, "lane") }
  function BobRecord(): Record { Record(BOB, 20, 6, [Group(20, 20, Holder)], 0, 1, "lane") }

  /** Alice acquires, begins to release, drains and reads her record again; her lease is evicted by force
      and Bob acquires; then Alice's release finishes. */
  function RaceActs(): seq<Action>
  {
    [Acquire(10, "lane", 1, ALICE), Begin(0, 10, 10, false), DrainEmpties(0), ReadAgain(0), Begin(1, 10, 10, true),
     Acquire(20, "lane", 1, BOB), Finish(0)]
  }

  function RaceState(files: Files, releases: map<nat, Release>): World { World(files, TwoRuns(), 0, releases) }

  function RaceStates(): seq<World>
  {
    var alice := Some([Entry("alice", ["bed"])]);
    var back := map[0 := Release(10, 10, ReadBack(AliceRecord(), Some(AliceRecord()), {}))];
    [RaceState(Files(Free, None), map[]),
     RaceState(Files(Held(AliceRecord()), alice), map[]),
     RaceState(Files(Held(AliceRecord()), alice), map[0 := Release(10, 10, Draining(AliceRecord()))]),
     RaceState(Files(Held(AliceRecord()), alice), map[0 := Release(10, 10, Drained(AliceRecord(), {}))]),
     RaceState(Files(Held(AliceRecord()), alice), back),
     RaceState(Files(Free, Some([])), back),
     RaceState(Files(Held(BobRecord()), Some([Entry("bob", ["bed"])])), back),
     RaceState(Files(Held(BobRecord()), alice), map[])]
  }

  lemma {:induction false} NobodyLeft()
    ensures Survivors(TwoRuns(), AliceRecord(), 10) == {}
  {
    assert PgidsOf([Group(10, 10, Holder)]) == {10};
    hide Ancestors, Sibling;
  }

  lemma {:induction false} RaceSteps(i: nat)
    requires i < 7
    ensures Enabled(RaceStates()[i], RaceActs()[i]) && RaceStates()[i + 1] == Step(RaceStates()[i], RaceActs()[i])
  {
    NobodyLeft();
    hide Survivors, Ancestors, Dead;
  }

  /** The lost race is reached from a free cell: at the end Bob holds the bed, and the file names Alice. */
  lemma {:induction false} LostRaceReached() returns (run: Run)
    ensures IsRun(run) && run.states[0].files == Files(Free, None) && |run.acts| == 7
    ensures !run.states[1].files.disk.Unreadable? && Agrees(run.states[1].files)
    ensures run.states[7].files == Files(Held(BobRecord()), Some([Entry("alice", ["bed"])]))
    ensures !Agrees(run.states[7].files) && LosesRace(run.states[6], run.acts[6])
  {
    run := Run(RaceStates(), RaceActs());
    forall i | 0 <= i < 7 ensures Enabled(run.states[i], run.acts[i]) && run.states[i + 1] == Step(run.states[i], run.acts[i]) {
      RaceSteps(i);
    }
    hide Step, Enabled;
  }
}
