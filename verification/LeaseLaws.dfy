/** What the lease reads off the process table, in terms of parents, groups and start times. */
module LeaseLaws {
  import opened Texts
  import opened Processes
  import opened LeaseSpec

  // --- ancestors ---------------------------------------------------------------------------

  /** The parent the process table gives, if any. */
  function ParentOf(procs: Procs, pid: Pid): Option<Pid>
  {
    if pid in procs && procs[pid].parent > 0 then Some(procs[pid].parent) else None
  }

  /** The process before place `i` of a path from `pid`. */
  function Below(pid: Pid, path: seq<Pid>, i: nat): Pid
    requires i < |path|
  {
    if i == 0 then pid else path[i - 1]
  }

  /** Parent after parent, from `pid` on. */
  predicate Climbs(procs: Procs, pid: Pid, path: seq<Pid>)
  {
    forall i :: 0 <= i < |path| ==> ParentOf(procs, Below(pid, path, i)) == Some(path[i])
  }

  /** `above` is the parent of `pid`, or its parent's parent, and so on. */
  ghost predicate Above(procs: Procs, above: Pid, pid: Pid)
  {
    exists path :: Climbs(procs, pid, path) && path != [] && path[|path| - 1] == above
  }

  /** Nothing is above `pid` or the chain but the chain. */
  ghost predicate Closed(procs: Procs, pid: Pid, chain: seq<Pid>)
  {
    forall x :: x == pid || x in chain ==> ParentOf(procs, x).None? || ParentOf(procs, x).value in chain
  }

  function End(pid: Pid, chain: seq<Pid>): Pid { if chain == [] then pid else chain[|chain| - 1] }

  lemma {:induction false} Longer(procs: Procs, pid: Pid, chain: seq<Pid>, parent: Pid)
    requires Climbs(procs, pid, chain) && ParentOf(procs, End(pid, chain)) == Some(parent)
    ensures Climbs(procs, pid, chain + [parent])
  {
    var longer := chain + [parent];
    forall i | 0 <= i < |longer| ensures ParentOf(procs, Below(pid, longer, i)) == Some(longer[i]) {
      if i < |chain| { assert Below(pid, longer, i) == Below(pid, chain, i) && longer[i] == chain[i]; }
    }
  }

  lemma {:induction false} Ends(procs: Procs, pid: Pid, chain: seq<Pid>)
    requires Climbs(procs, pid, chain)
    requires ParentOf(procs, End(pid, chain)).None? || ParentOf(procs, End(pid, chain)).value in chain
    ensures Closed(procs, pid, chain)
  {
    hide ParentOf;
    if chain != [] { assert ParentOf(procs, Below(pid, chain, 0)) == Some(chain[0]); }
    forall x | x in chain ensures ParentOf(procs, x).None? || ParentOf(procs, x).value in chain {
      var i :| 0 <= i < |chain| && chain[i] == x;
      if i + 1 < |chain| { assert ParentOf(procs, Below(pid, chain, i + 1)) == Some(chain[i + 1]); }
    }
  }

  lemma {:induction false} ChainExact(procs: Procs, pid: Pid, chain: seq<Pid>)
    requires Climbs(procs, pid, chain)
    ensures var all := AncestorsFrom(procs, End(pid, chain), chain); Climbs(procs, pid, all) && Closed(procs, pid, all)
    decreases procs.Keys - (set p | p in chain)
  {
    var current := End(pid, chain);
    hide Climbs, Closed;
    if current !in procs || procs[current].parent <= 0 || procs[current].parent in chain {
      Ends(procs, pid, chain);
    } else {
      var parent := procs[current].parent;
      Longer(procs, pid, chain, parent);
      if parent in procs {
        assert parent in procs.Keys - (set p | p in chain);
        ChainExact(procs, pid, chain + [parent]);
      } else {
        Ends(procs, pid, chain + [parent]);
      }
    }
  }

  /** `ancestors` lists exactly the processes above. */
  lemma {:induction false} AncestorsExact(procs: Procs, pid: Pid)
    ensures forall a :: a in Ancestors(procs, pid) <==> Above(procs, a, pid)
    ensures Ancestors(procs, pid) != [] ==> ParentOf(procs, pid) == Some(Ancestors(procs, pid)[0])
    ensures Ancestors(procs, pid) == [] ==> ParentOf(procs, pid).None?
  {
    var chain := Ancestors(procs, pid);
    ChainExact(procs, pid, []);
    hide AncestorsFrom;
    if chain != [] { assert ParentOf(procs, Below(pid, chain, 0)) == Some(chain[0]); }
    forall a | a in chain ensures Above(procs, a, pid) {
      var i :| 0 <= i < |chain| && chain[i] == a;
      ClimbsPart(procs, pid, chain, i + 1);
    }
    forall a | Above(procs, a, pid) ensures a in chain {
      var path :| Climbs(procs, pid, path) && path != [] && path[|path| - 1] == a;
      PathInside(procs, pid, chain, path);
    }
  }

  lemma {:induction false} ClimbsPart(procs: Procs, pid: Pid, path: seq<Pid>, n: nat)
    requires Climbs(procs, pid, path) && n <= |path|
    ensures Climbs(procs, pid, path[..n])
  {
    forall i | 0 <= i < n ensures ParentOf(procs, Below(pid, path[..n], i)) == Some(path[..n][i]) {
      assert Below(pid, path[..n], i) == Below(pid, path, i) && path[..n][i] == path[i];
    }
  }

  lemma {:induction false} PathInside(procs: Procs, pid: Pid, chain: seq<Pid>, path: seq<Pid>)
    requires Closed(procs, pid, chain) && Climbs(procs, pid, path)
    ensures forall x :: x in path ==> x in chain
  {
    if path != [] {
      var n := |path| - 1;
      ClimbsPart(procs, pid, path, n);
      PathInside(procs, pid, chain, path[..n]);
      assert path == path[..n] + [path[n]];
      assert n > 0 ==> path[n - 1] in path[..n];
      assert ParentOf(procs, Below(pid, path, n)) == Some(path[n]);
    }
  }

  // --- who is left of a run ----------------------------------------------------------------

  /** A process the holder's parent started, not under the holder, and no later than the window allows. */
  ghost predicate BesideHolder(procs: Procs, r: Record, p: Pid)
  {
    p in procs && ParentOf(procs, p) == ParentOf(procs, r.pid) && ParentOf(procs, p) != Some(1)
    && !Above(procs, r.pid, p) && procs[p].start <= r.pidStarted + 200
  }

  /** The releasing process, one of its ancestors, or a sibling of the holder. */
  ghost predicate Excused(procs: Procs, r: Record, me: Pid, p: Pid)
  {
    p == me || Above(procs, p, me) || BesideHolder(procs, r, p)
  }

  /** Whoever runs in any of the run's groups is excused. */
  ghost predicate RunOver(procs: Procs, r: Record, me: Pid)
  {
    forall g, p :: g in r.groups && p in RunningMembers(procs, g.pgid) ==> Excused(procs, r, me, p)
  }

  lemma {:induction false} SiblingExact(procs: Procs, r: Record, p: Pid)
    requires p in procs
    ensures Sibling(procs, r, p) <==> BesideHolder(procs, r, p)
  {
    AncestorsExact(procs, p);
    AncestorsExact(procs, r.pid);
    hide Ancestors, Above;
  }

  /** `survivors` lists exactly the running members of the groups that nothing excuses. */
  lemma {:induction false} SurvivorsExact(procs: Procs, r: Record, me: Pid)
    ensures forall p :: p in Survivors(procs, r, me) <==>
      (exists g :: g in r.groups && p in RunningMembers(procs, g.pgid)) && !Excused(procs, r, me, p)
    ensures Survivors(procs, r, me) == {} <==> RunOver(procs, r, me)
  {
    AncestorsExact(procs, me);
    forall p | p in procs ensures Sibling(procs, r, p) <==> BesideHolder(procs, r, p) { SiblingExact(procs, r, p); }
    hide Ancestors, Above, Sibling, BesideHolder;
    assert forall p :: p in procs ==>
        (procs[p].pgid in PgidsOf(r.groups) && !procs[p].zombie <==> exists g :: g in r.groups && p in RunningMembers(procs, g.pgid));
  }

  // --- who holds the bed -------------------------------------------------------------------

  /** The process the record names, with the start time it was registered with, still running. */
  predicate HolderRuns(procs: Procs, r: Record)
  {
    r.pid in procs && procs[r.pid].start == r.pidStarted && !procs[r.pid].zombie
  }

  /** Someone of the run still runs: its holder, or anyone in a group it registered. */
  predicate SomeoneRuns(procs: Procs, r: Record)
  {
    HolderRuns(procs, r) || exists g, p :: g in r.groups && p in procs && procs[p].pgid == g.pgid && !procs[p].zombie
  }

  lemma {:induction false} DeadExact(procs: Procs, r: Record)
    ensures Dead(procs, r) <==> !SomeoneRuns(procs, r)
  {
    if !Dead(procs, r) && !HolderAlive(procs, r) {
      var g :| g in r.groups && RunningMembers(procs, g.pgid) != {};
      MembersExact(procs, g.pgid);
    }
    if g, p :| g in r.groups && p in procs && procs[p].pgid == g.pgid && !procs[p].zombie {
      assert p in RunningMembers(procs, g.pgid);
    }
  }

  lemma {:induction false} MembersExact(procs: Procs, pgid: Pid)
    ensures RunningMembers(procs, pgid) != {} <==> exists p :: p in procs && procs[p].pgid == pgid && !procs[p].zombie
  {
    var members := RunningMembers(procs, pgid);
    assert forall p :: p in members <==> p in procs && procs[p].pgid == pgid && !procs[p].zombie;
    if forall p :: p in procs ==> procs[p].pgid != pgid || procs[p].zombie {
      assert forall p :: p !in members;
      assert members == {};
    }
  }

  lemma {:induction false} RunMemberExact(procs: Procs, r: Record, pid: Pid)
    ensures IsRunMember(procs, r, pid) <==> HolderRuns(procs, r) && (pid == r.pid || Above(procs, r.pid, pid))
  {
    AncestorsExact(procs, pid);
    hide Ancestors, Above;
  }

  /** The group `pid` is in, and whether it leads it, is below the one that does, or neither. */
  ghost predicate Registers(procs: Procs, pid: Pid, g: Group)
  {
    pid in procs && g.pid == pid && g.pgid == procs[pid].pgid
    && (g.note == Holder <==> g.pgid == pid)
    && (g.note == Ancestor <==> g.pgid != pid && Above(procs, g.pgid, pid))
  }

  lemma {:induction false} GroupExact(procs: Procs, pid: Pid)
    requires pid in procs
    ensures Registers(procs, pid, GroupOf(procs, pid))
  {
    AncestorsExact(procs, pid);
    hide Ancestors, Above;
  }

  /** What an entry of the reservations file says of a lease. */
  predicate Shows(rendered: Option<seq<Entry>>, r: Record)
  {
    rendered == Some([Entry(r.caller.user, r.caller.resources)])
  }

  /** A record made for `pid`: who, which process, its one group, and until when. */
  ghost predicate MadeFor(procs: Procs, now: int, pid: Pid, purpose: string, ttl: nat, who: Caller, r: Record)
  {
    pid in procs && r.caller == who && r.pid == pid && r.pidStarted == procs[pid].start && r.since == now
    && r.expires == now + ttl && r.purpose == purpose && |r.groups| == 1 && Registers(procs, pid, r.groups[0])
  }

  /** The record a nested acquire leaves: the same, with the group of `pid` unless it was there. */
  ghost predicate Joined(procs: Procs, pid: Pid, before: Record, after: Record)
  {
    pid in procs
    && if exists g :: g in before.groups && g.pgid == procs[pid].pgid then after == before
       else |after.groups| == |before.groups| + 1 && after == before.(groups := after.groups) && before.groups <= after.groups
            && Registers(procs, pid, after.groups[|before.groups|])
  }

  /** Each outcome of an attempt to acquire, when it comes about and what it leaves. */
  ghost predicate Attempted(f: Files, procs: Procs, now: int, pid: Pid, purpose: string, ttl: nat, who: Caller,
                            g: Files, outcome: AcquireOutcome)
  {
    match outcome
    case Taken =>
      f.disk.Free? && g.disk.Held? && MadeFor(procs, now, pid, purpose, ttl, who, g.disk.record) && Shows(g.rendered, g.disk.record)
    case TakenOver =>
      f.disk.Held? && !SomeoneRuns(procs, f.disk.record)
      && g.disk.Held? && MadeFor(procs, now, pid, purpose, ttl, who, g.disk.record) && Shows(g.rendered, g.disk.record)
    case Reentered =>
      f.disk.Held? && HolderRuns(procs, f.disk.record) && (pid == f.disk.record.pid || Above(procs, f.disk.record.pid, pid))
      && g.disk.Held? && Joined(procs, pid, f.disk.record, g.disk.record) && Shows(g.rendered, g.disk.record)
    case StillHeld =>
      f.disk.Held? && SomeoneRuns(procs, f.disk.record)
      && !(HolderRuns(procs, f.disk.record) && (pid == f.disk.record.pid || Above(procs, f.disk.record.pid, pid)))
      && g.disk == f.disk && Shows(g.rendered, f.disk.record)
    case Failed =>
      g == f && (f.disk.Unreadable? || (pid !in procs && (f.disk.Held? ==> !SomeoneRuns(procs, f.disk.record))))
  }

  /** An attempt to acquire has the outcome its conditions call for, and leaves what it should. */
  lemma {:induction false} AttemptExact(f: Files, procs: Procs, now: int, pid: Pid, purpose: string, ttl: nat, who: Caller)
    ensures var (g, outcome) := TryAcquire(f, procs, now, pid, purpose, ttl, who);
      Attempted(f, procs, now, pid, purpose, ttl, who, g, outcome)
  {
    if pid in procs { GroupExact(procs, pid); }
    if f.disk.Held? {
      DeadExact(procs, f.disk.record);
      RunMemberExact(procs, f.disk.record, pid);
    }
    hide GroupOf, Registers, Dead, IsRunMember, SomeoneRuns, Above, HolderRuns;
    if f.disk.Held? && IsRunMember(procs, f.disk.record, pid) {
      MemberKnown(procs, f.disk.record, pid);
      GroupPgid(procs, pid);
    }
  }

  lemma {:induction false} MemberKnown(procs: Procs, r: Record, pid: Pid)
    requires IsRunMember(procs, r, pid)
    ensures pid in procs
  {
  }

  lemma {:induction false} GroupPgid(procs: Procs, pid: Pid)
    requires pid in procs
    ensures GroupOf(procs, pid).pgid == procs[pid].pgid && Registers(procs, pid, GroupOf(procs, pid))
  {
    GroupExact(procs, pid);
  }
}
