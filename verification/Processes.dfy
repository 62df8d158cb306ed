/** The process table the lease reads: who runs, in which group, under whom. */
module Processes {
  type Pid = int

  datatype Proc = Proc(start: nat, pgid: Pid, parent: Pid, zombie: bool)

  type Procs = map<Pid, Proc>

  /** The very process that began at `started`, still running. */
  predicate Alive(procs: Procs, pid: Pid, started: nat)
  {
    pid in procs && procs[pid].start == started && !procs[pid].zombie
  }

  /** Parent, grandparent, ... after `chain`, up to pid 0, an unknown process or a cycle. */
  function AncestorsFrom(procs: Procs, current: Pid, chain: seq<Pid>): seq<Pid>
    decreases procs.Keys - (set p | p in chain)
  {
    if current !in procs then chain
    else
      var parent := procs[current].parent;
      if parent <= 0 || parent in chain then chain
      else if parent !in procs then chain + [parent]
      else
        assert parent in procs.Keys - (set p | p in chain);
        AncestorsFrom(procs, parent, chain + [parent])
  }

  function Ancestors(procs: Procs, pid: Pid): seq<Pid>
  {
    AncestorsFrom(procs, pid, [])
  }

  /** The members of a group that still run. */
  function RunningMembers(procs: Procs, pgid: Pid): set<Pid>
  {
    set p | p in procs && procs[p].pgid == pgid && !procs[p].zombie
  }
}
