/** The bed lease as functions: what each locked section does to the cell's two files. */
module LeaseSpec {
  import opened Texts
  import opened Processes

  const SIBLING_WINDOW_TICKS := 200

  datatype Note = Holder | Ancestor | Foreign

  /** A process group a run registered, by which process, and how the two belong together. */
  datatype Group = Group(pgid: Pid, pid: Pid, note: Note)

  /** Who acquires, and what the cell requires: what a new record copies. */
  datatype Caller = Caller(owner: string, user: string, checkout: string, resources: seq<string>)

  datatype Record = Record(
    caller: Caller, pid: Pid, pidStarted: nat, groups: seq<Group>, since: int, expires: int, purpose: string)

  /** The structured record's file. */
  datatype Disk = Free | Unreadable | Held(record: Record)

  /** One entry of the reservations file. */
  datatype Entry = Entry(user: string, resources: seq<string>)

  /** Both files; the reservations file may never have been written. */
  datatype Files = Files(disk: Disk, rendered: Option<seq<Entry>>)

  // --- reading a record ------------------------------------------------------------------

  function PgidsOf(groups: seq<Group>): set<Pid>
  {
    set g | g in groups :: g.pgid
  }

  predicate HolderAlive(procs: Procs, r: Record)
  {
    Alive(procs, r.pid, r.pidStarted)
  }

  /** Nothing of the record's run is running: not the holder, not a member of any recorded group. */
  predicate Dead(procs: Procs, r: Record)
  {
    !HolderAlive(procs, r) && forall g :: g in r.groups ==> RunningMembers(procs, g.pgid) == {}
  }

  /** `pid` is the holder, still that process, or one of its descendants. */
  predicate IsRunMember(procs: Procs, r: Record, pid: Pid)
  {
    HolderAlive(procs, r) && (r.pid == pid || r.pid in Ancestors(procs, pid))
  }

  /** Started by the holder's own parent beside it, in the sibling window: not the run's. */
  predicate Sibling(procs: Procs, r: Record, pid: Pid)
    requires pid in procs
  {
    var chain, above := Ancestors(procs, pid), Ancestors(procs, r.pid);
    var launcher := if above == [] then [] else above[..1];
    (if chain == [] then [] else chain[..1]) == launcher && launcher != [1] && r.pid !in chain
    && procs[pid].start <= r.pidStarted + SIBLING_WINDOW_TICKS
  }

  /** The recorded groups' running members that are the run's own and not the asking lane. */
  function Survivors(procs: Procs, r: Record, me: Pid): set<Pid>
  {
    var mine := Ancestors(procs, me);
    set p | p in procs && procs[p].pgid in PgidsOf(r.groups) && !procs[p].zombie
            && p != me && p !in mine && !Sibling(procs, r, p)
  }

  predicate SameRun(a: Option<Record>, b: Option<Record>)
  {
    a.Some? && b.Some? && a.value.pid == b.value.pid && a.value.pidStarted == b.value.pidStarted
  }

  function ReadRecord(disk: Disk): Option<Record>
    requires !disk.Unreadable?
  {
    if disk.Held? then Some(disk.record) else None
  }

  // --- writing ---------------------------------------------------------------------------

  function Entries(r: Option<Record>): seq<Entry>
  {
    if r.None? then [] else [Entry(r.value.caller.user, r.value.caller.resources)]
  }

  function GroupNote(procs: Procs, pid: Pid): Note
    requires pid in procs
  {
    if procs[pid].pgid == pid then Holder
    else if procs[pid].pgid in Ancestors(procs, pid) then Ancestor
    else Foreign
  }

  function GroupOf(procs: Procs, pid: Pid): Group
    requires pid in procs
  {
    Group(procs[pid].pgid, pid, GroupNote(procs, pid))
  }

  function NewRecord(procs: Procs, now: int, pid: Pid, purpose: string, ttl: nat, who: Caller): Record
    requires pid in procs
  {
    Record(who, pid, procs[pid].start, [GroupOf(procs, pid)], now, now + ttl, purpose)
  }

  // --- the locked sections ---------------------------------------------------------------

  datatype AcquireOutcome = Taken | TakenOver | Reentered | StillHeld | Failed

  /** One attempt to acquire. A malformed record, or a `pid` gone when its group is read, fails. */
  function TryAcquire(f: Files, procs: Procs, now: int, pid: Pid, purpose: string, ttl: nat, who: Caller)
    : (r: (Files, AcquireOutcome))
  {
    match f.disk
    case Unreadable => (f, Failed)
    case Free =>
      if pid !in procs then (f, Failed)
      else
        var taken := NewRecord(procs, now, pid, purpose, ttl, who);
        (Files(Held(taken), Some(Entries(Some(taken)))), Taken)
    case Held(record) =>
      if IsRunMember(procs, record, pid) then
        assert pid in procs;
        var mine := GroupOf(procs, pid);
        var grown := if mine.pgid in PgidsOf(record.groups) then record
                     else record.(groups := record.groups + [mine]);
        (Files(Held(grown), Some(Entries(Some(grown)))), Reentered)
      else if !Dead(procs, record) then
        (f.(rendered := Some(Entries(Some(record)))), StillHeld)
      else if pid !in procs then (f, Failed)
      else
        var taken := NewRecord(procs, now, pid, purpose, ttl, who);
        (Files(Held(taken), Some(Entries(Some(taken)))), TakenOver)
  }

  datatype BeginOutcome = AlreadyFree | Forced | NotHolder | MustDrain(record: Record) | Refused

  /** The first locked section of `release`. */
  function BeginRelease(f: Files, procs: Procs, pid: Pid, force: bool): (r: (Files, BeginOutcome))
  {
    match f.disk
    case Unreadable => if force then (Files(Free, Some([])), Forced) else (f, Refused)
    case Free => (f.(rendered := Some([])), AlreadyFree)
    case Held(record) =>
      if force then (Files(Free, Some([])), Forced)
      else if record.pid == pid && HolderAlive(procs, record) then (f, MustDrain(record))
      else (f.(rendered := Some(Entries(Some(record)))), NotHolder)
  }

  /** What `drained_run` returns from its locked re-read: the current record and who is left. */
  function Reread(disk: Disk, procs: Procs, record: Record, left: set<Pid>, me: Pid): (r: (Option<Record>, set<Pid>))
    requires !disk.Unreadable?
  {
    var current := ReadRecord(disk);
    if SameRun(Some(record), current) && current.value.groups != record.groups
    then (current, left + Survivors(procs, current.value, me))
    else (current, left)
  }

  datatype FinishOutcome = LostRace | Kept | Released | Aborted

  /** The last locked section of `release`; a lost race renders `current`, read before this section. */
  function FinishRelease(f: Files, record: Record, current: Option<Record>, left: set<Pid>)
    : (r: (Files, FinishOutcome))
  {
    if !SameRun(Some(record), current) then (f.(rendered := Some(Entries(current))), LostRace)
    else if f.disk.Unreadable? then (f, Aborted)
    else if ReadRecord(f.disk) != current then (f.(rendered := Some(Entries(current))), LostRace)
    else if left != {} then (f.(rendered := Some(Entries(current))), Kept)
    else (Files(Free, Some([])), Released)
  }

  function Status(f: Files): Files
  {
    if f.disk.Unreadable? then f else f.(rendered := Some(Entries(ReadRecord(f.disk))))
  }

  /** The reservations file says what the record says. */
  predicate Agrees(f: Files)
    requires !f.disk.Unreadable?
  {
    f.rendered == Some(Entries(ReadRecord(f.disk)))
  }
}
