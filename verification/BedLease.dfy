/** The lease's verbs as the script runs them: two files written and removed under the cell's lock. */
module BedLease {
  import opened Texts
  import opened Processes
  import opened LeaseSpec
  import LeaseLaws

  lemma {:induction false} MemberExists(procs: Procs, r: Record, pid: Pid)
    requires IsRunMember(procs, r, pid)
    ensures pid in procs
  {
  }

  class Cell {
    var disk: Disk
    var rendered: Option<seq<Entry>>

    ghost function Contents(): Files
      reads this
    {
      Files(disk, rendered)
    }

    /** A cell no verb has touched. */
    constructor ()
      ensures Contents() == Files(Free, None)
    {
      disk, rendered := Free, None;
    }

    method WriteRecord(r: Record)
      modifies this`disk
      ensures disk == Held(r)
    {
      disk := Held(r);
    }

    method Render(r: Option<Record>)
      modifies this`rendered
      ensures rendered == Some(Entries(r))
    {
      var entries := [];
      if r.Some? {
        entries := [Entry(r.value.caller.user, r.value.caller.resources)];
      }
      rendered := Some(entries);
    }

    /** No reservation is shown by the time the record goes. */
    method RemoveRecord()
      modifies this
      ensures Contents() == Files(Free, Some([]))
    {
      Render(None);
      disk := Free;
    }

    /** One attempt under the lock. */
    method TryAcquire(procs: Procs, now: int, pid: Pid, purpose: string, ttl: nat, who: Caller)
      returns (outcome: AcquireOutcome)
      modifies this
      ensures (Contents(), outcome) == LeaseSpec.TryAcquire(old(Contents()), procs, now, pid, purpose, ttl, who)
      ensures LeaseLaws.Attempted(old(Contents()), procs, now, pid, purpose, ttl, who, Contents(), outcome)
    {
      LeaseLaws.AttemptExact(Contents(), procs, now, pid, purpose, ttl, who);
      hide IsRunMember, Dead, GroupNote, LeaseLaws.Attempted;
      if disk.Unreadable? {
        return Failed;
      }
      if disk.Free? {
        if pid !in procs {
          return Failed;
        }
        var taken := NewRecord(procs, now, pid, purpose, ttl, who);
        WriteRecord(taken);
        Render(Some(taken));
        return Taken;
      }
      var record := disk.record;
      if IsRunMember(procs, record, pid) {
        MemberExists(procs, record, pid);
        var mine := GroupOf(procs, pid);
        if mine.pgid !in PgidsOf(record.groups) {
          record := record.(groups := record.groups + [mine]);
          WriteRecord(record);
        }
        Render(Some(record));
        return Reentered;
      }
      if !Dead(procs, record) {
        Render(Some(record));
        return StillHeld;
      }
      if pid !in procs {
        return Failed;
      }
      var taken := NewRecord(procs, now, pid, purpose, ttl, who);
      WriteRecord(taken);
      Render(Some(taken));
      return TakenOver;
    }

    /** Release, up to its drain. */
    method BeginRelease(procs: Procs, pid: Pid, force: bool) returns (outcome: BeginOutcome)
      modifies this
      ensures (Contents(), outcome) == LeaseSpec.BeginRelease(old(Contents()), procs, pid, force)
      // only force ends a lease here, and it always does
      ensures !force && old(disk).Held? ==> disk == old(disk)
      ensures force ==> disk.Free? && rendered == Some([])
      // a release drains for the live holder alone, and then nothing is written yet
      ensures outcome.MustDrain? <==> !force && old(disk).Held? && old(disk).record.pid == pid && HolderAlive(procs, old(disk).record)
      ensures outcome.MustDrain? ==> Contents() == old(Contents()) && disk == Held(outcome.record)
      ensures outcome == Refused ==> disk.Unreadable? && Contents() == old(Contents())
      ensures !outcome.MustDrain? && outcome != Refused ==> !disk.Unreadable? && Agrees(Contents())
    {
      if disk.Unreadable? {
        if !force {
          return Refused;
        }
        RemoveRecord();
        return Forced;
      }
      if disk.Free? {
        Render(None);
        return AlreadyFree;
      }
      var record := disk.record;
      if force {
        RemoveRecord();
        return Forced;
      }
      if !(record.pid == pid && HolderAlive(procs, record)) {
        Render(Some(record));
        return NotHolder;
      }
      return MustDrain(record);
    }

    /** The re-read after the drain: who holds the cell now, and who of the run is left. A malformed
        record fails. */
    method DrainedRun(procs: Procs, record: Record, drained: set<Pid>, me: Pid) returns (r: Option<(Option<Record>, set<Pid>)>)
      ensures r == if disk.Unreadable? then None else Some(Reread(disk, procs, record, drained, me))
      ensures r.Some? ==> (r.value.0.None? <==> disk.Free?) && (disk.Held? ==> r.value.0 == Some(disk.record))
      ensures r.Some? ==> drained <= r.value.1
      // if it is still this run's and says nobody is left, nobody of a group the run grew by is left either
      ensures r.Some? && SameRun(Some(record), r.value.0) && r.value.1 == {} && r.value.0.value.groups != record.groups
        ==> LeaseLaws.RunOver(procs, r.value.0.value, me)
    {
      hide Survivors, LeaseLaws.RunOver;
      if disk.Unreadable? {
        return None;
      }
      var left := drained;
      var current := ReadRecord(disk);
      if SameRun(Some(record), current) && current.value.groups != record.groups {
        left := left + Survivors(procs, current.value, me);
        assert Survivors(procs, current.value, me) <= left;
        LeaseLaws.SurvivorsExact(procs, current.value, me);
      }
      return Some((current, left));
    }

    /** Release, after its drain. */
    method FinishRelease(record: Record, current: Option<Record>, left: set<Pid>) returns (outcome: FinishOutcome)
      modifies this
      ensures (Contents(), outcome) == LeaseSpec.FinishRelease(old(Contents()), record, current, left)
      // the lease ends exactly when it is still the run's, unchanged, and nobody is left
      ensures outcome == Released <==>
        current.Some? && SameRun(Some(record), current) && old(disk) == Held(current.value) && left == {}
      ensures outcome == Released ==> Contents() == Files(Free, Some([]))
      ensures outcome != Released ==> disk == old(disk)
      ensures outcome == Kept ==> left != {} && Agrees(Contents())
      ensures outcome == LostRace ==> rendered == Some(Entries(current))
      ensures outcome == Aborted ==> Contents() == old(Contents())
    {
      if !SameRun(Some(record), current) {
        Render(current);
        return LostRace;
      }
      if disk.Unreadable? {
        return Aborted;
      }
      if ReadRecord(disk) != current {
        Render(current);
        return LostRace;
      }
      if left != {} {
        Render(current);
        return Kept;
      }
      RemoveRecord();
      return Released;
    }

    /** Re-render from the record. */
    method Status()
      modifies this`rendered
      ensures Contents() == LeaseSpec.Status(old(Contents()))
      ensures !disk.Unreadable? ==> Agrees(Contents())
    {
      if !disk.Unreadable? {
        Render(ReadRecord(disk));
      }
    }
  }
}
