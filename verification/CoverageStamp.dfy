/** The stamp files of a clone, and the operations that create, rewrite and delete them. */
module CoverageStamp {
  import opened Texts
  import opened StampSpec

  class Store {
    /** The clone's stamps, by tree. */
    var stamps: map<string, StampFile>
    /** Each checkout's pending record. */
    var pending: map<string, PendingFile>

    constructor ()
      ensures stamps == map[] && pending == map[]
    {
      stamps, pending := map[], map[];
    }

    /** The first part of `start`: the tree's previous stamp goes. */
    method Drop(tree: string)
      modifies this`stamps
      ensures stamps == old(stamps) - {tree}
    {
      if tree in stamps {
        stamps := stamps - {tree};
      }
    }

    /** The rest of `start`: what this run sees, and whether it may be stamped. */
    method Begin(checkout: string, tree: string, env: Env, gate: Gate, overridden: seq<string>, now: int)
      modifies this`pending
      ensures pending == old(pending)[checkout := Record(Recorded(tree, env, gate, overridden, now))]
    {
      hide DirtRefusals, MajorMinor;
      var why := DirtRefusals(env);
      if overridden != [] {
        why := why + {Refusal.Overridden(overridden)};
      }
      if MajorMinor(env.python) != gate.primary {
        why := why + {ForeignPython(env.python)};
      }
      assert why == Refusals(env, gate, overridden);
      pending := pending[checkout := Record(Pending(tree, env.dirt, env.python, env.assets, why, gate, now, []))];
    }

    /** `mark`: a leg ended. Nothing changes without a readable record. */
    method MarkLeg(checkout: string, leg: string, now: int)
      modifies this`pending
      ensures pending ==
        if checkout in old(pending) then old(pending)[checkout := Marked(old(pending)[checkout], Mark(leg, now))]
        else old(pending)
      // the marks of a readable record grow by this one, and nothing else of it changes
      ensures checkout in old(pending) && old(pending)[checkout].Record? ==>
        checkout in pending && pending[checkout].Record?
        && var before := old(pending)[checkout].pending;
           pending[checkout].pending == before.(marks := before.marks + [Mark(leg, now)])
    {
      if checkout in pending {
        match pending[checkout]
        case Garbled => assert pending[checkout := Garbled] == pending;
        case Record(p) => pending := pending[checkout := Record(p.(marks := p.marks + [Mark(leg, now)]))];
      }
    }

    /** The first part of `finish`: take the pending record, if it reads. */
    method Take(checkout: string) returns (taken: Option<Pending>)
      modifies this`pending
      ensures taken == if checkout in old(pending) && old(pending)[checkout].Record? then Some(old(pending)[checkout].pending) else None
      ensures pending == if taken.Some? then old(pending) - {checkout} else old(pending)
    {
      if checkout !in pending || pending[checkout].Garbled? {
        return None;
      }
      taken := Some(pending[checkout].pending);
      pending := pending - {checkout};
    }

    /** The end of `finish`: a stamp, if this is what `start` saw and it refused nothing. */
    method Settle(p: Pending, env: Env) returns (stamped: bool)
      modifies this`stamps
      ensures stamped <==> p.refusals == {} && Unchanged(p, env)
      ensures stamps == if stamped then old(stamps)[p.tree := Stamped(StampOf(p))] else old(stamps)
    {
      if p.refusals != {} {
        return false;
      }
      if (env.tree, env.dirt) != (p.tree, p.dirt) {
        return false;
      }
      if env.python != p.python {
        return false;
      }
      if env.assets != p.assets {
        return false;
      }
      stamps := stamps[env.tree := Stamped(Stamp(FORMAT, env.tree, env.python, env.assets, Some(p.gate)))];
      return true;
    }

    /** `check`: the exit status for this checkout, building up every problem. */
    method Check(env: Env, gate: Gate, overridden: seq<string>) returns (status: nat)
      ensures status == Verdict(if env.tree in stamps then Some(stamps[env.tree]) else None, env, gate, overridden)
      ensures status == 2 <==> !Clean(env, gate, overridden)
      ensures status == 0 <==>
        Clean(env, gate, overridden) && env.tree in stamps && stamps[env.tree].Stamped? && Speaks(stamps[env.tree].stamp, env, gate)
      ensures status <= 2
    {
      VerdictExact(if env.tree in stamps then Some(stamps[env.tree]) else None, env, gate, overridden);
      hide Refusals, Clean;
      var problems: set<Problem> := {};
      if env.tree !in stamps {
        problems := problems + {NoStamp};
      } else {
        match stamps[env.tree]
        case Unreadable => problems := problems + {BadStamp};
        case Stamped(stamp) =>
          if stamp.format != FORMAT { problems := problems + {BadFormat}; }
          if stamp.tree != env.tree { problems := problems + {TreeDiffers}; }
          if stamp.python != env.python { problems := problems + {PythonDiffers}; }
          if stamp.assets != env.assets { problems := problems + {AssetsDiffer}; }
          match stamp.gate
          case None => problems := problems + {BadGate};
          case Some(recorded) => problems := problems + GateProblems(recorded, gate);
      }
      if Refusals(env, gate, overridden) != {} {
        return 2;
      }
      if problems != {} {
        return 1;
      }
      return 0;
    }

    /** `_timing`'s loop: what each marked leg took. */
    method Timing(p: Pending) returns (legs: seq<nat>)
      ensures legs == LegSeconds(p.started, p.marks)
    {
      legs := [];
      var previous := p.started;
      for i := 0 to |p.marks|
        invariant LegSeconds(p.started, p.marks) == legs + LegSeconds(previous, p.marks[i..])
      {
        var item := p.marks[i];
        assert p.marks[i..][0] == item && p.marks[i..][1..] == p.marks[i + 1..];
        legs := legs + [if item.at > previous then item.at - previous else 0];
        previous := item.at;
      }
      assert p.marks[|p.marks|..] == [];
    }
  }
}
