/** Laws of dump texts: canonical form, and the round trip. */
module DumpLaws {
  import opened Texts
  import opened EncodedValues
  import opened DumpRecords
  import opened DumpText
  import RecordLaws
  import EncodedLaws

  // --- sorting records ---------------------------------------------------------------------

  lemma {:induction false} CarriedInsert(x: Keyed<Record>, xs: seq<Keyed<Record>>)
    ensures multiset(Carried(Insert(x, xs))) == multiset{x.item} + multiset(Carried(xs))
  {
    if xs == [] {
    } else if LeLex(x.key, xs[0].key) {
      assert ([x] + xs)[1..] == xs;
    } else {
      CarriedInsert(x, xs[1..]);
      assert ([xs[0]] + Insert(x, xs[1..]))[1..] == Insert(x, xs[1..]);
    }
  }

  lemma {:induction false} CarriedSort(xs: seq<Keyed<Record>>)
    ensures multiset(Carried(Sort(xs))) == multiset(Carried(xs))
  {
    if xs != [] {
      CarriedSort(xs[1..]);
      CarriedInsert(xs[0], Sort(xs[1..]));
    }
  }

  /** Every item is tagged with its own sort key. */
  predicate SelfKeyed(xs: seq<Keyed<Record>>)
  {
    forall x :: x in xs ==> x.key == SortKey(x.item)
  }

  lemma {:induction false} KeysSelf(rs: seq<Record>)
    ensures SelfKeyed(Keys(rs)) && Carried(Keys(rs)) == rs
  {
    hide SortKey;
  }

  lemma {:induction false} CarriedBack(xs: seq<Keyed<Record>>)
    requires SelfKeyed(xs)
    ensures Keys(Carried(xs)) == xs
  {
    hide SortKey;
    forall i | 0 <= i < |xs| ensures Keys(Carried(xs))[i] == xs[i] {
      assert xs[i] in xs;
    }
  }

  /** Sorting rearranges records, and what it sorts by is unchanged. */
  lemma {:induction false} SortedRecords(rs: seq<Record>)
    ensures multiset(SortRecords(rs)) == multiset(rs)
    ensures Keys(SortRecords(rs)) == Sort(Keys(rs))
  {
    hide SortKey;
    KeysSelf(rs);
    SortStable(Keys(rs));
    CarriedBack(Sort(Keys(rs)));
    CarriedSort(Keys(rs));
  }

  /** A sorted list sorts to itself. */
  lemma {:induction false} SortTwice(rs: seq<Record>)
    ensures SortRecords(SortRecords(rs)) == SortRecords(rs)
  {
    hide SortKey;
    SortedRecords(rs);
    SortStable(Keys(rs));
    SortCanonical(Sort(Keys(rs)), Keys(rs));
  }

  // --- structure does not depend on order --------------------------------------------------

  lemma {:induction false} DistinctOnce(rs: seq<Record>, x: Record)
    requires DistinctIdentities(rs)
    ensures multiset(rs)[x] <= 1
  {
    hide Identity;
    if rs != [] {
      assert rs == [rs[0]] + rs[1..];
      assert DistinctIdentities(rs[1..]) by {
        forall i, j | 0 <= i < j < |rs[1..]| ensures Identity(rs[1..][i]) != Identity(rs[1..][j]) {
          assert Identity(rs[i + 1]) != Identity(rs[j + 1]);
        }
      }
      DistinctOnce(rs[1..], x);
      forall j | 0 <= j < |rs[1..]| ensures rs[1..][j] != rs[0] {
        assert Identity(rs[0]) != Identity(rs[j + 1]);
      }
    }
  }

  lemma {:induction false} Twice(rs: seq<Record>, i: nat, j: nat)
    requires i < j < |rs| && rs[i] == rs[j]
    ensures multiset(rs)[rs[i]] >= 2
  {
    assert rs == rs[..j] + rs[j..];
    assert rs[i] in rs[..j] && rs[i] in rs[j..] by { assert rs[..j][i] == rs[i] && rs[j..][0] == rs[j]; }
  }

  lemma {:induction false} SameMembers(rs: seq<Record>, ts: seq<Record>)
    requires multiset(rs) == multiset(ts)
    ensures forall x :: x in rs <==> x in ts
  {
    forall x ensures x in rs <==> x in ts {
      assert x in multiset(rs) <==> x in multiset(ts);
    }
  }

  lemma {:induction false} DistinctPermutes(rs: seq<Record>, ts: seq<Record>)
    requires DistinctIdentities(rs) && multiset(rs) == multiset(ts)
    ensures DistinctIdentities(ts)
  {
    hide Identity;
    SameMembers(rs, ts);
    forall i, j | 0 <= i < j < |ts| ensures Identity(ts[i]) != Identity(ts[j]) {
      assert ts[i] in ts && ts[j] in ts;
      var a :| 0 <= a < |rs| && rs[a] == ts[i];
      var b :| 0 <= b < |rs| && rs[b] == ts[j];
      if ts[i] == ts[j] {
        Twice(ts, i, j);
        DistinctOnce(rs, ts[i]);
      }
    }
  }

  /** `Dump` accepts or refuses records whatever their order. */
  lemma {:induction false} StructurePermutes(rs: seq<Record>, ts: seq<Record>)
    requires multiset(rs) == multiset(ts)
    ensures Structured(rs) <==> Structured(ts)
  {
    SameMembers(rs, ts);
    if Structured(rs) { DistinctPermutes(rs, ts); }
    if Structured(ts) { DistinctPermutes(ts, rs); }
    hide DistinctIdentities, NamesFor, IsRecordOf, Required, BindingOf;
    OwnedCarries(rs, ts);
    OwnedCarries(ts, rs);
    CompleteCarries(rs, ts);
    CompleteCarries(ts, rs);
  }

  lemma {:induction false} OwnedCarries(rs: seq<Record>, ts: seq<Record>)
    requires forall x :: x in rs <==> x in ts
    ensures Owned(rs) ==> Owned(ts)
  {
    hide NamesFor, BindingOf;
    if Owned(rs) {
      forall rec | rec in ts && rec.kind != "format"
        ensures exists name :: name in ts && NamesFor(name, BindingOf(rec), rec.kind)
      {
        var name :| name in rs && NamesFor(name, BindingOf(rec), rec.kind);
        assert name in ts;
      }
    }
  }

  lemma {:induction false} CompleteCarries(rs: seq<Record>, ts: seq<Record>)
    requires forall x :: x in rs <==> x in ts
    ensures Complete(rs) ==> Complete(ts)
  {
    hide IsRecordOf, Required;
    if Complete(rs) {
      forall name, needed | name in ts && name.kind == "name" && needed in Required(FirstField(name))
        ensures exists rec :: rec in ts && IsRecordOf(rec, needed, name.key)
      {
        var rec :| rec in rs && IsRecordOf(rec, needed, name.key);
        assert rec in ts;
      }
    }
  }

  // --- lines -------------------------------------------------------------------------------

  lemma {:induction false} UnlinesJoin(lines: seq<string>)
    requires lines != []
    ensures Unlines(lines) == Join(lines, '\n') + ['\n'] == Join(lines + [""], '\n')
  {
    var tail := lines[1..];
    assert (lines + [""])[1..] == tail + [""];
    if tail == [] {
      assert Join(tail + [""], '\n') == "";
      assert ['\n'] + "" == ['\n'];
    } else {
      UnlinesJoin(tail);
      Assoc(lines[0], ['\n'] + Join(tail, '\n'), ['\n']);
      Assoc(['\n'], Join(tail, '\n'), ['\n']);
    }
  }

  /** Lines written one by one split back into those lines. */
  lemma {:induction false} LinesSplit(lines: seq<string>)
    requires lines != [] && forall line :: line in lines ==> '\n' !in line
    ensures var t := Unlines(lines);
      t != "" && t[|t| - 1] == '\n' && Split(t[..|t| - 1], '\n') == lines && Split(t, '\n') == lines + [""]
  {
    UnlinesJoin(lines);
    SplitJoin(lines, '\n');
    SplitJoin(lines + [""], '\n');
    hide Split, Unlines;
    var t := Unlines(lines);
    assert t[..|t| - 1] == Join(lines, '\n');
  }

  lemma {:induction false} LinesRead(rs: seq<Record>)
    requires AllChecked(rs)
    ensures ReadLines(RecordLines(rs)) == Some(rs)
    ensures forall line :: line in RecordLines(rs) ==> '\n' !in line
  {
    hide CheckRecord, ParseRecord, RenderRecord;
    if rs != [] {
      RecordLaws.RecordReads(rs[0]);
      LinesRead(rs[1..]);
      assert rs == [rs[0]] + rs[1..];
    }
  }

  lemma {:induction false} SchemaText(n: int)
    ensures AllDigits(IntText(n)) <==> n >= 0
    ensures n >= 0 ==> ReadNat(IntText(n)) == n
    ensures '\n' !in IntText(n)
  {
    EncodedLaws.NatReads(if n < 0 then -n else n);
    if n < 0 { assert IntText(n)[0] == '-' && IntText(n)[0] in IntText(n); }
  }

  lemma {:induction false} SchemaReads(n: int, text: string)
    requires |Split(text, '\n')| >= 2 && Split(text, '\n')[1] == SCHEMA_PREFIX + IntText(n)
    ensures SchemaOf(text) == if n >= 0 then Some(n) else None
  {
    SchemaText(n);
    hide Split, IntText, ReadNat, AllDigits;
    var line := SCHEMA_PREFIX + IntText(n);
    assert line[..|SCHEMA_PREFIX|] == SCHEMA_PREFIX && line[|SCHEMA_PREFIX|..] == IntText(n);
  }

  /** The lines a dump of these records is made of. */
  function DumpLines(rs: seq<Record>, schema: int): seq<string>
  {
    [HEADER, SCHEMA_PREFIX + IntText(schema)] + RecordLines(SortRecords(rs))
  }

  lemma {:induction false} DumpLinesWhole(rs: seq<Record>, schema: int)
    requires AllChecked(rs)
    ensures forall line :: line in DumpLines(rs, schema) ==> '\n' !in line
    ensures ReadLines(RecordLines(SortRecords(rs))) == Some(SortRecords(rs)) && AllChecked(SortRecords(rs))
    ensures DumpLines(rs, schema)[2..] == RecordLines(SortRecords(rs))
  {
    hide CheckRecord, ReadLines, RecordLines, SortRecords;
    SortedRecords(rs);
    SameMembers(SortRecords(rs), rs);
    LinesRead(SortRecords(rs));
    SchemaText(schema);
  }

  /** Reading a rendered dump gives the records back in canonical order, or refuses what `Dump` refuses. */
  lemma {:induction false} DumpReads(rs: seq<Record>, schema: int)
    requires AllChecked(rs)
    ensures ParseDump(RenderDump(rs, schema))
         == if schema >= 0 && Structured(rs) then Some(Dump(schema, SortRecords(rs))) else None
  {
    hide CheckRecord, ReadLines, RecordLines, SortRecords, Structured, Unlines, Split, SchemaOf, IntText, AllChecked;
    var lines := DumpLines(rs, schema);
    DumpLinesWhole(rs, schema);
    LinesSplit(lines);
    SchemaReads(schema, Unlines(lines));
    SortedRecords(rs);
    StructurePermutes(rs, SortRecords(rs));
    ReadNone();
  }

  lemma {:induction false} ReadNone()
    ensures ReadLines([]) == Some([])
  {
  }

  /** Rendering a parsed canonical dump again changes nothing. */
  lemma {:induction false} RenderFixedPoint(rs: seq<Record>, schema: int)
    requires AllChecked(rs) && ParseDump(RenderDump(rs, schema)).Some?
    ensures var dump := ParseDump(RenderDump(rs, schema)).value;
      RenderDump(dump.records, dump.schema) == RenderDump(rs, schema)
  {
    hide CheckRecord, ParseDump, SortRecords, RecordLines, Unlines, Structured, AllChecked;
    DumpReads(rs, schema);
    SortTwice(rs);
  }
}
