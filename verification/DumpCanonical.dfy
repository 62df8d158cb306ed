/** The canonical form: which record lists render to the same text. */
module DumpCanonical {
  import opened Texts
  import opened EncodedValues
  import opened DumpRecords
  import opened DumpText
  import opened DumpLaws
  import RecordLaws

  /** The enum members of a binding, in the order the producer gave them. */
  function EnumsOf(rs: seq<Record>, binding: string): (r: seq<Record>)
    ensures forall rec :: rec in r <==> rec in rs && IsRecordOf(rec, "enum", binding)
  {
    if rs == [] then []
    else (if IsRecordOf(rs[0], "enum", binding) then [rs[0]] else []) + EnumsOf(rs[1..], binding)
  }

  function EnumKey(binding: string): seq<string> { ["0", binding, "7", ""] }

  lemma {:induction false} RankEnum(kind: string)
    requires kind in KINDS
    ensures kind == "enum" <==> KindRank(kind) == "7"
  {
  }

  lemma {:induction false} EnumRank(rec: Record)
    requires CheckRecord(rec)
    ensures rec.kind == "enum" <==> SortKey(rec)[2] == "7"
    ensures rec.kind == "enum" ==> SortKey(rec) == EnumKey(rec.key)
  {
    RecordLaws.FieldsPresent(rec);
    RankEnum(rec.kind);
    hide CheckRecord, KindRank, OwnerPart, NamePart;
  }

  lemma {:induction false} RankReads(a: string, b: string)
    requires a in KINDS && b in KINDS && KindRank(a) == KindRank(b)
    ensures a == b
  {
  }

  /** Only enum members of one binding share a sort key. */
  lemma {:induction false} KeyDetermines(a: Record, b: Record)
    requires CheckRecord(a) && CheckRecord(b) && SortKey(a) == SortKey(b)
    ensures a.kind == "enum" || Identity(a) == Identity(b)
    ensures a.kind == b.kind
  {
    RecordLaws.FieldsPresent(a);
    RecordLaws.FieldsPresent(b);
    RecordLaws.KeyPresent(a);
    RecordLaws.KeyPresent(b);
    hide CheckRecord, IsKey, OwnerPart, NamePart, KindRank;
    if a.kind != "format" && b.kind != "format" {
      RankReads(a.kind, b.kind);
      if a.kind == "member" {
        RecordLaws.MemberKey(a.key);
        RecordLaws.MemberKey(b.key);
      }
    }
  }

  lemma {:induction false} EnumsWithKey(rs: seq<Record>, binding: string)
    requires AllChecked(rs)
    ensures WithKey(Keys(rs), EnumKey(binding)) == Keys(EnumsOf(rs, binding))
  {
    hide CheckRecord, SortKey;
    if rs != [] {
      EnumsWithKey(rs[1..], binding);
      EnumRank(rs[0]);
      if SortKey(rs[0]) == EnumKey(binding) {
        assert EnumKey(rs[0].key)[1] == EnumKey(binding)[1];
        var rest := EnumsOf(rs[1..], binding);
        assert ([rs[0]] + rest)[1..] == rest;
      }
    }
  }

  lemma {:induction false} DistinctTail(rs: seq<Record>)
    requires rs != [] && DistinctIdentities(rs)
    ensures DistinctIdentities(rs[1..])
    ensures forall rec :: rec in rs[1..] ==> Identity(rec) != Identity(rs[0])
  {
    hide Identity;
    forall i, j | 0 <= i < j < |rs[1..]| ensures Identity(rs[1..][i]) != Identity(rs[1..][j]) {
      assert Identity(rs[i + 1]) != Identity(rs[j + 1]);
    }
    forall j | 0 <= j < |rs[1..]| ensures Identity(rs[1..][j]) != Identity(rs[0]) {
      assert Identity(rs[0]) != Identity(rs[j + 1]);
    }
  }

  /** Any other sort key belongs to one record at most. */
  lemma {:induction false} LoneWithKey(rs: seq<Record>, k: seq<string>)
    requires AllChecked(rs) && DistinctIdentities(rs) && |k| == 4 && k[2] != "7"
    ensures |WithKey(Keys(rs), k)| <= 1
  {
    hide CheckRecord, SortKey, Identity, DistinctIdentities;
    if rs != [] {
      DistinctTail(rs);
      LoneWithKey(rs[1..], k);
      if SortKey(rs[0]) == k {
        EnumRank(rs[0]);
        forall x | x in Keys(rs[1..]) ensures x.key != k {
          LaterKey(rs, x.item);
        }
        WithKeyEmpty(Keys(rs[1..]), k);
      }
    }
  }

  lemma {:induction false} LaterKey(rs: seq<Record>, rec: Record)
    requires AllChecked(rs) && DistinctIdentities(rs) && rs != [] && rec in rs[1..]
    requires rs[0].kind != "enum"
    ensures SortKey(rec) != SortKey(rs[0])
  {
    hide CheckRecord, SortKey, Identity, DistinctIdentities;
    DistinctTail(rs);
    if SortKey(rec) == SortKey(rs[0]) {
      KeyDetermines(rs[0], rec);
    }
  }

  lemma {:induction false} KeysMembers(rs: seq<Record>)
    ensures forall x :: x in Keys(rs) <==> x.item in rs && x.key == SortKey(x.item)
  {
    hide SortKey;
    forall x ensures x in Keys(rs) <==> x.item in rs && x.key == SortKey(x.item) {
      if x.item in rs && x.key == SortKey(x.item) {
        var i :| 0 <= i < |rs| && rs[i] == x.item;
        assert Keys(rs)[i] == x;
      }
    }
  }

  ghost predicate SameRecords(rs: seq<Record>, ts: seq<Record>)
  {
    forall rec :: rec in rs <==> rec in ts
  }

  lemma {:induction false} ItemMoves(rs: seq<Record>, ts: seq<Record>, k: seq<string>, x: Keyed<Record>)
    requires SameRecords(rs, ts) && x in WithKey(Keys(rs), k)
    ensures x in WithKey(Keys(ts), k)
  {
    hide SortKey, WithKey, Keys;
    WithKeyMembers(Keys(rs), k);
    KeysMembers(rs);
    KeysMembers(ts);
    WithKeyMembers(Keys(ts), k);
  }

  lemma {:induction false} SameLone(rs: seq<Record>, ts: seq<Record>, k: seq<string>)
    requires AllChecked(rs) && DistinctIdentities(rs) && AllChecked(ts) && DistinctIdentities(ts)
    requires SameRecords(rs, ts) && |k| == 4 && k[2] != "7"
    ensures WithKey(Keys(rs), k) == WithKey(Keys(ts), k)
  {
    LoneWithKey(rs, k);
    LoneWithKey(ts, k);
    hide CheckRecord, SortKey, DistinctIdentities, AllChecked, WithKey, Keys;
    forall x | x in WithKey(Keys(rs), k) ensures x in WithKey(Keys(ts), k) { ItemMoves(rs, ts, k, x); }
    forall x | x in WithKey(Keys(ts), k) ensures x in WithKey(Keys(rs), k) { ItemMoves(ts, rs, k, x); }
    SmallEqual(WithKey(Keys(rs), k), WithKey(Keys(ts), k));
  }

  lemma {:induction false} SameWithKey(rs: seq<Record>, ts: seq<Record>, k: seq<string>)
    requires AllChecked(rs) && DistinctIdentities(rs) && AllChecked(ts) && DistinctIdentities(ts)
    requires SameRecords(rs, ts) && forall b :: EnumsOf(rs, b) == EnumsOf(ts, b)
    ensures WithKey(Keys(rs), k) == WithKey(Keys(ts), k)
  {
    hide CheckRecord, DistinctIdentities, AllChecked, SameRecords;
    if |k| == 4 && k[2] != "7" {
      SameLone(rs, ts, k);
    } else if |k| == 4 && k == EnumKey(k[1]) {
      EnumsWithKey(rs, k[1]);
      EnumsWithKey(ts, k[1]);
    } else {
      NoSuchKey(rs, k);
      NoSuchKey(ts, k);
    }
  }

  lemma {:induction false} NoSuchKey(rs: seq<Record>, k: seq<string>)
    requires AllChecked(rs) && (|k| != 4 || (k[2] == "7" && k != EnumKey(k[1])))
    ensures WithKey(Keys(rs), k) == []
  {
    hide CheckRecord, SortKey;
    KeysMembers(rs);
    forall x | x in Keys(rs) ensures x.key != k {
      EnumRank(x.item);
      assert SortKey(x.item) == EnumKey(x.item.key) ==> EnumKey(x.item.key)[1] == x.item.key;
    }
    WithKeyEmpty(Keys(rs), k);
  }

  lemma {:induction false} SameTextSameSort(rs: seq<Record>, ts: seq<Record>, schema: int)
    requires AllChecked(rs) && AllChecked(ts) && RenderDump(rs, schema) == RenderDump(ts, schema)
    ensures SortRecords(rs) == SortRecords(ts)
  {
    hide CheckRecord, SortRecords, AllChecked, Unlines, Split, IntText, RecordLines, ReadLines;
    DumpLinesWhole(rs, schema);
    DumpLinesWhole(ts, schema);
    LinesSplit(DumpLines(rs, schema));
    LinesSplit(DumpLines(ts, schema));
  }

  lemma {:induction false} SameSortSameEnums(rs: seq<Record>, ts: seq<Record>, b: string)
    requires AllChecked(rs) && AllChecked(ts) && SortRecords(rs) == SortRecords(ts)
    ensures EnumsOf(rs, b) == EnumsOf(ts, b)
  {
    hide CheckRecord, AllChecked, SortRecords, SortKey, EnumsOf, WithKey, Sort, EnumKey;
    SortedRecords(rs);
    SortedRecords(ts);
    SortStable(Keys(rs));
    SortStable(Keys(ts));
    assert WithKey(Keys(rs), EnumKey(b)) == WithKey(Keys(ts), EnumKey(b));
    EnumsWithKey(rs, b);
    EnumsWithKey(ts, b);
    KeysSelf(EnumsOf(rs, b));
    KeysSelf(EnumsOf(ts, b));
  }

  /** The same records, with each binding's enum members in the same order. */
  ghost predicate SameContent(rs: seq<Record>, ts: seq<Record>)
  {
    SameRecords(rs, ts) && forall b :: EnumsOf(rs, b) == EnumsOf(ts, b)
  }

  lemma {:induction false} SameSortSameContent(rs: seq<Record>, ts: seq<Record>)
    requires AllChecked(rs) && AllChecked(ts) && SortRecords(rs) == SortRecords(ts)
    ensures SameContent(rs, ts)
  {
    hide CheckRecord, AllChecked, Keys, Sort, SortRecords, EnumsOf;
    SortedRecords(rs);
    SortedRecords(ts);
    SameMembers(rs, ts);
    forall b ensures EnumsOf(rs, b) == EnumsOf(ts, b) { SameSortSameEnums(rs, ts, b); }
  }

  lemma {:induction false} SameContentSameSort(rs: seq<Record>, ts: seq<Record>)
    requires AllChecked(rs) && DistinctIdentities(rs) && AllChecked(ts) && DistinctIdentities(ts)
    requires SameContent(rs, ts)
    ensures SortRecords(rs) == SortRecords(ts)
  {
    hide CheckRecord, AllChecked, DistinctIdentities, WithKey, Sort, EnumsOf, SameRecords;
    forall k ensures WithKey(Keys(rs), k) == WithKey(Keys(ts), k) { SameWithKey(rs, ts, k); }
    SortCanonical(Keys(rs), Keys(ts));
  }

  /** Two record lists render to the same text exactly when they hold the same records and each binding's
      enum members come in the same order. */
  lemma {:induction false} CanonicalExact(rs: seq<Record>, ts: seq<Record>, schema: int)
    requires AllChecked(rs) && DistinctIdentities(rs) && AllChecked(ts) && DistinctIdentities(ts)
    ensures RenderDump(rs, schema) == RenderDump(ts, schema) <==> SameContent(rs, ts)
  {
    hide CheckRecord, AllChecked, DistinctIdentities, RecordLines, Unlines, SortRecords, IntText, SameContent;
    if RenderDump(rs, schema) == RenderDump(ts, schema) {
      SameTextSameSort(rs, ts, schema);
      SameSortSameContent(rs, ts);
    }
    if SameContent(rs, ts) {
      SameContentSameSort(rs, ts);
    }
  }
}
