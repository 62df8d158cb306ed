/** The newc cpio format: what the writer produces, and a reader that recovers it. */
module NewcArchive {
  import opened Texts
  import opened Hexadecimal

  /** One archive member. */
  datatype CpioEntry = CpioEntry(name: string, mode: nat, data: seq<Byte>, rdev: (nat, nat))

  /** The member that ends an archive. */
  function Trailer(): (r: CpioEntry)
    ensures Ascii(r.name)
  {
    CpioEntry("TRAILER!!!", 0, [], (0, 0))
  }

  const MAGIC: seq<Byte> := [48, 55, 48, 55, 48, 49]

  const HEADER_SIZE := 110

  predicate Ascii(t: string) { forall i :: 0 <= i < |t| ==> t[i] as int < 128 }

  /** `str.encode("ascii")`. */
  function Encode(t: string): (r: seq<Byte>)
    requires Ascii(t)
    ensures |r| == |t|
  {
    seq<Byte>(|t|, i requires 0 <= i < |t| => t[i] as int)
  }

  // --- hexadecimal fields ------------------------------------------------------------------

  function Digit(d: Nibble): Byte { if d < 10 then 48 + d else 55 + d }

  function DigitValue(b: Byte): Option<Nibble>
  {
    if 48 <= b <= 57 then Some(b - 48)
    else if 65 <= b <= 70 then Some(b - 55)
    else if 97 <= b <= 102 then Some(b - 87)
    else None
  }

  /** The last `k` hexadecimal digits of `n`, upper case. */
  function Digits(n: nat, k: nat): (r: seq<Byte>)
    ensures |r| == k
  {
    var places := Nibbles(n, k);
    seq(k, i requires 0 <= i < k => Digit(places[i]))
  }

  function DigitCount(n: nat): (r: nat)
    ensures r >= 1
  {
    if n < 16 then 1 else DigitCount(n / 16) + 1
  }

  /** `b"%08X" % n`: at least eight digits. */
  function Field(n: nat): (r: seq<Byte>)
    ensures |r| >= 8
  {
    Digits(n, if DigitCount(n) > 8 then DigitCount(n) else 8)
  }

  function ReadDigits(t: seq<Byte>): (r: Option<nat>)
    ensures r.Some? ==> r.value < Pow16(|t|)
  {
    ReadNibbles(seq(|t|, i requires 0 <= i < |t| => DigitValue(t[i])))
  }

  lemma {:induction false} DigitsRead(n: nat, k: nat)
    requires n < Pow16(k)
    ensures ReadDigits(Digits(n, k)) == Some(n)
  {
    var t, places := Digits(n, k), Nibbles(n, k);
    hide ReadNibbles, Nibbles;
    var read: seq<Option<Nibble>> := seq(|t|, i requires 0 <= i < |t| => DigitValue(t[i]));
    NibblesRead(n, k);
    assert read == Given(places);
  }

  lemma {:induction false} CountBounded(n: nat, k: nat)
    requires n < Pow16(k) && k >= 1
    ensures DigitCount(n) <= k
  {
    if n >= 16 {
      assert Pow16(1) == 16 * Pow16(0);
      CountBounded(n / 16, k - 1);
    }
  }

  predicate Fits(n: nat) { n < 0x1_0000_0000 }

  lemma {:induction false} EightDigits()
    ensures Pow16(8) == 0x1_0000_0000
  {
    assert Pow16(4) == 16 * Pow16(3) == 256 * Pow16(2) == 4096 * Pow16(1) == 0x1_0000;
    assert Pow16(8) == 16 * Pow16(7) == 256 * Pow16(6) == 4096 * Pow16(5) == 0x1_0000 * Pow16(4);
  }

  /** A field below 2^32 is eight digits and reads back; a larger one is longer than its slot. */
  lemma {:induction false} FieldReads(n: nat)
    ensures Fits(n) ==> |Field(n)| == 8 && ReadDigits(Field(n)) == Some(n)
    ensures !Fits(n) ==> |Field(n)| > 8
  {
    EightDigits();
    if Fits(n) {
      CountBounded(n, 8);
      DigitsRead(n, 8);
    } else {
      CountReached(n, 8);
    }
  }

  lemma {:induction false} CountReached(n: nat, k: nat)
    requires n >= Pow16(k)
    ensures DigitCount(n) > k
  {
    if k > 0 {
      CountReached(n / 16, k - 1);
    }
  }

  // --- the writer's output -----------------------------------------------------------------

  function Fields(values: seq<nat>): seq<Byte>
  {
    if values == [] then [] else Field(values[0]) + Fields(values[1..])
  }

  function HeaderValues(e: CpioEntry, ino: nat): (r: seq<nat>)
    ensures |r| == 13
  {
    [ino, e.mode, 0, 0, 1, 0, |e.data|, 0, 0, e.rdev.0, e.rdev.1, |e.name| + 1, 0]
  }

  /** The header and the NUL-terminated name. */
  function Header(e: CpioEntry, ino: nat): seq<Byte>
    requires Ascii(e.name)
  {
    MAGIC + (Fields(HeaderValues(e, ino)) + (Encode(e.name) + [0]))
  }

  function PadLength(n: nat): (r: nat)
    ensures (n + r) % 4 == 0 && r < 4
  {
    (4 - n % 4) % 4
  }

  function Zeros(n: nat): (r: seq<Byte>)
    ensures |r| == n && forall b :: b in r ==> b == 0
  {
    seq(n, i => 0)
  }

  /** `t` and its padding, when `t` starts aligned. */
  function Padded(t: seq<Byte>): (r: seq<Byte>)
    ensures |r| % 4 == 0
  {
    t + Zeros(PadLength(|t|))
  }

  /** One member: padded header, padded data. */
  function Block(e: CpioEntry, ino: nat): (r: seq<Byte>)
    requires Ascii(e.name)
    ensures |r| % 4 == 0
  {
    Padded(Header(e, ino)) + Padded(e.data)
  }

  predicate Encodable(entries: seq<CpioEntry>) { forall e :: e in entries ==> Ascii(e.name) }

  /** The members from inode `ino` on, then the trailer. */
  function ArchiveFrom(entries: seq<CpioEntry>, ino: nat): seq<Byte>
    requires Encodable(entries)
  {
    if entries == [] then Padded(Header(Trailer(), 0))
    else Block(entries[0], ino) + ArchiveFrom(entries[1..], ino + 1)
  }

  /** A whole archive numbers its members from 1. */
  function Archive(entries: seq<CpioEntry>): seq<Byte>
    requires Encodable(entries)
  {
    ArchiveFrom(entries, 1)
  }

  /** How many bytes the first `k` members take. */
  function Offset(entries: seq<CpioEntry>, ino: nat, k: nat): nat
    requires Encodable(entries) && k <= |entries|
  {
    if k == 0 then 0 else |Block(entries[0], ino)| + Offset(entries[1..], ino + 1, k - 1)
  }

  // --- a reader ----------------------------------------------------------------------------

  /** What a reader recovers of one member. */
  datatype Member = Member(name: seq<Byte>, ino: nat, mode: nat, nlink: nat, rdev: (nat, nat), data: seq<Byte>)

  /** The bytes of a C string: up to the first NUL. */
  function CString(t: seq<Byte>): seq<Byte>
  {
    if t == [] || t[0] == 0 then [] else [t[0]] + CString(t[1..])
  }

  function Aligned(n: nat): (r: nat)
    ensures n <= r && r % 4 == 0
  {
    n + PadLength(n)
  }

  /** The `n` eight-digit fields `t` starts with. */
  function ReadFields(t: seq<Byte>, n: nat): (r: Option<seq<nat>>)
    ensures r.Some? ==> |r.value| == n && |t| >= 8 * n
  {
    if n == 0 then Some([])
    else if |t| < 8 then None
    else
      match (ReadDigits(t[..8]), ReadFields(t[8..], n - 1))
      case (Some(v), Some(rest)) => Some([v] + rest)
      case _ => None
  }

  /** The member `t` starts with, and how many bytes it takes; `t` starts on a 4-byte boundary. */
  function ReadMember(t: seq<Byte>): (r: Option<(Member, nat)>)
    ensures r.Some? ==> 0 < r.value.1 <= |t|
  {
    if |t| < HEADER_SIZE || t[..6] != MAGIC then None
    else
      var fields := ReadFields(t[6..], 13);
      if fields.None? then None
      else
        var f := fields.value;
        var nameEnd := HEADER_SIZE + f[11];
        var dataStart := Aligned(nameEnd);
        var dataEnd := dataStart + f[6];
        if f[11] == 0 || Aligned(dataEnd) > |t| || t[nameEnd - 1] != 0 then None
        else
          Some((Member(CString(t[HEADER_SIZE..nameEnd]), f[0], f[1], f[4], (f[9], f[10]), t[dataStart..dataEnd]),
                Aligned(dataEnd)))
  }

  /** The members of an archive up to its trailer. */
  function ReadArchive(t: seq<Byte>): Option<seq<Member>>
    decreases |t|
  {
    var one := ReadMember(t);
    if one.None? then None
    else if one.value.0.name == Encode(Trailer().name) then Some([])
    else
      var rest := ReadArchive(t[one.value.1..]);
      if rest.None? then None else Some([one.value.0] + rest.value)
  }

  // --- reading back ------------------------------------------------------------------------

  predicate NulFree(t: string) { forall c :: c in t ==> c as int != 0 }

  /** Every field of the entry's header fits its eight digits. */
  predicate FieldsFit(e: CpioEntry)
  {
    Fits(e.mode) && Fits(|e.data|) && Fits(e.rdev.0) && Fits(e.rdev.1) && Fits(|e.name| + 1)
  }

  /** What a reader should recover of `e`: its name up to a NUL. */
  function Recovered(e: CpioEntry, ino: nat): Member
    requires Ascii(e.name)
  {
    Member(CString(Encode(e.name)), ino, e.mode, 1, e.rdev, e.data)
  }

  lemma {:induction false} FieldThen(v: nat, tail: seq<Byte>, n: nat)
    requires Fits(v) && ReadFields(tail, n).Some?
    ensures |Field(v)| == 8 && ReadFields(Field(v) + tail, n + 1) == Some([v] + ReadFields(tail, n).value)
  {
    FieldReads(v);
    hide ReadDigits, Field, Fits;
    var first := Field(v);
    assert (first + tail)[..8] == first && (first + tail)[8..] == tail;
  }

  lemma {:induction false} FieldsRead(values: seq<nat>, rest: seq<Byte>)
    requires forall v :: v in values ==> Fits(v)
    ensures |Fields(values)| == 8 * |values|
    ensures ReadFields(Fields(values) + rest, |values|) == Some(values)
  {
    hide Field, Fits, ReadDigits;
    if values != [] {
      hide ReadFields;
      var tail := values[1..];
      FieldsRead(tail, rest);
      FieldThen(values[0], Fields(tail) + rest, |tail|);
      Assoc(Field(values[0]), Fields(tail), rest);
      assert values == [values[0]] + tail;
    }
  }

  lemma {:induction false} CStringEnds(name: seq<Byte>)
    ensures CString(name + [0]) == CString(name)
    ensures CString(name) == name <==> 0 !in name
    ensures |CString(name)| <= |name|
  {
    if name != [] {
      assert (name + [0])[1..] == name[1..] + [0];
      assert name == [name[0]] + name[1..];
      CStringEnds(name[1..]);
    }
  }

  lemma {:induction false} HeaderShape(e: CpioEntry, ino: nat)
    requires Ascii(e.name) && FieldsFit(e) && Fits(ino)
    ensures |Header(e, ino)| == HEADER_SIZE + |e.name| + 1
  {
    FieldsRead(HeaderValues(e, ino), []);
  }

  lemma {:induction false} HeaderReads(e: CpioEntry, ino: nat, rest: seq<Byte>)
    requires Ascii(e.name) && FieldsFit(e) && Fits(ino)
    ensures var t := Header(e, ino) + rest;
      |Header(e, ino)| == HEADER_SIZE + |e.name| + 1 && t[..6] == MAGIC && ReadFields(t[6..], 13) == Some(HeaderValues(e, ino))
      && t[HEADER_SIZE..HEADER_SIZE + |e.name| + 1] == Encode(e.name) + [0]
  {
    var values, name := HeaderValues(e, ino), Encode(e.name) + [0];
    HeaderShape(e, ino);
    FieldsRead(values, name + rest);
    hide Fields, Encode, ReadFields, HeaderValues;
    var t := Header(e, ino) + rest;
    assert |Fields(values)| == 104;
    assert t == MAGIC + (Fields(values) + (name + rest));
    assert t[6..] == Fields(values) + (name + rest);
    assert t[HEADER_SIZE..] == name + rest;
    assert t[HEADER_SIZE..HEADER_SIZE + |name|] == t[HEADER_SIZE..][..|name|];
  }

  /** Padding depends only on the length modulo 4. */
  lemma {:induction false} PadStep(at: nat, n: nat)
    requires at % 4 == 0
    ensures PadLength(at + n) == PadLength(n)
  {
  }

  lemma {:induction false} MiddleSlice(a: seq<Byte>, b: seq<Byte>, c: seq<Byte>, rest: seq<Byte>)
    ensures var t := a + (b + c) + rest;
      t == a + (b + (c + rest)) && t[|a|..|a| + |b|] == b && t[|a| + |b| + |c|..] == rest
  {
    var t := a + (b + (c + rest));
    assert t[|a|..] == b + (c + rest);
    assert t[|a|..|a| + |b|] == t[|a|..][..|b|];
    assert a + (b + c) + rest == t;
  }

  /** Slicing a padded header followed by padded data. */
  lemma {:induction false} BlockSlices(header: seq<Byte>, data: seq<Byte>, rest: seq<Byte>)
    ensures var t := Padded(header) + Padded(data) + rest;
      var dataStart := Aligned(|header|);
      var dataEnd := dataStart + |data|;
      Aligned(dataEnd) == |Padded(header) + Padded(data)| <= |t|
      && t[dataStart..dataEnd] == data && t[Aligned(dataEnd)..] == rest
      && exists tail :: t == header + tail
  {
    PadStep(Aligned(|header|), |data|);
    hide PadLength, Zeros;
    var pad := Zeros(PadLength(|header|));
    MiddleSlice(Padded(header), data, Zeros(PadLength(|data|)), rest);
    Assoc(header, pad, Padded(data));
    Assoc(header, pad + Padded(data), rest);
  }

  lemma {:induction false} NameEnds(t: seq<Byte>, at: nat, name: seq<Byte>)
    requires name != [] && at + |name| <= |t| && t[at..at + |name|] == name
    ensures t[at + |name| - 1] == name[|name| - 1]
  {
    assert t[at + |name| - 1] == t[at..at + |name|][|name| - 1];
  }

  /** Reading one member whose parts are where its fields say. */
  lemma {:induction false} PartsRead(t: seq<Byte>, e: CpioEntry, ino: nat)
    requires Ascii(e.name)
    requires var dataStart := Aligned(HEADER_SIZE + |e.name| + 1);
      |t| >= Aligned(dataStart + |e.data|) && t[..6] == MAGIC
      && ReadFields(t[6..], 13) == Some(HeaderValues(e, ino))
      && t[HEADER_SIZE..HEADER_SIZE + |e.name| + 1] == Encode(e.name) + [0]
      && t[dataStart..dataStart + |e.data|] == e.data
    ensures ReadMember(t) == Some((Recovered(e, ino), Aligned(Aligned(HEADER_SIZE + |e.name| + 1) + |e.data|)))
  {
    NameEnds(t, HEADER_SIZE, Encode(e.name) + [0]);
    CStringEnds(Encode(e.name));
    var f := HeaderValues(e, ino);
    assert f[0] == ino && f[1] == e.mode && f[4] == 1 && f[6] == |e.data| && f[9] == e.rdev.0 && f[10] == e.rdev.1;
    assert f[11] == |e.name| + 1;
    hide HeaderValues;
    hide ReadFields, Encode, CString, PadLength, Aligned, Ascii;
  }

  /** One written member reads back, and what follows it is left. */
  lemma {:induction false} BlockReads(e: CpioEntry, ino: nat, rest: seq<Byte>)
    requires Ascii(e.name) && FieldsFit(e) && Fits(ino)
    ensures ReadMember(Block(e, ino) + rest) == Some((Recovered(e, ino), |Block(e, ino)|))
    ensures (Block(e, ino) + rest)[|Block(e, ino)|..] == rest
  {
    hide Header, Padded, Encode, CString, ReadFields, ReadMember, Recovered, PadLength;
    var header := Header(e, ino);
    BlockSlices(header, e.data, rest);
    var t := Block(e, ino) + rest;
    var tail :| t == header + tail;
    HeaderReads(e, ino, tail);
    PartsRead(t, e, ino);
  }

  function RecoveredFrom(entries: seq<CpioEntry>, ino: nat): (r: seq<Member>)
    requires Encodable(entries)
    ensures |r| == |entries|
    ensures forall i :: 0 <= i < |r| ==> r[i] == Recovered(entries[i], ino + i)
  {
    if entries == [] then [] else [Recovered(entries[0], ino)] + RecoveredFrom(entries[1..], ino + 1)
  }

  /** The name a reader sees is not the trailer's. */
  predicate NotTrailer(e: CpioEntry)
    requires Ascii(e.name)
  {
    CString(Encode(e.name)) != Encode(Trailer().name)
  }

  /** A member named like the trailer ends the reading. */
  lemma {:induction false} TrailerEnds(e: CpioEntry, ino: nat, rest: seq<Byte>)
    requires e.name == Trailer().name && Ascii(e.name) && FieldsFit(e) && Fits(ino)
    ensures ReadArchive(Block(e, ino) + rest) == Some([])
  {
    BlockReads(e, ino, rest);
    TrailerName();
    hide ReadMember, Encode, CString, Block;
  }

  lemma {:induction false} TrailerReads()
    ensures ReadArchive(Padded(Header(Trailer(), 0))) == Some([])
  {
    TrailerName();
    hide Trailer, Header, Encode, CString, ReadArchive;
    TrailerEnds(Trailer(), 0, []);
    assert Block(Trailer(), 0) + [] == Padded(Header(Trailer(), 0));
  }

  /** A written member in front of readable bytes adds that member. */
  lemma {:induction false} MemberThen(e: CpioEntry, ino: nat, rest: seq<Byte>)
    requires Ascii(e.name) && FieldsFit(e) && Fits(ino) && NotTrailer(e) && ReadArchive(rest).Some?
    ensures ReadArchive(Block(e, ino) + rest) == Some([Recovered(e, ino)] + ReadArchive(rest).value)
  {
    BlockReads(e, ino, rest);
    hide ReadMember, Encode, CString, Block;
  }

  /** Every member reads back in order, and then the trailer ends the archive. */
  lemma {:induction false} MembersRead(entries: seq<CpioEntry>, ino: nat)
    requires Encodable(entries) && ino + |entries| <= 0x1_0000_0000
    requires forall e :: e in entries ==> FieldsFit(e) && NotTrailer(e)
    ensures ReadArchive(ArchiveFrom(entries, ino)) == Some(RecoveredFrom(entries, ino))
    decreases |entries|
  {
    hide Block, Padded, Header, Encode, CString, ReadArchive, NotTrailer, Recovered;
    if entries == [] {
      TrailerReads();
    } else {
      MembersRead(entries[1..], ino + 1);
      MemberThen(entries[0], ino, ArchiveFrom(entries[1..], ino + 1));
    }
  }

  lemma {:induction false} TrailerName()
    ensures CString(Encode(Trailer().name)) == Encode(Trailer().name)
    ensures Padded(Trailer().data) == []
    ensures FieldsFit(Trailer())
  {
    assert NulFree(Trailer().name);
    hide NulFree;
    assert PadLength(0) == 0;
    NameReads(Trailer().name);
  }

  predicate Archivable(e: CpioEntry)
  {
    Ascii(e.name) && NulFree(e.name) && e.name != Trailer().name && FieldsFit(e)
  }

  lemma {:induction false} EncodeInjective(a: string, b: string)
    requires Ascii(a) && Ascii(b) && Encode(a) == Encode(b)
    ensures a == b
  {
    forall i | 0 <= i < |a| ensures a[i] == b[i] {
      assert Encode(a)[i] == a[i] as int && Encode(b)[i] == b[i] as int;
    }
  }

  lemma {:induction false} NameReads(name: string)
    requires Ascii(name)
    ensures CString(Encode(name)) == Encode(name) <==> NulFree(name)
  {
    CStringEnds(Encode(name));
    if NulFree(name) {
      forall b | b in Encode(name) ensures b != 0 {
        var i :| 0 <= i < |name| && Encode(name)[i] == b;
        assert name[i] in name;
      }
    }
    if 0 !in Encode(name) {
      forall c | c in name ensures c as int != 0 {
        var i :| 0 <= i < |name| && name[i] == c;
        assert Encode(name)[i] in Encode(name);
      }
    }
  }

  lemma {:induction false} ArchivableReads(e: CpioEntry)
    requires Archivable(e)
    ensures NotTrailer(e) && CString(Encode(e.name)) == Encode(e.name)
  {
    NameReads(e.name);
    if Encode(e.name) == Encode(Trailer().name) { EncodeInjective(e.name, Trailer().name); }
  }

  /** The members a reader should recover: names, modes, data, device numbers and inodes 1..n, in order. */
  function Members(entries: seq<CpioEntry>): seq<Member>
    requires Encodable(entries)
  {
    seq(|entries|, i requires 0 <= i < |entries| =>
      assert entries[i] in entries;
      Member(Encode(entries[i].name), i + 1, entries[i].mode, 1, entries[i].rdev, entries[i].data))
  }

  lemma {:induction false} ArchiveReads(entries: seq<CpioEntry>)
    requires Encodable(entries) && Fits(|entries|)
    requires forall e :: e in entries ==> Archivable(e)
    ensures ReadArchive(Archive(entries)) == Some(Members(entries))
  {
    hide Encode, CString, ReadArchive, ArchiveFrom, NotTrailer, Members;
    forall e | e in entries ensures NotTrailer(e) {
      ArchivableReads(e);
    }
    MembersRead(entries, 1);
    MembersRecovered(entries);
  }

  lemma {:induction false} MembersRecovered(entries: seq<CpioEntry>)
    requires Encodable(entries) && forall e :: e in entries ==> Archivable(e)
    ensures Members(entries) == RecoveredFrom(entries, 1)
  {
    hide Encode, CString, NotTrailer, Archivable, RecoveredFrom;
    var members, recovered := Members(entries), RecoveredFrom(entries, 1);
    forall i | 0 <= i < |entries| ensures members[i] == recovered[i] {
      assert entries[i] in entries;
      ArchivableReads(entries[i]);
    }
  }

  // --- what a reader can recover -----------------------------------------------------------

  lemma {:induction false} CStringBefore(t: seq<Byte>)
    ensures 0 !in CString(t) && |CString(t)| <= |t|
    ensures t != [] && t[|t| - 1] == 0 ==> |CString(t)| < |t|
  {
    if t != [] && t[0] != 0 { CStringBefore(t[1..]); }
  }

  lemma {:induction false} FieldsBounded(t: seq<Byte>, n: nat)
    requires ReadFields(t, n).Some?
    ensures forall v :: v in ReadFields(t, n).value ==> Fits(v)
  {
    if n > 0 {
      EightDigits();
      hide ReadDigits;
      FieldsBounded(t[8..], n - 1);
      assert ReadDigits(t[..8]).value < Pow16(8);
    }
  }

  /** Eight digits hold no more than a fitting field, and a C string no NUL. */
  predicate Recoverable(m: Member)
  {
    Fits(m.ino) && Fits(m.mode) && Fits(m.rdev.0) && Fits(m.rdev.1) && Fits(|m.data|) && Fits(|m.name| + 1) && 0 !in m.name
  }

  lemma {:induction false} MemberRecoverable(t: seq<Byte>)
    requires ReadMember(t).Some?
    ensures Recoverable(ReadMember(t).value.0)
  {
    FieldsBounded(t[6..], 13);
    hide ReadFields, CString, PadLength;
    var f := ReadFields(t[6..], 13).value;
    var name := t[HEADER_SIZE..HEADER_SIZE + f[11]];
    CStringBefore(name);
    assert f[0] in f && f[1] in f && f[6] in f && f[9] in f && f[10] in f && f[11] in f;
    assert name[|name| - 1] == t[HEADER_SIZE + f[11] - 1];
  }

  lemma {:induction false} MembersRecoverable(t: seq<Byte>)
    requires ReadArchive(t).Some?
    ensures forall m :: m in ReadArchive(t).value ==> Recoverable(m) && m.name != Encode(Trailer().name)
    decreases |t|
  {
    MemberRecoverable(t);
    hide ReadMember, Recoverable, Encode;
    var one := ReadMember(t);
    if one.value.0.name != Encode(Trailer().name) { MembersRecoverable(t[one.value.1..]); }
  }

  /** An archive reads back exactly when its inodes and every member's fields fit, and no member's name
      holds a NUL or is the trailer's. */
  lemma {:induction false} ArchiveExact(entries: seq<CpioEntry>)
    requires Encodable(entries)
    ensures ReadArchive(Archive(entries)) == Some(Members(entries))
      <==> Fits(|entries|) && forall e :: e in entries ==> Archivable(e)
  {
    hide ReadArchive, Archive, Encode;
    if Fits(|entries|) && forall e :: e in entries ==> Archivable(e) { ArchiveReads(entries); }
    if ReadArchive(Archive(entries)) == Some(Members(entries)) {
      MembersRecoverable(Archive(entries));
      var members := Members(entries);
      if entries != [] { assert members[|entries| - 1] in members; }
      forall e | e in entries ensures Archivable(e) {
        var i :| 0 <= i < |entries| && entries[i] == e;
        assert members[i] in members;
        RecoverableName(e.name);
      }
    }
  }

  lemma {:induction false} RecoverableName(name: string)
    requires Ascii(name) && 0 !in Encode(name)
    ensures NulFree(name)
  {
    CStringEnds(Encode(name));
    NameReads(name);
  }

  /** A member named like the trailer ends the archive early: exactly the members before it are read. */
  lemma {:induction false} TrailerNameTruncates(before: seq<CpioEntry>, e: CpioEntry, after: seq<CpioEntry>, ino: nat)
    requires Encodable(before + [e] + after) && forall x :: x in before ==> Archivable(x)
    requires Fits(ino + |before|) && e.name == Trailer().name && FieldsFit(e)
    ensures ReadArchive(ArchiveFrom(before + [e] + after, ino)) == Some(RecoveredFrom(before, ino))
    decreases |before|
  {
    var all := before + [e] + after;
    var rest := ArchiveFrom(all[1..], ino + 1);
    if before == [] {
      hide Block, ReadArchive;
      TrailerEnds(e, ino, rest);
    } else {
      hide Block, Padded, Header, Encode, CString, ReadArchive, NotTrailer, Recovered, FieldsFit;
      assert all[1..] == before[1..] + [e] + after;
      TrailerNameTruncates(before[1..], e, after, ino + 1);
      ArchivableReads(before[0]);
      MemberThen(before[0], ino, rest);
    }
  }

  lemma {:induction false} OffsetAligned(entries: seq<CpioEntry>, ino: nat, k: nat)
    requires Encodable(entries) && k <= |entries|
    ensures Offset(entries, ino, k) % 4 == 0
    decreases k
  {
    hide Block;
    if k > 0 { OffsetAligned(entries[1..], ino + 1, k - 1); }
  }

  /** Member `k`'s block starts at `Offset`, on a 4-byte boundary; its data follow its padded header. */
  lemma {:induction false} MembersAligned(entries: seq<CpioEntry>, ino: nat, k: nat) returns (tail: seq<Byte>)
    requires Encodable(entries) && k < |entries|
    ensures Offset(entries, ino, k) % 4 == 0 && |Padded(Header(entries[k], ino + k))| % 4 == 0
    ensures |ArchiveFrom(entries, ino)| >= Offset(entries, ino, k)
    ensures ArchiveFrom(entries, ino)[Offset(entries, ino, k)..]
         == Padded(Header(entries[k], ino + k)) + (entries[k].data + tail)
  {
    OffsetAligned(entries, ino, k);
    tail := MemberPlace(entries, ino, k);
  }

  lemma {:induction false} MemberPlace(entries: seq<CpioEntry>, ino: nat, k: nat) returns (tail: seq<Byte>)
    requires Encodable(entries) && k < |entries|
    ensures |ArchiveFrom(entries, ino)| >= Offset(entries, ino, k)
    ensures ArchiveFrom(entries, ino)[Offset(entries, ino, k)..]
         == Padded(Header(entries[k], ino + k)) + (entries[k].data + tail)
    decreases k
  {
    hide Header, PadLength, Zeros;
    if k == 0 {
      var e, rest := entries[0], ArchiveFrom(entries[1..], ino + 1);
      tail := Zeros(PadLength(|e.data|)) + rest;
      MiddleSlice(Padded(Header(e, ino)), e.data, Zeros(PadLength(|e.data|)), rest);
    } else {
      hide Block, Padded;
      tail := MemberPlace(entries[1..], ino + 1, k - 1);
      var rest, at := ArchiveFrom(entries[1..], ino + 1), Offset(entries[1..], ino + 1, k - 1);
      var first := Block(entries[0], ino);
      assert (first + rest)[|first| + at..] == rest[at..];
    }
  }

  // --- the bytes ---------------------------------------------------------------------------

  const UPPER_HEX := "0123456789ABCDEF"

  lemma {:induction false} NibbleAt(n: nat, k: nat, i: nat)
    requires i < k
    ensures Nibbles(n, k)[i] == (n / Pow16(k - 1 - i)) % 16
  {
    if i == k - 1 {
      assert Pow16(0) == 1 && n / 1 == n;
    } else {
      NibbleAt(n / 16, k - 1, i);
      DivTwice(n, Pow16(k - 2 - i));
      assert Pow16(k - 1 - i) == 16 * Pow16(k - 2 - i);
    }
  }

  lemma {:induction false} Multiples(d: nat, a: nat, b: nat)
    ensures a < b ==> d * a + d <= d * b
  {
    if a + 1 < b { Multiples(d, a, b - 1); }
    if a < b { assert d * b == d * (b - 1) + d; }
  }

  lemma {:induction false} DivUnique(x: nat, d: nat, q: nat, r: nat)
    requires r < d && x == d * q + r
    ensures x / d == q
  {
    var other := x / d;
    assert x == d * other + x % d;
    Multiples(d, q, other);
    Multiples(d, other, q);
  }

  lemma {:induction false} DivTwice(n: nat, p: nat)
    requires p > 0
    ensures (n / 16) / p == n / (16 * p)
  {
    var q, r, s := (n / 16) / p, (n / 16) % p, n % 16;
    assert n == 16 * (p * q + r) + s;
    Regrouped(p, q, r, s);
    DivUnique(n, 16 * p, q, 16 * r + s);
  }

  lemma {:induction false} Regrouped(p: nat, q: nat, r: nat, s: nat)
    ensures 16 * (p * q + r) + s == 16 * p * q + (16 * r + s)
  {
  }

  /** A field that fits is the characters of its eight upper-case hexadecimal digits, the highest first. */
  lemma {:induction false} FieldDigits(n: nat, i: nat)
    requires Fits(n) && i < 8
    ensures Field(n)[i] == UPPER_HEX[(n / Pow16(7 - i)) % 16] as int
  {
    FieldReads(n);
    NibbleAt(n, 8, i);
    hide Nibbles, Fits;
  }

  lemma {:induction false} FieldAt(values: seq<nat>, k: nat)
    requires (forall v :: v in values ==> Fits(v)) && k < |values|
    ensures |Fields(values)| == 8 * |values| && Fields(values)[8 * k..8 * k + 8] == Field(values[k])
  {
    hide Field, Fits;
    FieldsRead(values, []);
    FieldsRead(values[1..], []);
    FieldReads(values[0]);
    if k > 0 {
      FieldAt(values[1..], k - 1);
      var rest := Fields(values[1..]);
      assert Fields(values)[8 * k..8 * k + 8] == rest[8 * (k - 1)..8 * (k - 1) + 8];
    }
  }

  /**
   * The header of the format: the characters `070701`, then inode, mode, uid, gid, links, time, size, the device
   * the file is on, the device it is, the length of its name and a check, eight digits each, then the name and a NUL.
   */
  lemma {:induction false} HeaderLayout(e: CpioEntry, ino: nat)
    requires Ascii(e.name) && FieldsFit(e) && Fits(ino)
    ensures var (h, n) := (Header(e, ino), |e.name| + 1);
      var values := [ino, e.mode, 0, 0, 1, 0, |e.data|, 0, 0, e.rdev.0, e.rdev.1, n, 0];
      |h| == 110 + n && (forall i :: 0 <= i < 6 ==> h[i] == "070701"[i] as int)
      && (forall k :: 0 <= k < 13 ==> h[6 + 8 * k..14 + 8 * k] == Field(values[k]))
      && (forall i :: 0 <= i < n - 1 ==> h[110 + i] == e.name[i] as int) && h[109 + n] == 0
  {
    HeaderReads(e, ino, []);
    var h, values := Header(e, ino), HeaderValues(e, ino);
    assert h + [] == h;
    assert forall v :: v in values ==> Fits(v);
    hide Field, Fields, HeaderValues, Fits;
    forall k | 0 <= k < 13 ensures h[6 + 8 * k..14 + 8 * k] == Field(values[k]) {
      FieldAt(values, k);
      assert h[6 + 8 * k..14 + 8 * k] == Fields(values)[8 * k..8 * k + 8];
    }
    var tail := h[110..110 + |e.name| + 1];
    assert forall i :: 0 <= i < |tail| ==> h[110 + i] == tail[i];
  }

  /** An archive ends with the trailer the format names, with every field but the link count and the name's length zero. */
  lemma {:induction false} ArchiveEnds(entries: seq<CpioEntry>, ino: nat)
    requires Encodable(entries)
    ensures Trailer() == CpioEntry("TRAILER!!!", 0, [], (0, 0))
    ensures exists before :: ArchiveFrom(entries, ino) == before + Padded(Header(Trailer(), 0))
  {
    hide Padded, Header;
    if entries == [] {
      assert ArchiveFrom(entries, ino) == [] + Padded(Header(Trailer(), 0));
    } else {
      ArchiveEnds(entries[1..], ino + 1);
      var rest :| ArchiveFrom(entries[1..], ino + 1) == rest + Padded(Header(Trailer(), 0));
      Assoc(Block(entries[0], ino), rest, Padded(Header(Trailer(), 0)));
      assert ArchiveFrom(entries, ino) == (Block(entries[0], ino) + rest) + Padded(Header(Trailer(), 0));
    }
  }
}
