/** The writer: one byte buffer extended in place. */
module CpioWriter {
  import opened Texts
  import opened NewcArchive

  class Buffer {
    var bytes: seq<Byte>

    constructor ()
      ensures bytes == []
    {
      bytes := [];
    }

    method Extend(more: seq<Byte>)
      modifies this
      ensures bytes == old(bytes) + more
    {
      bytes := bytes + more;
    }

    /** Pad to the next 4-byte boundary. */
    method Pad4()
      modifies this
      ensures bytes == old(bytes) + Zeros(PadLength(|old(bytes)|)) && |bytes| % 4 == 0
      ensures |bytes| < |old(bytes)| + 4 && old(bytes) <= bytes && forall i :: |old(bytes)| <= i < |bytes| ==> bytes[i] == 0
    {
      Extend(Zeros(PadLength(|bytes|)));
    }
  }

  lemma {:induction false} PadShift(a: seq<Byte>, b: seq<Byte>)
    requires |a| % 4 == 0
    ensures a + b + Zeros(PadLength(|a + b|)) == a + Padded(b)
  {
    PadStep(|a|, |b|);
    hide PadLength, Zeros;
    Assoc(a, b, Zeros(PadLength(|b|)));
  }

  lemma {:induction false} EncodableExact(entries: seq<CpioEntry>)
    ensures !Encodable(entries) <==> exists e, i :: e in entries && 0 <= i < |e.name| && e.name[i] as int > 127
  {
  }

  /** Serialize the entries; a name that is not ASCII fails. */
  method CpioNewc(entries: seq<CpioEntry>) returns (archive: Option<seq<Byte>>)
    ensures archive == if Encodable(entries) then Some(Archive(entries)) else None
    ensures archive.None? <==> exists e, i :: e in entries && 0 <= i < |e.name| && e.name[i] as int > 127
  {
    EncodableExact(entries);
    hide Header, Padded, PadLength, Zeros;
    var buf := new Buffer();
    for i := 0 to |entries|
      invariant Encodable(entries[..i]) && |buf.bytes| % 4 == 0
      invariant Encodable(entries) ==> buf.bytes + ArchiveFrom(entries[i..], i + 1) == Archive(entries)
    {
      var e, ino := entries[i], i + 1;
      assert entries[..i + 1] == entries[..i] + [e];
      if !Ascii(e.name) {
        return None;
      }
      ghost var before := buf.bytes;
      buf.Extend(Header(e, ino));
      buf.Pad4();
      PadShift(before, Header(e, ino));
      ghost var middle := buf.bytes;
      buf.Extend(e.data);
      buf.Pad4();
      PadShift(middle, e.data);
      ghost var rest := entries[i..];
      assert rest[0] == e && rest[1..] == entries[i + 1..];
      if Encodable(entries) {
        Regroup(before, Padded(Header(e, ino)), Padded(e.data), ArchiveFrom(entries[i + 1..], i + 2));
      }
    }
    assert entries[..|entries|] == entries && entries[|entries|..] == [];
    PadShift(buf.bytes, Header(Trailer(), 0));
    buf.Extend(Header(Trailer(), 0));
    buf.Pad4();
    return Some(buf.bytes);
  }

  lemma {:induction false} Regroup(a: seq<Byte>, b: seq<Byte>, c: seq<Byte>, d: seq<Byte>)
    ensures a + (b + c + d) == a + b + c + d
  {
  }
}
