/** append_entry_log: the metadata log of 32-byte extent and attribute records and 64-byte directory records. */
module MetadataLog {
  import opened Basics

  const LOGSPACE: nat := 8388608
  const PAGE: nat := 4096
  const EXTENT: nat := 32
  const DENTRY: nat := 64

  /** A record and where it was written. */
  datatype Record = Record(at: nat, bytes: seq<Byte>)

  /** Inside the log and inside one page. */
  predicate Lies(r: Record) {
    && r.at + |r.bytes| <= LOGSPACE && r.at % EXTENT == 0
    && r.at / PAGE == (r.at + |r.bytes| - 1) / PAGE
  }

  /** The log holds the record. */
  predicate Holds(buf: seq<Byte>, r: Record) {
    r.at + |r.bytes| <= |buf| && buf[r.at..r.at + |r.bytes|] == r.bytes
  }

  /** memcpy or memset of `bytes` at `at` */
  function Splice(buf: seq<Byte>, at: nat, bytes: seq<Byte>): (r: seq<Byte>)
    requires at + |bytes| <= |buf|
    ensures |r| == |buf| && r[at..at + |bytes|] == bytes
  {
    buf[..at] + bytes + buf[at + |bytes|..]
  }

  /** Writing past a record leaves it alone. */
  lemma {:induction false} SpliceAfter(buf: seq<Byte>, at: nat, bytes: seq<Byte>, r: Record)
    requires at + |bytes| <= |buf| && Holds(buf, r) && r.at + |r.bytes| <= at
    ensures Holds(Splice(buf, at, bytes), r)
  {
    assert Splice(buf, at, bytes)[r.at..r.at + |r.bytes|] == buf[r.at..r.at + |r.bytes|];
  }

  /** Records in the order written since the log last wrapped, none overlapping another, all of them still there. */
  ghost predicate Intact(buf: seq<Byte>, offset: nat, records: seq<Record>) {
    && |buf| == LOGSPACE && offset % EXTENT == 0 && offset <= LOGSPACE
    && (forall i :: 0 <= i < |records| ==> Lies(records[i]) && Holds(buf, records[i]) && End(records[i]) <= offset)
    && (forall i, j :: 0 <= i < j < |records| ==> End(records[i]) <= records[j].at)
  }

  function End(r: Record): nat {
    r.at + |r.bytes|
  }

  /** A record of `len` bytes at `at` would not lie in one page. */
  predicate Crosses(at: nat, len: nat)
    requires len > 0
  {
    at / PAGE != (at + len - 1) / PAGE
  }

  /** From less than a directory record before the end of the page, none fits until the next page. */
  lemma {:induction false} SkipsRest(at: nat, q: nat)
    requires at % PAGE + DENTRY > PAGE && at <= q < at - at % PAGE + PAGE
    ensures Crosses(q, DENTRY)
  {
    var page := at / PAGE;
    assert at == page * PAGE + at % PAGE;
    assert page * PAGE <= q < page * PAGE + PAGE <= q + DENTRY - 1 < page * PAGE + 2 * PAGE;
  }

  lemma {:induction false} NextPage(at: nat)
    requires at % EXTENT == 0 && at + DENTRY <= LOGSPACE && at % PAGE + DENTRY > PAGE
    ensures at - at % PAGE + PAGE + DENTRY <= LOGSPACE && (at - at % PAGE + PAGE) % PAGE == 0
  {
    var page := at / PAGE;
    assert at == page * PAGE + at % PAGE;
    assert at - at % PAGE + PAGE == (page + 1) * PAGE;
    assert page + 1 < 2048;
  }

  lemma {:induction false} InPage(at: nat, len: nat)
    requires 0 < len && at % PAGE + len <= PAGE
    ensures !Crosses(at, len)
  {
    var page := at / PAGE;
    assert at == page * PAGE + at % PAGE;
  }

  /** An offset on a multiple of 32 has 32 bytes left in its page. */
  lemma {:induction false} OnExtent(at: nat)
    requires at % EXTENT == 0
    ensures at % PAGE + EXTENT <= PAGE
  {
    var k := at / EXTENT;
    assert at == k * EXTENT && at % PAGE == (k % 128) * EXTENT;
  }

  lemma {:induction false} PageOnExtent(at: nat)
    requires at % PAGE == 0
    ensures at % EXTENT == 0
  {
    assert at == (at / PAGE) * 128 * EXTENT;
  }

  /** Where the next record goes: after a wrap if a directory record might not fit, and for a directory record after the
      page if it would cross its end. */
  method Place(offset: nat, dentry: bool) returns (wrapped: bool, pad: nat, at: nat)
    requires offset % EXTENT == 0 && offset <= LOGSPACE
    ensures wrapped <==> offset + DENTRY > LOGSPACE
    ensures at == (if wrapped then 0 else offset) + pad && at % EXTENT == 0
    ensures var len := if dentry then DENTRY else EXTENT;
      at + len <= LOGSPACE && !Crosses(at, len)
    ensures var len, from := if dentry then DENTRY else EXTENT, if wrapped then 0 else offset;
      forall q: nat :: from <= q < at ==> Crosses(q, len)
  {
    hide Crosses;
    at, pad := offset, 0;
    wrapped := offset + DENTRY > LOGSPACE;
    if wrapped {
      at := 0;
    }
    if dentry && at % PAGE + DENTRY > PAGE {
      forall q: nat | at <= q < at - at % PAGE + PAGE ensures Crosses(q, DENTRY) {
        SkipsRest(at, q);
      }
      NextPage(at);
      pad := PAGE - at % PAGE;
      at := at - at % PAGE + PAGE;
      PageOnExtent(at);
    }
    OnExtent(at);
    InPage(at, if dentry then DENTRY else EXTENT);
  }

  lemma {:induction false} PadKeeps(buf: seq<Byte>, offset: nat, records: seq<Record>, pad: nat)
    requires Intact(buf, offset, records) && offset + pad <= LOGSPACE && (offset + pad) % EXTENT == 0
    ensures Intact(Splice(buf, offset, seq(pad, _ => 0)), offset + pad, records)
  {
    hide Splice, Lies, Holds;
    var zeros: seq<Byte> := seq(pad, _ => 0);
    forall i | 0 <= i < |records| ensures Holds(Splice(buf, offset, zeros), records[i]) {
      SpliceAfter(buf, offset, zeros, records[i]);
    }
  }

  /** The padding before the record is zero. */
  lemma {:induction false} PaddingZero(buf: seq<Byte>, offset: nat, pad: nat, bytes: seq<Byte>, q: nat)
    requires offset + pad + |bytes| <= |buf| && offset <= q < offset + pad
    ensures Splice(Splice(buf, offset, seq(pad, _ => 0)), offset + pad, bytes)[q] == 0
  {
  }

  lemma {:induction false} WriteKeeps(buf: seq<Byte>, offset: nat, records: seq<Record>, bytes: seq<Byte>)
    requires Intact(buf, offset, records) && Lies(Record(offset, bytes)) && |bytes| % EXTENT == 0
    ensures Intact(Splice(buf, offset, bytes), offset + |bytes|, records + [Record(offset, bytes)])
  {
    hide Splice;
    var buf', all := Splice(buf, offset, bytes), records + [Record(offset, bytes)];
    forall i | 0 <= i < |records| ensures Holds(buf', records[i]) {
      SpliceAfter(buf, offset, bytes, records[i]);
    }
    forall i | 0 <= i < |all| ensures Lies(all[i]) && Holds(buf', all[i]) && End(all[i]) <= offset + |bytes| { }
  }

  class Log {
    var buf: seq<Byte>
    var offset: nat
    ghost var records: seq<Record>

    ghost predicate Valid()
      reads this
    {
      Intact(buf, offset, records)
    }

    constructor ()
      ensures Valid() && records == [] && offset == 0
    {
      buf := seq(LOGSPACE, _ => 0);
      offset := 0;
      records := [];
    }

    /** It goes to the first place from the end of the log on where it lies in one page, the bytes
        skipped are zeroed, and nothing written since the last wrap is touched. */
    method Append(bytes: seq<Byte>) returns (at: nat)
      requires Valid() && (|bytes| == EXTENT || |bytes| == DENTRY)
      modifies this
      ensures Valid() && offset == at + |bytes|
      ensures records == (if old(offset) + DENTRY > LOGSPACE then [] else old(records)) + [Record(at, bytes)]
      ensures Lies(Record(at, bytes)) && Holds(buf, Record(at, bytes))
      ensures var from := if old(offset) + DENTRY > LOGSPACE then 0 else old(offset);
        from <= at && forall q: nat :: from <= q < at ==> Crosses(q, |bytes|) && buf[q] == 0
    {
      hide Splice, Holds, Intact, Lies, Crosses;
      Bounds(buf, offset, records);
      Room(buf, offset, records);
      var wrapped, pad;
      wrapped, pad, at := Place(offset, |bytes| == DENTRY);
      if wrapped {
        offset := 0;
        records := [];
        Restart(buf);
      }
      PadKeeps(buf, offset, records, pad);
      var zeros: seq<Byte> := seq(pad, _ => 0);
      Room(buf, offset, records);
      ghost var before := buf;
      buf := Splice(buf, offset, zeros);
      offset := at;
      Fits(at, bytes);
      ghost var from := at - pad;
      forall q: nat | from <= q < at ensures Splice(buf, at, bytes)[q] == 0 {
        PaddingZero(before, from, pad, bytes, q);
      }
      WriteKeeps(buf, offset, records, bytes);
      Room(buf, offset, records);
      buf := Splice(buf, offset, bytes);
      records := records + [Record(at, bytes)];
      offset := offset + |bytes|;
      Last(buf, offset, records);
    }
  }

  lemma {:induction false} Bounds(buf: seq<Byte>, offset: nat, records: seq<Record>)
    requires Intact(buf, offset, records)
    ensures offset % EXTENT == 0 && offset <= LOGSPACE
  {
  }

  lemma {:induction false} Room(buf: seq<Byte>, offset: nat, records: seq<Record>)
    requires Intact(buf, offset, records)
    ensures |buf| == LOGSPACE
  {
  }

  lemma {:induction false} Restart(buf: seq<Byte>)
    requires |buf| == LOGSPACE
    ensures Intact(buf, 0, [])
  {
  }

  lemma {:induction false} Fits(at: nat, bytes: seq<Byte>)
    requires at % EXTENT == 0 && |bytes| > 0 && at + |bytes| <= LOGSPACE && !Crosses(at, |bytes|)
    ensures Lies(Record(at, bytes))
  {
  }

  lemma {:induction false} Last(buf: seq<Byte>, offset: nat, records: seq<Record>)
    requires Intact(buf, offset, records) && records != []
    ensures Lies(records[|records| - 1]) && Holds(buf, records[|records| - 1])
  {
  }
}
