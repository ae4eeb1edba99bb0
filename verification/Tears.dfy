/** Which interrupted flash steps leave a data sector in order, so that a mount after the power cut can go on
    writing to it (src/fffs_file_md.c, src/fffs_sector.c). */
module Tears {
  import opened Nor
  import opened SectorMd
  import opened SectorView
  import opened Files
  import opened Mounted
  import opened SectorOps
  import opened Extents
  import Finish

  /** The sector of these bytes is in order. */
  ghost predicate InOrder(v: Volume, p: nat, c: Bytes) {
    VolumeOk(v) && |c| == v.size && Sane(v, View(v, p, c))
  }

  /** A sector in order. Callers name Sane where they need it. */
  ghost predicate Orderly(v: Volume, p: nat, s: Sec) {
    && VolumeOk(v) && |s.bytes| == v.size && s == View(v, p, s.bytes)
    && forall x: Sec {:trigger Sane(v, x)} | x == s :: Sane(v, x)
  }

  // ---------------------------------------------------------------- steps that always leave order

  /** Data, padded or not, into a window. */
  lemma TornData(v: Volume, p: nat, s: Sec, off: nat, rec: nat, first: bool, written: Bytes, at: nat, chunk: Bytes,
                 pad: nat, c: Bytes)
    requires Orderly(v, p, s) && InWindow(v, s, off, rec, first, written) && at == off + |written|
    requires at + |chunk| <= rec && at + |chunk| + pad <= v.size && Torn(s.bytes, at, chunk + Padding(pad), c)
    ensures InOrder(v, p, c)
  {
    ChunkBelow(s.bytes, at, chunk, pad, c, rec);
    BelowTail(v, p, s, off, rec, first, written, c);
  }

  lemma BelowTail(v: Volume, p: nat, s: Sec, off: nat, rec: nat, first: bool, written: Bytes, c: Bytes)
    requires Orderly(v, p, s) && InWindow(v, s, off, rec, first, written) && |c| == v.size && SameFrom(s.bytes, c, rec)
    ensures InOrder(v, p, c)
  {
    if first {
      BlankStays(v, p, s, rec, c);
    } else {
      BelowRecord(v, p, s, rec, c);
    }
  }

  lemma ChunkBelow(b: Bytes, at: nat, chunk: Bytes, pad: nat, c: Bytes, rec: nat)
    requires at + |chunk| <= rec <= |b| && at + |chunk| + pad <= |b| && Torn(b, at, chunk + Padding(pad), c)
    ensures |c| == |b| && SameFrom(b, c, rec)
  {
    TornChunk(b, at, chunk, pad, c);
  }

  lemma BlankStays(v: Volume, p: nat, s: Sec, rec: nat, c: Bytes)
    requires VolumeOk(v) && |s.bytes| == |c| == v.size && s == View(v, p, s.bytes) && !s.footer.Live?
    requires SameFrom(s.bytes, c, rec) && rec <= v.size - FOOTER_SIZE
    ensures InOrder(v, p, c)
  {
    DataFirst(v, p, s, rec, c);
  }

  lemma BelowRecord(v: Volume, p: nat, s: Sec, rec: nat, c: Bytes)
    requires Orderly(v, p, s) && |c| == v.size && SameFrom(s.bytes, c, rec) && rec + RECORD_SIZE <= v.size
    requires s.end.EndErased? && rec == Start(v, |s.recs|) && FOOTER_SIZE <= rec
    requires ErasedRange(s.bytes, rec, rec + RECORD_SIZE)
    ensures InOrder(v, p, c)
  {
    DataShared(v, p, s, rec, c);
    StillFree(v, s, View(v, p, c), rec);
  }

  lemma StillFree(v: Volume, s: Sec, s': Sec, rec: nat)
    requires Sane(v, s) && s'.recs == s.recs && s'.end == s.end && s'.footer == s.footer && rec == Start(v, |s.recs|)
    requires |s'.bytes| == |s.bytes| && rec + RECORD_SIZE <= |s.bytes| && ErasedRange(s.bytes, rec, rec + RECORD_SIZE)
    requires forall i | rec <= i < |s.bytes| :: s'.bytes[i] == s.bytes[i]
    ensures Sane(v, s')
  {
  }

  /** The tombstone of a live record. */
  lemma TornTombstone(v: Volume, p: nat, s: Sec, k: nat, c: Bytes)
    requires Orderly(v, p, s) && s.footer.Live? && k < |s.recs| && s.recs[k].Live()
    requires 0 <= s.recs[k].start && s.recs[k].start + 1 <= v.size
    requires Torn(s.bytes, s.recs[k].start, [STATE_TOMBSTONED], c)
    ensures InOrder(v, p, c)
  {
    RecordPlace(v, p, s, k);
    BurialOf(v, p, s, k, c);
    BuriedSane(v, s, View(v, p, c), k);
  }

  /** The full hint. */
  lemma TornHint(v: Volume, p: nat, s: Sec, c: Bytes)
    requires Orderly(v, p, s) && s.footer.Live? && Torn(s.bytes, v.size - FOOTER_SIZE + 5, [STATE_FULL], c)
    ensures InOrder(v, p, c)
  {
    HintSec(v, p, s, c);
    HintedSane(v, s, View(v, p, c));
  }

  /** The tombstone of the sector. */
  lemma TornSectorTombstone(v: Volume, p: nat, s: Sec, c: Bytes)
    requires Orderly(v, p, s) && s.footer.Live? && Torn(s.bytes, v.size - FOOTER_SIZE + 4, TOMBSTONE_FOOTER, c)
    ensures InOrder(v, p, c)
  {
    FooterApart(v, p, s.bytes, c);
    SameRecords(v, s, View(v, p, c));
  }

  lemma FooterApart(v: Volume, p: nat, b: Bytes, c: Bytes)
    requires |b| == v.size == |c| && forall k | 0 <= k < v.size - FOOTER_SIZE :: b[k] == c[k]
    ensures WalkOf(v, p, c) == WalkOf(v, p, b)
  {
    forall i: nat
      ensures Decode(v, p, c, i) == Decode(v, p, b, i)
    {
      BelowFooter(v, p, b, c, i);
    }
    WalkSame(v, DecoderOf(v, p, b), DecoderOf(v, p, c), 0, 0);
  }

  lemma SameRecords(v: Volume, s: Sec, s': Sec)
    requires Sane(v, s) && s.footer.Live? && s'.recs == s.recs && s'.end == s.end && |s.bytes| == v.size
    requires SameBelow(s, s', v.size - FOOTER_SIZE)
    ensures Sane(v, s')
  {
  }

  // ---------------------------------------------------------------- the fields of a begun record

  /** The bytes of a record that are programmed when it is finished: state, link and size. */
  predicate Finishing(i: int) { i == 0 || 3 <= i < 7 || 11 <= i < 15 }

  /** What the state, the link and the size are programmed into: the rest of the last record stays. */
  ghost predicate FieldsTorn(v: Volume, b: Bytes, c: Bytes, k: nat) {
    && OnlyRecord(v, b, c, k) && FOOTER_SIZE <= Start(v, k)
    && forall i | Start(v, k) <= i < Cursor(v, k) && !Finishing(i - Start(v, k)) :: c[i] == b[i]
  }

  /** Link, size or state of a begun record. */
  lemma TornFinish(v: Volume, p: nat, s: Sec, c: Bytes)
    requires Orderly(v, p, s) && s.footer.Live? && s.recs != [] && s.recs[|s.recs| - 1].state == UNCOMMITTED
    requires FieldsTorn(v, s.bytes, c, |s.recs| - 1)
    requires forall k | 0 <= k < |s.recs| :: !(s.recs[k].Live() && s.recs[k].slot == s.recs[|s.recs| - 1].slot)
    ensures InOrder(v, p, c)
  {
    var k := |s.recs| - 1;
    RecordPlace(v, p, s, k);
    FieldsDecode(v, p, s, c);
    Finish.ReplaceFooter(v, s.bytes, c, k);
    var d := Decode(v, p, c, k);
    if d.Found? {
      Finish.ReplaceWalk(v, p, s.bytes, c, k, d.r);
      Finish.ReplaceSec(v, p, s, c, d.r);
      Finish.ReplacedSane(v, s, View(v, p, c), d.r);
    } else {
      StopsBefore(v, p, s.bytes, c, s.recs, s.end);
      PrefixSane(v, s, View(v, p, c), k);
    }
  }

  lemma FieldsDecode(v: Volume, p: nat, s: Sec, c: Bytes)
    requires Orderly(v, p, s) && s.recs != [] && FieldsTorn(v, s.bytes, c, |s.recs| - 1)
    ensures var d, r := Decode(v, p, c, |s.recs| - 1), s.recs[|s.recs| - 1];
      if d.Found? then d.r.DataEnd() == r.DataEnd() && d.r.slot == r.slot && d.r.start == r.start else d == EndInvalid
  {
    var k := |s.recs| - 1;
    RecordAt(v, p, s.bytes, k);
    BytesDecode(v, p, s.bytes, c, k);
  }

  lemma BytesDecode(v: Volume, p: nat, b: Bytes, c: Bytes, k: nat)
    requires |b| == v.size && FieldsTorn(v, b, c, k) && Decode(v, p, b, k).Found?
    ensures var d, r := Decode(v, p, c, k), Decode(v, p, b, k).r;
      if d.Found? then d.r.DataEnd() == r.DataEnd() && d.r.slot == r.slot && d.r.start == r.start else d == EndInvalid
  {
    var at, rec, rec' := Start(v, k), b[Start(v, k)..Cursor(v, k)], c[Start(v, k)..Cursor(v, k)];
    forall i | 0 <= i < RECORD_SIZE && !Finishing(i)
      ensures rec'[i] == rec[i]
    {
      assert rec[i] == b[at + i] && rec'[i] == c[at + i];
    }
    SameClaim(rec, rec', at);
    assert !Finishing(15) && c[Cursor(v, k) - 1] == b[Cursor(v, k) - 1];
  }

  lemma SameClaim(rec: Bytes, rec': Bytes, at: nat)
    requires |rec| == |rec'| == RECORD_SIZE && forall i | 0 <= i < RECORD_SIZE && !Finishing(i) :: rec'[i] == rec[i]
    ensures var r, r' := Fields(rec, at), Fields(rec', at);
              r'.DataEnd() == r.DataEnd() && r'.slot == r.slot && r'.typ == r.typ
  {
    assert rec'[1] == rec[1] && rec'[2] == rec[2] && rec'[15] == rec[15];
    assert rec'[7] == rec[7] && rec'[8] == rec[8] && rec'[9] == rec[9] && rec'[10] == rec[10];
  }

  /** The walk ends in front of a record that is neither begun nor committed. */
  lemma StopsBefore(v: Volume, p: nat, b: Bytes, c: Bytes, recs: seq<Md>, end: Step)
    requires |b| == v.size && WalkOf(v, p, b) == Walk(recs, end) && recs != []
    requires OnlyRecord(v, b, c, |recs| - 1) && FOOTER_SIZE <= Start(v, |recs| - 1)
    requires Decode(v, p, c, |recs| - 1) == EndInvalid
    ensures WalkOf(v, p, c) == Walk(recs[..|recs| - 1], EndInvalid)
  {
    OthersDecode(v, p, b, c, |recs| - 1);
    WalkStops(v, DecoderOf(v, p, b), DecoderOf(v, p, c), recs, end);
  }

  lemma OthersDecode(v: Volume, p: nat, b: Bytes, c: Bytes, k: nat)
    requires OnlyRecord(v, b, c, k) && FOOTER_SIZE <= Start(v, k)
    ensures forall i: nat | i < k :: DecoderOf(v, p, c)(i) == DecoderOf(v, p, b)(i) && FOOTER_SIZE <= Start(v, i)
  {
    forall i: nat | i < k
      ensures DecoderOf(v, p, c)(i) == DecoderOf(v, p, b)(i) && FOOTER_SIZE <= Start(v, i)
    {
      Finish.OtherDecodes(v, p, b, c, k, i);
    }
  }

  lemma WalkStops(v: Volume, dec: Decoder, dec': Decoder, recs: seq<Md>, end: Step)
    requires WalkFrom(v, dec, 0, 0) == Walk(recs, end) && recs != [] && dec'(|recs| - 1) == EndInvalid
    requires forall i: nat | i < |recs| - 1 :: dec'(i) == dec(i) && FOOTER_SIZE <= Start(v, i)
    ensures WalkFrom(v, dec', 0, 0) == Walk(recs[..|recs| - 1], EndInvalid)
  {
    var front := recs[..|recs| - 1];
    forall i: nat | i < |front|
      ensures Fits(v, dec', front, i)
    {
      WalkSplit(v, dec, recs, end, i);
      WalkHead(v, dec, recs, end, i);
      assert front[..i + 1] == recs[..i + 1];
    }
    WalkSkip(v, dec', front);
    assert front + [] == front;
  }

  lemma PrefixSane(v: Volume, s: Sec, s': Sec, n: nat)
    requires Sane(v, s) && n <= |s.recs| && s'.recs == s.recs[..n] && s'.footer == s.footer && s'.end == EndInvalid
    ensures Sane(v, s')
  {
    if s.footer.Live? {
      forall m: nat | m <= n
        ensures m <= Claimed(s'.recs[..m])
      {
        assert s'.recs[..m] == s.recs[..m];
      }
    }
  }

  // ---------------------------------------------------------------- a new record in a shared sector

  /** How the walk over a torn record goes: it ends in front of it, or takes it with all the data it was for. */
  lemma TornWalk(v: Volume, p: nat, s: Sec, off: nat, rec: nat, written: Bytes, r: Md, c: Bytes)
    requires Orderly(v, p, s) && InWindow(v, s, off, rec, false, written) && RecordOfWindow(v, p, r, off, rec, written)
    requires rec + RECORD_SIZE <= |s.bytes| && Torn(s.bytes, rec, Encode(r), c)
    ensures |c| == v.size
    ensures var d, w := Decode(v, p, c, |s.recs|), WalkOf(v, p, c);
      if d.Found? then
        && w.recs == s.recs + [d.r] && (w.end.EndErased? || w.end.EndClaimed?) && off < d.r.DataEnd()
        && off + |written| <= d.r.DataEnd()
        && d.r.start == rec && d.r.DataEnd() <= rec
      else
        w == Walk(s.recs, d) && !d.Corrupt?
  {
    var n := |s.recs|;
    assert SameFrom(s.bytes, c, Cursor(v, n));
    AppendDecoder(v, p, s.bytes, c, n);
    WalkExtend(v, DecoderOf(v, p, s.bytes), DecoderOf(v, p, c));
    var d := Decode(v, p, c, n);
    if d.Found? {
      TornWords(s.bytes, rec, Encode(r), c);
      ClaimsMore(v, n, r, c);
      TornEnd(v, p, c, n, off, off + |written|);
    }
  }

  /** A new record in a shared sector, torn: the sector is in order, unless what is left of the record is live and
      has the slot of another live record. */
  lemma TornRecordExact(v: Volume, p: nat, s: Sec, off: nat, rec: nat, written: Bytes, r: Md, c: Bytes)
    requires Orderly(v, p, s) && InWindow(v, s, off, rec, false, written) && RecordOfWindow(v, p, r, off, rec, written)
    requires written[0] != ERASED_BYTE && rec + RECORD_SIZE <= |s.bytes| && Torn(s.bytes, rec, Encode(r), c)
    ensures |c| == v.size
    ensures var d := Decode(v, p, c, |s.recs|);
      InOrder(v, p, c) <==> !(d.Found? && d.r.Live() && Lookup(s, d.r.slot).Some?)
  {
    TornWalk(v, p, s, off, rec, written, r, c);
    SameFooter(v, s.bytes, c);
    if Decode(v, p, c, |s.recs|).Found? {
      TornTaken(v, p, s, off, rec, written, c);
    } else {
      TornSkipped(v, p, s, off, rec, written, c);
    }
  }

  /** So a begun record always leaves order. */
  lemma TornBegun(v: Volume, p: nat, s: Sec, off: nat, rec: nat, written: Bytes, r: Md, c: Bytes)
    requires Orderly(v, p, s) && InWindow(v, s, off, rec, false, written) && RecordOfWindow(v, p, r, off, rec, written)
    requires written[0] != ERASED_BYTE && rec + RECORD_SIZE <= |s.bytes| && Torn(s.bytes, rec, Encode(r), c)
    requires r.state == UNCOMMITTED
    ensures InOrder(v, p, c)
  {
    StillBegun(v, p, s.bytes, |s.recs|, rec, r, c);
    TornRecordExact(v, p, s, off, rec, written, r, c);
  }

  lemma TornTaken(v: Volume, p: nat, s: Sec, off: nat, rec: nat, written: Bytes, c: Bytes)
    requires Orderly(v, p, s) && InWindow(v, s, off, rec, false, written) && |c| == v.size
    requires Decode(v, p, c, |s.recs|).Found? && FooterOf(v, c) == FooterOf(v, s.bytes)
    requires forall i | 0 <= i < rec :: c[i] == s.bytes[i]
    requires var r, w := Decode(v, p, c, |s.recs|).r, WalkOf(v, p, c);
      && w.recs == s.recs + [r] && (w.end.EndErased? || w.end.EndClaimed?)
      && off < r.DataEnd() && off + |written| <= r.DataEnd() <= rec == r.start
    ensures var r := Decode(v, p, c, |s.recs|).r; InOrder(v, p, c) <==> !(r.Live() && Lookup(s, r.slot).Some?)
  {
    StartsAbove(v, p, s);
    OneMoreTorn(v, s, View(v, p, c), off, rec, written, Decode(v, p, c, |s.recs|).r);
  }

  lemma TornSkipped(v: Volume, p: nat, s: Sec, off: nat, rec: nat, written: Bytes, c: Bytes)
    requires Orderly(v, p, s) && InWindow(v, s, off, rec, false, written) && |c| == v.size
    requires written != [] && written[0] != ERASED_BYTE && FooterOf(v, c) == FooterOf(v, s.bytes)
    requires WalkOf(v, p, c).recs == s.recs && !WalkOf(v, p, c).end.Corrupt?
    requires forall i | 0 <= i < rec :: c[i] == s.bytes[i]
    ensures InOrder(v, p, c)
  {
    NoneMore(v, s, View(v, p, c), off, rec, written);
  }

  lemma OneMoreTorn(v: Volume, s: Sec, s': Sec, off: nat, rec: nat, written: Bytes, r: Md)
    requires Sane(v, s) && InWindow(v, s, off, rec, false, written) && off < r.DataEnd()
    requires off + |written| <= r.DataEnd() <= rec == r.start
    requires s'.footer == s.footer && s'.recs == s.recs + [r] && (s'.end.EndErased? || s'.end.EndClaimed?)
    requires SameBelow(s, s', rec)
    requires forall k | 0 <= k < |s.recs| :: rec <= s.recs[k].start
    ensures Sane(v, s') <==> !(r.Live() && Lookup(s, r.slot).Some?)
  {
    TornLive(s, s', r);
    ClearAppend(s.recs, r);
    ClaimsAppend(s.recs, r);
    RestErased(v, s, s', off, rec, written, r);
  }

  lemma NoneMore(v: Volume, s: Sec, s': Sec, off: nat, rec: nat, written: Bytes)
    requires Sane(v, s) && InWindow(v, s, off, rec, false, written) && written != [] && written[0] != ERASED_BYTE
    requires s'.footer == s.footer && s'.recs == s.recs && !s'.end.Corrupt? && SameBelow(s, s', rec)
    ensures Sane(v, s')
  {
    assert s'.bytes[off] == s.bytes[off] == s.bytes[off..off + |written|][0];
  }

  /** A byte that is to stay erased does. */
  lemma StillBegun(v: Volume, p: nat, b: Bytes, n: nat, rec: nat, r: Md, c: Bytes)
    requires |b| == v.size && rec + RECORD_SIZE <= v.size && rec == Start(v, n) && b[rec] == ERASED_BYTE
    requires r.size < 0x1_0000_0000 && r.state == UNCOMMITTED && Torn(b, rec, Encode(r), c)
    ensures |c| == v.size && (Decode(v, p, c, n).Found? ==> !Decode(v, p, c, n).r.Live())
  {
    assert Encode(r)[0] == r.state && TornByte(b[rec], Encode(r)[0], c[rec]);
    assert c[Start(v, n)..Cursor(v, n)][0] == c[rec];
  }

  lemma TornLive(s: Sec, s': Sec, r: Md)
    requires s.footer.Live? && OneLive(s.recs) && s'.recs == s.recs + [r]
    ensures OneLive(s'.recs) <==> !(r.Live() && Lookup(s, r.slot).Some?)
  {
    var n := |s.recs|;
    if r.Live() && Lookup(s, r.slot).Some? {
      var k := FirstLive(s.recs, r.slot);
      assert s'.recs[k] == s.recs[k] && s'.recs[n] == r;
    }
  }

  lemma RestErased(v: Volume, s: Sec, s': Sec, off: nat, rec: nat, written: Bytes, r: Md)
    requires InWindow(v, s, off, rec, false, written) && s'.recs == s.recs + [r]
    requires off + |written| <= r.DataEnd() == Claimed(s'.recs)
    requires SameBelow(s, s', rec)
    ensures Tidy(v, s')
  {
    assert Cursor(v, |s'.recs|) == rec;
  }

  // ---------------------------------------------------------------- the first record of a sector

  /** A record and the footer in one go, torn, behind data of which some byte is not 0xff: the sector is in order. */
  lemma TornFirst(v: Volume, p: nat, s: Sec, rec: nat, written: Bytes, r: Md, serial: nat, c: Bytes, i: nat)
    requires Orderly(v, p, s) && InWindow(v, s, 0, rec, true, written) && RecordOfWindow(v, p, r, 0, rec, written)
    requires serial < 0x1_0000_0000 && rec + |TailOf(r, true, serial)| <= |s.bytes|
    requires Torn(s.bytes, rec, TailOf(r, true, serial), c)
    requires i < |written| && written[i] != ERASED_BYTE
    ensures InOrder(v, p, c)
  {
    var d, dec, s' := Decode(v, p, c, 0), DecoderOf(v, p, c), View(v, p, c);
    assert c[i] == s.bytes[i] == s.bytes[0..|written|][i];
    if d.Found? {
      FirstClaims(v, s, rec, r, serial, c);
      TornEnd(v, p, c, 0, 0, |written|);
      assert s'.recs == [d.r];
      FirstInOrder(v, s, s', rec, written, d.r);
    } else {
      assert WalkFrom(v, dec, 0, 0) == Walk([], d);
    }
  }

  lemma FirstClaims(v: Volume, s: Sec, rec: nat, r: Md, serial: nat, c: Bytes)
    requires VolumeOk(v) && |s.bytes| == v.size && r.size < 0x1_0000_0000 && serial < 0x1_0000_0000
    requires rec == r.start == Start(v, 0) && ErasedRange(s.bytes, rec, v.size)
    requires rec + |TailOf(r, true, serial)| <= |s.bytes|
    requires Torn(s.bytes, rec, TailOf(r, true, serial), c)
    ensures r.DataEnd() <= MdAt(v, c, 0).DataEnd()
  {
    var e := Encode(r);
    TornWords(s.bytes, rec, TailOf(r, true, serial), c);
    forall k: nat | k + 2 <= |e|
      ensures Load16(e, k) <= Load16(c, rec + k)
    {
      assert Load16(e, k) == Load16(TailOf(r, true, serial), k);
    }
    ClaimsMore(v, 0, r, c);
  }

  lemma FirstPlace(v: Volume)
    ensures Cursor(v, 1) == Start(v, 0) == v.size - FOOTER_SIZE - RECORD_SIZE
  {
  }

  lemma FirstInOrder(v: Volume, s: Sec, s': Sec, rec: nat, written: Bytes, r: Md)
    requires InWindow(v, s, 0, rec, true, written) && written != [] && s'.recs == [r] && r.start == rec
    requires |written| <= r.DataEnd() <= rec
    requires (s'.end.EndErased? || s'.end.EndClaimed?) && SameBelow(s, s', rec)
    ensures Sane(v, s')
  {
    assert s'.recs[..0] == [] && s'.recs[..1] == s'.recs;
    assert Claimed(s'.recs) == r.DataEnd();
    FirstPlace(v);
  }

  /** The record whose type byte has not been programmed, with all the rest of it and the footer. */
  function HalfTail(v: Volume, b: Bytes, r: Md, serial: nat): Bytes
    requires VolumeOk(v) && |b| == v.size && r.size < 0x1_0000_0000 && serial < 0x1_0000_0000
  {
    Program(b, Start(v, 0), TailOf(r, true, serial))[Cursor(v, 0) - 1 := ERASED_BYTE]
  }

  /** Behind data that is all 0xff that tear leaves a sector that looks empty where it is not: the next search grants
      a window in it, to any slot, and the place of its record has been programmed. */
  lemma HalfTailBreaks(v: Volume, p: nat, s: Sec, rec: nat, written: Bytes, r: Md, serial: nat)
    requires Orderly(v, p, s) && InWindow(v, s, 0, rec, true, written) && RecordOfWindow(v, p, r, 0, rec, written)
    requires serial < 0x1_0000_0000 && rec + |TailOf(r, true, serial)| <= |s.bytes| && AllErased(written)
    ensures Torn(s.bytes, rec, TailOf(r, true, serial), HalfTail(v, s.bytes, r, serial))
    ensures !InOrder(v, p, HalfTail(v, s.bytes, r, serial))
    ensures forall min: nat, slot: u16, normal: bool | min <= rec ::
              FreeWindow(v, p, HalfTail(v, s.bytes, r, serial), min, slot, normal) == Window(0, rec, false, 0)
    ensures !ErasedRange(HalfTail(v, s.bytes, r, serial), rec, rec + RECORD_SIZE)
  {
    var c := HalfTail(v, s.bytes, r, serial);
    HalfTailTorn(v, s, rec, r, serial);
    HalfTailByte(v, s, rec, r, serial);
    HalfTailReads(v, p, s, rec, r, serial);
    StillErased(s.bytes, c, written, rec);
    LooksEmpty(v, View(v, p, c), rec);
    LooksFree(v, p, c, rec);
  }

  lemma StillErased(b: Bytes, c: Bytes, written: Bytes, rec: nat)
    requires |written| <= rec <= |b| == |c| && b[0..|written|] == written && AllErased(written)
    requires ErasedRange(b, |written|, rec)
    requires forall i | 0 <= i < rec :: c[i] == b[i]
    ensures ErasedRange(c, 0, rec)
  {
    forall i | 0 <= i < rec
      ensures c[i] == ERASED_BYTE
    {
      if i < |written| {
        assert b[0..|written|][i] == written[i];
      }
    }
  }

  /** The footer is live and without the full hint, and the walk finds nothing. */
  lemma HalfTailReads(v: Volume, p: nat, s: Sec, rec: nat, r: Md, serial: nat)
    requires VolumeOk(v) && |s.bytes| == v.size && r.size < 0x1_0000_0000 && serial < 0x1_0000_0000
    requires rec == Start(v, 0) && ErasedRange(s.bytes, rec, v.size)
    ensures var c := HalfTail(v, s.bytes, r, serial);
      && |c| == v.size && FooterOf(v, c) == Live(false) && WalkOf(v, p, c) == Walk([], EndErased)
      && forall i | 0 <= i < rec :: c[i] == s.bytes[i]
  {
    var c, whole := HalfTail(v, s.bytes, r, serial), Program(s.bytes, rec, TailOf(r, true, serial));
    TailProgrammed(v, s.bytes, r, serial);
    TailFooter(v, s.bytes, whole, r, serial);
    SameFooter(v, whole, c);
    EmptyWalk(v, p, c);
  }

  lemma EmptyWalk(v: Volume, p: nat, c: Bytes)
    requires VolumeOk(v) && |c| == v.size && c[Cursor(v, 0) - 1] == ERASED_BYTE
    ensures WalkOf(v, p, c) == Walk([], EndErased)
  {
    assert WalkFrom(v, DecoderOf(v, p, c), 0, 0) == Walk([], EndErased);
  }

  lemma LooksFree(v: Volume, p: nat, c: Bytes, rec: nat)
    requires VolumeOk(v) && |c| == v.size && FooterOf(v, c) == Live(false) && WalkOf(v, p, c) == Walk([], EndErased)
    requires rec == Start(v, 0) && ErasedRange(c, 0, rec)
    ensures forall min: nat, slot: u16, normal: bool | min <= rec ::
              FreeWindow(v, p, c, min, slot, normal) == Window(0, rec, false, 0)
  {
    assert Claimed([]) == 0;
  }

  lemma LooksEmpty(v: Volume, s: Sec, rec: nat)
    requires s.footer.Live? && s.recs == [] && s.end.EndErased? && |s.bytes| == v.size && rec == Start(v, 0)
    requires ErasedRange(s.bytes, 0, rec) && s.bytes[rec + 7] == 0
    ensures !Sane(v, s)
  {
    assert Claimed(s.recs) == 0;
  }

  lemma HalfTailTorn(v: Volume, s: Sec, rec: nat, r: Md, serial: nat)
    requires VolumeOk(v) && |s.bytes| == v.size && r.size < 0x1_0000_0000 && serial < 0x1_0000_0000
    requires rec == Start(v, 0) && ErasedRange(s.bytes, rec, v.size) && rec + |TailOf(r, true, serial)| <= |s.bytes|
    ensures Torn(s.bytes, rec, TailOf(r, true, serial), HalfTail(v, s.bytes, r, serial))
  {
    var tail, c := TailOf(r, true, serial), HalfTail(v, s.bytes, r, serial);
    ProgramIsTorn(s.bytes, rec, tail);
    var at := Cursor(v, 0) - 1;
    ErasedIsTorn(tail[at - rec]);
  }

  lemma ErasedIsTorn(value: bv8)
    ensures TornByte(ERASED_BYTE, value, ERASED_BYTE)
  {
  }

  /** The record states that its data starts at the front of the sector. */
  lemma HalfTailByte(v: Volume, s: Sec, rec: nat, r: Md, serial: nat)
    requires VolumeOk(v) && |s.bytes| == v.size && r.size < 0x1_0000_0000 && serial < 0x1_0000_0000 && r.dataOff == 0
    requires rec == Start(v, 0) && ErasedRange(s.bytes, rec, v.size)
    ensures HalfTail(v, s.bytes, r, serial)[rec + 7] == 0
  {
    var tail := TailOf(r, true, serial);
    ProgramErased(s.bytes, rec, tail);
    assert Program(s.bytes, rec, tail)[rec..rec + |tail|][7] == tail[7] == Encode(r)[7] == Lo(0) == 0;
  }

  /** So a torn first record always leaves order if and only if its data is not all 0xff. */
  lemma TornFirstExact(v: Volume, p: nat, s: Sec, rec: nat, written: Bytes, r: Md, serial: nat)
    requires Orderly(v, p, s) && InWindow(v, s, 0, rec, true, written) && RecordOfWindow(v, p, r, 0, rec, written)
    requires serial < 0x1_0000_0000 && rec + |TailOf(r, true, serial)| <= |s.bytes|
    ensures (forall c | Torn(s.bytes, rec, TailOf(r, true, serial), c) :: InOrder(v, p, c)) <==> !AllErased(written)
  {
    if AllErased(written) {
      HalfTailBreaks(v, p, s, rec, written, r, serial);
    } else {
      var i: nat :| i < |written| && written[i] != ERASED_BYTE;
      forall c | Torn(s.bytes, rec, TailOf(r, true, serial), c)
        ensures InOrder(v, p, c)
      {
        TornFirst(v, p, s, rec, written, r, serial, c, i);
      }
    }
  }

  // ---------------------------------------------------------------- the images of a whole volume

  /** A cut program leaves all sectors in order exactly if it leaves the one that it was in in order. */
  lemma CutExact(v: Volume, disk: Disk, index: Index, p: nat, off: nat, data: Bytes, c: Image)
    requires VolumeOk(v) && DiskOk(v, disk) && DataSector(v, p) && p < |disk| && |disk[p].bytes| == v.size
    requires off + |data| <= v.size && ProgramCut(v, disk, index, p, off, data, c)
    ensures DiskOk(v, c.disk) <==> InOrder(v, p, c.disk[p].bytes)
  {
    if InOrder(v, p, c.disk[p].bytes) {
      DiskOkOne(v, disk, p, c.disk[p]);
    }
    if DiskOk(v, c.disk) {
      assert SaneAt(v, c.disk, p);
    }
  }

  /** So every image of a tombstone is in order: whatever is on flash when the power goes during a removal, or while the
      old chain of a replaced file dies, ... */
  lemma TombstoneImage(v: Volume, disk: Disk, index: Index, p: nat, k: nat, c: Image)
    requires VolumeOk(v) && DiskOk(v, disk) && DataSector(v, p) && |disk[p].bytes| == v.size && disk[p].footer.Live?
    requires k < |disk[p].recs| && disk[p].recs[k].Live() && disk[p].recs[k].start + 1 <= v.size
    requires c in ProgramCuts(v, disk, index, p, disk[p].recs[k].start, [STATE_TOMBSTONED])
    ensures DiskOk(v, c.disk)
  {
    assert Real(v, disk, p) && SaneAt(v, disk, p);
    TornTombstone(v, p, disk[p], k, c.disk[p].bytes);
    CutExact(v, disk, index, p, disk[p].recs[k].start, [STATE_TOMBSTONED], c);
  }

  /** ... or while a sector is marked full, ... */
  lemma HintImage(v: Volume, disk: Disk, index: Index, p: nat, c: Image)
    requires VolumeOk(v) && DiskOk(v, disk) && DataSector(v, p) && |disk[p].bytes| == v.size && disk[p].footer.Live?
    requires c in ProgramCuts(v, disk, index, p, v.size - FOOTER_SIZE + 5, [STATE_FULL])
    ensures DiskOk(v, c.disk)
  {
    assert Real(v, disk, p) && SaneAt(v, disk, p);
    TornHint(v, p, disk[p], c.disk[p].bytes);
    CutExact(v, disk, index, p, v.size - FOOTER_SIZE + 5, [STATE_FULL], c);
  }

  /** ... or while a writer's bytes go into its window. */
  lemma DataImage(v: Volume, disk: Disk, index: Index, p: nat, off: nat, rec: nat, first: bool, written: Bytes,
                  at: nat, chunk: Bytes, pad: nat, data: Bytes, c: Image)
    requires VolumeOk(v) && DiskOk(v, disk) && DataSector(v, p) && |disk[p].bytes| == v.size
    requires InWindow(v, disk[p], off, rec, first, written) && at == off + |written| && at + |chunk| <= rec
    requires data == chunk + Padding(pad) && at + |data| <= v.size && c in ProgramCuts(v, disk, index, p, at, data)
    ensures DiskOk(v, c.disk)
  {
    OrderlyAt(v, disk, p);
    assert |data| == |chunk| + pad;
    TornData(v, p, disk[p], off, rec, first, written, at, chunk, pad, c.disk[p].bytes);
    CutExact(v, disk, index, p, at, data, c);
  }

  lemma OrderlyAt(v: Volume, disk: Disk, p: nat)
    requires VolumeOk(v) && DiskOk(v, disk) && DataSector(v, p) && |disk[p].bytes| == v.size
    ensures Orderly(v, p, disk[p])
  {
    assert Real(v, disk, p) && SaneAt(v, disk, p);
  }
}
