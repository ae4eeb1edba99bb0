/** Writing an extent into a free window: data first, then its record, with the footer if the sector is
    fresh, then the full hint (src/fffs_file_md.c, src/fffs_gc.c). */
module Extents {
  import opened Nor
  import opened SectorMd
  import opened SectorView
  import opened Files
  import opened Mounted
  import opened SectorOps

  /** A window in use: it starts at `off`, the record will go to `rec`, `written` has been programmed,
      and the rest, the record's place included, is erased. */
  ghost predicate InWindow(v: Volume, s: Sec, off: nat, rec: nat, first: bool, written: Bytes) {
    && |s.bytes| == v.size && off + |written| <= rec && rec + RECORD_SIZE + FOOTER_SIZE <= v.size
    && s.bytes[off..off + |written|] == written
    && ErasedRange(s.bytes, off + |written|, rec + RECORD_SIZE)
    && (if first then
          off == 0 && s.footer.Blank? && rec == v.size - FOOTER_SIZE - RECORD_SIZE && ErasedRange(s.bytes, rec, v.size)
        else
          && s.footer.Live? && s.end.EndErased? && rec == Start(v, |s.recs|) && FOOTER_SIZE <= rec
          && off == Claimed(s.recs))
  }

  /** What the search for a free window grants is such a window, with nothing in it yet. */
  lemma WindowGranted(v: Volume, p: nat, s: Sec, min: nat, slot: u16, normal: bool)
    requires VolumeOk(v) && |s.bytes| == v.size && s == View(v, p, s.bytes) && Sane(v, s) && MIN_ROOT <= min
    requires FreeWindow(v, p, s.bytes, min, slot, normal).Window?
    ensures var w := FreeWindow(v, p, s.bytes, min, slot, normal);
      && InWindow(v, s, w.dataOff, w.recordOff, w.needsFooter, []) && w.dataOff + min <= w.recordOff
      && (forall k | 0 <= k < |s.recs| && !w.needsFooter :: !(s.recs[k].Live() && s.recs[k].slot == slot))
  {
    WindowIsFree(v, p, s.bytes, min, slot, normal);
    var w := FreeWindow(v, p, s.bytes, min, slot, normal);
    if w.needsFooter {
      assert FooterErased(v, s.bytes);
    } else {
      GrantedShared(v, p, s.bytes, s, min, slot, normal);
    }
  }

  /** Nothing shorter than a root's prefix is ever stored. */
  const MIN_ROOT: nat := 3

  lemma GrantedShared(v: Volume, p: nat, b: Bytes, s: Sec, min: nat, slot: u16, normal: bool)
    requires VolumeOk(v) && |b| == v.size && s == View(v, p, b) && Sane(v, s) && 0 < min
    requires FreeWindow(v, p, b, min, slot, normal).Window? && !FreeWindow(v, p, b, min, slot, normal).needsFooter
    ensures var w, n := FreeWindow(v, p, b, min, slot, normal), |s.recs|;
      && w.dataOff == Claimed(s.recs) && w.recordOff == Start(v, n) && s.footer.Live?
      && s.end.EndErased? && FOOTER_SIZE <= Start(v, n) && ErasedRange(b, Start(v, n), Cursor(v, n))
  {
    EndOf(v, p, b);
  }

  /** A walk that met claimed data left no room for another record. */
  lemma EndOf(v: Volume, p: nat, b: Bytes)
    requires VolumeOk(v) && |b| == v.size
    ensures var recs := Records(v, p, b);
      WalkOf(v, p, b).end.EndClaimed? ==> Start(v, |recs|) < Claimed(recs)
  {
    EndOfWalk(v, DecoderOf(v, p, b), Records(v, p, b), WalkOf(v, p, b).end);
  }

  lemma EndOfWalk(v: Volume, dec: Decoder, recs: seq<Md>, end: Step)
    requires WalkFrom(v, dec, 0, 0) == Walk(recs, end) && (dec(|recs|).EndClaimed? ==> Cursor(v, |recs|) <= FOOTER_SIZE)
    ensures end.EndClaimed? ==> Start(v, |recs|) < Claimed(recs)
  {
    assert recs[..|recs|] == recs;
    WalkSplit(v, dec, recs, end, |recs|);
  }

  // ---------------------------------------------------------------- data into the window

  /** b' is b with `chunk` at `at`. */
  ghost predicate Placed(b: Bytes, b': Bytes, at: nat, chunk: Bytes) {
    && at + |chunk| <= |b| == |b'| && b'[at..at + |chunk|] == chunk
    && forall i | 0 <= i < |b| && !(at <= i < at + |chunk|) :: b'[i] == b[i]
  }

  /** Padding with 0xff changes nothing, in the place of the record or anywhere else. */
  lemma ChunkPlaced(b: Bytes, at: nat, chunk: Bytes, pad: nat)
    requires at + |chunk| + pad <= |b| && ErasedRange(b, at, at + |chunk|)
    ensures Placed(b, Program(b, at, chunk + Padding(pad)), at, chunk)
  {
    var data := chunk + Padding(pad);
    var b' := Program(b, at, data);
    forall i | 0 <= i < |b|
      ensures at <= i < at + |chunk| ==> b'[i] == chunk[i - at]
      ensures !(at <= i < at + |chunk|) ==> b'[i] == b[i]
    {
      ProgramAt(b, at, data, i);
      if at <= i < at + |data| {
        ByteFacts(b[i], data[i - at]);
        ErasedAnd(data[i - at]);
      }
    }
  }

  /** The images differ only in these n bytes. */
  ghost predicate Inside(b: Bytes, c: Bytes, at: nat, n: nat) {
    |c| == |b| && forall i | 0 <= i < |b| && !(at <= i < at + n) :: c[i] == b[i]
  }

  /** Torn or not, the padded program touches only the window. */
  lemma TornChunk(b: Bytes, at: nat, chunk: Bytes, pad: nat, c: Bytes)
    requires at + |chunk| + pad <= |b| && Torn(b, at, chunk + Padding(pad), c)
    ensures Inside(b, c, at, |chunk|)
  {
    var data := chunk + Padding(pad);
    forall i | 0 <= i < |b| && !(at <= i < at + |chunk|)
      ensures c[i] == b[i]
    {
      if at <= i < at + |data| {
        assert TornByte(b[i], data[i - at], c[i]);
        TornPadding(b[i], c[i]);
      }
    }
  }

  /** Data in the window of a shared sector leaves the walk as it was. */
  lemma WindowWalk(v: Volume, p: nat, b: Bytes, b': Bytes)
    requires VolumeOk(v) && |b| == v.size == |b'| && WalkOf(v, p, b).end.EndErased?
    requires FOOTER_SIZE <= Start(v, |Records(v, p, b)|)
    requires SameFrom(b, b', Start(v, |Records(v, p, b)|))
    requires ErasedRange(b, Start(v, |Records(v, p, b)|), LowestRecord(v, p, b))
    ensures WalkOf(v, p, b') == WalkOf(v, p, b) && FooterOf(v, b') == FooterOf(v, b)
  {
    var n, recs := |Records(v, p, b)|, Records(v, p, b);
    AppendDecoder(v, p, b, b', n);
    WalkExtend(v, DecoderOf(v, p, b), DecoderOf(v, p, b'));
    assert b'[Cursor(v, n) - 1] == b[Cursor(v, n) - 1] == ERASED_BYTE;
    assert WalkFrom(v, DecoderOf(v, p, b'), n, Claimed(recs)) == Walk([], EndErased);
    SameFooter(v, b, b');
  }

  /** More data into the window. */
  lemma DataPlaced(v: Volume, p: nat, s: Sec, off: nat, rec: nat, first: bool, written: Bytes, chunk: Bytes, b': Bytes)
    requires VolumeOk(v) && |s.bytes| == v.size && s == View(v, p, s.bytes) && InWindow(v, s, off, rec, first, written)
    requires off + |written| + |chunk| <= rec && Placed(s.bytes, b', off + |written|, chunk)
    ensures var s' := View(v, p, b');
      && InWindow(v, s', off, rec, first, written + chunk) && s'.footer == s.footer
      && (!first ==> s'.recs == s.recs && s'.end == s.end)
  {
    if first {
      DataFirst(v, p, s, rec, b');
    } else {
      DataShared(v, p, s, rec, b');
    }
    InWindowMore(v, s, View(v, p, b'), off, rec, first, written, chunk);
  }

  lemma DataShared(v: Volume, p: nat, s: Sec, rec: nat, b': Bytes)
    requires VolumeOk(v) && |s.bytes| == v.size == |b'| && s == View(v, p, s.bytes) && SameFrom(s.bytes, b', rec)
    requires s.end.EndErased? && rec == Start(v, |s.recs|) && FOOTER_SIZE <= rec
    requires ErasedRange(s.bytes, rec, rec + RECORD_SIZE)
    ensures View(v, p, b').recs == s.recs && View(v, p, b').end == s.end && View(v, p, b').footer == s.footer
  {
    WindowWalk(v, p, s.bytes, b');
  }

  lemma DataFirst(v: Volume, p: nat, s: Sec, rec: nat, b': Bytes)
    requires VolumeOk(v) && |s.bytes| == v.size == |b'| && s == View(v, p, s.bytes) && SameFrom(s.bytes, b', rec)
    requires rec <= v.size - FOOTER_SIZE
    ensures View(v, p, b').footer == s.footer
  {
    SameFooter(v, s.bytes, b');
  }

  lemma InWindowMore(v: Volume, s: Sec, s': Sec, off: nat, rec: nat, first: bool, written: Bytes, chunk: Bytes)
    requires InWindow(v, s, off, rec, first, written) && off + |written| + |chunk| <= rec
    requires Placed(s.bytes, s'.bytes, off + |written|, chunk) && s'.footer == s.footer
    requires !first ==> s'.recs == s.recs && s'.end == s.end
    ensures InWindow(v, s', off, rec, first, written + chunk)
  {
    PlacedBytes(s.bytes, s'.bytes, off, written, chunk, rec + RECORD_SIZE);
  }

  lemma PlacedBytes(b: Bytes, b': Bytes, off: nat, written: Bytes, chunk: Bytes, hi: nat)
    requires off + |written| <= |b| && b[off..off + |written|] == written && Placed(b, b', off + |written|, chunk)
    requires off + |written| + |chunk| <= hi <= |b| && ErasedRange(b, off + |written|, hi)
    ensures b'[off..off + |written + chunk|] == written + chunk && ErasedRange(b', off + |written + chunk|, hi)
  {
    var at := off + |written|;
    assert b'[off..at] == b[off..at];
    assert b'[off..at + |chunk|] == b'[off..at] + b'[at..at + |chunk|];
  }

  /** The window now holds data, so the sector stays tidy. */
  lemma DataSane(v: Volume, s: Sec, s': Sec, off: nat, rec: nat, written: Bytes)
    requires Sane(v, s) && InWindow(v, s', off, rec, false, written) && written != [] && written[0] != ERASED_BYTE
    requires s'.footer == s.footer && s'.recs == s.recs && s'.end == s.end
    ensures Sane(v, s')
  {
    assert s'.bytes[off] == s'.bytes[off..off + |written|][0];
  }

  // ---------------------------------------------------------------- the record behind the data

  /** The record of what was written into the window. */
  ghost predicate RecordOfWindow(v: Volume, p: nat, r: Md, off: nat, rec: nat, written: Bytes) {
    && r.start == rec && r.dataOff == off && r.dataLen == |written| && written != []
    && r.size < 0x1_0000_0000 && Decodes(v, p, r)
  }

  /** The sector has one more record, with this data; what it had before it still has. */
  ghost predicate Appended(v: Volume, s: Sec, s': Sec, first: bool, r: Md, data: Bytes) {
    && s'.footer.Live? && |s'.bytes| == |s.bytes| == v.size
    && s'.recs == (if first then [] else s.recs) + [r]
    && r.DataEnd() <= |s'.bytes| && DataOf(s', r) == data
    && (!first ==> Grown(s, s'))
  }

  lemma RecordShared(v: Volume, p: nat, s: Sec, off: nat, rec: nat, written: Bytes, r: Md)
    requires VolumeOk(v) && |s.bytes| == v.size && s == View(v, p, s.bytes) && InWindow(v, s, off, rec, false, written)
    requires RecordOfWindow(v, p, r, off, rec, written) && rec + RECORD_SIZE <= |s.bytes|
    ensures var s' := View(v, p, Program(s.bytes, rec, Encode(r)));
      && Appended(v, s, s', false, r, written) && s'.footer == s.footer && (s'.end.EndErased? || s'.end.EndClaimed?)
      && SameBelow(s, s', rec)
  {
    var b' := Program(s.bytes, rec, Encode(r));
    RecordBytes(s.bytes, rec, r);
    RecordWalk(v, p, s, off, rec, written, r, b');
    RecordGrows(v, p, s, off, rec, written, r, b');
  }

  lemma RecordWalk(v: Volume, p: nat, s: Sec, off: nat, rec: nat, written: Bytes, r: Md, b': Bytes)
    requires VolumeOk(v) && |s.bytes| == v.size && s == View(v, p, s.bytes) && InWindow(v, s, off, rec, false, written)
    requires RecordOfWindow(v, p, r, off, rec, written) && rec + RECORD_SIZE <= |s.bytes|
    requires b' == Program(s.bytes, rec, Encode(r))
    ensures |b'| == v.size && Records(v, p, b') == s.recs + [r]
    ensures WalkOf(v, p, b').end.EndErased? || WalkOf(v, p, b').end.EndClaimed?
  {
    AppendRecord(v, p, s.bytes, b', r);
  }

  lemma RecordGrows(v: Volume, p: nat, s: Sec, off: nat, rec: nat, written: Bytes, r: Md, b': Bytes)
    requires VolumeOk(v) && |s.bytes| == v.size == |b'| && s == View(v, p, s.bytes)
    requires InWindow(v, s, off, rec, false, written)
    requires r.dataOff == off && r.dataLen == |written| && Records(v, p, b') == s.recs + [r]
    requires forall i | 0 <= i < v.size && !(rec <= i < rec + RECORD_SIZE) :: b'[i] == s.bytes[i]
    ensures Appended(v, s, View(v, p, b'), false, r, written) && View(v, p, b').footer == s.footer
  {
    var s' := View(v, p, b');
    WindowWriteGrows(v, p, s.bytes, b', rec, rec + RECORD_SIZE);
    FooterKept(v, p, s, s', rec + RECORD_SIZE);
    AppendedIs(v, s, s', off, rec, written, r);
  }

  lemma FooterKept(v: Volume, p: nat, s: Sec, s': Sec, hi: nat)
    requires VolumeOk(v) && |s.bytes| == v.size == |s'.bytes| && s == View(v, p, s.bytes) && s' == View(v, p, s'.bytes)
    requires hi <= v.size - FOOTER_SIZE && forall i | hi <= i < v.size :: s'.bytes[i] == s.bytes[i]
    ensures s'.footer == s.footer
  {
    SameFooter(v, s.bytes, s'.bytes);
  }

  lemma AppendedIs(v: Volume, s: Sec, s': Sec, off: nat, rec: nat, written: Bytes, r: Md)
    requires InWindow(v, s, off, rec, false, written) && r.dataOff == off && r.dataLen == |written|
    requires s'.recs == s.recs + [r]
    requires s'.footer == s.footer && Grown(s, s') && forall i | 0 <= i < rec :: s'.bytes[i] == s.bytes[i]
    ensures Appended(v, s, s', false, r, written)
  {
    assert s'.bytes[off..off + |written|] == s.bytes[off..off + |written|];
  }

  lemma RecordBytes(b: Bytes, rec: nat, r: Md)
    requires rec + RECORD_SIZE <= |b| && r.size < 0x1_0000_0000
    ensures var b' := Program(b, rec, Encode(r));
      |b'| == |b| && forall i | 0 <= i < |b| && !(rec <= i < rec + RECORD_SIZE) :: b'[i] == b[i]
  {
  }

  lemma AppendSane(v: Volume, s: Sec, s': Sec, off: nat, rec: nat, written: Bytes, r: Md)
    requires Sane(v, s) && InWindow(v, s, off, rec, false, written)
    requires r.start == rec && r.dataOff == off && r.dataLen == |written| && written != []
    requires Appended(v, s, s', false, r, written) && (s'.end.EndErased? || s'.end.EndClaimed?) && SameBelow(s, s', rec)
    requires forall k | 0 <= k < |s.recs| :: rec <= s.recs[k].start
    requires r.Live() ==> forall k | 0 <= k < |s.recs| :: !(s.recs[k].Live() && s.recs[k].slot == r.slot)
    ensures Sane(v, s')
  {
    ClearAppend(s.recs, r);
    ClaimsAppend(s.recs, r);
    AppendTidy(v, s, s', off, rec, written, r);
  }

  lemma AppendTidy(v: Volume, s: Sec, s': Sec, off: nat, rec: nat, written: Bytes, r: Md)
    requires InWindow(v, s, off, rec, false, written) && r.DataEnd() == off + |written|
    requires |s'.recs| == |s.recs| + 1 && Claimed(s'.recs) == r.DataEnd() && SameBelow(s, s', rec)
    ensures Tidy(v, s')
  {
    assert Cursor(v, |s'.recs|) == rec;
  }

  // ---------------------------------------------------------------- the first record of a sector

  /** fffs_encode_sector_footer. */
  function FooterBytes(serial: nat): (b: Bytes)
    requires serial < 0x1_0000_0000
    ensures |b| == FOOTER_SIZE
  {
    Store32(serial) + [0x01, STATE_VALID, 0x46, 0x46, 0x53, 0x44]
  }

  /** The record and the footer, programmed in one go. */
  ghost predicate TailPlaced(v: Volume, b: Bytes, b': Bytes, r: Md, serial: nat) {
    && VolumeOk(v) && |b| == |b'| == v.size && r.size < 0x1_0000_0000 && serial < 0x1_0000_0000
    && b'[Start(v, 0)..Cursor(v, 0)] == Encode(r) && b'[Cursor(v, 0)..] == FooterBytes(serial)
    && forall i | 0 <= i < Start(v, 0) :: b'[i] == b[i]
  }

  lemma TailProgrammed(v: Volume, b: Bytes, r: Md, serial: nat)
    requires VolumeOk(v) && |b| == v.size && r.size < 0x1_0000_0000 && serial < 0x1_0000_0000
    requires ErasedRange(b, Start(v, 0), v.size)
    ensures TailPlaced(v, b, Program(b, Start(v, 0), Encode(r) + FooterBytes(serial)), r, serial)
  {
    var tail := Encode(r) + FooterBytes(serial);
    var b' := Program(b, Start(v, 0), tail);
    ProgramErased(b, Start(v, 0), tail);
    assert b'[Start(v, 0)..] == tail;
    assert b'[Start(v, 0)..Cursor(v, 0)] == tail[..RECORD_SIZE] == Encode(r);
    assert b'[Cursor(v, 0)..] == tail[RECORD_SIZE..] == FooterBytes(serial);
  }

  lemma TailFooter(v: Volume, b: Bytes, b': Bytes, r: Md, serial: nat)
    requires TailPlaced(v, b, b', r, serial)
    ensures FooterOf(v, b') == Live(false)
  {
    var f, at := FooterBytes(serial), v.size - FOOTER_SIZE;
    assert f[4] == 0x01 && f[5] == STATE_VALID && f[6] == 0x46 && f[7] == 0x46 && f[8] == 0x53 && f[9] == 0x44;
    assert forall k | 0 <= k < FOOTER_SIZE :: b'[at + k] == b'[at..][k] == f[k];
    assert b'[at + 4] == 0x01 && b'[at + 5] == STATE_VALID && b'[at + 6] == 0x46;
    NotErased(v, b');
  }

  lemma TailWalk(v: Volume, p: nat, b: Bytes, b': Bytes, r: Md, serial: nat)
    requires TailPlaced(v, b, b', r, serial) && r.start == Start(v, 0) && Decodes(v, p, r)
    requires r.DataEnd() < r.start ==> b[r.start - 1] == ERASED_BYTE
    ensures Records(v, p, b') == [r] && (WalkOf(v, p, b').end.EndErased? || WalkOf(v, p, b').end.EndClaimed?)
  {
    TailDecodes(v, p, b', r, Encode(r));
    OneMoreRecord(v, p, b', 0, 0, r);
  }

  lemma TailDecodes(v: Volume, p: nat, b': Bytes, r: Md, e: Bytes)
    requires VolumeOk(v) && |b'| == v.size && r.start == Start(v, 0) && Decodes(v, p, r)
    requires r.size < 0x1_0000_0000 && e == Encode(r) && b'[Start(v, 0)..Cursor(v, 0)] == e
    ensures Decode(v, p, b', 0) == Found(r)
  {
    EncodeRoundTrip(r);
    assert e[15] == r.typ;
    assert b'[Cursor(v, 0) - 1] == b'[Start(v, 0)..Cursor(v, 0)][15];
  }

  lemma RecordFirst(v: Volume, p: nat, s: Sec, rec: nat, written: Bytes, r: Md, serial: nat)
    requires VolumeOk(v) && |s.bytes| == v.size && s == View(v, p, s.bytes) && InWindow(v, s, 0, rec, true, written)
    requires RecordOfWindow(v, p, r, 0, rec, written) && serial < 0x1_0000_0000
    ensures var s' := View(v, p, Program(s.bytes, rec, Encode(r) + FooterBytes(serial)));
      && Appended(v, s, s', true, r, written) && Sane(v, s')
  {
    var b' := Program(s.bytes, rec, Encode(r) + FooterBytes(serial));
    TailProgrammed(v, s.bytes, r, serial);
    TailFooter(v, s.bytes, b', r, serial);
    TailWalk(v, p, s.bytes, b', r, serial);
    FirstAppended(v, p, s, b', rec, written, r);
    FirstSane(v, s, View(v, p, b'), rec, written, r);
  }

  lemma FirstAppended(v: Volume, p: nat, s: Sec, b': Bytes, rec: nat, written: Bytes, r: Md)
    requires VolumeOk(v) && InWindow(v, s, 0, rec, true, written) && r.dataOff == 0 && r.dataLen == |written|
    requires |b'| == v.size && FooterOf(v, b') == Live(false) && Records(v, p, b') == [r]
    requires forall i | 0 <= i < rec :: b'[i] == s.bytes[i]
    ensures Appended(v, s, View(v, p, b'), true, r, written)
  {
    assert b'[0..|written|] == s.bytes[0..|written|];
    assert [] + [r] == [r];
  }

  lemma FirstSane(v: Volume, s: Sec, s': Sec, rec: nat, written: Bytes, r: Md)
    requires InWindow(v, s, 0, rec, true, written) && r.start == rec && r.dataOff == 0 && r.dataLen == |written|
    requires written != []
    requires s'.recs == [r] && (s'.end.EndErased? || s'.end.EndClaimed?) && SameBelow(s, s', rec)
    ensures Sane(v, s')
  {
    assert s'.recs[..0] == [];
    assert Claimed(s'.recs) == r.DataEnd();
  }

  // ---------------------------------------------------------------- on the mounted volume

  /** No reader of any slot can see the difference. */
  ghost predicate Quiet(s: Sec, s': Sec) {
    forall slot: u16 :: Keeps(s, s', slot)
  }

  /** Every image added since differs in sector p only, and quietly. */
  ghost predicate QuietCuts(disk: Disk, index: Index, p: nat, before: iset<Image>, after: iset<Image>)
    requires p < |disk|
  {
    forall c | c in after && c !in before :: EraseCut(disk, index, p, c) && Quiet(disk[p], c.disk[p])
  }

  lemma QuietSurvives(v: Volume, w: World, p: nat, before: iset<Image>, after: iset<Image>)
    requires Holds(v, w.disk, w.index, w.paths, w.files) && p < |w.disk| && QuietCuts(w.disk, w.index, p, before, after)
    ensures CutsKept(v, before, after, w.index, w.files)
  {
    forall c | c in after && c !in before
      ensures Survives(v, c, w.files)
    {
      CutSurvives(v, w, p, c);
    }
  }

  lemma GrownQuiet(s: Sec, s': Sec)
    requires s.footer.Live? ==> Grown(s, s')
    ensures Quiet(s, s')
  {
    forall slot: u16
      ensures Keeps(s, s', slot)
    {
      if s.footer.Live? {
        GrownKeeps(s, s', slot);
      }
    }
  }

  lemma HintedQuiet(s: Sec, s': Sec)
    requires Hinted(s, s')
    ensures Quiet(s, s')
  {
    forall slot: u16
      ensures Keeps(s, s', slot)
    {
      HintedKeeps(s, s', slot);
    }
  }

  /** Whatever a program inside the window leaves is quiet. */
  lemma WindowQuiet(v: Volume, p: nat, s: Sec, off: nat, rec: nat, first: bool, written: Bytes, c: Bytes)
    requires VolumeOk(v) && |s.bytes| == v.size == |c| && s == View(v, p, s.bytes)
    requires InWindow(v, s, off, rec, first, written)
    requires forall i | 0 <= i < v.size && !(off + |written| <= i < rec + RECORD_SIZE)
                     && (!first || i < off + |written|) ::
               c[i] == s.bytes[i]
    ensures Quiet(s, View(v, p, c))
  {
    if !first {
      WindowWriteGrows(v, p, s.bytes, c, off + |written|, rec + RECORD_SIZE);
    }
    GrownQuiet(s, View(v, p, c));
  }

  /** One chunk of data, padded with 0xff, into the window of sector p. */
  method ProgramData(fs: Volatile, p: nat, off: nat, rec: nat, first: bool, ghost written: Bytes, at: nat, chunk: Bytes,
                     pad: nat)
    requires VolumeOk(fs.v) && DiskOk(fs.v, fs.disk) && DataSector(fs.v, p)
    requires InWindow(fs.v, fs.disk[p], off, rec, first, written)
    requires at == off + |written| && at + |chunk| <= rec && at + |chunk| + pad <= fs.v.size
    requires chunk != [] && (first || (written + chunk)[0] != ERASED_BYTE)
    modifies fs`disk, fs`cuts
    ensures DiskOk(fs.v, fs.disk) && fs.disk == old(fs.disk)[p := fs.disk[p]]
    ensures InWindow(fs.v, fs.disk[p], off, rec, first, written + chunk) && fs.disk[p].footer == old(fs.disk)[p].footer
    ensures !first ==> fs.disk[p].recs == old(fs.disk)[p].recs && fs.disk[p].end == old(fs.disk)[p].end
    ensures Quiet(old(fs.disk)[p], fs.disk[p]) && QuietCuts(old(fs.disk), fs.index, p, old(fs.cuts), fs.cuts)
  {
    var data := chunk + Padding(pad);
    fs.ProgramSector(p, at, data);
    DataEffect(fs.v, old(fs.disk), p, off, rec, first, written, at, data, chunk, pad, fs.disk);
    DataCutsOf(fs.v, old(fs.disk), fs.index, p, off, rec, first, written, at, data, chunk, pad, old(fs.cuts), fs.cuts);
  }

  lemma DataEffect(v: Volume, disk: Disk, p: nat, off: nat, rec: nat, first: bool, written: Bytes, at: nat, data: Bytes,
                   chunk: Bytes, pad: nat, disk': Disk)
    requires VolumeOk(v) && DiskOk(v, disk) && DataSector(v, p) && InWindow(v, disk[p], off, rec, first, written)
    requires at == off + |written| && data == chunk + Padding(pad) && at + |chunk| <= rec && at + |data| <= v.size
    requires chunk != [] && (first || (written + chunk)[0] != ERASED_BYTE) && |disk'| == |disk|
    requires ProgrammedAt(v, disk, disk', p, at, data)
    ensures DiskOk(v, disk') && InWindow(v, disk'[p], off, rec, first, written + chunk)
    ensures disk'[p].footer == disk[p].footer
    ensures !first ==> disk'[p].recs == disk[p].recs && disk'[p].end == disk[p].end
    ensures Quiet(disk[p], disk'[p])
  {
    ChunkPlaced(disk[p].bytes, at, chunk, pad);
    DataDisk(v, disk, p, off, rec, first, written, chunk, disk');
  }

  lemma DataCutsOf(v: Volume, disk: Disk, index: Index, p: nat, off: nat, rec: nat, first: bool, written: Bytes,
                   at: nat, data: Bytes, chunk: Bytes, pad: nat, cuts: iset<Image>, cuts': iset<Image>)
    requires VolumeOk(v) && DiskOk(v, disk) && DataSector(v, p) && InWindow(v, disk[p], off, rec, first, written)
    requires at == off + |written| && data == chunk + Padding(pad) && at + |chunk| <= rec && at + |data| <= v.size
    requires cuts' == cuts + ProgramCuts(v, disk, index, p, at, data)
    ensures QuietCuts(disk, index, p, cuts, cuts')
  {
    ChunkTears(disk[p].bytes, at, chunk, pad);
    DataCuts(v, disk, index, p, off, rec, first, written, data, |chunk|, cuts, cuts');
  }

  lemma DataDisk(v: Volume, disk: Disk, p: nat, off: nat, rec: nat, first: bool, written: Bytes, chunk: Bytes,
                 disk': Disk)
    requires VolumeOk(v) && DiskOk(v, disk) && DataSector(v, p) && InWindow(v, disk[p], off, rec, first, written)
    requires off + |written| + |chunk| <= rec && chunk != [] && (first || (written + chunk)[0] != ERASED_BYTE)
    requires |disk'| == |disk|
    requires Placed(disk[p].bytes, disk'[p].bytes, off + |written|, chunk) && disk' == disk[p := disk'[p]]
    requires AllReal(v, disk')
    ensures DiskOk(v, disk') && InWindow(v, disk'[p], off, rec, first, written + chunk)
    ensures disk'[p].footer == disk[p].footer
    ensures !first ==> disk'[p].recs == disk[p].recs && disk'[p].end == disk[p].end
    ensures Quiet(disk[p], disk'[p])
  {
    assert Real(v, disk, p) && Real(v, disk', p) && SaneAt(v, disk, p);
    DataSec(v, p, disk[p], off, rec, first, written, chunk, disk'[p]);
    DiskOkOne(v, disk, p, disk'[p]);
  }

  lemma DataSec(v: Volume, p: nat, s: Sec, off: nat, rec: nat, first: bool, written: Bytes, chunk: Bytes, s': Sec)
    requires VolumeOk(v) && |s.bytes| == v.size && s == View(v, p, s.bytes) && Sane(v, s)
    requires InWindow(v, s, off, rec, first, written)
    requires off + |written| + |chunk| <= rec && Placed(s.bytes, s'.bytes, off + |written|, chunk)
    requires s' == View(v, p, s'.bytes)
    requires chunk != [] && (first || (written + chunk)[0] != ERASED_BYTE)
    ensures InWindow(v, s', off, rec, first, written + chunk) && Sane(v, s') && s'.footer == s.footer && Quiet(s, s')
    ensures !first ==> s'.recs == s.recs && s'.end == s.end
  {
    DataPlaced(v, p, s, off, rec, first, written, chunk, s'.bytes);
    WindowQuiet(v, p, s, off, rec, first, written, s'.bytes);
    if !first {
      DataSane(v, s, s', off, rec, written + chunk);
    }
  }

  lemma DataCuts(v: Volume, disk: Disk, index: Index, p: nat, off: nat, rec: nat, first: bool, written: Bytes,
                 data: Bytes, n: nat, cuts: iset<Image>, cuts': iset<Image>)
    requires VolumeOk(v) && DiskOk(v, disk) && DataSector(v, p) && InWindow(v, disk[p], off, rec, first, written)
    requires off + |written| + n <= rec && off + |written| + |data| <= v.size
    requires TearsInside(disk[p].bytes, off + |written|, data, n)
    requires cuts' == cuts + ProgramCuts(v, disk, index, p, off + |written|, data)
    ensures QuietCuts(disk, index, p, cuts, cuts')
  {
    assert Real(v, disk, p);
    forall c | c in cuts' && c !in cuts
      ensures EraseCut(disk, index, p, c) && Quiet(disk[p], c.disk[p])
    {
      InsideQuiet(v, p, disk[p], off, rec, first, written, n, c.disk[p].bytes);
    }
  }

  /** Whatever an interrupted program of the data leaves differs in the first n bytes only. */
  ghost predicate TearsInside(b: Bytes, at: nat, data: Bytes, n: nat)
    requires at + |data| <= |b|
  {
    forall c | Torn(b, at, data, c) :: Inside(b, c, at, n)
  }

  lemma ChunkTears(b: Bytes, at: nat, chunk: Bytes, pad: nat)
    requires at + |chunk| + pad <= |b|
    ensures TearsInside(b, at, chunk + Padding(pad), |chunk|)
  {
    forall c | Torn(b, at, chunk + Padding(pad), c)
      ensures Inside(b, c, at, |chunk|)
    {
      TornChunk(b, at, chunk, pad, c);
    }
  }

  lemma InsideQuiet(v: Volume, p: nat, s: Sec, off: nat, rec: nat, first: bool, written: Bytes, n: nat, c: Bytes)
    requires VolumeOk(v) && |s.bytes| == v.size == |c| && s == View(v, p, s.bytes)
    requires InWindow(v, s, off, rec, first, written)
    requires off + |written| + n <= rec && Inside(s.bytes, c, off + |written|, n)
    ensures Quiet(s, View(v, p, c))
  {
    WindowQuiet(v, p, s, off, rec, first, written, c);
  }

  // ---------------------------------------------------------------- the full hint

  lemma HintSec(v: Volume, p: nat, s: Sec, c: Bytes)
    requires VolumeOk(v) && |s.bytes| == v.size && s == View(v, p, s.bytes) && s.footer.Live?
    requires Torn(s.bytes, v.size - FOOTER_SIZE + 5, [STATE_FULL], c)
    ensures |c| == v.size && Hinted(s, View(v, p, c))
  {
    var at := v.size - FOOTER_SIZE + 5;
    LiveFooter(v, p, s);
    assert TornByte(s.bytes[at], STATE_FULL, c[at]);
    assert c == s.bytes[at := c[at]];
    FullHintKeeps(v, p, s.bytes, c[at]);
  }

  lemma HintedSane(v: Volume, s: Sec, s': Sec)
    requires VolumeOk(v) && Sane(v, s) && Hinted(s, s') && |s.bytes| == v.size
    ensures Sane(v, s')
  {
  }

  /** fffs_mark_sector_full. */
  method MarkFull(fs: Volatile, p: nat)
    requires VolumeOk(fs.v) && DiskOk(fs.v, fs.disk) && DataSector(fs.v, p) && fs.disk[p].footer.Live?
    modifies fs`disk, fs`cuts
    ensures DiskOk(fs.v, fs.disk) && fs.disk == old(fs.disk)[p := fs.disk[p]] && Hinted(old(fs.disk)[p], fs.disk[p])
    ensures QuietCuts(old(fs.disk), fs.index, p, old(fs.cuts), fs.cuts)
  {
    RealSize(fs.v, fs.disk, p);
    var at := fs.v.size - FOOTER_SIZE + 5;
    fs.ProgramSector(p, at, [STATE_FULL]);
    HintEffect(fs.v, old(fs.disk), fs.index, p, at, old(fs.cuts), fs.disk, fs.cuts);
  }

  lemma HintEffect(v: Volume, disk: Disk, index: Index, p: nat, at: nat, cuts: iset<Image>, disk': Disk,
                   cuts': iset<Image>)
    requires VolumeOk(v) && DiskOk(v, disk) && DataSector(v, p) && disk[p].footer.Live? && |disk[p].bytes| == v.size
    requires at == v.size - FOOTER_SIZE + 5 && ProgrammedAt(v, disk, disk', p, at, [STATE_FULL])
    requires cuts' == cuts + ProgramCuts(v, disk, index, p, at, [STATE_FULL])
    ensures DiskOk(v, disk') && Hinted(disk[p], disk'[p]) && QuietCuts(disk, index, p, cuts, cuts')
  {
    HintDisk(v, disk, p, at, disk');
    HintCuts(v, disk, index, p, at, cuts, cuts');
  }

  lemma HintDisk(v: Volume, disk: Disk, p: nat, at: nat, disk': Disk)
    requires VolumeOk(v) && DiskOk(v, disk) && DataSector(v, p) && disk[p].footer.Live? && |disk[p].bytes| == v.size
    requires at == v.size - FOOTER_SIZE + 5 && ProgrammedAt(v, disk, disk', p, at, [STATE_FULL])
    ensures DiskOk(v, disk') && Hinted(disk[p], disk'[p])
  {
    assert Real(v, disk, p) && Real(v, disk', p) && SaneAt(v, disk, p);
    ProgramIsTorn(disk[p].bytes, at, [STATE_FULL]);
    HintSec(v, p, disk[p], disk'[p].bytes);
    HintedSane(v, disk[p], disk'[p]);
    DiskOkOne(v, disk, p, disk'[p]);
  }

  lemma HintCuts(v: Volume, disk: Disk, index: Index, p: nat, at: nat, cuts: iset<Image>, cuts': iset<Image>)
    requires VolumeOk(v) && DiskOk(v, disk) && DataSector(v, p) && disk[p].footer.Live? && |disk[p].bytes| == v.size
    requires at == v.size - FOOTER_SIZE + 5 && cuts' == cuts + ProgramCuts(v, disk, index, p, at, [STATE_FULL])
    ensures QuietCuts(disk, index, p, cuts, cuts')
  {
    assert Real(v, disk, p);
    forall c | c in cuts' && c !in cuts
      ensures EraseCut(disk, index, p, c) && Quiet(disk[p], c.disk[p])
    {
      HintSec(v, p, disk[p], c.disk[p].bytes);
      HintedQuiet(disk[p], c.disk[p]);
    }
  }

  // ---------------------------------------------------------------- fffs_program_extent_metadata

  /** The bytes of the record, with the footer behind them in a fresh sector. */
  function TailOf(r: Md, first: bool, serial: nat): (b: Bytes)
    requires r.size < 0x1_0000_0000 && serial < 0x1_0000_0000
    ensures |b| == if first then RECORD_SIZE + FOOTER_SIZE else RECORD_SIZE
  {
    if first then Encode(r) + FooterBytes(serial) else Encode(r)
  }

  lemma RecordSec(v: Volume, p: nat, s: Sec, off: nat, rec: nat, first: bool, written: Bytes, r: Md, serial: nat)
    requires VolumeOk(v) && |s.bytes| == v.size && s == View(v, p, s.bytes) && Sane(v, s)
    requires InWindow(v, s, off, rec, first, written)
    requires RecordOfWindow(v, p, r, off, rec, written) && serial < 0x1_0000_0000 && Available(s, first, r)
    ensures var s' := View(v, p, Program(s.bytes, rec, TailOf(r, first, serial)));
      Appended(v, s, s', first, r, written) && Sane(v, s')
  {
    if first {
      RecordFirst(v, p, s, rec, written, r, serial);
    } else {
      RecordShared(v, p, s, off, rec, written, r);
      StartsAbove(v, p, s);
      AppendSane(v, s, View(v, p, Program(s.bytes, rec, Encode(r))), off, rec, written, r);
    }
  }

  /** If the record is going to be live, the sector has no live record of its slot. */
  ghost predicate Available(s: Sec, first: bool, r: Md) {
    !first && r.Live() ==> forall k | 0 <= k < |s.recs| :: !(s.recs[k].Live() && s.recs[k].slot == r.slot)
  }

  lemma StartsAbove(v: Volume, p: nat, s: Sec)
    requires VolumeOk(v) && |s.bytes| == v.size && s == View(v, p, s.bytes)
    ensures forall k | 0 <= k < |s.recs| :: Start(v, |s.recs|) <= s.recs[k].start
  {
    forall k | 0 <= k < |s.recs|
      ensures Start(v, |s.recs|) <= s.recs[k].start
    {
      RecordPlace(v, p, s, k);
    }
  }

  /** The record program, cut short, is quiet. */
  lemma TailCut(v: Volume, p: nat, s: Sec, off: nat, rec: nat, first: bool, written: Bytes, r: Md, serial: nat,
                c: Bytes)
    requires VolumeOk(v) && |s.bytes| == v.size && s == View(v, p, s.bytes) && InWindow(v, s, off, rec, first, written)
    requires r.size < 0x1_0000_0000 && serial < 0x1_0000_0000 && rec + |TailOf(r, first, serial)| <= |s.bytes|
    requires Torn(s.bytes, rec, TailOf(r, first, serial), c)
    ensures |c| == v.size && Quiet(s, View(v, p, c))
  {
    WindowQuiet(v, p, s, off, rec, first, written, c);
  }

  lemma RecordEffect(v: Volume, disk: Disk, index: Index, p: nat, off: nat, rec: nat, first: bool, written: Bytes,
                     r: Md,
                     serial: nat, cuts: iset<Image>, disk': Disk, cuts': iset<Image>)
    requires VolumeOk(v) && DiskOk(v, disk) && DataSector(v, p) && InWindow(v, disk[p], off, rec, first, written)
    requires RecordOfWindow(v, p, r, off, rec, written) && serial < 0x1_0000_0000 && Available(disk[p], first, r)
    requires |disk[p].bytes| == v.size && rec + |TailOf(r, first, serial)| <= v.size && |disk'| == |disk|
    requires ProgrammedAt(v, disk, disk', p, rec, TailOf(r, first, serial))
    requires cuts' == cuts + ProgramCuts(v, disk, index, p, rec, TailOf(r, first, serial))
    ensures DiskOk(v, disk') && Appended(v, disk[p], disk'[p], first, r, written)
    ensures QuietCuts(disk, index, p, cuts, cuts')
  {
    assert Real(v, disk, p) && Real(v, disk', p) && SaneAt(v, disk, p);
    RecordSec(v, p, disk[p], off, rec, first, written, r, serial);
    DiskOkOne(v, disk, p, disk'[p]);
    forall c | c in cuts' && c !in cuts
      ensures EraseCut(disk, index, p, c) && Quiet(disk[p], c.disk[p])
    {
      TailCut(v, p, disk[p], off, rec, first, written, r, serial, c.disk[p].bytes);
    }
  }

  lemma AppendedQuiet(v: Volume, s: Sec, s': Sec, first: bool, r: Md, data: Bytes)
    requires Appended(v, s, s', first, r, data) && (first ==> !s.footer.Live?)
    ensures Quiet(s, s')
  {
    GrownQuiet(s, s');
  }

  lemma AppendedHinted(v: Volume, s: Sec, s1: Sec, s2: Sec, first: bool, r: Md, data: Bytes)
    requires Appended(v, s, s1, first, r, data) && Hinted(s1, s2)
    ensures Appended(v, s, s2, first, r, data)
  {
    assert s1.recs[|s1.recs| - 1] == r;
    if !first {
      forall k | 0 <= k < |s.recs|
        ensures DataOf(s2, s.recs[k]) == DataOf(s, s.recs[k])
      {
        assert s1.recs[k] == s.recs[k];
      }
    }
  }

  /** Two quiet changes of the same sector. */
  lemma QuietTwice(disk: Disk, index: Index, p: nat, s1: Sec, cuts: iset<Image>, cuts1: iset<Image>, cuts2: iset<Image>)
    requires p < |disk| && Quiet(disk[p], s1)
    requires QuietCuts(disk, index, p, cuts, cuts1) && QuietCuts(disk[p := s1], index, p, cuts1, cuts2)
    ensures QuietCuts(disk, index, p, cuts, cuts2)
  {
    forall c | c in cuts2 && c !in cuts
      ensures EraseCut(disk, index, p, c) && Quiet(disk[p], c.disk[p])
    {
      if c !in cuts1 {
        assert c.disk == disk[p := s1][p := c.disk[p]] == disk[p := c.disk[p]];
        forall slot: u16
          ensures Keeps(disk[p], c.disk[p], slot)
        {
          KeepsTransitive(disk[p], s1, c.disk[p], slot);
        }
      }
    }
  }

  /** One more quiet change of the same sector. */
  lemma QuietMore(disk: Disk, disk1: Disk, disk2: Disk, index: Index, p: nat, cuts: iset<Image>, cuts1: iset<Image>,
                  cuts2: iset<Image>)
    requires p < |disk| == |disk1| == |disk2| && disk1 == disk[p := disk1[p]] && disk2 == disk1[p := disk2[p]]
    requires Quiet(disk[p], disk1[p]) && QuietCuts(disk, index, p, cuts, cuts1)
    requires Quiet(disk1[p], disk2[p]) && QuietCuts(disk1, index, p, cuts1, cuts2)
    ensures disk2 == disk[p := disk2[p]] && Quiet(disk[p], disk2[p]) && QuietCuts(disk, index, p, cuts, cuts2)
  {
    QuietTwice(disk, index, p, disk1[p], cuts, cuts1, cuts2);
    QuietChain(disk[p], disk1[p], disk2[p]);
  }

  lemma QuietChain(s: Sec, s1: Sec, s2: Sec)
    requires Quiet(s, s1) && Quiet(s1, s2)
    ensures Quiet(s, s2)
  {
    forall slot: u16
      ensures Keeps(s, s2, slot)
    {
      KeepsTransitive(s, s1, s2, slot);
    }
  }

  /** fffs_program_extent_metadata: the record, with the footer if the sector is fresh, and the full
      hint if nothing more fits behind it or it is a continuation. */
  method ProgramExtentMetadata(fs: Volatile, p: nat, ghost off: nat, rec: nat, first: bool, ghost written: Bytes, r: Md)
    requires VolumeOk(fs.v) && DiskOk(fs.v, fs.disk) && DataSector(fs.v, p)
    requires InWindow(fs.v, fs.disk[p], off, rec, first, written)
    requires RecordOfWindow(fs.v, p, r, off, rec, written) && Available(fs.disk[p], first, r)
    modifies fs`disk, fs`cuts, fs`nextSerial, fs`allocMap
    ensures DiskOk(fs.v, fs.disk) && fs.disk == old(fs.disk)[p := fs.disk[p]] && old(fs.allocMap) <= fs.allocMap
    ensures Appended(fs.v, old(fs.disk)[p], fs.disk[p], first, r, written)
    ensures Quiet(old(fs.disk)[p], fs.disk[p]) && QuietCuts(old(fs.disk), fs.index, p, old(fs.cuts), fs.cuts)
  {
    ghost var disk0, cuts0 := fs.disk, fs.cuts;
    ProgramTail(fs, p, off, rec, first, written, r);
    if r.typ == TYPE_CONT || r.DataEnd() >= rec || rec - r.DataEnd() < MIN_USABLE {
      ghost var s1, cuts1 := fs.disk[p], fs.cuts;
      MarkFull(fs, p);
      fs.allocMap := fs.allocMap + {p};
      AppendedHinted(fs.v, disk0[p], s1, fs.disk[p], first, r, written);
      AppendedQuiet(fs.v, disk0[p], fs.disk[p], first, r, written);
      QuietTwice(disk0, fs.index, p, s1, cuts0, cuts1, fs.cuts);
    }
  }

  /** The record, with the footer and the next serial if the sector is fresh. */
  method ProgramTail(fs: Volatile, p: nat, ghost off: nat, rec: nat, first: bool, ghost written: Bytes, r: Md)
    requires VolumeOk(fs.v) && DiskOk(fs.v, fs.disk) && DataSector(fs.v, p)
    requires InWindow(fs.v, fs.disk[p], off, rec, first, written)
    requires RecordOfWindow(fs.v, p, r, off, rec, written) && Available(fs.disk[p], first, r)
    modifies fs`disk, fs`cuts, fs`nextSerial
    ensures DiskOk(fs.v, fs.disk) && fs.disk == old(fs.disk)[p := fs.disk[p]]
    ensures Appended(fs.v, old(fs.disk)[p], fs.disk[p], first, r, written)
    ensures Quiet(old(fs.disk)[p], fs.disk[p]) && QuietCuts(old(fs.disk), fs.index, p, old(fs.cuts), fs.cuts)
  {
    var serial := fs.nextSerial % 0x1_0000_0000;
    if first {
      fs.nextSerial := if serial + 1 == 0x1_0000_0000 then 1 else serial + 1;
    }
    RealSize(fs.v, fs.disk, p);
    fs.ProgramSector(p, rec, TailOf(r, first, serial));
    RecordEffect(fs.v, old(fs.disk), fs.index, p, off, rec, first, written, r, serial, old(fs.cuts), fs.disk, fs.cuts);
    AppendedQuiet(fs.v, old(fs.disk)[p], fs.disk[p], first, r, written);
  }

  // ---------------------------------------------------------------- asking for a window

  /** A window of at least `min` bytes in a sector without a live record of the slot. */
  ghost predicate Granted(v: Volume, s: Sec, w: Window, min: nat, slot: u16) {
    && w.Window? && InWindow(v, s, w.dataOff, w.recordOff, w.needsFooter, []) && w.dataOff + min <= w.recordOff
    && Lookup(s, slot).None?
  }

  lemma GrantedIs(v: Volume, p: nat, s: Sec, min: nat, slot: u16, normal: bool)
    requires VolumeOk(v) && |s.bytes| == v.size && s == View(v, p, s.bytes) && Sane(v, s) && MIN_ROOT <= min
    ensures var w := FreeWindow(v, p, s.bytes, min, slot, normal);
      (w.Window? ==> Granted(v, s, w, min, slot)) && (w.NoWindow? && w.full ==> s.footer.Live?)
  {
    if FreeWindow(v, p, s.bytes, min, slot, normal).Window? {
      WindowGranted(v, p, s, min, slot, normal);
    } else {
      MarksLive(v, p, s.bytes, min, slot, normal);
    }
  }

  lemma MarksLive(v: Volume, p: nat, b: Bytes, min: nat, slot: u16, normal: bool)
    requires VolumeOk(v) && |b| == v.size
    ensures FreeWindow(v, p, b, min, slot, normal) == NoWindow(true) ==> FooterOf(v, b).Live?
  {
  }

  /** Sector p got a full hint, or nothing happened. */
  ghost predicate HintAt(disk: Disk, disk': Disk, p: nat) {
    && p < |disk| == |disk'| && disk' == disk[p := disk'[p]]
    && (disk'[p] == disk[p] || Hinted(disk[p], disk'[p]))
  }

  /** fffs_find_sector_free_window on the mounted volume. */
  method FindWindow(fs: Volatile, p: nat, min: nat, slot: u16, normal: bool) returns (w: Window)
    requires VolumeOk(fs.v) && DiskOk(fs.v, fs.disk) && DataSector(fs.v, p) && MIN_ROOT <= min
    modifies fs`disk, fs`cuts
    ensures DiskOk(fs.v, fs.disk) && HintAt(old(fs.disk), fs.disk, p)
    ensures w.Window? ==> fs.disk == old(fs.disk) && fs.cuts == old(fs.cuts) && Granted(fs.v, fs.disk[p], w, min, slot)
    ensures Wiped(fs.disk[p]) && min <= fs.v.size - FOOTER_SIZE - RECORD_SIZE ==> w.Window? && w.needsFooter
    ensures QuietCuts(old(fs.disk), fs.index, p, old(fs.cuts), fs.cuts)
  {
    w := AskWindow(fs, p, min, slot, normal);
    if w.NoWindow? && w.full {
      MarkFull(fs, p);
    }
  }

  method AskWindow(fs: Volatile, p: nat, min: nat, slot: u16, normal: bool) returns (w: Window)
    requires VolumeOk(fs.v) && DiskOk(fs.v, fs.disk) && DataSector(fs.v, p) && MIN_ROOT <= min
    ensures w.Window? ==> Granted(fs.v, fs.disk[p], w, min, slot)
    ensures w.NoWindow? && w.full ==> fs.disk[p].footer.Live?
    ensures Wiped(fs.disk[p]) && min <= fs.v.size - FOOTER_SIZE - RECORD_SIZE ==> w.Window? && w.needsFooter
  {
    assert Real(fs.v, fs.disk, p) && SaneAt(fs.v, fs.disk, p);
    GrantedIs(fs.v, p, fs.disk[p], min, slot, normal);
    w := FindSectorFreeWindow(fs.v, p, fs.disk[p].bytes, min, slot, normal);
  }
}
