/** A root record that a power cut left uncommitted, and the next writer of the same name: what
    read_uncommitted_metadata_for_slot finds then (src/fffs_file_md.c). */
module Leftover {
  import opened Nor
  import opened SectorMd
  import opened SectorView
  import opened Files
  import opened Mounted
  import opened SectorOps
  import opened Extents
  import opened Finish

  /** The record that is finished is the writer's own, the last one, if and only if there is no other
      uncommitted record of the slot in the sector. */
  lemma FoundExactly(s: Sec, r: Md)
    requires Begun(s, r)
    ensures FirstBegun(s.recs, r.slot) == |s.recs| - 1 <==> NoLeftover(s, r.slot)
  {
  }

  /** Nothing keeps a writer out of a sector with an uncommitted root of its slot: if there is room, the search
      grants it. */
  lemma LeftoverGranted(v: Volume, p: nat, s: Sec, r: Md, min: nat)
    requires VolumeOk(v) && |s.bytes| == v.size && s == View(v, p, s.bytes) && s.footer == Live(false) && Begun(s, r)
    requires s.end.EndErased? && |s.recs| < MAX_RECORDS && Claimed(s.recs) + min <= Start(v, |s.recs|)
    requires ErasedRange(s.bytes, Claimed(s.recs), Start(v, |s.recs|))
    requires forall k | 0 <= k < |s.recs| :: !Rejects(s.recs[k], r.slot, true)
    ensures FreeWindow(v, p, s.bytes, min, r.slot, true) ==
              Window(Claimed(s.recs), Start(v, |s.recs|), false, |s.recs|)
  {
    LiveFooter(v, p, s);
    NotErased(v, s.bytes);
    assert !FullPairCleared(FooterState(v, s.bytes));
    GrantedBehind(v, s.bytes, WalkOf(v, p, s.bytes), min, r.slot);
  }

  lemma GrantedBehind(v: Volume, b: Bytes, w: Walk, min: nat, slot: u16)
    requires |b| == v.size && w.end.EndErased? && |w.recs| < MAX_RECORDS && Claimed(w.recs) + min <= Start(v, |w.recs|)
    requires ErasedRange(b, Claimed(w.recs), Start(v, |w.recs|))
    requires forall k | 0 <= k < |w.recs| :: !Rejects(w.recs[k], slot, true)
    ensures WindowBehind(v, b, w, min, slot, true) == Window(Claimed(w.recs), Start(v, |w.recs|), false, |w.recs|)
  {
  }

  // ---------------------------------------------------------------- finishing record k

  function LinkedBytes(v: Volume, b: Bytes, k: nat, next: u16, span: u16): (b': Bytes)
    requires |b| == v.size && FOOTER_SIZE <= Start(v, k)
    ensures |b'| == v.size
  {
    Program(b, Start(v, k) + 3, LinkBytes(next, span))
  }

  function SizedBytes(v: Volume, b: Bytes, k: nat, size: nat): (b': Bytes)
    requires |b| == v.size && FOOTER_SIZE <= Start(v, k) && size < 0x1_0000_0000
    ensures |b'| == v.size
  {
    Program(b, Start(v, k) + 11, SizeBytes(size))
  }

  function LiveBytes(v: Volume, b: Bytes, k: nat): (b': Bytes)
    requires |b| == v.size && FOOTER_SIZE <= Start(v, k)
    ensures |b'| == v.size
  {
    Program(b, Start(v, k) + 0, [STATE_VALID])
  }

  /** The bytes after link, size and state of record k have been programmed. */
  function FinishedBytes(v: Volume, b: Bytes, k: nat, next: u16, span: u16, size: nat): (b': Bytes)
    requires |b| == v.size && FOOTER_SIZE <= Start(v, k) && size < 0x1_0000_0000
    ensures |b'| == v.size
  {
    LiveBytes(v, SizedBytes(v, LinkedBytes(v, b, k, next, span), k, size), k)
  }

  /** Record k has the fields of r. Callers unfold this where they need it. */
  ghost predicate HasFields(v: Volume, b: Bytes, k: nat, r: Md) {
    forall q: Md {:trigger RecordIs(v, b, k, q)} | q == r :: RecordIs(v, b, k, q)
  }

  lemma YieldsIs(v: Volume, b: Bytes, k: nat, off: nat, data: Bytes, r: Md, b': Bytes)
    requires Yields(v, b, k, off, data, r) && b' == Program(b, Start(v, k) + off, data)
    ensures HasFields(v, b', k, r) && OnlyRecord(v, b, b', k)
  {
    OutsideRecord(v, b, k, off, data);
  }

  lemma LinkedIs(v: Volume, b: Bytes, k: nat, r: Md, next: u16, span: u16)
    requires |b| == v.size && FOOTER_SIZE <= Start(v, k) && HasFields(v, b, k, r)
    requires Takes(r.next, next) && Takes(r.span, span)
    ensures HasFields(v, LinkedBytes(v, b, k, next, span), k, r.(next := next, span := span))
    ensures OnlyRecord(v, b, LinkedBytes(v, b, k, next, span), k)
  {
    assert RecordIs(v, b, k, r);
    LinkYields(v, b, k, r, next, span);
    YieldsIs(v, b, k, 3, LinkBytes(next, span), r.(next := next, span := span), LinkedBytes(v, b, k, next, span));
  }

  lemma SizedIs(v: Volume, b: Bytes, k: nat, r: Md, size: nat)
    requires |b| == v.size && FOOTER_SIZE <= Start(v, k) && HasFields(v, b, k, r)
    requires r.size == 0xffff_ffff && size < 0x1_0000_0000
    ensures HasFields(v, SizedBytes(v, b, k, size), k, r.(size := size))
    ensures OnlyRecord(v, b, SizedBytes(v, b, k, size), k)
  {
    assert RecordIs(v, b, k, r);
    SizeYields(v, b, k, r, size);
    YieldsIs(v, b, k, 11, SizeBytes(size), r.(size := size), SizedBytes(v, b, k, size));
  }

  lemma LiveIs(v: Volume, b: Bytes, k: nat, r: Md)
    requires |b| == v.size && FOOTER_SIZE <= Start(v, k) && HasFields(v, b, k, r) && r.state == UNCOMMITTED
    ensures HasFields(v, LiveBytes(v, b, k), k, r.(state := STATE_VALID)) && OnlyRecord(v, b, LiveBytes(v, b, k), k)
  {
    assert RecordIs(v, b, k, r);
    StateYields(v, b, k, r);
    YieldsIs(v, b, k, 0, [STATE_VALID], r.(state := STATE_VALID), LiveBytes(v, b, k));
  }

  lemma OnlyTwice(v: Volume, b: Bytes, b1: Bytes, b2: Bytes, k: nat)
    requires OnlyRecord(v, b, b1, k) && OnlyRecord(v, b1, b2, k)
    ensures OnlyRecord(v, b, b2, k)
  {
  }

  lemma FinishedIs(v: Volume, b: Bytes, k: nat, r: Md, next: u16, span: u16, size: nat)
    requires |b| == v.size && FOOTER_SIZE <= Start(v, k) && HasFields(v, b, k, r) && r.state == UNCOMMITTED
    requires Takes(r.next, next) && Takes(r.span, span) && r.size == 0xffff_ffff && size < 0x1_0000_0000
    ensures HasFields(v, FinishedBytes(v, b, k, next, span, size), k, FinishedRecord(r, next, span, Some(size), true))
    ensures OnlyRecord(v, b, FinishedBytes(v, b, k, next, span, size), k)
  {
    var r1 := r.(next := next, span := span);
    var b1 := LinkedBytes(v, b, k, next, span);
    var b2 := SizedBytes(v, b1, k, size);
    LinkedIs(v, b, k, r, next, span);
    SizedIs(v, b1, k, r1, size);
    LiveIs(v, b2, k, r1.(size := size));
    OnlyTwice(v, b, b1, b2, k);
    OnlyTwice(v, b, b2, LiveBytes(v, b2, k), k);
  }

  /** Finishing record k, as the source does with the first uncommitted one it finds, brings its slot that record,
      live, with the data that it was for. */
  ghost predicate Publishes(v: Volume, p: nat, s: Sec, k: nat, next: u16, span: u16, size: nat) {
    && VolumeOk(v) && |s.bytes| == v.size && k < |s.recs| && FOOTER_SIZE <= Start(v, k) && size < 0x1_0000_0000
    && s.recs[k].DataEnd() <= v.size
    && var s', r := View(v, p, FinishedBytes(v, s.bytes, k, next, span, size)), s.recs[k];
    && s'.recs == s.recs[k := FinishedRecord(r, next, span, Some(size), true)]
    && Lookup(s', r.slot) == Some(s'.recs[k]) && DataOf(s', s'.recs[k]) == DataOf(s, r)
  }

  lemma FinishPublishes(v: Volume, p: nat, s: Sec, k: nat, next: u16, span: u16, size: nat)
    requires VolumeOk(v) && |s.bytes| == v.size && s == View(v, p, s.bytes) && s.footer.Live? && k < |s.recs|
    requires s.recs[k].state == UNCOMMITTED && Lookup(s, s.recs[k].slot).None? && s.recs[k].size == 0xffff_ffff
    requires Takes(s.recs[k].next, next) && Takes(s.recs[k].span, span) && size < 0x1_0000_0000
    requires Decodes(v, p, FinishedRecord(s.recs[k], next, span, Some(size), true))
    ensures Publishes(v, p, s, k, next, span, size)
  {
    var r, r' := s.recs[k], FinishedRecord(s.recs[k], next, span, Some(size), true);
    RecordAt(v, p, s.bytes, k);
    assert RecordIs(v, s.bytes, k, r);
    var b' := FinishedBytes(v, s.bytes, k, next, span, size);
    FinishedIs(v, s.bytes, k, r, next, span, size);
    FinishedView(v, p, s, k, r', b');
  }

  lemma FinishedView(v: Volume, p: nat, s: Sec, k: nat, r': Md, b': Bytes)
    requires VolumeOk(v) && |s.bytes| == v.size && s == View(v, p, s.bytes) && s.footer.Live? && k < |s.recs|
    requires OnlyRecord(v, s.bytes, b', k) && HasFields(v, b', k, r') && Decodes(v, p, r') && r'.state == STATE_VALID
    requires r' == s.recs[k].(next := r'.next, span := r'.span, size := r'.size, state := r'.state)
    requires Lookup(s, r'.slot).None?
    ensures s.recs[k].DataEnd() <= v.size
    ensures var s' := View(v, p, b');
      && s'.recs == s.recs[k := r'] && Lookup(s', r'.slot) == Some(r') && DataOf(s', r') == DataOf(s, s.recs[k])
  {
    RecordAt(v, p, s.bytes, k);
    assert RecordIs(v, b', k, r');
    DecodedWalk(v, p, s.bytes, b', k, r');
    ReplaceFooter(v, s.bytes, b', k);
    FirstAlive(s, View(v, p, b'), k, r');
    SameData(s.bytes, b', s.recs[k], Start(v, k));
  }

  lemma FirstAlive(s: Sec, s': Sec, k: nat, r: Md)
    requires s.footer.Live? && s'.footer == s.footer && k < |s.recs| && s'.recs == s.recs[k := r]
    requires Lookup(s, r.slot).None? && r.state == STATE_VALID
    ensures Lookup(s', r.slot) == Some(r)
  {
    LifecycleTorn(STATE_VALID, STATE_VALID);
    assert FirstLive(s.recs, r.slot) == |s.recs|;
    assert s'.recs[k] == r;
    assert forall i | 0 <= i < k :: s'.recs[i] == s.recs[i];
  }

  lemma SameData(b: Bytes, b': Bytes, r: Md, start: nat)
    requires |b| == |b'| && r.DataEnd() <= start <= |b| && forall i | 0 <= i < start :: b'[i] == b[i]
    ensures b'[r.dataOff..r.DataEnd()] == b[r.dataOff..r.DataEnd()]
  {
  }

  // ---------------------------------------------------------------- the next writer

  /** Power can go right before any program: what the program before it left is one of the cuts. */
  lemma CutBefore(v: Volume, disk: Disk, index: Index, p: nat, off: nat, data: Bytes)
    requires VolumeOk(v) && p < |disk| && AllReal(v, disk) && |disk[p].bytes| == v.size && off + |data| <= v.size
    ensures Image(disk, index) in ProgramCuts(v, disk, index, p, off, data)
  {
    assert Real(v, disk, p);
    forall i | off <= i < off + |data|
      ensures TornByte(disk[p].bytes[i], data[i - off], disk[p].bytes[i])
    {
      NoneCleared(disk[p].bytes[i], data[i - off]);
    }
  }

  lemma NoneCleared(before: bv8, value: bv8)
    ensures TornByte(before, value, before)
  {
  }

  /** A root was begun in sector s, and power went before it was finished. A file stored again under the same name,
      with its root in the same sector, is committed with the bytes of the interrupted one: the record that is
      found is the old one, and the new one never goes live. */
  lemma RewrittenWrong(v: Volume, p: nat, s: Sec, r: Md, s2: Sec, r2: Md, data: Bytes, span: u16, size: nat)
    requires Begun(s, r) && NoLeftover(s, r.slot) && Lookup(s, r.slot).None? && Unfinished(r)
    requires VolumeOk(v) && |s2.bytes| == v.size && s2 == View(v, p, s2.bytes) && Appended(v, s, s2, false, r2, data)
    requires r2.slot == r.slot && r2.state == UNCOMMITTED && 0 < span && p + span <= v.sectors && size < 0x1_0000_0000
    ensures FirstBegun(s2.recs, r.slot) == |s.recs| - 1 == |s2.recs| - 2
    ensures Publishes(v, p, s2, |s.recs| - 1, 0, span, size)
    ensures r.DataEnd() <= |s.bytes| && r.DataEnd() <= |s2.bytes| && DataOf(s2, r) == DataOf(s, r)
  {
    var n := |s.recs| - 1;
    assert s2.recs[n] == r && s2.recs[n + 1] == r2;
    FoundBefore(s, s2, r, r2);
    StillNone(s, s2, r2);
    RecordAt(v, p, s2.bytes, n);
    LifecycleTorn(STATE_VALID, STATE_VALID);
    FinishPublishes(v, p, s2, n, 0, span, size);
  }

  /** Neither link nor size have been programmed. */
  predicate Unfinished(r: Md) { r.next == r.span == 0xffff && r.size == 0xffff_ffff }

  lemma FoundBefore(s: Sec, s2: Sec, r: Md, r2: Md)
    requires Begun(s, r) && NoLeftover(s, r.slot) && s2.recs == s.recs + [r2]
    ensures FirstBegun(s2.recs, r.slot) == |s.recs| - 1
  {
    var n := |s.recs| - 1;
    assert s2.recs[n] == r;
    assert forall i | 0 <= i < n :: s2.recs[i] == s.recs[i];
  }

  lemma StillNone(s: Sec, s2: Sec, r2: Md)
    requires s.footer.Live? && s2.recs == s.recs + [r2] && r2.state == UNCOMMITTED && Lookup(s, r2.slot).None?
    ensures Lookup(s2, r2.slot).None?
  {
    LifecycleTorn(UNCOMMITTED, UNCOMMITTED);
    forall k | 0 <= k < |s2.recs|
      ensures !(s2.recs[k].Live() && s2.recs[k].slot == r2.slot)
    {
    }
  }
}
