/** Operations on one data sector of the mounted volume: slot lookup, tombstones and the full hint
    (src/fffs_file_md.c, src/fffs_sector.c). */
module SectorOps {
  import opened Nor
  import opened SectorMd
  import opened SectorView
  import opened Files
  import opened Mounted
  import Counters

  /** The walk loop that read_md_for_slot and fffs_tombstone_metadata_for_slot share. */
  method FindLiveBy(v: Volume, dec: Decoder, ghost recs: seq<Md>, ghost end: Step, slot: u16) returns (k: nat)
    requires WalkFrom(v, dec, 0, 0) == Walk(recs, end)
    requires forall j: nat | dec(j).Found? :: Cursor(v, j) >= FOOTER_SIZE + RECORD_SIZE
    ensures k == FirstLive(recs, slot)
  {
    var j: nat, claimed: nat, active := 0, 0, true;
    assert recs[..0] == [];
    while active
      invariant j <= |recs| && (active ==> Resumable(v, recs, j, claimed)) && (!active ==> j == |recs|)
      invariant forall i | 0 <= i < j :: !(recs[i].Live() && recs[i].slot == slot)
      decreases active, |recs| - j
    {
      var d: Step;
      d, claimed, active := WalkStep(v, dec, recs, end, j, claimed);
      if d.Found? {
        if d.r.Live() && d.r.slot == slot {
          return j;
        }
        j := j + 1;
      }
    }
    return j;
  }

  method FindLive(v: Volume, p: nat, s: Sec, slot: u16) returns (k: nat)
    requires VolumeOk(v) && |s.bytes| == v.size && s == View(v, p, s.bytes)
    ensures k == FirstLive(s.recs, slot)
  {
    k := FindLiveBy(v, DecoderOf(v, p, s.bytes), s.recs, s.end, slot);
  }

  /** fffs_md_walk_next over a sector of the mounted volume. */
  method NextRecord(fs: Volatile, p: nat, j: nat, claimed: nat) returns (d: Step, claimed': nat, active: bool)
    requires VolumeOk(fs.v) && p < |fs.disk| && AllReal(fs.v, fs.disk) && Resumable(fs.v, fs.disk[p].recs, j, claimed)
    ensures d.Found? == (j < |fs.disk[p].recs|)
    ensures d.Found? ==>
              && d.r == fs.disk[p].recs[j]
              && (if active then Resumable(fs.v, fs.disk[p].recs, j + 1, claimed') else j + 1 == |fs.disk[p].recs|)
    ensures !d.Found? ==> d == fs.disk[p].end && !active && claimed' == claimed
  {
    assert Real(fs.v, fs.disk, p);
    d, claimed', active := WalkNext(fs.v, p, fs.disk[p], j, claimed);
  }

  /** fffs_read_md_for_slot. */
  method ReadMdForSlot(fs: Volatile, p: nat, slot: u16) returns (status: Status, r: Md)
    requires VolumeOk(fs.v) && |fs.disk| == fs.v.sectors && AllReal(fs.v, fs.disk)
    ensures status.Ok? == (DataSector(fs.v, p) && Lookup(fs.disk[p], slot).Some?)
    ensures status.Ok? ==> r == Lookup(fs.disk[p], slot).value
    ensures !status.Ok? ==> status == ErrCorrupt
  {
    r := Md(0, 0, 0, 0, 0, 0, 0, 0, 0);
    if !DataSector(fs.v, p) {
      return ErrCorrupt, r;
    }
    assert Real(fs.v, fs.disk, p);
    var s := fs.disk[p];
    if !s.footer.Live? {
      return ErrCorrupt, r;
    }
    var k := FindLive(fs.v, p, s, slot);
    if k < |s.recs| {
      return Ok, s.recs[k];
    }
    return ErrCorrupt, r;
  }

  /** Tombstoning record k of sector s, completed or not. */
  ghost predicate Burial(s: Sec, s': Sec, k: nat) {
    && Buried(s, s', k) && SameBelow(s, s', s.recs[k].start)
    && (forall slot: u16 | s.recs[k].slot != slot :: Keeps(s, s', slot))
  }

  lemma BurialOf(v: Volume, p: nat, s: Sec, k: nat, b': Bytes)
    requires VolumeOk(v) && |s.bytes| == v.size && s == View(v, p, s.bytes) && Sane(v, s) && s.footer.Live?
    requires k < |s.recs| && s.recs[k].Live() && 0 <= s.recs[k].start && s.recs[k].start + 1 <= v.size
    requires Torn(s.bytes, s.recs[k].start, [STATE_TOMBSTONED], b')
    ensures |b'| == v.size && Burial(s, View(v, p, b'), k)
    ensures b' == Program(s.bytes, s.recs[k].start, [STATE_TOMBSTONED]) ==> !View(v, p, b').recs[k].Live()
  {
    var at := s.recs[k].start;
    RecordAt(v, p, s.bytes, k);
    StateOf(v, p, s.bytes, k);
    assert TornByte(s.bytes[at], STATE_TOMBSTONED, b'[at]);
    assert b' == s.bytes[at := b'[at]];
    TombstoneBuries(v, p, s.bytes, k, b'[at]);
    forall slot: u16 | s.recs[k].slot != slot
      ensures Keeps(s, View(v, p, b'), slot)
    {
      BuriedKeeps(s, View(v, p, b'), k, slot);
    }
  }

  lemma StateOf(v: Volume, p: nat, b: Bytes, k: nat)
    requires VolumeOk(v) && |b| == v.size && k < |Records(v, p, b)|
    ensures FOOTER_SIZE <= Start(v, k) && b[Start(v, k)] == Records(v, p, b)[k].state
  {
    RecordAt(v, p, b, k);
  }

  lemma BuriedSane(v: Volume, s: Sec, s': Sec, k: nat)
    requires Sane(v, s) && Buried(s, s', k) && (s.recs[k].Live() || !s'.recs[k].Live())
    requires SameBelow(s, s', Cursor(v, |s.recs|))
    ensures Sane(v, s')
  {
    if s'.footer.Live? {
      ClaimsSame(s.recs, s'.recs);
      forall i, j | 0 <= i < |s'.recs| && 0 <= j < |s'.recs|
        ensures s'.recs[i].DataEnd() <= s'.recs[j].start
      {
        assert s.recs[i].DataEnd() <= s.recs[j].start;
      }
      forall i, j | 0 <= i < j < |s'.recs| && s'.recs[i].Live() && s'.recs[j].Live()
        ensures s'.recs[i].slot != s'.recs[j].slot
      {
        assert s.recs[i].Live() && s.recs[j].Live();
      }
    }
  }

  lemma {:induction false} ClaimedSame(recs: seq<Md>, recs': seq<Md>)
    requires |recs| == |recs'| && forall i | 0 <= i < |recs| :: recs[i].DataEnd() == recs'[i].DataEnd()
    ensures Claimed(recs) == Claimed(recs')
  {
    if recs != [] {
      ClaimedSame(recs[..|recs| - 1], recs'[..|recs| - 1]);
    }
  }

  lemma ClaimsSame(recs: seq<Md>, recs': seq<Md>)
    requires Claims(recs) && |recs| == |recs'| && forall i | 0 <= i < |recs| :: recs[i].DataEnd() == recs'[i].DataEnd()
    ensures Claims(recs') && Claimed(recs) == Claimed(recs')
  {
    ClaimedSame(recs, recs');
    forall n: nat | n <= |recs'|
      ensures n <= Claimed(recs'[..n])
    {
      ClaimedSame(recs[..n], recs'[..n]);
    }
  }

  lemma ClaimsAppend(recs: seq<Md>, r: Md)
    requires Claims(recs) && Claimed(recs) < r.DataEnd()
    ensures Claims(recs + [r]) && Claimed(recs + [r]) == r.DataEnd()
  {
    var recs' := recs + [r];
    assert recs'[..|recs|] == recs == recs[..|recs|] && recs'[..|recs| + 1] == recs';
    forall n: nat | n <= |recs|
      ensures n <= Claimed(recs'[..n])
    {
      assert recs'[..n] == recs[..n];
    }
  }

  /** The record is tombstoned: its slot has no live record in this sector any more. */
  lemma BurialClears(v: Volume, s: Sec, s': Sec, k: nat)
    requires Sane(v, s) && s.footer.Live? && Buried(s, s', k) && s.recs[k].Live() && !s'.recs[k].Live()
    ensures Lookup(s', s.recs[k].slot).None?
  {
    var slot := s.recs[k].slot;
    forall i | 0 <= i < |s'.recs|
      ensures !(s'.recs[i].Live() && s'.recs[i].slot == slot)
    {
    }
  }

  /** How fffs_tombstone_metadata_for_slot judges the footer; None: go on and search. */
  function TombstoneVerdict(v: Volume, b: Bytes): Option<Status>
    requires VolumeOk(v) && |b| == v.size
  {
    var state := FooterState(v, b);
    if FooterErased(v, b) then Some(Ok)
    else if !FooterOwned(v, b) then Some(ErrCorrupt)
    else if (ValidPairCleared(state) || state & 0x81 == 0x81) && TombstonePairCleared(state) then Some(Ok)
    else if !IsLive(state) then Some(ErrCorrupt)
    else None
  }

  lemma VerdictLive(v: Volume, p: nat, b: Bytes)
    requires VolumeOk(v) && |b| == v.size
    ensures TombstoneVerdict(v, b).None? <==> View(v, p, b).footer.Live?
  {
    var state := FooterState(v, b);
    Pairs(state);
    if FooterLive(v, b) {
      NotErased(v, b);
    }
  }

  lemma Pairs(state: bv8)
    ensures TombstonePairCleared(state) ==> !TombstonePairSet(state)
    ensures IsLive(state) ==> state & 0x81 != 0x81
  {
  }

  /** fffs_tombstone_metadata_for_slot: the first live record of the slot, if there is one, dies; a cut on the
      way only ever touches that record. With accounting, a root that dies is taken off the counters. */
  method TombstoneMetadataForSlot(fs: Volatile, p: nat, slot: u16, accounting: bool)
    returns (status: Status, accounted: bool)
    requires VolumeOk(fs.v) && DiskOk(fs.v, fs.disk)
    modifies fs`disk, fs`cuts, (if accounting then {fs} else {})`committed
    ensures DiskOk(fs.v, fs.disk)
    ensures !DataSector(fs.v, p) || Lookup(old(fs.disk)[p], slot).None? ==>
              fs.disk == old(fs.disk) && fs.cuts == old(fs.cuts) && fs.committed == old(fs.committed) && !accounted
    ensures DataSector(fs.v, p) && Lookup(old(fs.disk)[p], slot).Some? ==>
              var s, k := old(fs.disk)[p], FirstLive(old(fs.disk)[p].recs, slot);
              && status.Ok? && fs.disk == old(fs.disk)[p := fs.disk[p]]
              && Burial(s, fs.disk[p], k) && !fs.disk[p].recs[k].Live()
              && BurialCuts(old(fs.disk), fs.index, p, k, old(fs.cuts), fs.cuts)
              && Accounted(old(fs.committed), fs.committed, s.recs[k], accounting, accounted)
  {
    accounted := false;
    if !DataSector(fs.v, p) {
      return ErrCorrupt, false;
    }
    assert Real(fs.v, fs.disk, p);
    var s := fs.disk[p];
    VerdictLive(fs.v, p, s.bytes);
    var verdict := TombstoneVerdict(fs.v, s.bytes);
    if verdict.Some? {
      return verdict.value, false;
    }
    var k := FindLive(fs.v, p, s, slot);
    if k == |s.recs| {
      return if s.end.EndInvalid? || s.end.Corrupt? then ErrCorrupt else Ok, false;
    }
    RecordPlace(fs.v, p, s, k);
    fs.ProgramSector(p, s.recs[k].start, [STATE_TOMBSTONED]);
    TombstoneEffect(fs.v, old(fs.disk), fs.index, p, k, old(fs.cuts), fs.disk, fs.cuts);
    if accounting && s.recs[k].typ == TYPE_ROOT {
      fs.NoteDelete(s.recs[k].size);
      accounted := true;
    }
    status := Ok;
  }

  /** Only the death of a root is noted, and only if it is to be. */
  ghost predicate Accounted(c: Counters.Count, c': Counters.Count, r: Md, accounting: bool, accounted: bool) {
    && (accounted <==> accounting && r.typ == TYPE_ROOT)
    && c' == if accounted then Counters.Subtracted(c, r.size) else c
  }

  lemma RecordPlace(v: Volume, p: nat, s: Sec, k: nat)
    requires VolumeOk(v) && |s.bytes| == v.size && s == View(v, p, s.bytes) && k < |s.recs|
    ensures s.recs[k].start == Start(v, k) && FOOTER_SIZE <= Start(v, k)
  {
    RecordAt(v, p, s.bytes, k);
  }

  /** Every image added since shows a burial of record k in sector p and nothing else. */
  ghost predicate BurialCuts(disk: Disk, index: Index, p: nat, k: nat, before: iset<Image>, after: iset<Image>)
    requires p < |disk|
  {
    forall c | c in after && c !in before :: EraseCut(disk, index, p, c) && Burial(disk[p], c.disk[p], k)
  }

  lemma TombstoneEffect(v: Volume, disk: Disk, index: Index, p: nat, k: nat, cuts: iset<Image>, disk': Disk,
                        cuts': iset<Image>)
    requires VolumeOk(v) && DiskOk(v, disk) && DataSector(v, p) && disk[p].footer.Live? && |disk[p].bytes| == v.size
    requires k < |disk[p].recs| && disk[p].recs[k].Live() && disk[p].recs[k].start + 1 <= v.size
    requires var at := disk[p].recs[k].start;
      && ProgrammedAt(v, disk, disk', p, at, [STATE_TOMBSTONED])
      && cuts' == cuts + ProgramCuts(v, disk, index, p, at, [STATE_TOMBSTONED])
    ensures DiskOk(v, disk') && Burial(disk[p], disk'[p], k) && !disk'[p].recs[k].Live()
    ensures BurialCuts(disk, index, p, k, cuts, cuts')
  {
    TombstoneDisk(v, disk, p, k, disk');
    TombstoneCuts(v, disk, index, p, k, cuts, cuts');
  }

  lemma TombstoneDisk(v: Volume, disk: Disk, p: nat, k: nat, disk': Disk)
    requires VolumeOk(v) && DiskOk(v, disk) && DataSector(v, p) && disk[p].footer.Live? && |disk[p].bytes| == v.size
    requires k < |disk[p].recs| && disk[p].recs[k].Live() && disk[p].recs[k].start + 1 <= v.size
    requires ProgrammedAt(v, disk, disk', p, disk[p].recs[k].start, [STATE_TOMBSTONED])
    ensures DiskOk(v, disk') && Burial(disk[p], disk'[p], k) && !disk'[p].recs[k].Live()
  {
    assert Real(v, disk, p) && Real(v, disk', p) && SaneAt(v, disk, p);
    ProgramIsTorn(disk[p].bytes, disk[p].recs[k].start, [STATE_TOMBSTONED]);
    BurialOf(v, p, disk[p], k, disk'[p].bytes);
    RecordPlace(v, p, disk[p], k);
    BuriedSane(v, disk[p], disk'[p], k);
    DiskOkOne(v, disk, p, disk'[p]);
  }

  lemma TombstoneCuts(v: Volume, disk: Disk, index: Index, p: nat, k: nat, cuts: iset<Image>, cuts': iset<Image>)
    requires VolumeOk(v) && DiskOk(v, disk) && DataSector(v, p) && disk[p].footer.Live? && |disk[p].bytes| == v.size
    requires k < |disk[p].recs| && disk[p].recs[k].Live() && disk[p].recs[k].start + 1 <= v.size
    requires cuts' == cuts + ProgramCuts(v, disk, index, p, disk[p].recs[k].start, [STATE_TOMBSTONED])
    ensures BurialCuts(disk, index, p, k, cuts, cuts')
  {
    assert Real(v, disk, p) && SaneAt(v, disk, p);
    forall c | c in cuts' && c !in cuts
      ensures EraseCut(disk, index, p, c) && Burial(disk[p], c.disk[p], k)
    {
      BurialOf(v, p, disk[p], k, c.disk[p].bytes);
    }
  }

  const TOMBSTONE_FOOTER: Bytes := [0x01, STATE_TOMBSTONED, 0xff, 0xff]

  lemma TombstonedFooter(v: Volume, p: nat, b: Bytes)
    requires VolumeOk(v) && |b| == v.size && FooterLive(v, b)
    ensures !View(v, p, Program(b, v.size - FOOTER_SIZE + 4, TOMBSTONE_FOOTER)).footer.Live?
  {
    var b' := Program(b, v.size - FOOTER_SIZE + 4, TOMBSTONE_FOOTER);
    ProgramAt(b, v.size - FOOTER_SIZE + 4, TOMBSTONE_FOOTER, v.size - FOOTER_SIZE + 5);
    LifecycleTorn(FooterState(v, b), FooterState(v, b'));
  }

  lemma LiveFooter(v: Volume, p: nat, s: Sec)
    requires VolumeOk(v) && |s.bytes| == v.size && s == View(v, p, s.bytes) && s.footer.Live?
    ensures FooterLive(v, s.bytes)
  {
  }

  /** Every image added since differs in sector p at most. */
  ghost predicate CutsAt(disk: Disk, index: Index, p: nat, before: iset<Image>, after: iset<Image>)
    requires p < |disk|
  {
    forall c | c in after && c !in before :: EraseCut(disk, index, p, c)
  }

  /** fffs_tombstone_sector. */
  method TombstoneSector(fs: Volatile, p: nat)
    requires VolumeOk(fs.v) && DiskOk(fs.v, fs.disk) && DataSector(fs.v, p) && fs.disk[p].footer.Live?
    modifies fs`disk, fs`cuts
    ensures DiskOk(fs.v, fs.disk) && fs.disk == old(fs.disk)[p := fs.disk[p]] && !fs.disk[p].footer.Live?
    ensures CutsAt(old(fs.disk), fs.index, p, old(fs.cuts), fs.cuts)
  {
    RealSize(fs.v, fs.disk, p);
    var at := fs.v.size - FOOTER_SIZE + 4;
    fs.ProgramSector(p, at, TOMBSTONE_FOOTER);
    TombstonedSector(fs.v, old(fs.disk), p, at, fs.disk);
  }

  lemma TombstonedSector(v: Volume, disk: Disk, p: nat, at: nat, disk': Disk)
    requires VolumeOk(v) && DiskOk(v, disk) && DataSector(v, p) && disk[p].footer.Live? && |disk[p].bytes| == v.size
    requires at == v.size - FOOTER_SIZE + 4 && ProgrammedAt(v, disk, disk', p, at, TOMBSTONE_FOOTER)
    ensures DiskOk(v, disk') && !disk'[p].footer.Live?
  {
    assert Real(v, disk, p) && Real(v, disk', p);
    LiveFooter(v, p, disk[p]);
    TombstonedFooter(v, p, disk[p].bytes);
    DiskOkOne(v, disk, p, disk'[p]);
  }

  /** An erased sector: nothing in it, and every byte free. */
  lemma ErasedView(v: Volume, p: nat)
    requires VolumeOk(v)
    ensures View(v, p, Padding(v.size)).footer == Blank
  {
  }

  method Erase(fs: Volatile, p: nat)
    requires VolumeOk(fs.v) && DiskOk(fs.v, fs.disk) && DataSector(fs.v, p)
    modifies fs`disk, fs`cuts
    ensures DiskOk(fs.v, fs.disk) && fs.disk == old(fs.disk)[p := fs.disk[p]]
    ensures fs.disk[p].footer.Blank? && AllErased(fs.disk[p].bytes)
    ensures CutsAt(old(fs.disk), fs.index, p, old(fs.cuts), fs.cuts)
  {
    ErasedView(fs.v, p);
    DiskOkOne(fs.v, fs.disk, p, View(fs.v, p, Padding(fs.v.size)));
    fs.EraseSector(p);
  }
}
