/** Whole operations under power cuts: whatever is on flash when the power goes, the next mount finds the files
    from before the operation or those from after it. */
module Crashes {
  import opened Nor
  import opened SectorMd
  import opened SectorView
  import opened Files
  import opened Mounted
  import opened Writer
  import opened Notes
  import opened Sharing
  import opened Commit
  import opened Remount
  import Closing
  import Compact
  import Deleting
  import Gc
  import GcPass
  import Drafts
  import IndexRing
  import Journal
  import Streaming

  /** Every flash image that a power cut can have left since has the old files or the new ones, once mounted. */
  ghost predicate AllBoot(v: Volume, g: IndexRing.Geometry, a: Stage, b: Stage, at: Disk, slot: u16, head: u16)
    requires Journal.Typed(g, a.journal)
  {
    forall p: Flash | CrashImage(g, a.journal, b.journal, slot, head, at, a.cuts, b.cuts, p) ::
      Boots(v, g, p, a.files) || Boots(v, g, p, b.files)
  }

  /** The journal of the volume can be discovered whatever happens to it next. */
  ghost predicate Recoverable(fs: Volatile)
    reads fs
  {
    Journal.Typed(fs.g, fs.journal) && Journal.RotationDiscoverable(fs.g, fs.journal)
  }

  lemma PassageAllBoot(fs: Volatile, a: Stage, b: Stage, at: Disk, slot: u16, head: u16, written: bool)
    requires Passage(fs.v, fs.g, a, b, at, slot, head, written) && JournalOf(fs.v, fs.g, a.journal, a.index)
    requires b.journal.ram == b.index
    requires Journal.RotationDiscoverable(fs.g, a.journal) && Journal.Appendable(fs.g, slot, head)
    requires LoneRoots(fs.v, at, a.index, slot, head)
    ensures AllBoot(fs.v, fs.g, a, b, at, slot, head)
  {
    forall p: Flash | CrashImage(fs.g, a.journal, b.journal, slot, head, at, a.cuts, b.cuts, p)
      ensures Boots(fs.v, fs.g, p, a.files) || Boots(fs.v, fs.g, p, b.files)
    {
      PassageBoots(fs.v, fs.g, a, b, at, slot, head, written, p);
    }
  }

  // ---------------------------------------------------------------- close

  /** The writer's work before the commit brings up no root but its own. */
  lemma LoneStill(v: Volume, e: Env, at: Disk, h: Handle)
    requires Ready(v, e) && OwnWork(e.w.disk, at, h) && h.head < 0x1_0000
    requires LoneRoots(v, e.w.disk, e.w.index, h.slot, h.head)
    ensures LoneRoots(v, at, e.w.index, h.slot, h.head)
  {
    assert InReady(v, e, TheFiles);
    forall q: u16 | RootAt(v, at, q, h.slot) && q != h.head
      ensures RootAt(v, e.w.disk, q, h.slot)
    {
      assert OwnAt(e.w.disk, at, h, q) && SaneAt(v, e.w.disk, q);
      RootBefore(v, e.w.disk[q], at[q], h.slot);
    }
  }

  lemma RootBefore(v: Volume, s: Sec, s': Sec, slot: u16)
    requires NoNewRoot(s, s') && Sane(v, s) && Lookup(s', slot).Some? && Lookup(s', slot).value.typ == TYPE_ROOT
    ensures Lookup(s, slot) == Lookup(s', slot)
  {
    var k' := FirstLive(s'.recs, slot);
    assert s'.recs[k'] in s.recs;
    var k :| 0 <= k < |s.recs| && s.recs[k] == s'.recs[k'];
    Gc.OnlyLive(v, s, k);
  }

  /** Crash-atomic replace: fffs_close, a power cut at any whole or torn flash step of it, its index record and
      the rotation of the journal included, and a mount. The note may be true or out of date, only not harmful. */
  method CloseThenCrash(fs: Volatile, id: nat, granule: nat) returns (status: Status, ghost at: Disk)
    requires Streaming.Writable(fs, id) && 0 < granule <= RECORD_SIZE + FOOTER_SIZE && VolumeOk(fs.v) && Recoverable(fs)
    requires OnlyWriter(fs.open, id, fs.open[id].slot) && Annotated(fs.v, fs.Now(), fs.open[id], PathOf(fs.Now(), id))
    requires !Harmful(fs.open[id], PathOf(fs.Now(), id))
    requires fs.open[id].head < 0x1_0000 && LoneRoots(fs.v, fs.disk, fs.index, fs.open[id].slot, fs.open[id].head)
    modifies fs
    ensures Closing.CloseResult(fs.v, old(EnvOf(fs)), old(fs.drafts), old(fs.committed), EnvOf(fs), fs.committed, id,
                                status)
    ensures AllBoot(fs.v, fs.g, old(StageOf(fs)), StageOf(fs), at, old(fs.open)[id].slot, old(fs.open)[id].head)
  {
    ghost var e0, a0, h := EnvOf(fs), StageOf(fs), fs.open[id];
    HandleFits(fs, id);
    ghost var ds0, c0 := fs.drafts, fs.committed;
    fs.MayAppend(h.slot, h.head);
    BackedNow(fs);
    status, at := Closing.Close(fs, id, granule);
    BackedNow(fs);
    assert Closing.CloseOutcomeIs(fs.v, fs.g, e0, ds0, c0, a0, EnvOf(fs), fs.committed, StageOf(fs), at, id, status);
    LoneStill(fs.v, e0, at, h);
    PassageAllBoot(fs, a0, StageOf(fs), at, h.slot, h.head, status.Ok?);
  }

  lemma HandleFits(fs: Volatile, id: nat)
    requires WriterOk(fs, id)
    ensures ProperSlot(fs.open[id].slot) && DataSector(fs.v, fs.open[id].head)
  {
    var h, pend, d := fs.open[id], fs.pend[id], fs.drafts[id];
    assert InWork(fs.v, fs.disk, h, pend, d, ThePath) && InWork(fs.v, fs.disk, h, pend, d, TheExtents)
           && InWork(fs.v, fs.disk, h, pend, d, TheWindow);
    if pend != [] {
      assert Drafts.ExtentOk(fs.v, fs.disk, h.slot, pend[0], d, 0);
    }
  }

  lemma BackedNow(fs: Volatile)
    requires fs.Backed()
    ensures JournalOf(fs.v, fs.g, fs.journal, fs.index) && fs.journal.ram == fs.index
  {
    assert JournalOf(fs.v, fs.g, fs.journal, fs.index);
  }

  // ---------------------------------------------------------------- delete

  /** fffs_delete_file, a power cut, and a mount. */
  method DeleteThenCrash(fs: Volatile, slot: u16) returns (status: Status)
    requires Ready(fs.v, EnvOf(fs)) && slot in fs.index && Deleting.WritersApart(fs.Now(), slot) && fs.Backed()
    requires Recoverable(fs)
    requires LoneRoots(fs.v, fs.disk, fs.index, slot, 0)
    modifies fs
    ensures status.Ok? ==> fs.files == old(fs.files) - {slot}
    ensures AllBoot(fs.v, fs.g, old(StageOf(fs)), StageOf(fs), old(fs.disk), slot, 0)
  {
    ghost var a0, disk0 := StageOf(fs), fs.disk;
    fs.MayAppend(slot, 0);
    BackedNow(fs);
    status := Deleting.DeleteFile(fs, slot);
    BackedNow(fs);
    PassageAllBoot(fs, a0, StageOf(fs), disk0, slot, 0, status.Ok?);
  }

  // ---------------------------------------------------------------- compaction

  /** The step of a compaction that re-indexes a copied root, a power cut, and a mount: the same files. */
  method MoveHeadThenCrash(fs: Volatile, slot: u16, dest: u16) returns (status: Status)
    requires Sound(fs.v, fs.Now()) && Compact.Twin(fs.v, fs.Now(), slot, dest) && dest != 0 && !Pinned(fs.open, slot)
    requires fs.Backed()
    requires Recoverable(fs) && DataSector(fs.v, dest) && LoneRoots(fs.v, fs.disk, fs.index, slot, dest)
    modifies fs
    ensures fs.files == old(fs.files) && AllBoot(fs.v, fs.g, old(StageOf(fs)), StageOf(fs), fs.disk, slot, dest)
  {
    ghost var a0 := StageOf(fs);
    fs.MayAppend(slot, dest);
    BackedNow(fs);
    status := Compact.MoveHead(fs, slot, dest);
    BackedNow(fs);
    PassageAllBoot(fs, a0, StageOf(fs), fs.disk, slot, dest, status.Ok?);
  }

  /** A whole compaction, a power cut at any point of it, the index records of the copied roots and the rotations
      that they cause included, and a mount: the same files. */
  method CompactThenCrash(fs: Volatile, source: nat, relaxed: bool, scratch: nat) returns (status: Status)
    requires fs.Valid() && !fs.gcMd.active && Compact.ReserveOk(fs.v, fs.open, fs.reserve) && 0 < scratch
    requires DataSector(fs.v, source) && !IsOpen(fs.open, source) && source !in fs.reserve
    requires Compact.AllTwins(fs.v, fs.Now(), source)
    modifies fs
    ensures fs.files == old(fs.files)
    ensures forall c: Image, p: Flash | c in fs.cuts && c !in old(fs.cuts) && FlashOf(fs.v, fs.g, c, p)
              && Mountable(fs.v, c) :: Boots(fs.v, fs.g, p, fs.files)
  {
    ghost var cuts0, files0 := fs.cuts, fs.files;
    status := Compact.CompactRootOnlySector(fs, source, relaxed, scratch);
    forall c: Image, p: Flash | c in fs.cuts && c !in cuts0 && FlashOf(fs.v, fs.g, c, p) && Mountable(fs.v, c)
      ensures Boots(fs.v, fs.g, p, fs.files)
    {
      EveryCutBoots(fs.v, fs.g, cuts0, fs.cuts, files0, files0, c, p);
    }
  }
}
