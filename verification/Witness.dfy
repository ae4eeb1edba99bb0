/** Volumes that exist: a formatted one, one with a file, and two that the code does not handle as documented. */
module Witness {
  import opened Nor
  import opened SectorMd
  import opened SectorView
  import opened Files
  import opened Mounted
  import opened SectorOps
  import opened Extents
  import opened Content
  import opened Writer
  import opened Notes
  import opened Sharing
  import opened Commit
  import opened Remount
  import Alloc
  import Closing
  import Compact
  import Gc
  import GcPass
  import IndexLog
  import IndexRing
  import Journal
  import Opening
  import Streaming
  import Wrapping

  // ---------------------------------------------------------------- a formatted volume

  lemma BlankSector(v: Volume, p: nat)
    requires VolumeOk(v)
    ensures var s := View(v, p, Padding(v.size));
              Wiped(s) && |s.bytes| == v.size && forall slot: u16 :: Lookup(s, slot).None?
  {
    ErasedView(v, p);
  }

  lemma BlankDisk(v: Volume, disk: Disk)
    requires && VolumeOk(v) && |disk| == v.sectors
             && forall p: nat | p < v.sectors :: disk[p] == View(v, p, Padding(v.size))
    ensures DiskOk(v, disk) && forall p: nat | p < v.sectors :: Wiped(disk[p]) && |disk[p].bytes| == v.size
    ensures forall slot: u16 :: NoBegun(disk, slot)
  {
    forall p: nat | p < v.sectors
      ensures Wiped(disk[p]) && |disk[p].bytes| == v.size && forall slot: u16 :: Lookup(disk[p], slot).None?
    {
      BlankSector(v, p);
    }
    forall p: nat
      ensures Real(v, disk, p)
    {
    }
    forall p: nat
      ensures SaneAt(v, disk, p)
    {
      if p < |disk| {
        assert Wiped(disk[p]);
      }
    }
  }

  /** Formatting an erased device gives a volume that is in order, without files. */
  method Formatted(v: Volume, g: IndexRing.Geometry) returns (fs: Volatile)
    requires VolumeOk(v) && IndexRing.GeometryOk(g) && g.n == v.index && g.sectors == v.sectors
    ensures fresh(fs) && fs.v == v && fs.g == g && fs.journal == Journal.Formatted(g) && Ready(v, EnvOf(fs))
    ensures fs.Backed()
    ensures fs.Now() == World(fs.disk, map[], map[], map[], map[], map[]) && fs.ranges == map[] && fs.reserve == []
    ensures fs.drafts == map[] && !fs.committed.valid && fs.cuts == iset{}
    ensures !fs.gcMd.active && fs.gcCursor == v.index && |fs.disk| == v.sectors
    ensures (forall slot: u16 :: NoBegun(fs.disk, slot))
    ensures forall p: nat | p < v.sectors :: Wiped(fs.disk[p]) && |fs.disk[p].bytes| == v.size
  {
    fs := new Volatile.Format(v, g);
    BlankDisk(v, fs.disk);
    FormattedReady(fs);
    Wrapping.FormattedInv(g);
    assert Wrapping.OnlyDeletes(g, fs.journal);
    assert JournalOf(v, g, fs.journal, fs.index);
  }

  lemma FormattedReady(fs: Volatile)
    requires VolumeOk(fs.v) && DiskOk(fs.v, fs.disk) && fs.Now() == World(fs.disk, map[], map[], map[], map[], map[])
    requires fs.ranges == map[] && fs.reserve == [] && !fs.gcMd.active && fs.gcCursor == fs.v.index
    requires forall p: nat | p < fs.v.sectors :: Wiped(fs.disk[p])
    ensures Ready(fs.v, EnvOf(fs))
  {
    var e := EnvOf(fs);
    forall a
      ensures InReady(fs.v, e, a)
    {
    }
  }

  // ---------------------------------------------------------------- a volume with a file

  const SLOT: u16 := 7
  const NAME: Bytes := [0x61]

  /** The first data sector holds the root of an empty file; all other sectors are erased, nothing is open. */
  ghost predicate OneFile(fs: Volatile)
    reads fs
  {
    && Sound(fs.v, fs.Now()) && fs.Backed() && fs.open == map[] && fs.reserve == [] && !fs.gcMd.active
    && fs.gcCursor == fs.v.index && fs.pend == map[] && fs.ranges == map[] && fs.drafts == map[]
    && NoStrays(fs.v, fs.Now()) && NoBegun(fs.disk, SLOT)
    && |fs.disk| == fs.v.sectors && SLOT in fs.files && fs.index == map[SLOT := fs.v.index] && fs.journal.next == 1
    && fs.journal.ram == fs.index
    && forall p: nat | fs.v.index < p < fs.v.sectors :: Wiped(fs.disk[p]) && |fs.disk[p].bytes| == fs.v.size
  }

  /** A new file, taken through the steps of open and close with the first data sector as its root. */
  method StoreOne(v: Volume, g: IndexRing.Geometry) returns (fs: Volatile)
    requires VolumeOk(v) && IndexRing.GeometryOk(g) && g.n == v.index && g.sectors == v.sectors && g.cap >= 2
    ensures fresh(fs) && fs.v == v && fs.g == g && OneFile(fs)
  {
    fs := Formatted(v, g);
    Open(fs);
    ghost var e0, ds0 := EnvOf(fs), fs.drafts;
    ghost var path, recs, pieces;
    var oldHead, oldNext;
    path, recs, pieces, oldHead, oldNext := Closing.UpToCommit(fs, 1, 1);
    assert Closing.EveIs(v, e0, ds0, EnvOf(fs), 1, path, recs, pieces, fs.drafts[1]);
    forall p: nat | p != v.index
      ensures !fs.open[1].Occupies(p)
    {
      assert !e0.w.open[1].Occupies(p);
    }
    Untouched(fs, e0.w.disk);
    Settle(fs, path, recs, pieces);
  }

  /** The index record, and the handle goes. */
  method Settle(fs: Volatile, ghost path: Path, ghost recs: seq<Md>, ghost pieces: seq<Bytes>)
    requires VolumeOk(fs.v) && fs.Backed() && fs.drafts.Keys == {1} && fs.ranges.Keys == {1} && fs.pend.Keys == {1}
    requires IndexRing.GeometryOk(fs.g)
    requires fs.g.cap >= 2 && fs.journal == Journal.Formatted(fs.g) && fs.open.Keys == {1} && fs.open[1].slot == SLOT
    requires fs.open[1].head == fs.v.index
    requires Prepared(fs.v, EnvOf(fs), fs.open[1], path, recs, pieces, fs.drafts[1]) && fs.index == map[]
    requires fs.reserve == [] && !fs.gcMd.active && fs.gcCursor == fs.v.index && |fs.disk| == fs.v.sectors
    requires forall p: nat | fs.v.index < p < fs.v.sectors :: Wiped(fs.disk[p]) && |fs.disk[p].bytes| == fs.v.size
    modifies fs`index, fs`journal, fs`cuts, fs`paths, fs`files, fs`ranges, fs`allocMap, fs`open, fs`pend, fs`drafts
    ensures OneFile(fs)
  {
    CommitFirst(fs, path, recs, pieces);
    ghost var w1 := fs.Now();
    LastOne(fs.open);
    LastOne(fs.pend);
    LastOne(fs.ranges);
    LastOne(fs.drafts);
    LastLeaves(fs);
    Closing.WithoutSound(fs.v, w1, 1);
  }

  method CommitFirst(fs: Volatile, ghost path: Path, ghost recs: seq<Md>, ghost pieces: seq<Bytes>)
    requires VolumeOk(fs.v) && fs.Backed() && 1 in fs.drafts && 1 in fs.ranges && IndexRing.GeometryOk(fs.g)
    requires fs.g.cap >= 2 && fs.journal == Journal.Formatted(fs.g) && 1 in fs.open && fs.open[1].slot == SLOT
    requires fs.open[1].head == fs.v.index
    requires Prepared(fs.v, EnvOf(fs), fs.open[1], path, recs, pieces, fs.drafts[1]) && fs.index == map[]
    modifies fs`index, fs`journal, fs`cuts, fs`paths, fs`files
    ensures Sound(fs.v, fs.Now()) && fs.Backed() && SLOT in fs.files && fs.index == map[SLOT := fs.v.index]
    ensures fs.journal.next == 1 && fs.journal.ram == fs.index && NoStrays(fs.v, fs.Now()) && NoBegun(fs.disk, SLOT)
    ensures Alloc.AllocOk(fs.v, fs.open, fs.Held(), fs.ranges)
  {
    ghost var e, s0, a0 := EnvOf(fs), fs.journal, StageOf(fs);
    var status := CommitIndex(fs, 1, path, recs, pieces);
    assert PassageIs(fs.v, fs.g, a0, StageOf(fs), fs.disk, SLOT, fs.v.index, status.Ok?);
    FirstRecord(fs, s0, status.Ok?);
    Closing.LiveAlloc(fs.v, e, fs.open[1], path, recs, pieces);
    NothingStray(fs.v, e, fs.open[1], path, recs, pieces, fs.Now());
  }

  lemma LastOne<T>(m: map<nat, T>)
    requires m.Keys == {1}
    ensures m - {1} == map[]
  {
  }

  method LastLeaves(fs: Volatile)
    requires Alloc.AllocOk(fs.v, fs.open, fs.Held(), fs.ranges) && 1 in fs.open && fs.open[1].slot == SLOT
    requires 1 in fs.ranges && fs.ranges.Keys == {1}
    modifies fs`ranges, fs`allocMap, fs`open, fs`pend, fs`drafts
    ensures fs.Now() == Closing.Without(old(fs.Now()), 1) && fs.ranges == map[] && fs.drafts == old(fs.drafts) - {1}
  {
    Closing.Leave(fs, 1, SLOT);
    assert fs.ranges.Keys == {};
  }

  lemma NothingStray(v: Volume, e: Env, h: Handle, path: Path, recs: seq<Md>, pieces: seq<Bytes>, w: World)
    requires LiveIn(v, e, h, path, recs, pieces) && w.disk == e.w.disk && e.w.index == map[] && h.slot in w.index
    ensures NoStrays(v, w) && NoBegun(w.disk, h.slot)
  {
    assert InLive(v, e, h, path, recs, pieces, LiveStrays) && InLive(v, e, h, path, recs, pieces, LiveRest);
  }

  lemma FirstRecord(fs: Volatile, s0: Journal.State, written: bool)
    requires IndexRing.GeometryOk(fs.g) && s0 == Journal.Formatted(fs.g) && fs.g.cap >= 2 && fs.v.index < 0x1_0000
    requires fs.Backed()
    requires JournalGrew(fs.g, s0, fs.journal, SLOT, fs.v.index, written) && 0 < fs.v.index
    ensures written && fs.index == map[SLOT := fs.v.index] && fs.journal.next == 1 && fs.journal.ram == fs.index
  {
    assert GrewTo(fs.g, s0, fs.journal, SLOT, fs.v.index, written);
    assert JournalOf(fs.v, fs.g, fs.journal, fs.index);
  }

  method Open(fs: Volatile)
    requires VolumeOk(fs.v) && Ready(fs.v, EnvOf(fs)) && fs.Backed()
    requires fs.Now() == World(fs.disk, map[], map[], map[], map[], map[])
    requires fs.ranges == map[] && fs.reserve == [] && fs.drafts == map[] && |fs.disk| == fs.v.sectors
    requires NoBegun(fs.disk, SLOT)
    requires forall p: nat | p < fs.v.sectors :: Wiped(fs.disk[p]) && |fs.disk[p].bytes| == fs.v.size
    modifies fs`ranges, fs`open, fs`pend, fs`drafts
    ensures Streaming.Writable(fs, 1) && fs.Backed() && fs.open.Keys == {1} && fs.open[1].slot == SLOT
    ensures fs.drafts.Keys == {1} && fs.ranges.Keys == {1} && fs.pend.Keys == {1}
    ensures fs.open[1].head == fs.v.index
    ensures OnlyWriter(fs.open, 1, SLOT)
    ensures Annotated(fs.v, fs.Now(), fs.open[1], fs.pend[1] + [fs.open[1].current])
    ensures forall p: nat | p != fs.v.index :: !fs.open[1].Occupies(p)
    ensures fs.open[1].out.oldHead == 0 && fs.pend[1] == []
  {
    Streaming.ReadyAll(fs);
    Opening.RangeAdded(fs.v, fs.open, fs.Held(), fs.ranges, 1);
    fs.ranges := map[1 := Range(0, 0)];
    Streaming.AllReady(fs);
    var p := fs.v.index;
    assert Wiped(fs.disk[p]);
    Alloc.WholeGranted(fs.v, fs.disk[p], SLOT);
    Opening.Enter(fs, 1, SLOT, NAME, p, Alloc.WholeSector(fs.v), 0, 0);
  }

  lemma Untouched(fs: Volatile, disk0: Disk)
    requires 1 in fs.open && OwnWork(disk0, fs.disk, fs.open[1]) && |disk0| == fs.v.sectors
    requires forall p: nat | p != fs.v.index :: !fs.open[1].Occupies(p)
    requires forall p: nat | p < fs.v.sectors :: Wiped(disk0[p]) && |disk0[p].bytes| == fs.v.size
    ensures forall p: nat | fs.v.index < p < fs.v.sectors :: Wiped(fs.disk[p]) && |fs.disk[p].bytes| == fs.v.size
  {
    forall p: nat | fs.v.index < p < fs.v.sectors
      ensures fs.disk[p] == disk0[p]
    {
      assert OwnAt(disk0, fs.disk, fs.open[1], p);
    }
  }

  // ---------------------------------------------------------------- a single data sector

  /** On a volume with a single data sector that holds a file, a pass of the collector does not end, however many
      turns it gets. */
  method StuckPass(turns: nat) returns (fs: Volatile, ended: bool)
    ensures VolumeOk(fs.v) && GcPass.DataSectors(fs.v) == 1 && !ended
  {
    var v, g := Volume(size := 256, index := 2, sectors := 3), IndexRing.Geometry(2, 62, 0, 3);
    fs := StoreOne(v, g);
    FileHolds(fs);
    ended := GcPass.OneSectorPass(fs, false, turns);
  }

  lemma RootRecord(fs: Volatile)
    requires OneFile(fs)
    ensures var s := fs.disk[fs.v.index];
      && s.footer.Live? && Lookup(s, SLOT).Some? && Lookup(s, SLOT).value.typ == TYPE_ROOT && SLOT in fs.paths
      && fs.v.index in fs.paths[SLOT]
      && fs.paths[SLOT][0] == fs.v.index && Chain(fs.v, fs.disk, SLOT, fs.paths[SLOT])
      && FileOf(fs.v, fs.disk, SLOT, fs.paths[SLOT]) == fs.files[SLOT]
  {
    assert Files.Stored(fs.v, fs.disk, fs.index, fs.paths, SLOT, fs.files[SLOT]);
    assert Node(fs.v, fs.disk, SLOT, fs.paths[SLOT], 0);
    assert fs.paths[SLOT][0] in fs.paths[SLOT];
  }

  lemma FileHolds(fs: Volatile)
    requires OneFile(fs)
    ensures Gc.HeldFrom(fs.Now(), fs.v.index, 0)
  {
    RootRecord(fs);
    assert Gc.Holding(fs.Now(), fs.v.index, FirstLive(fs.disk[fs.v.index].recs, SLOT));
  }

  // ---------------------------------------------------------------- a note that is out of date

  const FIVE: Volume := Volume(size := 256, index := 2, sectors := 5)
  const RING: IndexRing.Geometry := IndexRing.Geometry(2, 62, 0, 5)

  /** A writer of sector 4, on a volume of three data sectors where compaction has moved the old root from sector 2 to
      sector 3 between the note and the entry. */
  ghost predicate Overtaken(fs: Volatile, before: World)
    reads fs
  {
    && fs.v == FIVE && fs.g == RING && Streaming.Writable(fs, 1) && fs.open.Keys == {1} && fs.open[1].slot == SLOT
    && fs.open[1].head == 4 && fs.open[1].out.oldHead == 2 && fs.reserve == [] && fs.journal.next == 2
    && !fs.gcMd.active
    && Sound(FIVE, before) && SLOT in before.files && fs.files == before.files
  }

  /** A note about the old chain, taken as fffs_open takes it; then what a compaction in the allocation that follows
      does: it copies the root to another sector, indexes the copy, and erases the first one; then the entry of the
      handle. All files are the same, but the note does not lead to the slot's chain any more. */
  method StaleNote() returns (fs: Volatile, ghost before: World)
    ensures fresh(fs) && Overtaken(fs, before) && NoteGood(fs.v, EnvOf(fs), 1) && Poised(fs)
    ensures var o := fs.open[1].out;
      && OldNoted(FIVE, before, SLOT, o.oldHead, o.oldNext) && !OldNoted(FIVE, fs.Now(), SLOT, o.oldHead, o.oldNext)
  {
    var oldHead, oldNext;
    fs, oldHead, oldNext, before := MoveAway();
    EnterFourth(fs, oldHead, oldNext);
  }

  /** The handle has nothing but its prefix yet, and the noted sector is erased. */
  ghost predicate Poised(fs: Volatile)
    reads fs
  {
    && fs.v == FIVE && 1 in fs.open && 1 in fs.pend && 1 in fs.drafts && |fs.disk| == 5 && Wiped(fs.disk[2])
    && |fs.disk[2].bytes| == 256 && fs.pend[1] == [] && fs.drafts[1] == Opening.NewDraft(NAME)
    && exists next :: fs.open[1] == Opening.NewHandle(SLOT, 4, Alloc.WholeSector(fs.v), NAME, 2, next)
  }

  method MoveAway() returns (fs: Volatile, oldHead: nat, oldNext: nat, ghost before: World)
    ensures fresh(fs) && fs.v == FIVE && fs.g == RING && Sound(FIVE, fs.Now()) && NoStrays(FIVE, fs.Now())
    ensures fs.Backed()
    ensures fs.open == map[] && fs.pend == map[] && fs.ranges == map[] && fs.drafts == map[] && fs.reserve == []
    ensures !fs.gcMd.active && fs.gcCursor == 2 && NoBegun(fs.disk, SLOT) && |fs.disk| == 5 && fs.journal.next == 2
    ensures Wiped(fs.disk[4]) && |fs.disk[4].bytes| == 256 && Wiped(fs.disk[2]) && |fs.disk[2].bytes| == 256
    ensures oldHead == 2 && fs.index == map[SLOT := 3]
    ensures Sound(FIVE, before) && SLOT in before.files && fs.files == before.files
    ensures OldNoted(FIVE, before, SLOT, oldHead, oldNext)
  {
    var k;
    fs, oldHead, oldNext, k := StoreAndNote();
    before := fs.Now();
    CopyAndIndex(fs, k);
    FreeFirst(fs);
  }

  method StoreAndNote() returns (fs: Volatile, oldHead: nat, oldNext: nat, k: nat)
    ensures fresh(fs) && fs.v == FIVE && fs.g == RING && OneFile(fs) && OldNoted(FIVE, fs.Now(), SLOT, oldHead, oldNext)
    ensures k == FirstLive(fs.disk[2].recs, SLOT) && k < |fs.disk[2].recs| && fs.disk[2].footer.Live?
  {
    fs := StoreOne(FIVE, RING);
    oldHead, oldNext := Opening.NoteOld(fs, SLOT);
    RootRecord(fs);
    assert Real(FIVE, fs.disk, 2);
    k := FindLive(FIVE, 2, fs.disk[2], SLOT);
  }

  /** The old root's sector is of no use any more. */
  method FreeFirst(fs: Volatile)
    requires fs.v == FIVE && VolumeOk(fs.v) && Sound(fs.v, fs.Now()) && fs.open == map[] && fs.index == map[SLOT := 3]
    requires !Used(fs.index, fs.paths, SLOT, 2) && NoStrays(fs.v, fs.Now()) && NoBegun(fs.disk, SLOT)
    modifies fs`disk, fs`cuts
    ensures Sound(fs.v, fs.Now()) && NoStrays(fs.v, fs.Now()) && NoBegun(fs.disk, SLOT)
    ensures Wiped(fs.disk[2]) && |fs.disk[2].bytes| == 256 && fs.disk == old(fs.disk)[2 := fs.disk[2]]
  {
    ghost var w, cuts := fs.Now(), fs.cuts;
    SectorOps.Erase(fs, 2);
    assert Gc.Useless(w, 2);
    Compact.ErasePreserves(fs.v, w, fs.disk, 2, cuts, fs.cuts);
    Opening.NoneBegunYet(fs.v, w, fs.Now(), SLOT);
    RealSize(fs.v, fs.disk, 2);
  }

  method EnterFourth(fs: Volatile, oldHead: nat, oldNext: nat)
    requires fs.v == FIVE && VolumeOk(fs.v) && Sound(fs.v, fs.Now()) && NoStrays(fs.v, fs.Now()) && fs.Backed()
    requires fs.open == map[] && fs.pend == map[] && fs.ranges == map[] && fs.drafts == map[] && fs.reserve == []
    requires !fs.gcMd.active && fs.gcCursor == fs.v.index && NoBegun(fs.disk, SLOT) && |fs.disk| == 5
    requires Wiped(fs.disk[4]) && |fs.disk[4].bytes| == 256 && Wiped(fs.disk[2]) && oldHead == 2
    modifies fs`ranges, fs`open, fs`pend, fs`drafts
    ensures Streaming.Writable(fs, 1) && fs.open.Keys == {1} && NoteGood(fs.v, EnvOf(fs), 1)
    ensures fs.open[1] == Opening.NewHandle(SLOT, 4, Alloc.WholeSector(fs.v), NAME, oldHead, oldNext)
    ensures fs.pend[1] == []
    ensures fs.drafts[1] == Opening.NewDraft(NAME)
  {
    fs.ranges := map[1 := Range(0, 0)];
    Streaming.AllReady(fs);
    Alloc.WholeGranted(fs.v, fs.disk[4], SLOT);
    Opening.Enter(fs, 1, SLOT, NAME, 4, Alloc.WholeSector(fs.v), oldHead, oldNext);
    assert PathOf(fs.Now(), 1) == [4];
    assert Lookup(fs.disk[2], SLOT).None?;
  }

  method CopyAndIndex(fs: Volatile, k: nat)
    requires fs.v == FIVE && fs.g == RING && VolumeOk(fs.v) && OneFile(fs)
    requires k == FirstLive(fs.disk[2].recs, SLOT) && k < |fs.disk[2].recs| && fs.disk[2].footer.Live?
    modifies fs`disk, fs`cuts, fs`nextSerial, fs`allocMap, fs`index, fs`journal, fs`paths
    ensures Sound(fs.v, fs.Now()) && fs.files == old(fs.files) && fs.index == map[SLOT := 3] && fs.Backed()
    ensures !Used(fs.index, fs.paths, SLOT, 2) && NoStrays(fs.v, fs.Now()) && NoBegun(fs.disk, SLOT)
    ensures fs.disk == old(fs.disk)[3 := fs.disk[3]] && fs.journal.next == 2
  {
    var r := fs.disk[2].recs[k];
    RootRecord(fs);
    FitsWhole(fs.v, fs.disk, 2, k);
    assert Wiped(fs.disk[3]);
    assert Compact.Moved(fs.paths[SLOT], 2) == fs.paths[SLOT];
    ghost var w0, cuts0 := fs.Now(), fs.cuts;
    Compact.NotInRest(fs.v, w0, SLOT, 2);
    Compact.PlaceTwin(fs, 2, k, r, 3, Alloc.WholeSector(fs.v), 1);
    ghost var s0, a0, w1, cuts1 := fs.journal, StageOf(fs), fs.Now(), fs.cuts;
    var status := Compact.MoveHead(fs, SLOT, 3);
    assert PassageIs(fs.v, fs.g, a0, StageOf(fs), fs.disk, SLOT, 3, status.Ok?);
    SecondRecord(fs, s0, status.Ok?);
    Compact.PreservedMore(fs.v, w0, w1, fs.Now(), cuts0, cuts1, fs.cuts);
    Opening.NoneBegunYet(fs.v, w0, fs.Now(), SLOT);
    assert fs.paths[SLOT] == [3] + w0.paths[SLOT][1..];
  }

  lemma FitsWhole(v: Volume, disk: Disk, p: nat, k: nat)
    requires VolumeOk(v) && DiskOk(v, disk) && p < |disk| && k < |disk[p].recs|
    ensures disk[p].recs[k].dataLen <= v.size - FOOTER_SIZE - RECORD_SIZE
  {
    assert Real(v, disk, p);
    RecordAt(v, p, disk[p].bytes, k);
  }

  lemma SecondRecord(fs: Volatile, s0: Journal.State, written: bool)
    requires JournalGrew(fs.g, s0, fs.journal, SLOT, 3, written) && s0.next == 1 && s0.ram == map[SLOT := 2]
    requires fs.g.cap == 62 && fs.Backed()
    ensures written && fs.index == map[SLOT := 3] && fs.journal.next == 2
  {
    assert GrewTo(fs.g, s0, fs.journal, SLOT, 3, written);
    assert JournalOf(fs.v, fs.g, fs.journal, fs.index);
  }

  // ---------------------------------------------------------------- a close that loses its file

  /** The writer with the note that is out of date fills its first sector and goes on in the sector that was noted: the
      note has become a harmful one. */
  method HarmfulNote() returns (fs: Volatile, ghost before: World)
    ensures fresh(fs) && Overtaken(fs, before) && NoteGood(fs.v, EnvOf(fs), 1)
    ensures Harmful(fs.open[1], PathOf(fs.Now(), 1))
  {
    fs, before := StaleNote();
    WriteOn(fs);
  }

  method WriteOn(fs: Volatile)
    requires Streaming.Writable(fs, 1) && fs.open.Keys == {1} && Poised(fs) && VolumeOk(fs.v) && fs.reserve == []
    requires !fs.gcMd.active
    modifies fs`disk, fs`cuts, fs`nextSerial, fs`allocMap, fs`open, fs`pend, fs`drafts
    ensures Streaming.Writable(fs, 1) && fs.open.Keys == {1} && fs.open[1].slot == SLOT && fs.open[1].head == 4
    ensures fs.open[1].out.oldHead == 2
    ensures NoteGood(fs.v, EnvOf(fs), 1) && Harmful(fs.open[1], PathOf(fs.Now(), 1))
  {
    FillFirst(fs);
    GoOnThere(fs);
    HarmfulNow(fs);
  }

  lemma HarmfulNow(fs: Volatile)
    requires 1 in fs.open && 1 in fs.pend && fs.pend[1] == [4] && fs.open[1].current == 2 && fs.open[1].head == 4
    requires fs.open[1].out.oldHead == 2 && !fs.gcMd.active
    ensures NoteGood(fs.v, EnvOf(fs), 1) && Harmful(fs.open[1], PathOf(fs.Now(), 1))
  {
    assert PathOf(fs.Now(), 1)[1] == 2 && PathOf(fs.Now(), 1)[0] == 4;
  }

  method GoOnThere(fs: Volatile)
    requires fs.v == FIVE && WriterOk(fs, 1) && VolumeOk(fs.v) && fs.open.Keys == {1} && !IsOpen(fs.open, 2)
    requires fs.open[1].slot == SLOT && fs.open[1].head == fs.open[1].current == 4 && fs.pend[1] == []
    requires fs.open[1].out.oldHead == 2 && fs.open[1].out.cache == [] && Full(fs.open[1].out, fs.drafts[1])
    requires |fs.disk| == 5 && Wiped(fs.disk[2]) && |fs.disk[2].bytes| == 256 && fs.reserve == []
    requires fs.open[1].out.size == 227
    modifies fs`disk, fs`cuts, fs`nextSerial, fs`allocMap, fs`open, fs`pend, fs`drafts
    ensures Streaming.Writable(fs, 1) && fs.open.Keys == {1} && fs.open[1].slot == SLOT && fs.open[1].head == 4
    ensures fs.open[1].out.oldHead == 2 && fs.pend[1] == [4] && fs.open[1].current == 2
  {
    ghost var w0 := fs.Now();
    Alloc.WholeGranted(fs.v, fs.disk[2], SLOT);
    Streaming.GoOnIn(fs, 1, 2, Alloc.WholeSector(fs.v));
    Streaming.KeptBoth(w0, fs.Now(), 1);
    OneByteMore(fs);
  }

  method FillFirst(fs: Volatile)
    requires Streaming.Writable(fs, 1) && fs.open.Keys == {1} && Poised(fs) && VolumeOk(fs.v)
    modifies fs`disk, fs`cuts, fs`open, fs`drafts
    ensures WriterOk(fs, 1) && fs.open.Keys == {1} && !IsOpen(fs.open, 2) && fs.files == old(fs.files)
    ensures fs.open[1].slot == SLOT && fs.open[1].head == fs.open[1].current == 4 && fs.pend == old(fs.pend)
    ensures fs.open[1].out.oldHead == 2 && fs.open[1].out.cache == [] && Full(fs.open[1].out, fs.drafts[1])
    ensures |fs.disk| == 5 && fs.disk[2] == old(fs.disk)[2] && fs.open[1].out.size == 227
  {
    ghost var w0 := fs.Now();
    var rest: Bytes := seq(227, _ => 0x2e);
    Streaming.AddToCache(fs, 1, rest);
    Streaming.KeptBoth(w0, fs.Now(), 1);
    ghost var d, o := fs.drafts[1], fs.open[1].out;
    Flush(fs, 1, true, 1);
    FilledUp(d, fs.drafts[1], o, fs.open[1].out);
  }

  lemma FilledUp(d: Draft, d': Draft, o: Output, o': Output)
    requires d'.flushed + o'.cache == d.flushed + o.cache && o'.cache == [] && |d.flushed + o.cache| == 230
    requires o'.dataOff == 0 && o'.recordOff == 230
    ensures Full(o', d')
  {
    assert d'.flushed + o'.cache == d'.flushed;
  }

  /** The new extent gets its first byte. */
  method OneByteMore(fs: Volatile)
    requires WriterReady(fs, 1) && fs.open[1].out.cache == [] && fs.drafts[1].flushed == [] && VolumeOk(fs.v)
    requires fs.open[1].out.needsFooter && fs.open[1].out.size < 1000
    modifies fs`open, fs`drafts
    ensures Streaming.Writable(fs, 1) && fs.open.Keys == old(fs.open).Keys
    ensures Streaming.SameOrigin(old(fs.open)[1], fs.open[1]) && fs.open[1].current == old(fs.open)[1].current
  {
    ghost var w0 := fs.Now();
    assert InWork(fs.v, fs.disk, fs.open[1], fs.pend[1], fs.drafts[1], TheWindow);
    Streaming.FreshWindow(fs.v, fs.disk, fs.open[1], fs.pend[1], fs.drafts[1]);
    Streaming.AddToCache(fs, 1, [0x2e]);
    Streaming.KeptBoth(w0, fs.Now(), 1);
  }

  /** Its close commits the new file and then destroys it: the name leads to nothing, neither to the old bytes nor to
      the new ones. */
  method LostFile() returns (fs: Volatile, status: Status, ghost before: World)
    ensures Sound(fs.v, before) && SLOT in before.files
    ensures status.Ok? && SLOT in fs.files && fs.files == before.files[SLOT := fs.files[SLOT]]
    ensures fs.v == FIVE && Closing.Destroyed(fs.v, fs.disk, fs.index, SLOT)
  {
    fs, before := HarmfulNote();
    ghost var e, ds, c, a, at := EnvOf(fs), fs.drafts, fs.committed, StageOf(fs), fs.disk;
    BackedHere(fs);
    status, at := Closing.Close(fs, 1, 1);
    assert Closing.CloseOutcomeIs(fs.v, fs.g, e, ds, c, a, EnvOf(fs), fs.committed, StageOf(fs), at, 1, status);
    assert GrewTo(fs.g, a.journal, fs.journal, SLOT, 4, status.Ok?);
  }

  lemma BackedHere(fs: Volatile)
    requires fs.Backed()
    ensures JournalOf(fs.v, fs.g, fs.journal, fs.index)
  {
    assert JournalOf(fs.v, fs.g, fs.journal, fs.index);
  }
}
