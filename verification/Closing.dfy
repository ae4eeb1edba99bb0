/** fffs_close: everything from the last flush to the end of the old chain (src/fffs_file.c). */
module Closing {
  import opened Nor
  import opened SectorMd
  import opened SectorView
  import opened Files
  import opened Mounted
  import opened SectorOps
  import opened Extents
  import opened Content
  import opened Drafts
  import opened Writer
  import opened Commit
  import opened OldChain
  import opened Bystanders
  import opened Notes
  import opened Sharing
  import IndexRing
  import Journal
  import Counters
  import Streaming
  import opened Remount
  import Alloc
  import Compact
  import Gc

  // ---------------------------------------------------------------- the old chain

  lemma SettledSelf(disk: Disk, slot: u16)
    ensures SettledDisk(disk, disk, slot)
  {
  }

  lemma SettledHint(disk: Disk, disk': Disk, p: nat, slot: u16)
    requires p < |disk| == |disk'| && disk' == disk[p := disk'[p]] && Hinted(disk[p], disk'[p])
    ensures SettledDisk(disk, disk', slot)
  {
  }

  lemma SettledDimmed(v: Volume, disk: Disk, disk1: Disk, disk2: Disk, slot: u16)
    requires SettledDisk(disk, disk1, slot) && Dimmed(v, disk1, disk2, slot)
    ensures SettledDisk(disk, disk2, slot)
  {
    forall p: nat | p < |disk|
      ensures Settled(disk[p], disk2[p], slot)
    {
      assert Settled(disk[p], disk1[p], slot) && DimmedAt(v, disk1, disk2, slot, p);
      if disk2[p] != disk1[p] {
        SettledFaded(v, disk[p], disk1[p], disk2[p], slot);
      }
    }
  }

  lemma SettledFaded(v: Volume, s: Sec, s1: Sec, s2: Sec, slot: u16)
    requires Settled(s, s1, slot) && Faded(v, s1, s2, slot) && s1.footer.Live?
    ensures Settled(s, s2, slot)
  {
    forall k | 0 <= k < |s.recs|
      ensures || s2.recs[k] == s.recs[k]
              || (&& s.recs[k].slot == slot && s2.recs[k].DataEnd() == s.recs[k].DataEnd() && s.recs[k].Live()
                  && !s2.recs[k].Live() && s2.recs[k].state != UNCOMMITTED)
    {
      assert s1.recs[k] == s.recs[k] || !s1.recs[k].Live();
    }
  }

  /** A quiet change keeps the volume sound. */
  lemma QuietSound(v: Volume, w: World, disk': Disk, p: nat)
    requires Sound(v, w) && p < |w.disk| == |disk'| && disk' == w.disk[p := disk'[p]] && DiskOk(v, disk')
    requires Hinted(w.disk[p], disk'[p])
    ensures Sound(v, w.(disk := disk'))
  {
    HintedQuiet(w.disk[p], disk'[p]);
    OwnSound(v, w, disk', p);
  }

  /** The full hint of a root whose file goes on elsewhere. */
  method HintRoot(fs: Volatile, p: nat)
    requires Sound(fs.v, fs.Now()) && DataSector(fs.v, p) && fs.disk[p].footer.Live?
    modifies fs`disk, fs`cuts, fs`allocMap
    ensures Sound(fs.v, fs.Now()) && fs.disk == old(fs.disk)[p := fs.disk[p]] && Hinted(old(fs.disk)[p], fs.disk[p])
    ensures CutsKept(fs.v, old(fs.cuts), fs.cuts, fs.index, fs.files) && old(fs.allocMap) <= fs.allocMap
  {
    ghost var w := fs.Now();
    MarkFull(fs, p);
    QuietSound(fs.v, w, fs.disk, p);
    QuietSurvives(fs.v, w, p, old(fs.cuts), fs.cuts);
    fs.allocMap := fs.allocMap + {p};
  }

  // ---------------------------------------------------------------- leaving

  /** The volume without the open file. */
  function Without(w: World, id: nat): World { w.(open := w.open - {id}, pend := w.pend - {id}) }

  lemma WithoutHolding(w: World, id: nat)
    ensures forall p: nat | IsOpen(Without(w, id).open, p) :: IsOpen(w.open, p)
    ensures forall slot: u16, p: nat | Pending(Without(w, id), slot, p) :: Pending(w, slot, p)
    ensures Exclusive(w.open) ==> Exclusive(Without(w, id).open)
  {
    var w' := Without(w, id);
    forall p: nat | IsOpen(w'.open, p)
      ensures IsOpen(w.open, p)
    {
      var a :| a in w'.open && w'.open[a].Occupies(p);
      assert a in w.open && w.open[a].Occupies(p);
    }
    forall slot: u16, p: nat | Pending(w', slot, p)
      ensures Pending(w, slot, p)
    {
      var a :| a in w'.open && a in w'.pend && w'.open[a].writing && w'.open[a].slot == slot && p in w'.pend[a];
      assert a in w.open && a in w.pend && w.open[a].writing && w.open[a].slot == slot && p in w.pend[a];
    }
  }

  lemma WithoutSound(v: Volume, w: World, id: nat)
    requires Sound(v, w)
    ensures Sound(v, Without(w, id))
  {
    var w' := Without(w, id);
    forall a: nat, p: nat | Extends(w', a, p)
      ensures p < |w.disk| && DataSector(v, p) && (w'.open[a].Occupies(p) || Lookup(w.disk[p], w'.open[a].slot).Some?)
    {
      assert Extends(w, a, p);
    }
  }

  lemma WithoutAlloc(v: Volume, w: World, id: nat, h: Hold, ranges: map<nat, Range>)
    requires Alloc.AllocOk(v, w.open, h, ranges)
    ensures Alloc.AllocOk(v, Without(w, id).open, h, ranges - {id})
  {
    WithoutHolding(w, id);
  }

  // ---------------------------------------------------------------- from the commit to the end

  /** The chain that the note leads to. */
  ghost function GoneOf(w: World, slot: u16, oldHead: nat): Path {
    if slot in w.index && slot in w.paths && w.paths[slot] != [] then Compact.Moved(w.paths[slot], oldHead) else []
  }

  /** That chain, in the volume after the commit. */
  lemma BranchStands(v: Volume, e: Env, h: Handle, path: Path, recs: seq<Md>, pieces: seq<Bytes>, disk': Disk,
                     oldHead: nat, oldNext: nat)
    requires LiveIn(v, e, h, path, recs, pieces) && BranchNote(v, e.w, h.slot, path, oldHead, oldNext)
    requires h.head < |e.w.disk| == |disk'| && disk' == e.w.disk[h.head := disk'[h.head]]
    requires (disk'[h.head] == e.w.disk[h.head] || Hinted(e.w.disk[h.head], disk'[h.head]))
    ensures var gone := GoneOf(e.w, h.slot, oldHead);
      && Chain(v, disk', h.slot, gone) && gone[0] == oldHead && (oldNext == 0 || oldNext in gone)
      && (forall p | p in gone && p < |e.w.disk| :: e.w.disk[p].footer.Live?)
      && (forall p | p in gone :: p !in path)
    ensures DataSector(v, oldHead) && Lookup(disk'[oldHead], h.slot) == Lookup(e.w.disk[oldHead], h.slot)
    ensures Lookup(e.w.disk[oldHead], h.slot).value.typ == TYPE_ROOT
  {
    assert InLive(v, e, h, path, recs, pieces, LiveApart);
    var gone := GoneOf(e.w, h.slot, oldHead);
    assert Node(v, e.w.disk, h.slot, gone, 0);
    forall p | p in gone && p < |e.w.disk|
      ensures Keeps(e.w.disk[p], disk'[p], h.slot)
    {
      if disk'[p] != e.w.disk[p] {
        HintedKeeps(e.w.disk[p], disk'[p], h.slot);
      }
    }
    ChainKept(v, e.w.disk, disk', h.slot, gone);
    ChainIsLive(v, e.w.disk, h.slot, gone);
    assert gone[1..] == e.w.paths[h.slot][1..];
    forall p | p in gone
      ensures p !in path
    {
      if p != oldHead {
        assert p in gone[1..] && p in e.w.paths[h.slot];
        assert Used(e.w.index, e.w.paths, h.slot, p);
      }
    }
  }

  lemma ChainIsLive(v: Volume, disk: Disk, slot: u16, path: Path)
    requires Chain(v, disk, slot, path)
    ensures forall p | p in path && p < |disk| :: disk[p].footer.Live?
  {
    forall p | p in path && p < |disk|
      ensures disk[p].footer.Live?
    {
      var i: nat :| i < |path| && path[i] == p;
      assert Node(v, disk, slot, path, i);
    }
  }

  // ---------------------------------------------------------------- a chain that loses a record

  lemma RecordSame(v: Volume, s: Sec, s': Sec, slot: u16)
    requires (s' == s || Faded(v, s, s', slot)) && Lookup(s, slot).Some? && Lookup(s', slot).Some? && OneLive(s.recs)
    ensures Lookup(s', slot) == Lookup(s, slot)
  {
    var k' := FirstLive(s'.recs, slot);
    if s' != s {
      assert s'.recs[k'] == s.recs[k'];
    }
  }

  /** After records of the slot died, a chain from the same head goes the same way as before. */
  lemma {:induction false} SameWay(v: Volume, disk: Disk, disk': Disk, slot: u16, path: Path, q: Path, i: nat)
    requires VolumeOk(v) && DiskOk(v, disk) && Chain(v, disk, slot, path) && Dimmed(v, disk, disk', slot)
    requires Chain(v, disk', slot, q) && q[0] == path[0] && i < |path|
    ensures i < |q| && q[i] == path[i] && path[i] < |disk'| && Lookup(disk'[path[i]], slot).Some?
    decreases i
  {
    if i > 0 {
      SameWay(v, disk, disk', slot, path, q, i - 1);
      var p := path[i - 1];
      assert Node(v, disk, slot, path, i - 1) && Node(v, disk', slot, q, i - 1) && Node(v, disk, slot, path, i);
      assert DimmedAt(v, disk, disk', slot, p) && SaneAt(v, disk, p);
      RecordSame(v, disk[p], disk'[p], slot);
    }
    assert Node(v, disk', slot, q, i);
  }

  /** No chain starts where the index says, so the slot has no file, neither this one nor any other. */
  ghost predicate Destroyed(v: Volume, disk: Disk, index: Index, slot: u16) {
    slot in index && forall path | Chain(v, disk, slot, path) :: path[0] != index[slot]
  }

  /** If a record of a stored file dies, the file is lost. */
  lemma FileLost(v: Volume, w: World, disk': Disk, slot: u16, p: nat)
    requires Sound(v, w) && slot in w.index && slot in w.paths && p in w.paths[slot] && p < |disk'|
    requires Dimmed(v, w.disk, disk', slot)
    requires Lookup(disk'[p], slot).None?
    ensures Destroyed(v, disk', w.index, slot)
  {
    assert Files.Stored(v, w.disk, w.index, w.paths, slot, w.files[slot]);
    var path := w.paths[slot];
    var i: nat :| i < |path| && path[i] == p;
    forall q | Chain(v, disk', slot, q)
      ensures q[0] != w.index[slot]
    {
      if q[0] == w.index[slot] {
        SameWay(v, w.disk, disk', slot, path, q, i);
      }
    }
  }

  /** A volume that holds its files has none that is destroyed. */
  lemma HeldIsThere(v: Volume, disk: Disk, index: Index, slot: u16, files: map<u16, File>)
    ensures HoldsAt(v, disk, index, files) ==> !Destroyed(v, disk, index, slot)
  {
    if HoldsAt(v, disk, index, files) && slot in index {
      var paths :| Holds(v, disk, index, paths, files);
      assert Files.Stored(v, disk, index, paths, slot, files[slot]);
    }
  }

  // ---------------------------------------------------------------- the counters

  /** What a close does to the counters: the new file is added and, if the old chain was known, the old file is
      taken off. If there should have been an old file and its root was not met, the counters are given up. */
  ghost predicate CountedClose(c: Counters.Count, c': Counters.Count, size: nat, was: Option<nat>, known: bool) {
    c' == if known then Counters.Replaced(c, size, was) else Counters.Added(c, size).(valid := false)
  }

  ghost function OldSize(files: map<u16, File>, slot: u16): Option<nat> {
    if slot in files then Some(RootSize(files[slot])) else None
  }

  lemma CloseCounts(c: Counters.Count, c': Counters.Count, files: map<u16, File>, slot: u16, f: File, known: bool)
    requires CountsFiles(c, files) && CountedClose(c, c', RootSize(f), OldSize(files, slot), known)
    ensures CountsFiles(c', files[slot := f])
  {
    Counters.CloseKeepsRight(c, FileSizes(files), slot, RootSize(f));
    assert FileSizes(files[slot := f]) == FileSizes(files)[slot := RootSize(f)];
  }

  /** Drops the old chain, as far as the note leads to it, and with it the old file's count. */
  method DropOld(fs: Volatile, slot: u16, oldHead: nat, oldNext: nat, ghost gone: Path)
    requires VolumeOk(fs.v) && DiskOk(fs.v, fs.disk)
    modifies fs`disk, fs`cuts, fs`allocMap, fs`committed
    ensures DiskOk(fs.v, fs.disk) && Dimmed(fs.v, old(fs.disk), fs.disk, slot)
    ensures oldHead != 0 && old(OnChain(fs, slot, oldHead, oldNext, gone)) ==>
              BuriedTo(fs.v, old(fs.disk), fs.disk, slot, gone, |gone|)
    ensures oldHead != 0 && old(Around(fs, slot, oldHead, oldNext, gone)) ==>
              && Skirting(fs, old(fs.disk), old(fs.cuts), old(fs.allocMap), slot, gone)
              && Lookup(old(fs.disk)[oldHead], slot).Some?
              && fs.committed == Counters.Subtracted(old(fs.committed), Lookup(old(fs.disk)[oldHead], slot).value.size)
    ensures oldHead == 0 ==>
              && Untouched(old(fs.disk), fs.disk, old(fs.cuts), fs.cuts, old(fs.allocMap), fs.allocMap)
              && fs.committed == old(fs.committed)
    ensures oldHead != 0 && (!DataSector(fs.v, oldHead) || Lookup(old(fs.disk)[oldHead], slot).None?) ==>
              && Untouched(old(fs.disk), fs.disk, old(fs.cuts), fs.cuts, old(fs.allocMap), fs.allocMap)
              && fs.committed == old(fs.committed).(valid := false)
    ensures oldHead != 0 && DataSector(fs.v, oldHead) && Lookup(old(fs.disk)[oldHead], slot).Some? ==>
              Lookup(fs.disk[oldHead], slot).None?
  {
    DimmedSame(fs.v, fs.disk, slot);
    if Around(fs, slot, oldHead, oldNext, gone) {
      assert Node(fs.v, fs.disk, slot, gone, 0);
    }
    if oldHead != 0 {
      var ok, accounted := Invalidate(fs, slot, oldHead, oldNext, gone);
      if fs.committed.valid && !accounted {
        fs.GiveUpCounters();
      }
    }
  }

  ghost predicate Untouched(disk: Disk, disk': Disk, cuts: iset<Image>, cuts': iset<Image>, used: set<nat>,
                            used': set<nat>) {
    disk' == disk && cuts' == cuts && used' == used
  }

  lemma RootThere(v: Volume, e: Env, h: Handle, path: Path, recs: seq<Md>, pieces: seq<Bytes>)
    requires LiveIn(v, e, h, path, recs, pieces)
    ensures h.head < |e.w.disk| && DataSector(v, h.head) && e.w.disk[h.head].footer.Live?
  {
    assert InLive(v, e, h, path, recs, pieces, LiveExtents);
    assert LiveExtent(v, e.w.disk, h.slot, path[0], recs[0], pieces[0], 0);
  }

  /** The head of a stored file is never sector 0. */
  lemma OldHeadSet(v: Volume, e: Env, h: Handle, path: Path, recs: seq<Md>, pieces: seq<Bytes>, oldHead: nat,
                   oldNext: nat)
    requires LiveIn(v, e, h, path, recs, pieces) && OldNoted(v, e.w, h.slot, oldHead, oldNext)
    ensures h.slot in e.w.index <==> oldHead != 0
  {
    assert InLive(v, e, h, path, recs, pieces, LiveReady(TheFiles)) && InReady(v, e, TheFiles);
    if h.slot in e.w.index {
      assert Files.Stored(v, e.w.disk, e.w.index, e.w.paths, h.slot, e.w.files[h.slot]);
      assert Node(v, e.w.disk, h.slot, e.w.paths[h.slot], 0);
    }
  }

  /** What the full hint and the end of the old chain leave, compared with the volume before the commit. */
  ghost predicate SettledBy(v: Volume, disk: Disk, used: set<nat>, e: Env, h: Handle, oldHead: nat, oldNext: nat) {
    && SettledDisk(e.w.disk, disk, h.slot) && MapRetired(e.w.disk, e.used, used)
    && (OldNoted(v, e.w, h.slot, oldHead, oldNext) && h.slot in e.w.index ==>
          e.w.index[h.slot] < |disk| && Lookup(disk[e.w.index[h.slot]], h.slot).None?)
  }

  /** The full hint is set; now the note is followed. */
  method SettleOld(fs: Volatile, id: nat, oldHead: nat, oldNext: nat, ghost e: Env, ghost path: Path,
                   ghost recs: seq<Md>, ghost pieces: seq<Bytes>)
    requires id in fs.open && id in fs.pend && fs.open[id].writing && fs.open[id].head < 0x1_0000
    requires OnlyWriter(fs.open, id, fs.open[id].slot)
    requires LiveIn(fs.v, e, fs.open[id], path, recs, pieces) && path == fs.pend[id] + [fs.open[id].current]
    requires HintedSince(fs, e, fs.open[id], path, recs, pieces)
    requires NoteKnown(fs.v, e.w, fs.open[id].slot, path, oldHead, oldNext)
    modifies fs`disk, fs`cuts, fs`allocMap, fs`committed
    ensures Dimmed(fs.v, old(fs.disk), fs.disk, fs.open[id].slot)
    ensures !ReusedNote(path, oldHead) ==>
              && Sound(fs.v, fs.Now()) && CutsKept(fs.v, old(fs.cuts), fs.cuts, fs.index, fs.files)
              && SettledBy(fs.v, fs.disk, fs.allocMap, e, fs.open[id], oldHead, oldNext)
              && OldCounted(old(fs.committed), fs.committed, OldSize(e.w.files, fs.open[id].slot),
                            RootNoted(fs.v, e.w, fs.open[id].slot, path, oldHead, oldNext))
    ensures ReusedNote(path, oldHead) ==> Destroyed(fs.v, fs.disk, fs.index, fs.open[id].slot)
  {
    var h := fs.open[id];
    ghost var w1, used1, gone := fs.Now(), fs.allocMap, GoneOf(e.w, h.slot, oldHead);
    BeforeDrop(fs, e, h, path, recs, pieces, oldHead, oldNext);
    DropOld(fs, h.slot, oldHead, oldNext, gone);
    if ReusedNote(path, oldHead) {
      FileLost(fs.v, w1, fs.disk, h.slot, oldHead);
    } else {
      if BranchNote(fs.v, e.w, h.slot, path, oldHead, oldNext) {
        DroppedSound(fs.v, w1, fs.disk, id, h.slot);
      }
      SettledNow(fs.v, e, h, w1.disk, fs.disk);
    }
  }

  /** What the note, if known, does to the counters. */
  ghost predicate OldCounted(c: Counters.Count, c': Counters.Count, was: Option<nat>, known: bool) {
    if !known then c' == c.(valid := false)
    else if was.Some? then c' == Counters.Subtracted(c, was.value)
    else c' == c
  }

  lemma SettledNow(v: Volume, e: Env, h: Handle, disk1: Disk, disk2: Disk)
    requires h.head < |disk1| == |e.w.disk|
    requires disk1 == e.w.disk[h.head := disk1[h.head]]
    requires (disk1[h.head] == e.w.disk[h.head] || Hinted(e.w.disk[h.head], disk1[h.head]))
    requires Dimmed(v, disk1, disk2, h.slot)
    ensures SettledDisk(e.w.disk, disk2, h.slot)
  {
    SettledSelf(e.w.disk, h.slot);
    if disk1[h.head] != e.w.disk[h.head] {
      SettledHint(e.w.disk, disk1, h.head, h.slot);
    }
    SettledDimmed(v, e.w.disk, disk1, disk2, h.slot);
  }

  /** Where the note leads. */
  lemma BeforeDrop(fs: Volatile, e: Env, h: Handle, path: Path, recs: seq<Md>, pieces: seq<Bytes>, oldHead: nat,
                   oldNext: nat)
    requires h.head < 0x1_0000 && LiveIn(fs.v, e, h, path, recs, pieces) && HintedSince(fs, e, h, path, recs, pieces)
    requires NoteKnown(fs.v, e.w, h.slot, path, oldHead, oldNext)
    ensures OldNoted(fs.v, e.w, h.slot, oldHead, oldNext) ==>
              !ReusedNote(path, oldHead) && (h.slot in e.w.index <==> oldHead != 0)
    ensures h.slot in e.w.index <==> h.slot in e.w.files
    ensures OldNoted(fs.v, e.w, h.slot, oldHead, oldNext) && h.slot in e.w.index ==>
              BranchNote(fs.v, e.w, h.slot, path, oldHead, oldNext)
    ensures BranchNote(fs.v, e.w, h.slot, path, oldHead, oldNext) ==>
              && Around(fs, h.slot, oldHead, oldNext, GoneOf(e.w, h.slot, oldHead)) && DataSector(fs.v, oldHead)
              && h.slot in e.w.files && Lookup(fs.disk[oldHead], h.slot).Some?
              && Lookup(fs.disk[oldHead], h.slot).value.size == RootSize(e.w.files[h.slot])
              && forall p | p in GoneOf(e.w, h.slot, oldHead) && p < |e.w.disk| :: e.w.disk[p].footer.Live?
    ensures StaleNote(fs.v, e.w.disk, h.slot, path, oldHead) ==>
              oldHead != 0 && (!DataSector(fs.v, oldHead) || Lookup(fs.disk[oldHead], h.slot).None?)
    ensures ReusedNote(path, oldHead) ==>
              oldHead != 0 && DataSector(fs.v, oldHead) && Lookup(fs.disk[oldHead], h.slot).Some?
  {
    assert InLive(fs.v, e, h, path, recs, pieces, LiveExtents);
    SoundNow(fs.v, e, h, path, recs, pieces);
    if OldNoted(fs.v, e.w, h.slot, oldHead, oldNext) {
      OldHeadSet(fs.v, e, h, path, recs, pieces, oldHead, oldNext);
      if h.slot in e.w.index {
        assert InLive(fs.v, e, h, path, recs, pieces, LiveApart);
        TrueIsBranch(fs.v, e.w, h.slot, path, oldHead, oldNext);
      }
    }
    if BranchNote(fs.v, e.w, h.slot, path, oldHead, oldNext) {
      BranchStands(fs.v, e, h, path, recs, pieces, fs.disk, oldHead, oldNext);
      ChainToDrop(fs, e, h, path, oldHead, oldNext);
    }
    if ReusedNote(path, oldHead) {
      var i: nat :| i < |path| && path[i] == oldHead;
      assert LiveExtent(fs.v, e.w.disk, h.slot, path[i], recs[i], pieces[i], i);
    }
  }

  lemma ChainToDrop(fs: Volatile, e: Env, h: Handle, path: Path, oldHead: nat, oldNext: nat)
    requires h.head < 0x1_0000 && Sound(fs.v, fs.Now())
    requires fs.index == e.w.index[h.slot := h.head] && fs.paths == e.w.paths[h.slot := path]
    requires var gone := GoneOf(e.w, h.slot, oldHead);
      && Chain(fs.v, fs.disk, h.slot, gone) && gone[0] == oldHead && (oldNext == 0 || oldNext in gone)
      && (forall p | p in gone :: p !in path)
    ensures Around(fs, h.slot, oldHead, oldNext, GoneOf(e.w, h.slot, oldHead))
  {
    DimmedSame(fs.v, fs.disk, h.slot);
  }

  /** After the commit, and the hint if there was one. */
  ghost predicate HintedSince(fs: Volatile, e: Env, h: Handle, path: Path, recs: seq<Md>, pieces: seq<Bytes>)
    requires h.head < 0x1_0000
    reads fs
  {
    && fs.Now() == Committed(e.w, h.slot, h.head, path, NewFile(recs, pieces)).(disk := fs.disk)
    && Sound(fs.v, fs.Now()) && e.used <= fs.allocMap
    && h.head < |fs.disk| == |e.w.disk| && fs.disk == e.w.disk[h.head := fs.disk[h.head]]
    && (fs.disk[h.head] == e.w.disk[h.head] || Hinted(e.w.disk[h.head], fs.disk[h.head]))
  }

  /** Finished extents of the writer are the new file's, and those of other writers are of other slots. */
  lemma DroppedSound(v: Volume, w: World, disk': Disk, id: nat, slot: u16)
    requires Sound(v, w) && DiskOk(v, disk') && Holds(v, disk', w.index, w.paths, w.files)
    requires Dimmed(v, w.disk, disk', slot)
    requires OnlyWriter(w.open, id, slot) && slot in w.index && slot in w.paths
    requires (id in w.pend ==> forall p | p in w.pend[id] :: p in w.paths[slot])
    requires id in w.open ==> w.open[id].slot == slot
    ensures Sound(v, w.(disk := disk'))
  {
    var w' := w.(disk := disk');
    forall a: nat, p: nat | Extends(w', a, p)
      ensures p < |disk'| && DataSector(v, p) && (w.open[a].Occupies(p) || Lookup(disk'[p], w.open[a].slot).Some?)
    {
      assert Extends(w, a, p) && DimmedAt(v, w.disk, disk', slot, p);
      if a == id {
        assert Files.Stored(v, disk', w.index, w.paths, slot, w.files[slot]);
        var i: nat :| i < |w.paths[slot]| && w.paths[slot][i] == p;
        assert Node(v, disk', slot, w.paths[slot], i);
      } else if disk'[p] != w.disk[p] {
        assert Keeps(w.disk[p], disk'[p], w.open[a].slot);
      }
    }
  }

  /** A root whose file goes on elsewhere fills its sector. */
  method HintIfLonger(fs: Volatile, id: nat, ghost e: Env, ghost path: Path, ghost recs: seq<Md>,
                      ghost pieces: seq<Bytes>)
    requires id in fs.open && fs.open[id].writing && fs.open[id].head < 0x1_0000 && Exclusive(fs.open)
    requires LiveIn(fs.v, e, fs.open[id], path, recs, pieces) && HintedSince(fs, e, fs.open[id], path, recs, pieces)
    requires fs.disk == e.w.disk
    modifies fs`disk, fs`cuts, fs`allocMap
    ensures HintedSince(fs, e, fs.open[id], path, recs, pieces)
    ensures CutsKept(fs.v, old(fs.cuts), fs.cuts, fs.index, fs.files)
    ensures Spared(fs.v, old(fs.Now()), fs.Now(), id, fs.open[id].slot)
  {
    var h := fs.open[id];
    ghost var w0 := fs.Now();
    RootThere(fs.v, e, h, path, recs, pieces);
    SparedSame(fs.v, w0, w0, id, h.slot);
    if h.current != h.head {
      HintRoot(fs, h.head);
      SparedHint(fs.v, w0, fs.Now(), id, h.slot, h.head);
    }
  }

  // ---------------------------------------------------------------- the end

  /** The volume after the commit, settled and without the writer, is in order again. */
  lemma Finale(v: Volume, e: Env, id: nat, path: Path, recs: seq<Md>, pieces: seq<Bytes>, e': Env)
    requires id in e.w.open && e.w.open[id].head < 0x1_0000 && LiveIn(v, e, e.w.open[id], path, recs, pieces)
    requires SettledDisk(e.w.disk, e'.w.disk, e.w.open[id].slot) && Sound(v, e'.w)
    requires e.g.active ==> NoPassedRoot(e'.w.disk, e.g, e.w.open[id].slot)
    requires var h := e.w.open[id];
      e'.w == Without(Committed(e.w, h.slot, h.head, path, NewFile(recs, pieces)).(disk := e'.w.disk), id)
    requires e'.g == e.g && e'.cursor == e.cursor
    requires Alloc.AllocOk(v, e'.w.open, Hold(e'.w.disk, e'.used, e'.reserve), e'.ranges)
    ensures Ready(v, e')
  {
    var h := e.w.open[id];
    forall a
      ensures InReady(v, e', a)
    {
      match a
      case TheFiles =>
      case TheWalk => FinaleWalk(v, e, id, path, recs, pieces, e');
      case TheStrays =>
        assert InLive(v, e, h, path, recs, pieces, LiveStrays);
        SettledStrays(v, e.w, e'.w, h.slot, h.head);
      case TheAllocator =>
      case TheWriters =>
        assert InLive(v, e, h, path, recs, pieces, LiveReady(TheWriters)) && InReady(v, e, TheWriters);
        WithoutHolding(e.w, id);
    }
  }

  lemma FinaleWalk(v: Volume, e: Env, id: nat, path: Path, recs: seq<Md>, pieces: seq<Bytes>, e': Env)
    requires id in e.w.open && e.w.open[id].head < 0x1_0000 && LiveIn(v, e, e.w.open[id], path, recs, pieces)
    requires SettledDisk(e.w.disk, e'.w.disk, e.w.open[id].slot)
    requires e.g.active ==> NoPassedRoot(e'.w.disk, e.g, e.w.open[id].slot)
    requires var h := e.w.open[id];
      e'.w == Without(Committed(e.w, h.slot, h.head, path, NewFile(recs, pieces)).(disk := e'.w.disk), id)
    requires e'.g == e.g && e'.cursor == e.cursor
    ensures WalkOk(v, e'.w, e'.g) && DataSector(v, e'.cursor)
  {
    var h := e.w.open[id];
    assert InLive(v, e, h, path, recs, pieces, LiveReady(TheWalk)) && InReady(v, e, TheWalk)
           && InLive(v, e, h, path, recs, pieces, LiveWalk);
    FinaleNeeds(e.w, id, h, path, e'.w);
    SettledWalk(v, e.w, e'.w, e.g, h.slot, path);
  }

  lemma FinaleNeeds(w: World, id: nat, h: Handle, path: Path, w': World)
    requires h.head < 0x1_0000 && w'.index == w.index[h.slot := h.head] && w'.paths == w.paths[h.slot := path]
    requires w'.open == w.open - {id} && w'.pend == w.pend - {id}
    ensures forall s: u16, p: nat | Needed(w', s, p) :: Needed(w, s, p) || (s == h.slot && p in path)
    ensures forall s: u16, p: nat | s != h.slot && s in w'.index && Used(w.index, w.paths, s, p) ::
              Used(w'.index, w'.paths, s, p)
  {
    WithoutHolding(w, id);
    forall s: u16, p: nat | Needed(w', s, p)
      ensures Needed(w, s, p) || (s == h.slot && p in path)
    {
      if Pending(w', s, p) {
        assert Pending(Without(w, id), s, p);
      }
    }
  }

  // ---------------------------------------------------------------- fffs_close

  /** The new file, and the volume around it. */
  ghost predicate FileClosed(files: map<u16, File>, files': map<u16, File>, slot: u16, d: Draft) {
    && slot in files' && Rooted(files'[slot]) && files' == files[slot := files'[slot]]
    && Contents(files'[slot]) == d.written && NameOf(files'[slot].pieces[0]) == d.name
  }

  /** The handle is gone, and all others are as they were. */
  ghost predicate Departed(e: Env, ds: map<nat, Draft>, e': Env, ds': map<nat, Draft>, id: nat) {
    && e'.w.open == e.w.open - {id} && e'.w.pend == e.w.pend - {id}
    && ds' == ds - {id} && e'.ranges.Keys == e.ranges.Keys - {id}
  }

  /** The handle goes, with its reservation. */
  method Leave(fs: Volatile, id: nat, ghost slot: u16)
    requires id in fs.ranges && (id in fs.open ==> fs.open[id].slot == slot)
    modifies fs`ranges, fs`allocMap, fs`open, fs`pend, fs`drafts
    ensures fs.Now() == Without(old(fs.Now()), id)
    ensures old(Alloc.AllocOk(fs.v, fs.open, fs.Held(), fs.ranges)) ==>
              Alloc.AllocOk(fs.v, fs.open, fs.Held(), fs.ranges)
    ensures Departed(old(EnvOf(fs)), old(fs.drafts), EnvOf(fs), fs.drafts, id)
    ensures Spared(fs.v, old(fs.Now()), fs.Now(), id, slot)
  {
    ghost var w := fs.Now();
    Alloc.Release(fs, id);
    if Alloc.AllocOk(fs.v, w.open, fs.Held(), fs.ranges) {
      WithoutAlloc(fs.v, w, id, fs.Held(), fs.ranges);
    }
    fs.open := fs.open - {id};
    fs.pend := fs.pend - {id};
    fs.drafts := fs.drafts - {id};
    fs.ranges := fs.ranges - {id};
    SparedSame(fs.v, w, fs.Now(), id, slot);
  }

  /** The new file is counted, the sector of its root is marked, and the note is followed. */
  method AfterCommit(fs: Volatile, id: nat, oldHead: nat, oldNext: nat, ghost e: Env, ghost path: Path,
                     ghost recs: seq<Md>, ghost pieces: seq<Bytes>)
    requires id in fs.open && id in fs.pend && fs.open[id].writing && fs.open[id].head < 0x1_0000
    requires OnlyWriter(fs.open, id, fs.open[id].slot)
    requires LiveIn(fs.v, e, fs.open[id], path, recs, pieces) && path == fs.pend[id] + [fs.open[id].current]
    requires Exclusive(fs.open)
    requires HintedSince(fs, e, fs.open[id], path, recs, pieces) && fs.disk == e.w.disk
    requires NoteKnown(fs.v, e.w, fs.open[id].slot, path, oldHead, oldNext)
    modifies fs`disk, fs`cuts, fs`allocMap, fs`committed
    ensures Spared(fs.v, old(fs.Now()), fs.Now(), id, fs.open[id].slot)
    ensures !ReusedNote(path, oldHead) ==>
              && Sound(fs.v, fs.Now()) && CutsKept(fs.v, old(fs.cuts), fs.cuts, fs.index, fs.files)
              && SettledBy(fs.v, fs.disk, fs.allocMap, e, fs.open[id], oldHead, oldNext)
              && CountedClose(old(fs.committed), fs.committed, fs.open[id].out.size,
                              OldSize(e.w.files, fs.open[id].slot),
                              RootNoted(fs.v, e.w, fs.open[id].slot, path, oldHead, oldNext))
    ensures ReusedNote(path, oldHead) ==> Destroyed(fs.v, fs.disk, fs.index, fs.open[id].slot)
  {
    var h := fs.open[id];
    ghost var w0 := fs.Now();
    HintIfLonger(fs, id, e, path, recs, pieces);
    fs.NoteAdd(h.out.size);
    ghost var w1 := fs.Now();
    SettleOld(fs, id, oldHead, oldNext, e, path, recs, pieces);
    SparedDimmed(fs.v, w1, fs.Now(), id, h.slot);
    SparedMore(fs.v, w0, w1, fs.Now(), id, h.slot);
  }

  lemma NoRootPassed(v: Volume, e: Env, h: Handle, path: Path, recs: seq<Md>, pieces: seq<Bytes>, disk': Disk,
                     oldHead: nat, oldNext: nat)
    requires LiveIn(v, e, h, path, recs, pieces) && SettledDisk(e.w.disk, disk', h.slot)
    requires NoteSafe(v, e.w, e.g, h.slot, oldHead, oldNext)
    requires OldNoted(v, e.w, h.slot, oldHead, oldNext) && h.slot in e.w.index ==>
               e.w.index[h.slot] < |disk'| && Lookup(disk'[e.w.index[h.slot]], h.slot).None?
    ensures e.g.active ==> NoPassedRoot(disk', e.g, h.slot)
  {
    if e.g.active {
      if Wary(e.w.disk, e.g, h.slot) {
        WaryPassedNone(e.w.disk, disk', e.g, h.slot);
      } else {
        PassedRoots(v, e, h, path, recs, pieces, disk');
      }
    }
  }

  // ---------------------------------------------------------------- up to the commit

  /** If the old head's sector has become the new head's, the old chain is looked up again. */
  method RefreshOld(fs: Volatile, id: nat) returns (oldHead: nat, oldNext: nat)
    requires id in fs.open && Sound(fs.v, fs.Now())
    ensures var h := fs.open[id];
      if h.out.oldHead == h.head then OldNoted(fs.v, fs.Now(), h.slot, oldHead, oldNext)
      else oldHead == h.out.oldHead && oldNext == h.out.oldNext
  {
    var h := fs.open[id];
    oldHead, oldNext := h.out.oldHead, h.out.oldNext;
    if oldHead == h.head {
      if h.slot !in fs.index {
        return 0, 0;
      }
      assert Files.Stored(fs.v, fs.disk, fs.index, fs.paths, h.slot, fs.files[h.slot]);
      assert Node(fs.v, fs.disk, h.slot, fs.paths[h.slot], 0);
      oldHead := fs.index[h.slot];
      var status, root := ReadMdForSlot(fs, oldHead, h.slot);
      oldNext := root.next;
    }
  }

  /** Last flush and all records: the new chain is live, though no name leads to it. */
  method Prepare(fs: Volatile, id: nat, granule: nat)
    returns (ghost path: Path, ghost recs: seq<Md>, ghost pieces: seq<Bytes>)
    requires Streaming.Writable(fs, id) && 0 < granule <= RECORD_SIZE + FOOTER_SIZE
    requires OnlyWriter(fs.open, id, fs.open[id].slot)
    modifies fs`disk, fs`cuts, fs`nextSerial, fs`allocMap, fs`open, fs`drafts
    ensures id in fs.open && id in fs.drafts
    ensures Prepared(fs.v, EnvOf(fs), fs.open[id], path, recs, pieces, fs.drafts[id])
    ensures id in fs.pend && id in fs.ranges && path == fs.pend[id] + [fs.open[id].current] && fs.open[id].writing
    ensures ProperSlot(fs.open[id].slot)
    ensures SameButStream(old(fs.open), fs.open, id) && RootSize(NewFile(recs, pieces)) == fs.open[id].out.size
    ensures fs.drafts == old(fs.drafts)[id := fs.drafts[id]]
    ensures fs.drafts[id].written == old(fs.drafts)[id].written && fs.drafts[id].name == old(fs.drafts)[id].name
    ensures CutsKept(fs.v, old(fs.cuts), fs.cuts, fs.index, fs.files)
    ensures Spared(fs.v, old(fs.Now()), fs.Now(), id, fs.open[id].slot)
    ensures OwnWork(old(fs.disk), fs.disk, fs.open[id]) && fs.Backed()
    ensures Gc.WalkWary(old(fs.Now()), fs.gcMd, fs.disk, fs.gcMd)
  {
    ghost var e0, d0 := EnvOf(fs), fs.drafts[id];
    Streaming.ExclusiveNow(fs);
    NotEmpty(fs.v, fs.disk, fs.open[id], fs.pend[id], d0);
    assert InWork(fs.v, fs.disk, fs.open[id], fs.pend[id], d0, ThePath);
    Flush(fs, id, true, granule);
    ghost var w1 := fs.Now();
    Streaming.KeptByFlush(e0, EnvOf(fs), id, d0, fs.drafts[id]);
    OwnOne(e0.w.disk, w1.disk, fs.open[id], fs.open[id].current);
    assert fs.drafts[id].flushed + [] == fs.drafts[id].flushed;
    path, recs, pieces := FinishAll(fs, id);
    WorkDone(fs.v, e0.w, w1, fs.Now(), id, e0.g, fs.open[id]);
  }

  /** The flush and the records together. */
  lemma WorkDone(v: Volume, w0: World, w1: World, w2: World, id: nat, g: GcWalk, h: Handle)
    requires Streaming.OthersKept(w0, w1, id) && Streaming.OthersKept(w1, w2, id)
    requires Gc.WalkWary(w0, g, w1.disk, g) && Gc.WalkWary(w1, g, w2.disk, g)
    requires OwnWork(w0.disk, w1.disk, h) && OwnWork(w1.disk, w2.disk, h) && w2.index == w0.index
    requires w2.paths == w0.paths
    requires id in w0.open && w0.open[id].slot == h.slot && OnlyWriter(w0.open, id, h.slot)
    ensures Streaming.OthersKept(w0, w2, id) && Gc.WalkWary(w0, g, w2.disk, g) && OwnWork(w0.disk, w2.disk, h)
    ensures Spared(v, w0, w2, id, h.slot)
  {
    Streaming.KeptMore(w0, w1, w2, id);
    Streaming.KeptBoth(w0, w1, id);
    WaryMore(w0, g, w1, g, w2.disk, g);
    OwnMore(w0.disk, w1.disk, w2.disk, h);
    OwnIsQuiet(w0.disk, w2.disk, h);
    SparedOwn(v, w0, w2, id, h.slot);
  }

  /** Of the handles only the stream of this one has changed. */
  ghost predicate SameButStream(open: OpenFiles, open': OpenFiles, id: nat) {
    && id in open && id in open' && open' == open[id := open'[id]]
    && var h, h' := open[id], open'[id]; h' == h.(out := h.out.(cache := h'.out.cache, writeOff := h'.out.writeOff))
  }

  lemma NotEmpty(v: Volume, disk: Disk, h: Handle, pend: Path, d: Draft)
    requires WorkOk(v, disk, h, pend, d) && (pend != [] ==> d.flushed + h.out.cache != [])
    ensures d.flushed + h.out.cache != []
  {
    assert InWork(v, disk, h, pend, d, TheStream) && InWork(v, disk, h, pend, d, ThePath)
           && InWork(v, disk, h, pend, d, TheOffsets);
  }

  lemma NoteStill(v: Volume, w: World, w': World, h: Handle, path: Path)
    requires Annotated(v, w, h, path) && h.out.oldHead != h.head && OwnWork(w.disk, w'.disk, h) && Sound(v, w)
    requires w'.index == w.index && w'.paths == w.paths && w'.files == w.files
    requires path != [] && path[0] == h.head && forall p | h.Occupies(p) :: p in path
    ensures NoteKnown(v, w', h.slot, path, h.out.oldHead, h.out.oldNext)
    ensures OldNoted(v, w, h.slot, h.out.oldHead, h.out.oldNext) ==>
              OldNoted(v, w', h.slot, h.out.oldHead, h.out.oldNext)
  {
    var p := h.out.oldHead;
    assert OwnAt(w.disk, w'.disk, h, p);
    if OldNoted(v, w, h.slot, h.out.oldHead, h.out.oldNext) {
      OwnIsQuiet(w.disk, w'.disk, h);
      NotedKept(v, w, w'.disk, h.slot, h.out.oldHead, h.out.oldNext);
    } else if BranchNote(v, w, h.slot, path, h.out.oldHead, h.out.oldNext) {
      OwnIsQuiet(w.disk, w'.disk, h);
      Compact.BranchKept(v, w, w'.disk, h.slot, p);
      BranchSame(v, w.(disk := w'.disk), w', h.slot, p);
    }
  }

  lemma BranchSame(v: Volume, w: World, w': World, slot: u16, p: nat)
    requires Compact.Branch(v, w, slot, p) && w'.index == w.index && w'.paths == w.paths && w'.files == w.files
    requires w'.disk == w.disk
    ensures Compact.Branch(v, w', slot, p)
  {
  }

  /** A chain that is live but did not get into the index: the volume is in order exactly if the slot has a
      file, since the new root is then one that the collector can deal with. */
  lemma FailedReady(v: Volume, e: Env, id: nat, path: Path, recs: seq<Md>, pieces: seq<Bytes>, e': Env)
    requires id in e.w.open && LiveIn(v, e, e.w.open[id], path, recs, pieces)
    requires e'.w == Without(e.w, id) && e'.g == e.g && e'.cursor == e.cursor && Sound(v, e'.w)
    requires Alloc.AllocOk(v, e'.w.open, Hold(e'.w.disk, e'.used, e'.reserve), e'.ranges)
    ensures Ready(v, e') <==> e.w.open[id].slot in e.w.index
  {
    var h := e.w.open[id];
    if h.slot in e.w.index {
      forall a
        ensures InReady(v, e', a)
      {
        FailedAspect(v, e, id, path, recs, pieces, e', a);
      }
    }
    if Ready(v, e') {
      assert InReady(v, e', TheStrays);
      assert InLive(v, e, h, path, recs, pieces, LiveExtents);
      assert LiveExtent(v, e.w.disk, h.slot, path[0], recs[0], pieces[0], 0);
      NewRootThere(v, e'.w, h.slot, h.head);
    }
  }

  lemma NewRootThere(v: Volume, w: World, slot: u16, head: nat)
    requires NoStrays(v, w) && DataSector(v, head) && head < |w.disk|
    requires Lookup(w.disk[head], slot).Some? && Lookup(w.disk[head], slot).value.typ == TYPE_ROOT
    ensures slot in w.index
  {
    var k := FirstLive(w.disk[head].recs, slot);
    assert w.disk[head].recs[k].Live() && w.disk[head].recs[k].slot == slot;
  }

  lemma FailedAspect(v: Volume, e: Env, id: nat, path: Path, recs: seq<Md>, pieces: seq<Bytes>, e': Env, a: Aspect)
    requires id in e.w.open && LiveIn(v, e, e.w.open[id], path, recs, pieces) && e.w.open[id].slot in e.w.index
    requires e'.w == Without(e.w, id) && e'.g == e.g && e'.cursor == e.cursor && Sound(v, e'.w)
    requires Alloc.AllocOk(v, e'.w.open, Hold(e'.w.disk, e'.used, e'.reserve), e'.ranges)
    ensures InReady(v, e', a)
  {
    var h := e.w.open[id];
    WithoutHolding(e.w, id);
    match a
    case TheFiles =>
    case TheWalk =>
      assert InLive(v, e, h, path, recs, pieces, LiveReady(TheWalk)) && InReady(v, e, TheWalk);
      WithoutWalk(v, e.w, id, e.g);
    case TheStrays =>
      assert InLive(v, e, h, path, recs, pieces, LiveStrays);
    case TheAllocator =>
    case TheWriters =>
      assert InLive(v, e, h, path, recs, pieces, LiveReady(TheWriters)) && InReady(v, e, TheWriters);
  }

  lemma WithoutWalk(v: Volume, w: World, id: nat, g: GcWalk)
    requires WalkOk(v, w, g)
    ensures WalkOk(v, Without(w, id), g)
  {
    WithoutHolding(w, id);
    var w' := Without(w, id);
    assert forall slot: u16, p: nat | Needed(w', slot, p) :: Needed(w, slot, p);
  }

  lemma LiveAlloc(v: Volume, e: Env, h: Handle, path: Path, recs: seq<Md>, pieces: seq<Bytes>)
    requires LiveIn(v, e, h, path, recs, pieces)
    ensures Alloc.AllocOk(v, e.w.open, Hold(e.w.disk, e.used, e.reserve), e.ranges) && Exclusive(e.w.open)
  {
    assert InLive(v, e, h, path, recs, pieces, LiveReady(TheAllocator)) && InReady(v, e, TheAllocator);
    assert InLive(v, e, h, path, recs, pieces, LiveReady(TheWriters)) && InReady(v, e, TheWriters);
  }

  lemma SettledAllocNow(v: Volume, e: Env, h: Handle, hold: Hold, ranges: map<nat, Range>)
    requires Alloc.AllocOk(v, e.w.open, Hold(e.w.disk, e.used, e.reserve), ranges)
    requires SettledDisk(e.w.disk, hold.disk, h.slot) && MapRetired(e.w.disk, e.used, hold.used)
    requires hold.reserve == e.reserve
    ensures Alloc.AllocOk(v, e.w.open, hold, ranges)
  {
    SettledAlloc(v, e.w.open, Hold(e.w.disk, e.used, e.reserve), hold, ranges, h.slot);
  }

  // ---------------------------------------------------------------- fffs_close

  lemma OccupiedPath(v: Volume, disk: Disk, h: Handle, pend: Path, d: Draft)
    requires WorkOk(v, disk, h, pend, d)
    ensures var path := pend + [h.current]; path[0] == h.head && forall p: nat | h.Occupies(p) :: p in path
  {
    assert InWork(v, disk, h, pend, d, ThePath) && InWork(v, disk, h, pend, d, TheLinks);
    var path := pend + [h.current];
    forall p: nat | h.Occupies(p)
      ensures p in path
    {
      if p != h.head && p != h.current {
        assert path[d.span + (p - h.spanHead)] == p;
      }
    }
  }

  /** The note that is followed in the end. */
  ghost predicate Followed(v: Volume, w0: World, e: Env, h: Handle, path: Path, oldHead: nat, oldNext: nat) {
    && NoteKnown(v, e.w, h.slot, path, oldHead, oldNext)
    && (h.out.oldHead == h.head || OldNoted(v, w0, h.slot, h.out.oldHead, h.out.oldNext) ==>
          OldNoted(v, e.w, h.slot, oldHead, oldNext))
    && (if h.out.oldHead != h.head then
          oldHead == h.out.oldHead && oldNext == h.out.oldNext
        else
          !ReusedNote(path, oldHead))
  }

  lemma TrueIsNotReused(v: Volume, e: Env, h: Handle, path: Path, recs: seq<Md>, pieces: seq<Bytes>, oldHead: nat,
                        oldNext: nat)
    requires LiveIn(v, e, h, path, recs, pieces) && OldNoted(v, e.w, h.slot, oldHead, oldNext)
    ensures !ReusedNote(path, oldHead)
  {
    assert InLive(v, e, h, path, recs, pieces, LiveApart);
    SoundNow(v, e, h, path, recs, pieces);
    if h.slot in e.w.index {
      assert Files.Stored(v, e.w.disk, e.w.index, e.w.paths, h.slot, e.w.files[h.slot]);
      assert e.w.paths[h.slot][0] in e.w.paths[h.slot] && Used(e.w.index, e.w.paths, h.slot, oldHead);
    }
  }

  /** What is true on the eve of the commit: the chain is live, and of the volume nothing else has changed.
      Callers unfold this where they need it. */
  ghost predicate Eve(v: Volume, e0: Env, ds0: map<nat, Draft>, e: Env, id: nat, path: Path, recs: seq<Md>,
                      pieces: seq<Bytes>, d: Draft) {
    forall n: nat {:trigger EveIs(v, e0, ds0, e, n, path, recs, pieces, d)} | n == id ::
      EveIs(v, e0, ds0, e, n, path, recs, pieces, d)
  }

  ghost predicate EveIs(v: Volume, e0: Env, ds0: map<nat, Draft>, e: Env, id: nat, path: Path, recs: seq<Md>,
                        pieces: seq<Bytes>, d: Draft) {
    && id in e0.w.open && id in e.w.open && id in ds0 && Prepared(v, e, e.w.open[id], path, recs, pieces, d)
    && SameButStream(e0.w.open, e.w.open, id) && id in e.w.pend && e.w.pend == e0.w.pend
    && path == e.w.pend[id] + [e.w.open[id].current]
    && e == e0.(w := e0.w.(disk := e.w.disk, open := e.w.open), used := e.used)
    && d.written == ds0[id].written && d.name == ds0[id].name
    && RootSize(NewFile(recs, pieces)) == e.w.open[id].out.size
    && OwnWork(e0.w.disk, e.w.disk, e.w.open[id]) && Gc.WalkWary(e0.w, e0.g, e.w.disk, e.g)
  }

  /** Everything that fffs_close does on flash. If the note has become one about the new file itself, behind its
      root, the file that was just committed is destroyed. */
  method CloseOnFlash(fs: Volatile, id: nat, granule: nat)
    returns (status: Status, ghost e: Env, ghost path: Path, ghost recs: seq<Md>, ghost pieces: seq<Bytes>,
             oldHead: nat, oldNext: nat)
    requires Streaming.Writable(fs, id) && 0 < granule <= RECORD_SIZE + FOOTER_SIZE && VolumeOk(fs.v)
    requires OnlyWriter(fs.open, id, fs.open[id].slot)
    requires Annotated(fs.v, fs.Now(), fs.open[id], fs.pend[id] + [fs.open[id].current])
    modifies fs`disk, fs`cuts, fs`nextSerial, fs`index, fs`journal, fs`paths, fs`files, fs`allocMap, fs`open, fs`drafts,
             fs`committed
    ensures id in fs.open && fs.Backed() && fs.drafts.Keys == old(fs.drafts).Keys && id in fs.drafts
    ensures fs.drafts == old(fs.drafts)[id := fs.drafts[id]]
    ensures Eve(fs.v, old(EnvOf(fs)), old(fs.drafts), e, id, path, recs, pieces, fs.drafts[id]) && fs.open == e.w.open
    ensures fs.open[id].head < 0x1_0000
    ensures Followed(fs.v, old(fs.Now()), e, fs.open[id], path, oldHead, oldNext)
    ensures Spared(fs.v, old(fs.Now()), fs.Now(), id, fs.open[id].slot)
    ensures if status.Ok? then Concluded(fs, e, id, path, recs, pieces, oldHead, oldNext, old(fs.committed))
            else fs.Now() == e.w && fs.committed == old(fs.committed) && fs.allocMap == e.used
    ensures JournalGrew(fs.g, old(fs.journal), fs.journal, fs.open[id].slot, fs.open[id].head, status.Ok?)
    ensures !status.Ok? || !ReusedNote(path, oldHead) ==>
              Passage(fs.v, fs.g, old(StageOf(fs)), StageOf(fs), e.w.disk, fs.open[id].slot, fs.open[id].head,
                      status.Ok?)
  {
    ghost var e0, ds0, a0 := EnvOf(fs), fs.drafts, StageOf(fs);
    path, recs, pieces, oldHead, oldNext := UpToCommit(fs, id, granule);
    e := EnvOf(fs);
    ghost var a1 := StageOf(fs);
    assert EveIs(fs.v, e0, ds0, e, id, path, recs, pieces, fs.drafts[id]);
    status := CommitAndDrop(fs, id, oldHead, oldNext, path, recs, pieces);
    SparedMore(fs.v, e0.w, e.w, fs.Now(), id, fs.open[id].slot);
    if !status.Ok? || !ReusedNote(path, oldHead) {
      PassageFrom(fs.v, fs.g, a0, a1, StageOf(fs), e.w.disk, fs.open[id].slot, fs.open[id].head, status.Ok?);
    }
  }

  /** Everything before the index record. */
  method UpToCommit(fs: Volatile, id: nat, granule: nat)
    returns (ghost path: Path, ghost recs: seq<Md>, ghost pieces: seq<Bytes>, oldHead: nat, oldNext: nat)
    requires Streaming.Writable(fs, id) && 0 < granule <= RECORD_SIZE + FOOTER_SIZE && VolumeOk(fs.v)
    requires OnlyWriter(fs.open, id, fs.open[id].slot)
    requires Annotated(fs.v, fs.Now(), fs.open[id], fs.pend[id] + [fs.open[id].current])
    modifies fs`disk, fs`cuts, fs`nextSerial, fs`allocMap, fs`open, fs`drafts
    ensures fs.Backed() && id in fs.drafts && fs.drafts == old(fs.drafts)[id := fs.drafts[id]] && id in fs.open
    ensures ProperSlot(fs.open[id].slot)
    ensures Eve(fs.v, old(EnvOf(fs)), old(fs.drafts), EnvOf(fs), id, path, recs, pieces, fs.drafts[id])
    ensures Followed(fs.v, old(fs.Now()), EnvOf(fs), fs.open[id], path, oldHead, oldNext)
    ensures OnlyWriter(fs.open, id, fs.open[id].slot)
    ensures Spared(fs.v, old(fs.Now()), fs.Now(), id, fs.open[id].slot)
    ensures CutsKept(fs.v, old(fs.cuts), fs.cuts, fs.index, fs.files)
  {
    ghost var e0, ds0, h0 := EnvOf(fs), fs.drafts, fs.open[id];
    OccupiedPath(fs.v, fs.disk, h0, fs.pend[id], fs.drafts[id]);
    path, recs, pieces := Prepare(fs, id, granule);
    assert EveIs(fs.v, e0, ds0, EnvOf(fs), id, path, recs, pieces, fs.drafts[id]);
    assert InReady(fs.v, e0, TheFiles);
    oldHead, oldNext := LastNote(fs, id, e0.w, path, recs, pieces);
    OnlyStill(e0.w.open, fs.open, id, h0.slot);
  }

  /** The note, looked up again if need be. */
  method LastNote(fs: Volatile, id: nat, ghost w0: World, ghost path: Path, ghost recs: seq<Md>,
                  ghost pieces: seq<Bytes>)
    returns (oldHead: nat, oldNext: nat)
    requires id in fs.open && LiveIn(fs.v, EnvOf(fs), fs.open[id], path, recs, pieces)
    requires Annotated(fs.v, w0, fs.open[id], path) && Sound(fs.v, w0)
    requires OwnWork(w0.disk, fs.disk, fs.open[id])
    requires fs.index == w0.index && fs.paths == w0.paths && fs.files == w0.files
    requires path != [] && path[0] == fs.open[id].head && forall p | fs.open[id].Occupies(p) :: p in path
    ensures Followed(fs.v, w0, EnvOf(fs), fs.open[id], path, oldHead, oldNext)
  {
    var h := fs.open[id];
    SoundNow(fs.v, EnvOf(fs), h, path, recs, pieces);
    if h.out.oldHead != h.head {
      NoteStill(fs.v, w0, fs.Now(), h, path);
    }
    oldHead, oldNext := RefreshOld(fs, id);
    if OldNoted(fs.v, fs.Now(), h.slot, oldHead, oldNext) {
      TrueIsNotReused(fs.v, EnvOf(fs), h, path, recs, pieces, oldHead, oldNext);
    }
  }

  /** The file is committed, and the note has been followed. Callers unfold this where they need it. */
  ghost predicate Concluded(fs: Volatile, e: Env, id: nat, path: Path, recs: seq<Md>, pieces: seq<Bytes>, oldHead: nat,
                            oldNext: nat, c0: Counters.Count)
    reads fs
  {
    forall n: nat
      {:trigger ConcludedIs(fs.v, e, n, path, recs, pieces, oldHead, oldNext, c0, EnvOf(fs), fs.committed)} | n == id ::
      ConcludedIs(fs.v, e, n, path, recs, pieces, oldHead, oldNext, c0, EnvOf(fs), fs.committed)
  }

  ghost predicate ConcludedIs(v: Volume, e: Env, id: nat, path: Path, recs: seq<Md>, pieces: seq<Bytes>, oldHead: nat,
                              oldNext: nat,
                              c0: Counters.Count, e': Env, c': Counters.Count) {
    && id in e.w.open && e.w.open[id].head < 0x1_0000
    && var h := e.w.open[id];
    && e' == e.(w := Committed(e.w, h.slot, h.head, path, NewFile(recs, pieces)).(disk := e'.w.disk), used := e'.used)
    && (!ReusedNote(path, oldHead) ==>
          && Sound(v, e'.w) && SettledBy(v, e'.w.disk, e'.used, e, h, oldHead, oldNext)
          && CountedClose(c0, c', h.out.size, OldSize(e.w.files, h.slot),
                          RootNoted(v, e.w, h.slot, path, oldHead, oldNext)))
    && (ReusedNote(path, oldHead) ==> Destroyed(v, e'.w.disk, e'.w.index, h.slot))
  }

  /** The commit and, if it succeeds, what comes after it. */
  method CommitAndDrop(fs: Volatile, id: nat, oldHead: nat, oldNext: nat, ghost path: Path, ghost recs: seq<Md>,
                       ghost pieces: seq<Bytes>)
    returns (status: Status)
    requires id in fs.open && id in fs.drafts && id in fs.pend && fs.open[id].writing && VolumeOk(fs.v)
    requires ProperSlot(fs.open[id].slot)
    requires Prepared(fs.v, EnvOf(fs), fs.open[id], path, recs, pieces, fs.drafts[id])
    requires path == fs.pend[id] + [fs.open[id].current]
    requires NoteKnown(fs.v, fs.Now(), fs.open[id].slot, path, oldHead, oldNext)
    requires OnlyWriter(fs.open, id, fs.open[id].slot) && fs.Backed()
    modifies fs`disk, fs`cuts, fs`index, fs`journal, fs`paths, fs`files, fs`allocMap, fs`committed
    ensures fs.Backed() && fs.open[id].head < 0x1_0000 && Spared(fs.v, old(fs.Now()), fs.Now(), id, fs.open[id].slot)
    ensures if status.Ok? then
              Concluded(fs, old(EnvOf(fs)), id, path, recs, pieces, oldHead, oldNext, old(fs.committed))
            else
              fs.Now() == old(fs.Now()) && fs.committed == old(fs.committed) && fs.allocMap == old(fs.allocMap)
    ensures JournalGrew(fs.g, old(fs.journal), fs.journal, fs.open[id].slot, fs.open[id].head, status.Ok?)
    ensures !status.Ok? || !ReusedNote(path, oldHead) ==>
              Passage(fs.v, fs.g, old(StageOf(fs)), StageOf(fs), old(fs.disk), fs.open[id].slot, fs.open[id].head,
                      status.Ok?)
  {
    ghost var e, h, a0 := EnvOf(fs), fs.open[id], StageOf(fs);
    RootThere(fs.v, e, h, path, recs, pieces);
    status := CommitIndex(fs, id, path, recs, pieces);
    ghost var w1, a1 := fs.Now(), StageOf(fs);
    assert PassageIs(fs.v, fs.g, a0, a1, e.w.disk, h.slot, h.head, status.Ok?);
    SparedSame(fs.v, e.w, w1, id, h.slot);
    if status.Ok? {
      JustCommitted(fs, e, h, path, recs, pieces);
      Follow(fs, id, oldHead, oldNext, e, path, recs, pieces);
      SparedMore(fs.v, e.w, w1, fs.Now(), id, h.slot);
      if !ReusedNote(path, oldHead) {
        PassageTo(fs.v, fs.g, a0, a1, StageOf(fs), e.w.disk, h.slot, h.head, true);
      }
    }
  }

  lemma JustCommitted(fs: Volatile, e: Env, h: Handle, path: Path, recs: seq<Md>, pieces: seq<Bytes>)
    requires h.head < 0x1_0000 && h.head < |fs.disk| && fs.disk == e.w.disk && fs.allocMap == e.used
    requires fs.Now() == Committed(e.w, h.slot, h.head, path, NewFile(recs, pieces)) && Sound(fs.v, fs.Now())
    ensures HintedSince(fs, e, h, path, recs, pieces)
  {
  }

  /** After a successful commit. */
  method Follow(fs: Volatile, id: nat, oldHead: nat, oldNext: nat, ghost e: Env, ghost path: Path, ghost recs: seq<Md>,
                ghost pieces: seq<Bytes>)
    requires id in fs.open && id in fs.pend && fs.open[id].writing && fs.open[id].head < 0x1_0000
    requires OnlyWriter(fs.open, id, fs.open[id].slot)
    requires LiveIn(fs.v, e, fs.open[id], path, recs, pieces) && path == fs.pend[id] + [fs.open[id].current]
    requires fs.open == e.w.open
    requires HintedSince(fs, e, fs.open[id], path, recs, pieces) && fs.disk == e.w.disk
    requires EnvOf(fs) == e.(w := fs.Now())
    requires NoteKnown(fs.v, e.w, fs.open[id].slot, path, oldHead, oldNext)
    modifies fs`disk, fs`cuts, fs`allocMap, fs`committed
    ensures Spared(fs.v, old(fs.Now()), fs.Now(), id, fs.open[id].slot)
    ensures Concluded(fs, e, id, path, recs, pieces, oldHead, oldNext, old(fs.committed))
    ensures !ReusedNote(path, oldHead) ==> CutsKept(fs.v, old(fs.cuts), fs.cuts, fs.index, fs.files)
  {
    LiveAlloc(fs.v, e, fs.open[id], path, recs, pieces);
    AfterCommit(fs, id, oldHead, oldNext, e, path, recs, pieces);
    assert ConcludedIs(fs.v, e, id, path, recs, pieces, oldHead, oldNext, old(fs.committed), EnvOf(fs), fs.committed);
  }

  /** The journal had no room for the new file. */
  method GiveUp(fs: Volatile, id: nat, ghost path: Path, ghost recs: seq<Md>, ghost pieces: seq<Bytes>)
    requires id in fs.open && id in fs.ranges && LiveIn(fs.v, EnvOf(fs), fs.open[id], path, recs, pieces)
    modifies fs`ranges, fs`allocMap, fs`open, fs`pend, fs`drafts
    ensures Sound(fs.v, fs.Now()) && Spared(fs.v, old(fs.Now()), fs.Now(), id, old(fs.open)[id].slot)
    ensures Ready(fs.v, EnvOf(fs)) <==> old(fs.open)[id].slot in fs.index
    ensures NoBegun(fs.disk, old(fs.open)[id].slot)
    ensures Departed(old(EnvOf(fs)), old(fs.drafts), EnvOf(fs), fs.drafts, id)
  {
    ghost var e := EnvOf(fs);
    SoundNow(fs.v, e, fs.open[id], path, recs, pieces);
    LiveAlloc(fs.v, e, fs.open[id], path, recs, pieces);
    assert InLive(fs.v, e, fs.open[id], path, recs, pieces, LiveRest);
    Leave(fs, id, fs.open[id].slot);
    WithoutSound(fs.v, e.w, id);
    FailedReady(fs.v, e, id, path, recs, pieces, EnvOf(fs));
  }

  /** The commit has succeeded and the note has been followed, to no harm. */
  method Depart(fs: Volatile, id: nat, ghost e: Env, ghost path: Path, ghost recs: seq<Md>, ghost pieces: seq<Bytes>,
                ghost oldHead: nat, ghost oldNext: nat,
                ghost c0: Counters.Count)
    requires id in fs.open && id in fs.ranges && id in e.w.open && fs.open == e.w.open
    requires LiveIn(fs.v, e, e.w.open[id], path, recs, pieces)
    requires Concluded(fs, e, id, path, recs, pieces, oldHead, oldNext, c0)
    requires EnvOf(fs) == e.(w := fs.Now(), used := fs.allocMap)
    modifies fs`ranges, fs`allocMap, fs`open, fs`pend, fs`drafts
    ensures Spared(fs.v, old(fs.Now()), fs.Now(), id, old(fs.open)[id].slot)
    ensures !ReusedNote(path, oldHead) ==>
              && Sound(fs.v, fs.Now()) && NoBegun(fs.disk, old(fs.open)[id].slot)
              && (NoteSafe(fs.v, e.w, e.g, old(fs.open)[id].slot, oldHead, oldNext) ==> Ready(fs.v, EnvOf(fs)))
    ensures ReusedNote(path, oldHead) ==> Destroyed(fs.v, fs.disk, fs.index, old(fs.open)[id].slot)
    ensures Departed(old(EnvOf(fs)), old(fs.drafts), EnvOf(fs), fs.drafts, id)
  {
    ghost var w1, h := fs.Now(), fs.open[id];
    assert ConcludedIs(fs.v, e, id, path, recs, pieces, oldHead, oldNext, c0, EnvOf(fs), fs.committed);
    if !ReusedNote(path, oldHead) {
      LiveAlloc(fs.v, e, h, path, recs, pieces);
      SettledAllocNow(fs.v, e, h, fs.Held(), fs.ranges);
    }
    Leave(fs, id, h.slot);
    if !ReusedNote(path, oldHead) {
      assert InLive(fs.v, e, h, path, recs, pieces, LiveRest);
      SettledBegun(e.w.disk, fs.disk, h.slot, h.slot);
      WithoutSound(fs.v, w1, id);
      if NoteSafe(fs.v, e.w, e.g, h.slot, oldHead, oldNext) {
        NoRootPassed(fs.v, e, h, path, recs, pieces, fs.disk, oldHead, oldNext);
        Finale(fs.v, e, id, path, recs, pieces, EnvOf(fs));
      }
    }
  }

  /** fffs_close of a writer. At every power cut on the way the volume holds the files as they were, or as they
      are afterwards: the slot's file is the one that was written, under its name, and every other file is the
      same. The counters, if valid, count the files. All other writers stay where they were. Only if the note has
      become a harmful one is the file that was just committed lost. */
  method Close(fs: Volatile, id: nat, granule: nat) returns (status: Status, ghost at: Disk)
    requires Streaming.Writable(fs, id) && 0 < granule <= RECORD_SIZE + FOOTER_SIZE && VolumeOk(fs.v)
    requires OnlyWriter(fs.open, id, fs.open[id].slot)
    requires Annotated(fs.v, fs.Now(), fs.open[id], fs.pend[id] + [fs.open[id].current])
    modifies fs`disk, fs`cuts, fs`nextSerial, fs`index, fs`journal, fs`paths, fs`files, fs`ranges, fs`allocMap, fs`open,
             fs`pend, fs`drafts,
             fs`committed
    ensures fs.Backed() && Spared(fs.v, old(fs.Now()), fs.Now(), id, old(fs.open)[id].slot)
    ensures Departed(old(EnvOf(fs)), old(fs.drafts), EnvOf(fs), fs.drafts, id)
    ensures CloseOutcome(fs.v, fs.g, old(EnvOf(fs)), old(fs.drafts), old(fs.committed), old(StageOf(fs)), EnvOf(fs),
                         fs.committed, StageOf(fs), at, id, status)
    ensures OwnWork(old(fs.disk), at, old(fs.open)[id])
    ensures Ready(fs.v, EnvOf(fs)) ==> OthersStay(fs.v, old(EnvOf(fs)), old(fs.drafts), EnvOf(fs), fs.drafts, {id})
  {
    ghost var k;
    status, k := CloseSteps(fs, id, granule);
    at := k.e.w.disk;
    ghost var a0, b := old(StageOf(fs)), StageOf(fs);
    WrapUp(fs, id, status, k);
    assert StageOf(fs) == b;
    assert CloseOutcomeIs(fs.v, fs.g, k.e0, k.ds0, k.c0, a0, EnvOf(fs), fs.committed, b, at, id, status);
  }

  /** What a close comes to. The journal takes the record, or is full. If the note was a harmful one and the record was
      taken, the file is in the index but not on flash. Otherwise the result is what it should be, on a passage with
      one index record. Callers unfold this where they need it. */
  ghost predicate CloseOutcome(v: Volume, g: IndexRing.Geometry, e0: Env, ds0: map<nat, Draft>, c0: Counters.Count,
                               a: Stage, e: Env, c: Counters.Count, b: Stage, at: Disk, id: nat, status: Status) {
    forall n: nat {:trigger CloseOutcomeIs(v, g, e0, ds0, c0, a, e, c, b, at, n, status)} | n == id ::
      CloseOutcomeIs(v, g, e0, ds0, c0, a, e, c, b, at, n, status)
  }

  ghost predicate CloseOutcomeIs(v: Volume, g: IndexRing.Geometry, e0: Env, ds0: map<nat, Draft>, c0: Counters.Count,
                                 a: Stage, e: Env, c: Counters.Count, b: Stage, at: Disk, id: nat, status: Status) {
    && id in e0.w.open && id in e0.w.pend && id in ds0 && e0.w.open[id].head < 0x1_0000
    && var h := e0.w.open[id];
    && JournalGrew(g, a.journal, b.journal, h.slot, h.head, status.Ok?)
    && if status.Ok? && Harmful(h, PathOf(e0.w, id)) then
         && FileClosed(e0.w.files, e.w.files, h.slot, ds0[id])
         && Destroyed(v, e.w.disk, e.w.index, h.slot)
       else
         && CloseResult(v, e0, ds0, c0, e, c, id, status)
         && Passage(v, g, a, b, at, h.slot, h.head, status.Ok?)
  }

  lemma CloseStays(v: Volume, e0: Env, ds0: map<nat, Draft>, c0: Counters.Count, e: Env, ds: map<nat, Draft>,
                   c: Counters.Count, id: nat, status: Status)
    requires id in e0.w.open && Spared(v, e0.w, e.w, id, e0.w.open[id].slot) && Departed(e0, ds0, e, ds, id)
    requires OnlyWriter(e0.w.open, id, e0.w.open[id].slot) && Ready(v, e) && e.g == e0.g
    requires CloseResult(v, e0, ds0, c0, e, c, id, status)
    ensures OthersStay(v, e0, ds0, e, ds, {id})
  {
    var slot := e0.w.open[id].slot;
    assert CloseResultIs(v, e0, ds0, c0, e, c, id, status);
    assert e.w.files - {slot} == e0.w.files - {slot};
    assert ds - {id} == ds0 - {id};
    StayBySpared(v, e0, ds0, e, ds, id, slot);
  }

  /** A close, as far as it got: where it started, the eve of the commit, the new chain and the note. */
  datatype Course = Course(e0: Env, ds0: map<nat, Draft>, c0: Counters.Count, e: Env, path: Path, recs: seq<Md>,
                           pieces: seq<Bytes>,
                           oldHead: nat, oldNext: nat)

  /** What is done on flash is done. Callers unfold this where they need it. */
  ghost predicate Flashed(fs: Volatile, id: nat, status: Status, k: Course)
    reads fs
  {
    forall n: nat {:trigger FlashedIs(fs, n, status, k)} | n == id :: FlashedIs(fs, n, status, k)
  }

  ghost predicate FlashedIs(fs: Volatile, id: nat, status: Status, k: Course)
    reads fs
  {
    && id in fs.open && id in fs.drafts && id in fs.ranges
    && Eve(fs.v, k.e0, k.ds0, k.e, id, k.path, k.recs, k.pieces, fs.drafts[id])
    && id in k.e0.w.open && id in k.e.w.open && id in k.ds0 && fs.open == k.e.w.open && fs.pend == k.e.w.pend
    && EnvOf(fs) == k.e.(w := fs.Now(), used := fs.allocMap)
    && LiveIn(fs.v, k.e, k.e.w.open[id], k.path, k.recs, k.pieces)
    && Spared(fs.v, k.e0.w, fs.Now(), id, k.e0.w.open[id].slot) && fs.drafts == k.ds0[id := fs.drafts[id]]
    && Followed(fs.v, k.e0.w, k.e, k.e.w.open[id], k.path, k.oldHead, k.oldNext)
    && (if status.Ok? then Concluded(fs, k.e, id, k.path, k.recs, k.pieces, k.oldHead, k.oldNext, k.c0)
        else fs.Now() == k.e.w && fs.committed == k.c0 && fs.allocMap == k.e.used)
    && (ReusedNote(k.path, k.oldHead) <==> Harmful(k.e0.w.open[id], k.path))
    && id in k.e0.w.pend && k.path == PathOf(k.e0.w, id)
  }

  method CloseSteps(fs: Volatile, id: nat, granule: nat) returns (status: Status, ghost k: Course)
    requires Streaming.Writable(fs, id) && 0 < granule <= RECORD_SIZE + FOOTER_SIZE && VolumeOk(fs.v)
    requires OnlyWriter(fs.open, id, fs.open[id].slot)
    requires Annotated(fs.v, fs.Now(), fs.open[id], fs.pend[id] + [fs.open[id].current])
    modifies fs`disk, fs`cuts, fs`nextSerial, fs`index, fs`journal, fs`paths, fs`files, fs`allocMap, fs`open, fs`drafts,
             fs`committed
    ensures fs.Backed() && Flashed(fs, id, status, k) && k.e0 == old(EnvOf(fs)) && k.ds0 == old(fs.drafts)
    ensures k.c0 == old(fs.committed)
    ensures id in fs.open && fs.open[id].head == old(fs.open)[id].head < 0x1_0000
    ensures JournalGrew(fs.g, old(fs.journal), fs.journal, old(fs.open)[id].slot, fs.open[id].head, status.Ok?)
    ensures !(status.Ok? && old(Harmful(fs.open[id], PathOf(fs.Now(), id)))) ==>
              Passage(fs.v, fs.g, old(StageOf(fs)), StageOf(fs), k.e.w.disk, old(fs.open)[id].slot,
                      old(fs.open)[id].head, status.Ok?)
    ensures OwnWork(old(fs.disk), k.e.w.disk, old(fs.open)[id])
  {
    ghost var e0, ds0, c0 := EnvOf(fs), fs.drafts, fs.committed;
    ghost var e, path, recs, pieces;
    var oldHead, oldNext;
    status, e, path, recs, pieces, oldHead, oldNext := CloseOnFlash(fs, id, granule);
    FinalNote(fs.v, e0, ds0, e, id, path, recs, pieces, fs.drafts[id], oldHead, oldNext);
    k := Course(e0, ds0, c0, e, path, recs, pieces, oldHead, oldNext);
    assert FlashedIs(fs, id, status, k);
  }

  /** A note is harmful in the end if it was so at first. */
  lemma FinalNote(v: Volume, e0: Env, ds0: map<nat, Draft>, e: Env, id: nat, path: Path, recs: seq<Md>,
                     pieces: seq<Bytes>, d: Draft,
                     oldHead: nat, oldNext: nat)
    requires Eve(v, e0, ds0, e, id, path, recs, pieces, d) && id in e.w.open && id in e0.w.open && id in e0.w.pend
    requires Followed(v, e0.w, e, e.w.open[id], path, oldHead, oldNext)
    ensures path == PathOf(e0.w, id) && (ReusedNote(path, oldHead) <==> Harmful(e0.w.open[id], path))
    ensures e == e0.(w := e.w, used := e.used) && e.w.pend == e0.w.pend
    ensures SameButStream(e0.w.open, e.w.open, id) && LiveIn(v, e, e.w.open[id], path, recs, pieces)
    ensures OwnWork(e0.w.disk, e.w.disk, e0.w.open[id]) && Gc.WalkWary(e0.w, e0.g, e.w.disk, e.g)
  {
    EveFacts(v, e0, ds0, e, id, path, recs, pieces, d);
  }

  lemma EveFacts(v: Volume, e0: Env, ds0: map<nat, Draft>, e: Env, id: nat, path: Path, recs: seq<Md>,
                 pieces: seq<Bytes>, d: Draft)
    requires Eve(v, e0, ds0, e, id, path, recs, pieces, d)
    ensures id in e0.w.open && id in e.w.open && id in e0.w.pend && SameButStream(e0.w.open, e.w.open, id)
    ensures e == e0.(w := e.w, used := e.used)
    ensures e.w == e0.w.(disk := e.w.disk, open := e.w.open) && path == e0.w.pend[id] + [e0.w.open[id].current]
    ensures e.g == e0.g
    ensures LiveIn(v, e, e.w.open[id], path, recs, pieces) && OwnWork(e0.w.disk, e.w.disk, e.w.open[id])
    ensures OwnWork(e0.w.disk, e.w.disk, e0.w.open[id]) && Gc.WalkWary(e0.w, e0.g, e.w.disk, e.g)
  {
    assert EveIs(v, e0, ds0, e, id, path, recs, pieces, d);
    forall p: nat
      ensures OwnAt(e0.w.disk, e.w.disk, e0.w.open[id], p)
    {
      assert OwnAt(e0.w.disk, e.w.disk, e.w.open[id], p);
    }
  }

  /** The file is in place, or could not be committed: the handle goes. */
  method WrapUp(fs: Volatile, id: nat, status: Status, ghost k: Course)
    requires Flashed(fs, id, status, k)
    modifies fs`ranges, fs`allocMap, fs`open, fs`pend, fs`drafts
    ensures id in k.e0.w.open && Spared(fs.v, k.e0.w, fs.Now(), id, k.e0.w.open[id].slot)
    ensures Departed(k.e0, k.ds0, EnvOf(fs), fs.drafts, id)
    ensures id in k.e0.w.pend && k.path == PathOf(k.e0.w, id) && id in k.ds0
    ensures if status.Ok? && Harmful(k.e0.w.open[id], k.path) then Lost(fs, k, id)
            else CloseResult(fs.v, k.e0, k.ds0, k.c0, EnvOf(fs), fs.committed, id, status)
    ensures OnlyWriter(k.e0.w.open, id, k.e0.w.open[id].slot) && Ready(fs.v, EnvOf(fs)) && fs.gcMd == k.e0.g ==>
              OthersStay(fs.v, k.e0, k.ds0, EnvOf(fs), fs.drafts, {id})
  {
    assert FlashedIs(fs, id, status, k);
    ghost var w1, slot := fs.Now(), fs.open[id].slot;
    EveFacts(fs.v, k.e0, k.ds0, k.e, id, k.path, k.recs, k.pieces, fs.drafts[id]);
    if status.Ok? {
      WrapStored(fs, id, k);
    } else {
      WrapFailed(fs, id, status, k);
    }
    SparedMore(fs.v, k.e0.w, w1, fs.Now(), id, slot);
    if OnlyWriter(k.e0.w.open, id, slot) && Ready(fs.v, EnvOf(fs)) && fs.gcMd == k.e0.g {
      StillHolds(fs, slot);
      CloseStays(fs.v, k.e0, k.ds0, k.c0, EnvOf(fs), fs.drafts, fs.committed, id, status);
    }
  }

  /** The new file is in the index, but not on flash. */
  ghost predicate Lost(fs: Volatile, k: Course, id: nat)
    reads fs
  {
    && id in k.e0.w.open && id in k.ds0 && FileClosed(k.e0.w.files, fs.files, k.e0.w.open[id].slot, k.ds0[id])
    && Destroyed(fs.v, fs.disk, fs.index, k.e0.w.open[id].slot)
  }

  lemma StillHolds(fs: Volatile, slot: u16)
    requires Ready(fs.v, EnvOf(fs))
    ensures !Destroyed(fs.v, fs.disk, fs.index, slot)
  {
    assert InReady(fs.v, EnvOf(fs), TheFiles);
    if slot in fs.index {
      assert Files.Stored(fs.v, fs.disk, fs.index, fs.paths, slot, fs.files[slot]);
    }
  }

  method WrapStored(fs: Volatile, id: nat, ghost k: Course)
    requires Flashed(fs, id, Ok, k)
    modifies fs`ranges, fs`allocMap, fs`open, fs`pend, fs`drafts
    ensures id in k.e0.w.open && Spared(fs.v, old(fs.Now()), fs.Now(), id, k.e0.w.open[id].slot)
    ensures Departed(k.e0, k.ds0, EnvOf(fs), fs.drafts, id)
    ensures if Harmful(k.e0.w.open[id], k.path) then Lost(fs, k, id)
            else CloseResult(fs.v, k.e0, k.ds0, k.c0, EnvOf(fs), fs.committed, id, Ok)
  {
    ghost var e1, ds1 := EnvOf(fs), fs.drafts;
    assert FlashedIs(fs, id, Ok, k);
    EveFacts(fs.v, k.e0, k.ds0, k.e, id, k.path, k.recs, k.pieces, fs.drafts[id]);
    SafeStill(fs.v, k.e0, k.e, id, k.path, k.oldHead, k.oldNext);
    ClosedFile(fs, k.e0, k.ds0, k.e, id, k.path, k.recs, k.pieces, k.oldHead, k.oldNext, k.c0);
    Depart(fs, id, k.e, k.path, k.recs, k.pieces, k.oldHead, k.oldNext, k.c0);
    Departures(k.e0, k.ds0, e1, ds1, fs.drafts, EnvOf(fs), id);
    if !Harmful(k.e0.w.open[id], k.path) {
      StoredResult(fs.v, k.e0, k.ds0, k.c0, EnvOf(fs), fs.committed, id);
    }
  }

  lemma StoredResult(v: Volume, e0: Env, ds0: map<nat, Draft>, c0: Counters.Count, e: Env, c: Counters.Count, id: nat)
    requires Sound(v, e.w) && id in e0.w.open && id in ds0
    requires FileClosed(e0.w.files, e.w.files, e0.w.open[id].slot, ds0[id])
    requires SafeToClose(v, e0, e0.w.open[id]) ==> Ready(v, e)
    requires NoBegun(e.w.disk, e0.w.open[id].slot)
    requires CountsFiles(c0, e0.w.files) ==> CountsFiles(c, e.w.files)
    ensures CloseResult(v, e0, ds0, c0, e, c, id, Ok)
  {
    assert CloseResultIs(v, e0, ds0, c0, e, c, id, Ok);
  }

  /** A note that was safe at first is so when it is followed. */
  lemma SafeStill(v: Volume, e0: Env, e: Env, id: nat, path: Path, oldHead: nat, oldNext: nat)
    requires id in e0.w.open && id in e.w.open && SameButStream(e0.w.open, e.w.open, id) && e.g == e0.g
    requires e.w.index == e0.w.index && Gc.WalkWary(e0.w, e0.g, e.w.disk, e.g)
    requires Followed(v, e0.w, e, e.w.open[id], path, oldHead, oldNext)
    ensures e.w.open[id].slot == e0.w.open[id].slot
    ensures SafeToClose(v, e0, e0.w.open[id]) ==> NoteSafe(v, e.w, e.g, e.w.open[id].slot, oldHead, oldNext)
  {
    var slot := e0.w.open[id].slot;
    assert Pinned(e0.w.open, slot);
    if Wary(e0.w.disk, e0.g, slot) {
      assert Wary(e.w.disk, e.g, slot);
    }
  }

  method WrapFailed(fs: Volatile, id: nat, status: Status, ghost k: Course)
    requires !status.Ok? && Flashed(fs, id, status, k)
    modifies fs`ranges, fs`allocMap, fs`open, fs`pend, fs`drafts
    ensures id in k.e0.w.open && Spared(fs.v, old(fs.Now()), fs.Now(), id, k.e0.w.open[id].slot)
    ensures Departed(k.e0, k.ds0, EnvOf(fs), fs.drafts, id)
    ensures CloseResult(fs.v, k.e0, k.ds0, k.c0, EnvOf(fs), fs.committed, id, status)
  {
    ghost var e1, ds1 := EnvOf(fs), fs.drafts;
    assert FlashedIs(fs, id, status, k);
    EveFacts(fs.v, k.e0, k.ds0, k.e, id, k.path, k.recs, k.pieces, fs.drafts[id]);
    GiveUp(fs, id, k.path, k.recs, k.pieces);
    Departures(k.e0, k.ds0, e1, ds1, fs.drafts, EnvOf(fs), id);
    assert CloseResultIs(fs.v, k.e0, k.ds0, k.c0, EnvOf(fs), fs.committed, id, status);
  }

  /** The volume after a close. If it succeeded, the file is there, and the volume is in order if the note was
      safe. If not, no file has changed, and the volume is in order exactly if the slot has a file. The counters,
      if they were right, are right. Callers unfold this where they need it. */
  ghost predicate CloseResult(v: Volume, e0: Env, ds0: map<nat, Draft>, c0: Counters.Count, e: Env, c: Counters.Count,
                              id: nat, status: Status) {
    forall n: nat {:trigger CloseResultIs(v, e0, ds0, c0, e, c, n, status)} | n == id ::
      CloseResultIs(v, e0, ds0, c0, e, c, n, status)
  }

  ghost predicate CloseResultIs(v: Volume, e0: Env, ds0: map<nat, Draft>, c0: Counters.Count, e: Env, c: Counters.Count,
                                id: nat, status: Status) {
    && Sound(v, e.w) && id in e0.w.open && id in ds0
    && var slot := e0.w.open[id].slot;
    && (if status.Ok? then
          && FileClosed(e0.w.files, e.w.files, slot, ds0[id])
          && (SafeToClose(v, e0, e0.w.open[id]) ==> Ready(v, e))
        else
          e.w.files == e0.w.files && (Ready(v, e) <==> slot in e0.w.index))
    && NoBegun(e.w.disk, slot)
    && (CountsFiles(c0, e0.w.files) ==> CountsFiles(c, e.w.files))
  }

  lemma Departures(e0: Env, ds0: map<nat, Draft>, e: Env, ds1: map<nat, Draft>, ds: map<nat, Draft>, e2: Env, id: nat)
    requires id in e0.w.open && id in e.w.open && SameButStream(e0.w.open, e.w.open, id) && e.w.pend == e0.w.pend
    requires e.ranges == e0.ranges
    requires Departed(e, ds1, e2, ds, id) && id in ds1 && ds1 == ds0[id := ds1[id]]
    ensures Departed(e0, ds0, e2, ds, id)
  {
  }

  lemma ClosedFile(fs: Volatile, e0: Env, ds0: map<nat, Draft>, e: Env, id: nat, path: Path, recs: seq<Md>,
                   pieces: seq<Bytes>,
                   oldHead: nat, oldNext: nat, c0: Counters.Count)
    requires id in fs.drafts && Eve(fs.v, e0, ds0, e, id, path, recs, pieces, fs.drafts[id]) && id in e0.w.open
    requires id in ds0
    requires Concluded(fs, e, id, path, recs, pieces, oldHead, oldNext, c0)
    ensures FileClosed(e0.w.files, fs.files, e0.w.open[id].slot, ds0[id])
    ensures !ReusedNote(path, oldHead) && CountsFiles(c0, e0.w.files) ==> CountsFiles(fs.committed, fs.files)
  {
    assert EveIs(fs.v, e0, ds0, e, id, path, recs, pieces, fs.drafts[id]);
    assert ConcludedIs(fs.v, e, id, path, recs, pieces, oldHead, oldNext, c0, EnvOf(fs), fs.committed);
    assert SaysIs(NewFile(recs, pieces), fs.drafts[id]);
    if !ReusedNote(path, oldHead) && CountsFiles(c0, e0.w.files) {
      CloseCounts(c0, fs.committed, e0.w.files, e.w.open[id].slot, NewFile(recs, pieces),
                  RootNoted(fs.v, e.w, e.w.open[id].slot, path, oldHead, oldNext));
    }
  }

  lemma OnlyStill(open: OpenFiles, open': OpenFiles, id: nat, slot: u16)
    requires OnlyWriter(open, id, slot) && id in open' && open' == open[id := open'[id]]
    ensures OnlyWriter(open', id, slot)
  {
  }
}
