/** fffs_delete_file (src/fastffs.c). */
module Deleting {
  import opened Nor
  import opened SectorMd
  import opened SectorView
  import opened Files
  import opened Mounted
  import opened SectorOps
  import opened Writer
  import opened Commit
  import opened OldChain
  import opened Bystanders
  import opened Notes
  import opened Sharing
  import opened Remount
  import Compact
  import Counters
  import Alloc
  import Closing
  import Opening
  import Gc
  import IndexLog

  ghost function Deleted(w: World, slot: u16): World { w.(index := w.index - {slot}, files := w.files - {slot}) }

  /** The file's head is the only live root of the slot. */
  ghost predicate LoneRoot(v: Volume, w: World, slot: u16) {
    forall p: nat, k: nat | DataSector(v, p) && p < |w.disk| && k < |w.disk[p].recs| && w.disk[p].footer.Live? ::
      var r := w.disk[p].recs[k]; r.Live() && r.typ == TYPE_ROOT && r.slot == slot ==>
                 slot in w.index && p == w.index[slot]
  }

  lemma DeletedSound(v: Volume, w: World, slot: u16)
    requires Sound(v, w)
    ensures Sound(v, Deleted(w, slot))
  {
    HoldsRemove(v, w.disk, w.index, w.paths, w.files, slot);
    CommitPending(v, w, Deleted(w, slot));
    var files' := w.files - {slot};
    forall s | s in files'
      ensures Rooted(files'[s])
    {
      assert Rooted(w.files[s]);
    }
  }

  /** The chain that is to go. */
  lemma ChainOfSlot(v: Volume, w: World, slot: u16)
    requires Sound(v, w) && slot in w.index
    ensures slot in w.paths && Chain(v, w.disk, slot, w.paths[slot]) && w.paths[slot][0] == w.index[slot] != 0
    ensures Node(v, w.disk, slot, w.paths[slot], 0)
    ensures forall p | p in w.paths[slot] :: p < |w.disk| && w.disk[p].footer.Live?
  {
    assert Files.Stored(v, w.disk, w.index, w.paths, slot, w.files[slot]);
    var path := w.paths[slot];
    assert Node(v, w.disk, slot, path, 0);
    forall p | p in path
      ensures p < |w.disk| && w.disk[p].footer.Live?
    {
      var i: nat :| i < |path| && path[i] == p;
      assert Node(v, w.disk, slot, path, i);
    }
  }

  // ---------------------------------------------------------------- the volume afterwards

  /** The volume before, and after the chain has been tombstoned. */
  ghost predicate Gone(v: Volume, w: World, w': World, slot: u16) {
    && slot in w.index && slot in w.paths && w' == Deleted(w, slot).(disk := w'.disk)
    && BuriedTo(v, w.disk, w'.disk, slot, w.paths[slot], |w.paths[slot]|)
  }

  lemma GoneSettled(v: Volume, w: World, w': World, slot: u16)
    requires Sound(v, w) && Gone(v, w, w', slot)
    ensures SettledDisk(w.disk, w'.disk, slot)
    ensures w.index[slot] < |w'.disk| && Lookup(w'.disk[w.index[slot]], slot).None?
  {
    ChainOfSlot(v, w, slot);
    var path := w.paths[slot];
    assert path[..|path|] == path && path[0] in path;
    Closing.SettledSelf(w.disk, slot);
    forall p: nat
      ensures DimmedAt(v, w.disk, w'.disk, slot, p)
    {
    }
    Closing.SettledDimmed(v, w.disk, w.disk, w'.disk, slot);
  }

  /** The slot has no live record left where its head was. */
  lemma NoLiveThere(s: Sec, slot: u16, k: nat)
    requires s.footer.Live? && Lookup(s, slot).None? && k < |s.recs| && s.recs[k].slot == slot
    ensures !s.recs[k].Live()
  {
  }

  lemma GoneWalk(v: Volume, e: Env, w': World, slot: u16)
    requires InReady(v, e, TheFiles) && InReady(v, e, TheWalk) && Gone(v, e.w, w', slot)
    ensures WalkOk(v, w', e.g)
  {
    GoneSettled(v, e.w, w', slot);
    if e.g.active && !e.g.openSeen && e.g.sector < |w'.disk| {
      var p := e.g.sector;
      forall k | && 0 <= k < e.g.pos && k < |w'.disk[p].recs|
                 && w'.disk[p].recs[k].typ == TYPE_ROOT && w'.disk[p].recs[k].slot == slot
        ensures !w'.disk[p].recs[k].Live()
      {
        GonePassed(v, e, w', slot, k);
      }
    }
    assert forall s: u16, p: nat | Needed(w', s, p) :: Needed(e.w, s, p);
    SettledWalk(v, e.w, w', e.g, slot, []);
  }

  lemma GonePassed(v: Volume, e: Env, w': World, slot: u16, k: nat)
    requires InReady(v, e, TheFiles) && InReady(v, e, TheWalk) && Gone(v, e.w, w', slot)
    requires SettledDisk(e.w.disk, w'.disk, slot)
    requires e.g.active && !e.g.openSeen && e.g.sector < |w'.disk| && k < e.g.pos && k < |w'.disk[e.g.sector].recs|
    requires e.w.index[slot] < |w'.disk| && Lookup(w'.disk[e.w.index[slot]], slot).None?
    requires var r := w'.disk[e.g.sector].recs[k]; r.typ == TYPE_ROOT && r.slot == slot
    ensures !w'.disk[e.g.sector].recs[k].Live()
  {
    var p := e.g.sector;
    assert Settled(e.w.disk[p], w'.disk[p], slot);
    var r := e.w.disk[p].recs[k];
    if r == w'.disk[p].recs[k] && r.Live() {
      assert Used(e.w.index, e.w.paths, slot, p);
      OldRoot(v, e.w, slot, p, k);
      NoLiveThere(w'.disk[p], slot, k);
    }
  }

  /** Afterwards every live root is in the index exactly if the slot had no other. */
  lemma GoneStrays(v: Volume, w: World, w': World, slot: u16)
    requires Sound(v, w) && NoStrays(v, w) && Gone(v, w, w', slot)
    ensures NoStrays(v, w') <==> LoneRoot(v, w, slot)
  {
    GoneSettled(v, w, w', slot);
    if LoneRoot(v, w, slot) {
      LoneMeansNone(v, w, w', slot);
    }
    if NoStrays(v, w') {
      NoneMeansLone(v, w, w', slot);
    }
  }

  lemma LoneMeansNone(v: Volume, w: World, w': World, slot: u16)
    requires NoStrays(v, w) && LoneRoot(v, w, slot) && Gone(v, w, w', slot) && SettledDisk(w.disk, w'.disk, slot)
    requires w.index[slot] < |w'.disk| && Lookup(w'.disk[w.index[slot]], slot).None?
    ensures NoStrays(v, w')
  {
    forall p: nat, k: nat | DataSector(v, p) && p < |w'.disk| && k < |w'.disk[p].recs| && w'.disk[p].footer.Live?
      ensures w'.disk[p].recs[k].Live() && w'.disk[p].recs[k].typ == TYPE_ROOT ==> w'.disk[p].recs[k].slot in w'.index
    {
      assert Settled(w.disk[p], w'.disk[p], slot);
      if w'.disk[p].recs[k].slot == slot && p == w.index[slot] {
        NoLiveThere(w'.disk[p], slot, k);
      }
    }
  }

  lemma NoneMeansLone(v: Volume, w: World, w': World, slot: u16)
    requires Sound(v, w) && NoStrays(v, w') && Gone(v, w, w', slot) && SettledDisk(w.disk, w'.disk, slot)
    ensures LoneRoot(v, w, slot)
  {
    forall p: nat, k: nat | DataSector(v, p) && p < |w.disk| && k < |w.disk[p].recs| && w.disk[p].footer.Live?
      ensures var r := w.disk[p].recs[k]; r.Live() && r.typ == TYPE_ROOT && r.slot == slot ==> p == w.index[slot]
    {
      var r, path := w.disk[p].recs[k], w.paths[slot];
      assert Settled(w.disk[p], w'.disk[p], slot) && path[..|path|] == path;
      if r.Live() && r.typ == TYPE_ROOT && r.slot == slot {
        assert w'.disk[p].recs[k] != r;
        assert p in path && Used(w.index, w.paths, slot, p);
        OldRoot(v, w, slot, p, k);
      }
    }
  }

  lemma GoneReady(v: Volume, e: Env, e': Env, slot: u16)
    requires Ready(v, e) && Gone(v, e.w, e'.w, slot) && Sound(v, e'.w) && e' == e.(w := e'.w, used := e'.used)
    requires MapRetired(e.w.disk, e.used, e'.used)
    ensures Ready(v, e') <==> LoneRoot(v, e.w, slot)
  {
    assert InReady(v, e, TheFiles) && InReady(v, e, TheWalk) && InReady(v, e, TheStrays);
    assert InReady(v, e, TheAllocator) && InReady(v, e, TheWriters);
    GoneWalk(v, e, e'.w, slot);
    GoneStrays(v, e.w, e'.w, slot);
    GoneSettled(v, e.w, e'.w, slot);
    SettledAlloc(v, e.w.open, Hold(e.w.disk, e.used, e.reserve), Hold(e'.w.disk, e'.used, e'.reserve), e.ranges, slot);
    GoneAspects(v, e', LoneRoot(v, e.w, slot));
  }

  lemma GoneAspects(v: Volume, e: Env, lone: bool)
    requires Sound(v, e.w) && WalkOk(v, e.w, e.g) && DataSector(v, e.cursor) && (NoStrays(v, e.w) <==> lone)
    requires Exclusive(e.w.open)
    requires Alloc.AllocOk(v, e.w.open, Hold(e.w.disk, e.used, e.reserve), e.ranges)
    ensures Ready(v, e) <==> lone
  {
    if lone {
      forall a
        ensures InReady(v, e, a)
      {
      }
    }
    if Ready(v, e) {
      assert InReady(v, e, TheStrays);
    }
  }

  // ---------------------------------------------------------------- fffs_delete_file

  /** What a writer of the slot has is not on the chain that is to go. That is so for every writer (Writer.WriterIn). */
  ghost predicate WritersApart(w: World, slot: u16) {
    forall a | a in w.open && a in w.pend && w.open[a].writing && w.open[a].slot == slot ::
      Apart(w.index, w.paths, slot, w.pend[a] + [w.open[a].current])
  }

  /** Deletes the file of a slot that the name has been resolved to. At every power cut the volume has all
      files, or all but this one. Afterwards the volume is in order exactly if the slot had no second live
      root: such a root would now be one that the index does not know. Writers lose nothing, not even one of
      the same slot, and the counters, if valid, count the files. */
  method DeleteFile(fs: Volatile, slot: u16) returns (status: Status)
    requires Ready(fs.v, EnvOf(fs)) && slot in fs.index && WritersApart(fs.Now(), slot) && fs.Backed()
    modifies fs`index, fs`journal, fs`cuts, fs`files, fs`disk, fs`allocMap, fs`committed
    ensures fs.Backed() && Sound(fs.v, fs.Now())
    ensures Passage(fs.v, fs.g, old(StageOf(fs)), StageOf(fs), old(fs.disk), slot, 0, status.Ok?)
    ensures if status.Ok? then
              && fs.files == old(fs.files) - {slot}
              && (Ready(fs.v, EnvOf(fs)) <==> LoneRoot(fs.v, old(fs.Now()), slot))
            else
              fs.Now() == old(fs.Now()) && Ready(fs.v, EnvOf(fs)) && fs.committed == old(fs.committed)
    ensures forall id: nat :: Spared(fs.v, old(fs.Now()), fs.Now(), id, slot)
    ensures Dimmed(fs.v, old(fs.disk), fs.disk, slot)
    ensures CountsFiles(old(fs.committed), old(fs.files)) ==> CountsFiles(fs.committed, fs.files)
    ensures Ready(fs.v, EnvOf(fs)) ==> OthersStay(fs.v, old(EnvOf(fs)), fs.drafts, EnvOf(fs), fs.drafts, {})
  {
    ghost var e, a0 := EnvOf(fs), StageOf(fs);
    assert InReady(fs.v, e, TheFiles);
    ChainOfSlot(fs.v, e.w, slot);
    var head := fs.index[slot];
    var found, root := ReadMdForSlot(fs, head, slot);
    status := Unlink(fs, slot);
    ghost var a1 := StageOf(fs);
    WorkSame(fs.v, e.w, fs.Now());
    DimmedSame(fs.v, fs.disk, slot);
    if status.Ok? {
      BuryAndSettle(fs, slot, head, root.next, e);
      PassageTo(fs.v, fs.g, a0, a1, StageOf(fs), e.w.disk, slot, 0, true);
    } else {
      StaySame(fs.v, e, fs.drafts);
    }
    AllSpared(fs.v, e.w, fs.Now(), slot);
  }

  lemma AllSpared(v: Volume, w: World, w': World, slot: u16)
    requires forall id: nat :: OthersWork(v, w, w', id)
    requires Dimmed(v, w.disk, w'.disk, slot) && OtherNames(w, w', slot) && w'.open == w.open
    ensures forall id: nat :: Spared(v, w, w', id, slot)
  {
    SlotsDimmed(v, w.disk, w'.disk, slot);
    SparedTracesDimmed(v, w, w', slot);
    forall id: nat
      ensures Spared(v, w, w', id, slot)
    {
      SparedBy(v, w, w', id, slot);
    }
  }

  // ---------------------------------------------------------------- and the writers

  /** Writers stay where they were, also one that is about to replace the file that is gone: its note is out of date
      now, but leads nowhere. */
  lemma StayByDelete(v: Volume, e: Env, e': Env, ds: map<nat, Draft>, slot: u16)
    requires Ready(v, e) && Ready(v, e') && e' == e.(w := e'.w, used := e'.used) && slot in e.w.index
    requires e'.w == Deleted(e.w, slot).(disk := e'.w.disk) && Dimmed(v, e.w.disk, e'.w.disk, slot)
    requires forall id: nat :: OthersWork(v, e.w, e'.w, id)
    ensures OthersStay(v, e, ds, e', ds, {})
  {
    SlotsDimmed(v, e.w.disk, e'.w.disk, slot);
    SparedTracesDimmed(v, e.w, e'.w, slot);
    forall a: nat
      ensures Stays(v, e, ds, e', ds, a)
    {
      if WritableIn(v, e, ds, a) {
        assert OthersWork(v, e.w, e'.w, a + 1) && WorkOk(v, e.w.disk, e.w.open[a], e.w.pend[a], ds[a]);
        WalkStillBehind(v, e, e', a, ds[a]);
        if e.w.open[a].slot == slot {
          assert InWork(v, e.w.disk, e.w.open[a], e.w.pend[a], ds[a], ThePath);
          if NoteGood(v, e, a) {
            NoteGone(v, e, e', slot, a);
          }
          StaysIf(v, e, ds, e', ds, a);
        } else {
          SparedBy(v, e.w, e'.w, a + 1, slot);
          CalmBySpared(v, e, e', a + 1, slot, a);
          StaysBy(v, e, ds, e', ds, a);
        }
      }
    }
  }

  lemma NoteGone(v: Volume, e: Env, e': Env, slot: u16, a: nat)
    requires Ready(v, e) && Ready(v, e') && slot in e.w.index && slot !in e'.w.index && NoteGood(v, e, a)
    requires e'.w.open == e.w.open && e'.w.pend == e.w.pend && Dimmed(v, e.w.disk, e'.w.disk, slot)
    requires e.w.open[a].slot == slot && PathOf(e.w, a)[0] == e.w.open[a].head
    ensures NoteGood(v, e', a)
  {
    assert InReady(v, e, TheFiles) && InReady(v, e', TheStrays);
    var h, path := e.w.open[a], PathOf(e.w, a);
    var p := h.out.oldHead;
    if p != h.head && p !in path && p != 0 && DataSector(v, p) && p < |e'.w.disk| && Lookup(e'.w.disk[p], slot).Some? {
      DimmedTraces(v, e.w.disk, e'.w.disk, slot, p);
      assert NoneNew(e.w.disk[p], e'.w.disk[p], slot);
      NotedIsRoot(v, e.w, slot, path, p, h.out.oldNext);
      Closing.NewRootThere(v, e'.w, slot, p);
      assert false;
    }
  }

  /** All that follows the journal record. */
  method BuryAndSettle(fs: Volatile, slot: u16, head: nat, next: nat, ghost e: Env)
    requires Ready(fs.v, e) && Sound(fs.v, e.w) && slot in e.w.index && fs.Now() == Deleted(e.w, slot)
    requires Sound(fs.v, fs.Now())
    requires EnvOf(fs) == e.(w := fs.Now()) && WritersApart(e.w, slot) && slot in e.w.files
    requires slot in e.w.paths && Chain(fs.v, fs.disk, slot, e.w.paths[slot]) && e.w.paths[slot][0] == head != 0
    requires Node(fs.v, fs.disk, slot, e.w.paths[slot], 0)
    requires next == RecordOf(fs.v, fs.disk, slot, e.w.paths[slot], 0).next
    modifies fs`disk, fs`cuts, fs`allocMap, fs`committed
    ensures Sound(fs.v, fs.Now()) && CutsKept(fs.v, old(fs.cuts), fs.cuts, fs.index, fs.files)
    ensures SlotsKept(e.w.disk, fs.disk, slot) && Dimmed(fs.v, e.w.disk, fs.disk, slot)
    ensures Ready(fs.v, EnvOf(fs)) <==> LoneRoot(fs.v, e.w, slot)
    ensures forall id: nat :: OthersWork(fs.v, e.w, fs.Now(), id)
    ensures CountsFiles(old(fs.committed), e.w.files) ==> CountsFiles(fs.committed, fs.files)
    ensures Ready(fs.v, EnvOf(fs)) ==> OthersStay(fs.v, e, fs.drafts, EnvOf(fs), fs.drafts, {})
  {
    Bury(fs, slot, head, next, e);
    GoneReady(fs.v, e, EnvOf(fs), slot);
    WorkGone(fs.v, e.w, fs.Now(), slot);
    DeleteCounts(old(fs.committed), fs.committed, e.w.files, slot);
    if Ready(fs.v, EnvOf(fs)) {
      StayByDelete(fs.v, e, EnvOf(fs), fs.drafts, slot);
    }
  }

  lemma StaySame(v: Volume, e: Env, ds: map<nat, Draft>)
    ensures OthersStay(v, e, ds, e, ds, {})
  {
    forall a: nat
      ensures Stays(v, e, ds, e, ds, a)
    {
    }
  }

  lemma DeleteCounts(c: Counters.Count, c': Counters.Count, files: map<u16, File>, slot: u16)
    requires slot in files && c' == Counters.Subtracted(c, RootSize(files[slot]))
    ensures CountsFiles(c, files) ==> CountsFiles(c', files - {slot})
  {
    if CountsFiles(c, files) {
      Counters.DeleteKeepsRight(c, FileSizes(files), slot);
      assert FileSizes(files - {slot}) == FileSizes(files) - {slot};
    }
  }

  /** The journal record. */
  method Unlink(fs: Volatile, slot: u16) returns (status: Status)
    requires Sound(fs.v, fs.Now()) && slot in fs.index && slot in fs.files && fs.Backed()
    modifies fs`index, fs`journal, fs`cuts, fs`files
    ensures fs.Backed() && Passage(fs.v, fs.g, old(StageOf(fs)), StageOf(fs), fs.disk, slot, 0, status.Ok?)
    ensures Sound(fs.v, fs.Now()) && fs.Now() == if status.Ok? then Deleted(old(fs.Now()), slot) else old(fs.Now())
  {
    ghost var w := fs.Now();
    DeletedSound(fs.v, w, slot);
    fs.MayAppend(slot, 0);
    status := fs.AppendIndex(slot, 0);
    if status.Ok? {
      fs.files := fs.files - {slot};
    }
    RecordCuts(fs.v, w, fs.Now(), Recording(w.disk, w.index, fs.index, fs.g, old(fs.journal), slot, 0), old(fs.cuts),
               fs.cuts);
    assert PassageIs(fs.v, fs.g, old(StageOf(fs)), StageOf(fs), fs.disk, slot, 0, status.Ok?);
  }

  /** The chain that no name leads to any more, and its count. */
  method Bury(fs: Volatile, slot: u16, head: nat, next: nat, ghost e: Env)
    requires Sound(fs.v, e.w) && slot in e.w.index && fs.Now() == Deleted(e.w, slot) && Sound(fs.v, fs.Now())
    requires fs.allocMap == e.used
    requires WritersApart(e.w, slot) && slot in e.w.files
    requires slot in e.w.paths && Chain(fs.v, fs.disk, slot, e.w.paths[slot]) && e.w.paths[slot][0] == head != 0
    requires Node(fs.v, fs.disk, slot, e.w.paths[slot], 0)
    requires next == RecordOf(fs.v, fs.disk, slot, e.w.paths[slot], 0).next
    modifies fs`disk, fs`cuts, fs`allocMap, fs`committed
    ensures Gone(fs.v, e.w, fs.Now(), slot) && Sound(fs.v, fs.Now())
    ensures CutsKept(fs.v, old(fs.cuts), fs.cuts, fs.index, fs.files)
    ensures MapRetired(e.w.disk, e.used, fs.allocMap)
    ensures SlotsKept(old(fs.disk), fs.disk, slot) && Dimmed(fs.v, old(fs.disk), fs.disk, slot)
    ensures fs.committed == Counters.Subtracted(old(fs.committed), RootSize(e.w.files[slot]))
  {
    ghost var w, path := fs.Now(), e.w.paths[slot];
    assert path[..0] == [];
    DimmedSame(fs.v, fs.disk, slot);
    NextOnChain(fs.v, fs.disk, slot, path);
    assert OnChain(fs, slot, head, next, path);
    Closing.DropOld(fs, slot, head, next, path);
    SlotsDimmed(fs.v, w.disk, fs.disk, slot);
    ChainOfSlot(fs.v, e.w, slot);
    ApartExtents(e.w, slot);
    StillSound(fs.v, w, fs.disk, slot, path);
    StoredSize(fs.v, e.w, slot);
  }

  /** The link of a chain's head leads into the chain, or nowhere. */
  lemma NextOnChain(v: Volume, disk: Disk, slot: u16, path: Path)
    requires Chain(v, disk, slot, path) && Node(v, disk, slot, path, 0)
    ensures var next := RecordOf(v, disk, slot, path, 0).next; next == 0 || next in path
  {
    var r := RecordOf(v, disk, slot, path, 0);
    if r.span < |path| {
      assert path[r.span] in path;
    }
  }

  lemma ApartExtents(w: World, slot: u16)
    requires WritersApart(w, slot) && slot in w.index && slot in w.paths
    ensures forall a: nat, p: nat | Extends(Deleted(w, slot), a, p) && w.open[a].slot == slot :: p !in w.paths[slot]
  {
    forall a: nat, p: nat | Extends(Deleted(w, slot), a, p) && w.open[a].slot == slot
      ensures p !in w.paths[slot]
    {
      assert p in w.pend[a] + [w.open[a].current];
      assert !Used(w.index, w.paths, slot, p);
    }
  }

  lemma StoredSize(v: Volume, w: World, slot: u16)
    requires Sound(v, w) && slot in w.index && slot in w.paths && slot in w.files
    requires Node(v, w.disk, slot, w.paths[slot], 0)
    ensures RecordOf(v, w.disk, slot, w.paths[slot], 0).size == RootSize(w.files[slot])
  {
    assert Files.Stored(v, w.disk, w.index, w.paths, slot, w.files[slot]);
    assert FileOf(v, w.disk, slot, w.paths[slot]).sizes[0] == RecordOf(v, w.disk, slot, w.paths[slot], 0).size;
  }

  lemma StillSound(v: Volume, w: World, disk': Disk, slot: u16, path: Path)
    requires Sound(v, w) && DiskOk(v, disk') && Holds(v, disk', w.index, w.paths, w.files)
    requires BuriedTo(v, w.disk, disk', slot, path, |path|)
    requires forall a: nat, p: nat | Extends(w, a, p) && w.open[a].slot == slot :: p !in path
    ensures Sound(v, w.(disk := disk'))
  {
    var w' := w.(disk := disk');
    assert path[..|path|] == path;
    forall a: nat, p: nat | Extends(w', a, p)
      ensures p < |disk'| && DataSector(v, p) && (w.open[a].Occupies(p) || Lookup(disk'[p], w.open[a].slot).Some?)
    {
      assert Extends(w, a, p);
      if p in path {
        assert Faded(v, w.disk[p], disk'[p], slot);
        assert Keeps(w.disk[p], disk'[p], w.open[a].slot);
      }
    }
  }

  lemma WorkSame(v: Volume, w: World, w': World)
    requires w'.disk == w.disk && w'.open == w.open && w'.pend == w.pend
    ensures forall id: nat :: OthersWork(v, w, w', id)
  {
    forall id: nat
      ensures OthersWork(v, w, w', id)
    {
      SameIsWork(v, w, w', id);
    }
  }

  lemma WorkGone(v: Volume, w: World, w': World, slot: u16)
    requires Sound(v, w) && Gone(v, w, w', slot) && WritersApart(w, slot)
    ensures forall id: nat :: OthersWork(v, w, w', id)
  {
    ChainOfSlot(v, w, slot);
    forall id: nat
      ensures OthersWork(v, w, w', id)
    {
      forall a: nat, d: Draft | && a in w.open && a != id && w.open[a].writing && a in w.pend
                              && WorkOk(v, w.disk, w.open[a], w.pend[a], d)
        ensures WorkOk(v, w'.disk, w.open[a], w.pend[a], d) && RecordsStay(w.disk, w'.disk, w.open[a])
      {
        OneWorkGone(v, w, w', slot, a, d);
      }
    }
  }

  lemma OneWorkGone(v: Volume, w: World, w': World, slot: u16, a: nat, d: Draft)
    requires && Sound(v, w) && Gone(v, w, w', slot) && WritersApart(w, slot)
             && forall p | p in w.paths[slot] :: p < |w.disk| && w.disk[p].footer.Live?
    requires a in w.open && w.open[a].writing && a in w.pend && WorkOk(v, w.disk, w.open[a], w.pend[a], d)
    ensures WorkOk(v, w'.disk, w.open[a], w.pend[a], d) && RecordsStay(w.disk, w'.disk, w.open[a])
  {
    var path := w.paths[slot];
    assert path[..|path|] == path;
    if w.open[a].slot == slot {
      Closing.OccupiedPath(v, w.disk, w.open[a], w.pend[a], d);
      assert forall p | p in w.pend[a] + [w.open[a].current] :: p !in path;
      UndisturbedWork(v, w.disk, w'.disk, w.open[a], w.pend[a], d);
    } else {
      forall p: nat
        ensures DimmedAt(v, w.disk, w'.disk, slot, p)
      {
      }
      FadedWork(v, w.disk, w'.disk, w.open[a], w.pend[a], d, slot);
    }
  }
}
