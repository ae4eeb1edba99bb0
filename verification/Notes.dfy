/** The note that an open writer has about the chain that it is going to replace: what it can be worth by the time of
    the close, and that it stays worth that while others work (old_head and old_next in src/fffs_file.c). */
module Notes {
  import opened Nor
  import opened SectorMd
  import opened SectorView
  import opened Files
  import opened Mounted
  import opened Writer
  import Compact
  import Gc

  // ---------------------------------------------------------------- what a note may be worth

  /** The chain noted when the file was opened is still the chain of the slot. */
  ghost predicate OldNoted(v: Volume, w: World, slot: u16, oldHead: nat, oldNext: nat) {
    if slot in w.index then
      && oldHead == w.index[slot] && oldHead < |w.disk| && Lookup(w.disk[oldHead], slot).Some?
      && oldNext == Lookup(w.disk[oldHead], slot).value.next
    else oldHead == 0
  }

  /** The noted head has no record of the slot any more, and is no sector of the new file. */
  ghost predicate StaleNote(v: Volume, disk: Disk, slot: u16, path: Path, oldHead: nat) {
    && oldHead != 0 && oldHead !in path
    && (DataSector(v, oldHead) && oldHead < |disk| ==> Lookup(disk[oldHead], slot).None?)
  }

  /** The sector of the noted head has become part of the new file, behind its root. */
  ghost predicate ReusedNote(path: Path, oldHead: nat) {
    path != [] && oldHead in path && oldHead != path[0] && oldHead != 0
  }

  /** The noted head has a live root of the slot, with the rest of the slot's chain behind it, but not necessarily the
      one that was noted: compaction has moved that away, and this one here. The noted link leads into the chain. */
  ghost predicate BranchNote(v: Volume, w: World, slot: u16, path: Path, oldHead: nat, oldNext: nat) {
    && oldHead != 0 && oldHead !in path && oldHead < |w.disk| && Lookup(w.disk[oldHead], slot).Some?
    && Compact.Branch(v, w, slot, oldHead) && (oldNext == 0 || oldNext in w.paths[slot][1..])
  }

  /** The note leads to a root of the slot's file. */
  ghost predicate RootNoted(v: Volume, w: World, slot: u16, path: Path, oldHead: nat, oldNext: nat) {
    OldNoted(v, w, slot, oldHead, oldNext) || BranchNote(v, w, slot, path, oldHead, oldNext)
  }

  /** What the note about the old chain may be worth. */
  ghost predicate NoteKnown(v: Volume, w: World, slot: u16, path: Path, oldHead: nat, oldNext: nat) {
    || RootNoted(v, w, slot, path, oldHead, oldNext)
    || StaleNote(v, w.disk, slot, path, oldHead) || ReusedNote(path, oldHead)
  }

  /** A true note about a stored file is also one about a branch. */
  lemma TrueIsBranch(v: Volume, w: World, slot: u16, path: Path, oldHead: nat, oldNext: nat)
    requires Sound(v, w) && Apart(w.index, w.paths, slot, path) && slot in w.index
    requires OldNoted(v, w, slot, oldHead, oldNext)
    ensures BranchNote(v, w, slot, path, oldHead, oldNext)
  {
    assert Files.Stored(v, w.disk, w.index, w.paths, slot, w.files[slot]);
    var was := w.paths[slot];
    assert Node(v, w.disk, slot, was, 0) && was[0] in was && Used(w.index, w.paths, slot, oldHead);
    assert Compact.Moved(was, oldHead) == was;
    var span := RecordOf(v, w.disk, slot, was, 0).span;
    assert FileOf(v, w.disk, slot, was).sizes[0] == RecordOf(v, w.disk, slot, was, 0).size;
    if span == 1 && |was| > 1 {
      assert was[1..][0] == was[1];
    } else if span > 1 && span < |was| {
      assert was[1..][span - 1] == was[span];
    }
  }

  lemma NotedKept(v: Volume, w: World, disk': Disk, slot: u16, oldHead: nat, oldNext: nat)
    requires OldNoted(v, w, slot, oldHead, oldNext) && Compact.QuietDisk(w.disk, disk')
    ensures OldNoted(v, w.(disk := disk'), slot, oldHead, oldNext)
  {
    if slot in w.index {
      assert Keeps(w.disk[oldHead], disk'[oldHead], slot);
    }
  }

  /** What the note must be worth for the volume to be in order afterwards: it leads to the old chain, or the
      slot has no file, or no walk has come past the old root without knowing that the file is open. */
  ghost predicate NoteSafe(v: Volume, w: World, g: GcWalk, slot: u16, oldHead: nat, oldNext: nat) {
    OldNoted(v, w, slot, oldHead, oldNext) || slot !in w.index || Wary(w.disk, g, slot)
  }

  /** The note as the writer has it, before its last flush. */
  ghost predicate Annotated(v: Volume, w: World, h: Handle, path: Path) {
    h.out.oldHead == h.head || NoteKnown(v, w, h.slot, path, h.out.oldHead, h.out.oldNext)
  }

  /** The noted sector has become part of the new file, behind its root: a close destroys the file that it commits. */
  ghost predicate Harmful(h: Handle, path: Path) { h.out.oldHead != h.head && ReusedNote(path, h.out.oldHead) }

  /** The note leads to the old chain, or is looked up again, or there is nothing that a walk could hold against
      the old root. */
  ghost predicate SafeToClose(v: Volume, e: Env, h: Handle) {
    h.out.oldHead == h.head || NoteSafe(v, e.w, e.g, h.slot, h.out.oldHead, h.out.oldNext)
  }

  /** Where a note leads to a live record outside the writer's own sectors, it is a root. */
  lemma NotedIsRoot(v: Volume, w: World, slot: u16, path: Path, oldHead: nat, oldNext: nat)
    requires Sound(v, w) && NoteKnown(v, w, slot, path, oldHead, oldNext) && oldHead !in path && oldHead != 0
    requires DataSector(v, oldHead) && oldHead < |w.disk| && Lookup(w.disk[oldHead], slot).Some?
    ensures Lookup(w.disk[oldHead], slot).value.typ == TYPE_ROOT
  {
    if OldNoted(v, w, slot, oldHead, oldNext) {
      assert Files.Stored(v, w.disk, w.index, w.paths, slot, w.files[slot]);
      assert Node(v, w.disk, slot, w.paths[slot], 0);
    } else {
      assert Node(v, w.disk, slot, Compact.Moved(w.paths[slot], oldHead), 0);
    }
  }

  // ---------------------------------------------------------------- while others work

  /** The note is known, and safe to follow. Callers unfold this where they need it. */
  ghost predicate NoteAt(v: Volume, e: Env, h: Handle, path: Path) {
    Annotated(v, e.w, h, path) && SafeToClose(v, e, h)
  }

  /** What the note depends on: the slot's file, records of the slot outside the writer's own sectors, and the walk. */
  ghost predicate Calm(v: Volume, e: Env, e': Env, slot: u16, path': Path) {
    && |e'.w.disk| == |e.w.disk| && AllReal(v, e.w.disk) && AllReal(v, e'.w.disk)
    && (slot in e'.w.index <==> slot in e.w.index) && (slot in e.w.index ==> e'.w.index[slot] == e.w.index[slot])
    && (slot in e'.w.paths <==> slot in e.w.paths) && (slot in e.w.paths ==> e'.w.paths[slot] == e.w.paths[slot])
    && (slot in e'.w.files <==> slot in e.w.files) && (slot in e.w.files ==> e'.w.files[slot] == e.w.files[slot])
    && (slot in e.w.index && slot in e.w.paths ==>
          forall p | p in e.w.paths[slot] && p < |e.w.disk| :: Keeps(e.w.disk[p], e'.w.disk[p], slot))
    && (forall p: nat {:trigger NoneNew(e.w.disk[p], e'.w.disk[p], slot)} | p < |e.w.disk| && p !in path' ::
          NoneNew(e.w.disk[p], e'.w.disk[p], slot))
    && (Wary(e.w.disk, e.g, slot) ==> Wary(e'.w.disk, e'.g, slot))
  }

  /** The note stays known and safe, whatever others do, and while its own writer goes on. */
  lemma NoteKept(v: Volume, e: Env, e': Env, h: Handle, h': Handle, path: Path, path': Path)
    requires NoteAt(v, e, h, path) && Sound(v, e.w) && Calm(v, e, e', h.slot, path')
    requires path <= path' && path' != [] && path'[0] == h.head
    requires h'.slot == h.slot && h'.head == h.head && h'.out.oldHead == h.out.oldHead
    requires h'.out.oldNext == h.out.oldNext
    ensures NoteAt(v, e', h', path')
  {
    var slot, oldHead, oldNext := h.slot, h.out.oldHead, h.out.oldNext;
    if oldHead != h.head {
      if OldNoted(v, e.w, slot, oldHead, oldNext) {
        TrueStays(v, e, e', slot, oldHead, oldNext, path');
      } else if oldHead !in path' {
        if StaleNote(v, e.w.disk, slot, path, oldHead) {
          StaleStays(v, e, e', slot, oldHead, path, path');
        } else {
          assert oldHead !in path;
          BranchStays(v, e, e', slot, oldHead, oldNext, path, path');
        }
      }
    }
  }

  lemma TrueStays(v: Volume, e: Env, e': Env, slot: u16, oldHead: nat, oldNext: nat, path': Path)
    requires OldNoted(v, e.w, slot, oldHead, oldNext) && Sound(v, e.w) && Calm(v, e, e', slot, path')
    ensures OldNoted(v, e'.w, slot, oldHead, oldNext)
  {
    if slot in e.w.index {
      assert Files.Stored(v, e.w.disk, e.w.index, e.w.paths, slot, e.w.files[slot]);
      assert e.w.paths[slot][0] in e.w.paths[slot];
      assert Keeps(e.w.disk[oldHead], e'.w.disk[oldHead], slot);
    }
  }

  lemma StaleStays(v: Volume, e: Env, e': Env, slot: u16, oldHead: nat, path: Path, path': Path)
    requires StaleNote(v, e.w.disk, slot, path, oldHead) && Calm(v, e, e', slot, path') && oldHead !in path'
    ensures StaleNote(v, e'.w.disk, slot, path', oldHead)
  {
    if oldHead < |e.w.disk| {
      assert NoneNew(e.w.disk[oldHead], e'.w.disk[oldHead], slot);
    }
  }

  lemma BranchStays(v: Volume, e: Env, e': Env, slot: u16, oldHead: nat, oldNext: nat, path: Path, path': Path)
    requires BranchNote(v, e.w, slot, path, oldHead, oldNext) && Calm(v, e, e', slot, path') && oldHead !in path'
    ensures BranchNote(v, e'.w, slot, path', oldHead, oldNext) || StaleNote(v, e'.w.disk, slot, path', oldHead)
  {
    assert NoneNew(e.w.disk[oldHead], e'.w.disk[oldHead], slot);
    if Lookup(e'.w.disk[oldHead], slot).Some? {
      var branch := Compact.Moved(e.w.paths[slot], oldHead);
      forall p | p in branch && p < |e.w.disk|
        ensures SameRecord(e.w.disk[p], e'.w.disk[p], slot)
      {
        RealSize(v, e.w.disk, p);
        RealSize(v, e'.w.disk, p);
        if p != oldHead {
          assert p in e.w.paths[slot];
          assert Keeps(e.w.disk[p], e'.w.disk[p], slot);
          var i: nat :| i < |branch| && branch[i] == p;
          assert Node(v, e.w.disk, slot, branch, i);
        }
      }
      ChainSame(v, e.w.disk, e'.w.disk, slot, branch);
    }
  }

  /** While others allocate, collect and compact. */
  lemma CalmByOthers(v: Volume, e: Env, e': Env, slot: u16, path: Path)
    requires Sound(v, e.w) && Sound(v, e'.w) && Pinned(e.w.open, slot) && e'.w.files == e.w.files
    requires Compact.WritersKept(e.w, e'.w.disk) && Compact.PinnedSame(e.w, e'.w) && Compact.Tame(v, e.w, e'.w)
    requires Gc.WalkWary(e.w, e.g, e'.w.disk, e'.g)
    ensures Calm(v, e, e', slot, path)
  {
    assert Compact.TameIn(v, e.w, e'.w, Compact.NewLive);
    if slot in e.w.index && slot in e.w.paths {
      forall p | p in e.w.paths[slot] && p < |e.w.disk|
        ensures Keeps(e.w.disk[p], e'.w.disk[p], slot)
      {
        assert Compact.InHand(e.w, slot, p);
      }
    }
  }
}
