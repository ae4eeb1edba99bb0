/** fffs_open for writing (src/fffs_file.c). */
module Opening {
  import opened Nor
  import opened SectorMd
  import opened SectorView
  import opened Files
  import opened Mounted
  import opened SectorOps
  import opened Extents
  import opened Content
  import opened Drafts
  import opened Writer
  import opened Notes
  import opened Sharing
  import Alloc
  import Commit
  import Compact
  import GcPass
  import Streaming

  /** No writer is open for the slot. */
  ghost predicate NoWriter(open: OpenFiles, slot: u16) {
    forall a | a in open && open[a].writing :: open[a].slot != slot
  }

  /** The handle is not in use. */
  ghost predicate Unused(fs: Volatile, id: nat)
    reads fs
  {
    id !in fs.open && id !in fs.pend && id !in fs.ranges && id !in fs.drafts
  }

  function NewHandle(slot: u16, p: nat, w: Window, name: Bytes, oldHead: nat, oldNext: nat): Handle
    requires w.Window? && 1 <= |name| <= MAX_NAME
  {
    var out := Output(w.dataOff, w.dataOff, w.recordOff, w.needsFooter, Prefix(name), 0, 0, 0, |Prefix(name)|, oldHead,
                      oldNext);
    Handle(true, slot, p, p, p, out)
  }

  function NewDraft(name: Bytes): Draft { Draft(name, [], [], [], [], 0) }

  // ---------------------------------------------------------------- the new handle

  ghost function Opened(w: World, id: nat, h: Handle): World { w.(open := w.open[id := h], pend := w.pend[id := []]) }

  /** One more open file, which has nothing yet. */
  lemma OpenedHolding(w: World, id: nat, h: Handle)
    requires id !in w.open && id !in w.pend
    ensures forall p: nat :: IsOpen(Opened(w, id, h).open, p) <==> IsOpen(w.open, p) || h.Occupies(p)
    ensures forall slot: u16, p: nat :: Pending(Opened(w, id, h), slot, p) <==> Pending(w, slot, p)
    ensures forall a: nat, p: nat | Extends(Opened(w, id, h), a, p) ::
              a != id && Extends(w, a, p) && Opened(w, id, h).open[a] == w.open[a]
  {
    var w' := Opened(w, id, h);
    forall p: nat
      ensures IsOpen(w'.open, p) <==> IsOpen(w.open, p) || h.Occupies(p)
    {
      assert w'.open[id] == h && forall a | a in w.open :: w'.open[a] == w.open[a];
      if IsOpen(w.open, p) {
        var a :| a in w.open && w.open[a].Occupies(p);
        assert a in w'.open && w'.open[a].Occupies(p);
      }
    }
    forall slot: u16, p: nat
      ensures Pending(w', slot, p) <==> Pending(w, slot, p)
    {
      if Pending(w, slot, p) {
        var a :| a in w.open && a in w.pend && w.open[a].writing && w.open[a].slot == slot && p in w.pend[a];
        assert a in w'.open && a in w'.pend && w'.open[a].writing && w'.open[a].slot == slot && p in w'.pend[a];
      }
    }
  }

  lemma OpenedReady(v: Volume, e: Env, id: nat, h: Handle)
    requires Ready(v, e) && id !in e.w.open && id !in e.w.pend
    requires h.writing && h.current == h.head == h.spanHead && !IsOpen(e.w.open, h.head) && h.head !in e.reserve
    ensures Ready(v, e.(w := Opened(e.w, id, h)))
  {
    var e' := e.(w := Opened(e.w, id, h));
    OpenedHolding(e.w, id, h);
    assert forall slot: u16, p: nat :: Needed(e'.w, slot, p) == Needed(e.w, slot, p);
    forall a
      ensures InReady(v, e', a)
    {
      assert InReady(v, e, a);
    }
  }

  /** A window that was granted for the slot is a writer's first one. */
  lemma FirstWork(v: Volume, disk: Disk, slot: u16, p: nat, w: Window, name: Bytes, oldHead: nat, oldNext: nat)
    requires VolumeOk(v) && p < |disk| && DataSector(v, p) && Granted(v, disk[p], w, MIN_USABLE, slot)
    requires 1 <= |name| <= MAX_NAME
    requires ProperSlot(slot) && NoBegun(disk, slot)
    ensures WorkOk(v, disk, NewHandle(slot, p, w, name, oldHead, oldNext), [], NewDraft(name))
  {
    var h, d := NewHandle(slot, p, w, name, oldHead, oldNext), NewDraft(name);
    forall part
      ensures InWork(v, disk, h, [], d, part)
    {
      if part.TheStream? {
        FirstStream(h.out, name);
      }
    }
  }

  lemma FirstStream(o: Output, name: Bytes)
    requires 1 <= |name| <= MAX_NAME && o.cache == Prefix(name) && o.prefix == |Prefix(name)|
    requires o.dataLen == o.fileOff == o.size == 0
    requires o.dataOff + |Prefix(name)| <= o.recordOff
    ensures StreamOk(o, NewDraft(name))
  {
    var d := NewDraft(name);
    var all := d.pieces + [d.flushed + o.cache];
    assert d.flushed + o.cache == Prefix(name) && all == [Prefix(name)];
    assert all[0][o.prefix..] == [];
    assert Stripped(o.prefix, all) == [[]];
    assert Join([[]]) == [];
    assert Stripped(o.prefix, all)[..0] == [];
  }

  lemma UsedFound(v: Volume, w: World, slot: u16, p: nat)
    requires Sound(v, w) && Used(w.index, w.paths, slot, p)
    ensures p < |w.disk| && Lookup(w.disk[p], slot).Some?
  {
    assert Files.Stored(v, w.disk, w.index, w.paths, slot, w.files[slot]);
    var i: nat :| i < |w.paths[slot]| && w.paths[slot][i] == p;
    assert Node(v, w.disk, slot, w.paths[slot], i);
  }

  /** A sector without a live record of the slot is not on the slot's chain. */
  lemma NotOnChain(v: Volume, w: World, slot: u16, p: nat)
    requires Sound(v, w) && p < |w.disk| && Lookup(w.disk[p], slot).None?
    ensures Apart(w.index, w.paths, slot, [p])
  {
    if Used(w.index, w.paths, slot, p) {
      UsedFound(v, w, slot, p);
    }
  }

  // ---------------------------------------------------------------- fffs_open

  /** The chain that is to be replaced. */
  method NoteOld(fs: Volatile, slot: u16) returns (oldHead: nat, oldNext: nat)
    requires Sound(fs.v, fs.Now())
    ensures OldNoted(fs.v, fs.Now(), slot, oldHead, oldNext)
  {
    if slot !in fs.index {
      return 0, 0;
    }
    assert Files.Stored(fs.v, fs.disk, fs.index, fs.paths, slot, fs.files[slot]);
    assert Node(fs.v, fs.disk, slot, fs.paths[slot], 0);
    oldHead := fs.index[slot];
    var status, root := ReadMdForSlot(fs, oldHead, slot);
    oldNext := root.next;
  }

  /** The slot's file, if it has one, has its head where it had it, with the same link. */
  ghost predicate HeadUnmoved(w: World, w': World, slot: u16) {
    slot in w.index && slot in w'.index ==>
      && w'.index[slot] == w.index[slot] && w.index[slot] < |w.disk| && w.index[slot] < |w'.disk|
      && Lookup(w.disk[w.index[slot]], slot).Some? && Lookup(w'.disk[w.index[slot]], slot).Some?
      && Lookup(w'.disk[w.index[slot]], slot).value.next == Lookup(w.disk[w.index[slot]], slot).value.next
  }

  /** A note that was true is true exactly if the head was not moved. */
  lemma NoteExact(v: Volume, w: World, w': World, slot: u16, oldHead: nat, oldNext: nat)
    requires Sound(v, w) && Sound(v, w') && w'.files == w.files && OldNoted(v, w, slot, oldHead, oldNext)
    ensures OldNoted(v, w', slot, oldHead, oldNext) <==> HeadUnmoved(w, w', slot)
  {
    if slot in w'.index {
      assert slot in w'.files && slot in w.files && slot in w.index;
      assert Files.Stored(v, w'.disk, w'.index, w'.paths, slot, w'.files[slot]);
      assert Node(v, w'.disk, slot, w'.paths[slot], 0);
    } else {
      assert slot !in w'.files && slot !in w.files && slot !in w.index;
    }
  }

  /** What a note that was true is worth after the allocation made for the new root. */
  lemma NoteFresh(v: Volume, e0: Env, e: Env, slot: u16, h: Handle)
    requires Sound(v, e0.w) && Sound(v, e.w) && e.w.files == e0.w.files && h.slot == slot
    requires OldNoted(v, e0.w, slot, h.out.oldHead, h.out.oldNext)
    requires Compact.Tame(v, e0.w, e.w) && (e.g.active ==> GcPass.Stayed(e0.w, e.w))
    ensures NoteAt(v, e, h, [h.head])
  {
    var oldHead, oldNext, path := h.out.oldHead, h.out.oldNext, [h.head];
    if slot !in e0.w.index {
      assert slot !in e.w.files && slot !in e.w.index;
    } else if oldHead != h.head {
      assert Compact.TameIn(v, e0.w, e.w, Compact.NewRoots) && Compact.TameIn(v, e0.w, e.w, Compact.NewChains);
      TrueIsBranch(v, e0.w, slot, [], oldHead, oldNext);
      assert Compact.Branch(v, e0.w, slot, oldHead) && Compact.Branch(v, e.w, slot, oldHead);
      if e.g.active {
        StillTrue(v, e0.w, e.w, slot, oldHead, oldNext);
      }
    }
  }

  lemma StillTrue(v: Volume, w: World, w': World, slot: u16, oldHead: nat, oldNext: nat)
    requires Sound(v, w) && GcPass.Stayed(w, w') && slot in w.index && OldNoted(v, w, slot, oldHead, oldNext)
    ensures OldNoted(v, w', slot, oldHead, oldNext)
  {
    assert Files.Stored(v, w.disk, w.index, w.paths, slot, w.files[slot]);
    assert w.paths[slot][0] in w.paths[slot] && Used(w.index, w.paths, slot, oldHead);
    assert Keeps(w.disk[oldHead], w'.disk[oldHead], slot);
  }

  /** fffs_open for writing, after the name has been resolved to a slot without leftovers of earlier writers. No
      file changes, and the handle is ready to be written to. The old chain that it has noted is the slot's
      chain exactly if the allocation of the new root has not moved the old one; whatever it has done, the note is
      one of those that a close can deal with. All other writers stay where they were. If the call fails, there is
      no room. */
  method OpenWriter(fs: Volatile, id: nat, slot: u16, name: Bytes, allowed: Candidate -> bool, scratch: nat)
    returns (status: Status)
    requires Ready(fs.v, EnvOf(fs)) && Unused(fs, id) && 1 <= |name| <= MAX_NAME && ProperSlot(slot)
    requires NoBegun(fs.disk, slot)
    requires 0 < scratch && VolumeOk(fs.v) && GcPass.DataSectors(fs.v) >= 2
    requires fs.Backed()
    modifies fs`disk, fs`cuts, fs`gcCursor, fs`gcMd, fs`candidates, fs`reserve, fs`ranges, fs`allocMap, fs`allocCursor,
             fs`nextSerial,
             fs`index, fs`journal, fs`paths, fs`open, fs`pend, fs`drafts
    ensures fs.Backed() && Ready(fs.v, EnvOf(fs)) && CutsSafe(fs.v, old(fs.cuts), fs.cuts, fs.files)
    ensures status.Ok? ==>
      && Streaming.Writable(fs, id) && fs.open == old(fs.open)[id := fs.open[id]] && fs.open[id].slot == slot
      && fs.drafts == old(fs.drafts)[id := NewDraft(name)] && fs.pend == old(fs.pend)[id := []]
      && var o := fs.open[id].out;
      && OldNoted(fs.v, old(fs.Now()), slot, o.oldHead, o.oldNext)
      && (OldNoted(fs.v, fs.Now(), slot, o.oldHead, o.oldNext) <==> HeadUnmoved(old(fs.Now()), fs.Now(), slot))
      && NoteGood(fs.v, EnvOf(fs), id)
    ensures !status.Ok? ==>
              && fs.open == old(fs.open) && fs.drafts == old(fs.drafts) && fs.pend == old(fs.pend)
              && Unused(fs, id) && Alloc.NoRoom(fs.v, fs.Now(), status)
    ensures fs.files == old(fs.files) && fs.ranges.Keys == old(fs.ranges).Keys + if status.Ok? then {id} else {}
    ensures OthersStay(fs.v, old(EnvOf(fs)), old(fs.drafts), EnvOf(fs), fs.drafts, {id})
    ensures BegunKept(old(fs.disk), fs.disk)
  {
    Streaming.ReadyAll(fs);
    ghost var e0, ds0 := EnvOf(fs), fs.drafts;
    var oldHead, oldNext := NoteOld(fs, slot);
    var p, w;
    status, p, w := FirstSector(fs, id, slot, allowed, scratch);
    AllStayBut(fs.v, e0, EnvOf(fs), ds0, {id});
    if status.Ok? {
      ghost var e1 := EnvOf(fs);
      EnterNoted(fs, id, slot, name, p, w, oldHead, oldNext, e0);
      StayMore(fs.v, e0, ds0, e1, ds0, EnvOf(fs), fs.drafts, {id});
    }
  }

  lemma AllStayBut(v: Volume, e: Env, e': Env, ds: map<nat, Draft>, but: set<nat>)
    requires OthersStay(v, e, ds, e', ds, {})
    ensures OthersStay(v, e, ds, e', ds, but)
  {
    forall a | a !in but
      ensures Stays(v, e, ds, e', ds, a)
    {
    }
  }

  /** The handle is registered, and its note judged. */
  method EnterNoted(fs: Volatile, id: nat, slot: u16, name: Bytes, p: nat, w: Window, oldHead: nat, oldNext: nat,
                    ghost e0: Env)
    requires Ready(fs.v, EnvOf(fs)) && id !in fs.open && id !in fs.pend && id in fs.ranges && 1 <= |name| <= MAX_NAME
    requires ProperSlot(slot)
    requires fs.Backed() && NoBegun(fs.disk, slot) && w.Window?
    requires Alloc.Allocated(fs.v, fs.disk, fs.open, fs.reserve, p, w, slot)
    requires Sound(fs.v, e0.w) && fs.files == e0.w.files && OldNoted(fs.v, e0.w, slot, oldHead, oldNext)
    requires Compact.Tame(fs.v, e0.w, fs.Now()) && (fs.gcMd.active ==> GcPass.Stayed(e0.w, fs.Now()))
    modifies fs`open, fs`pend, fs`drafts
    ensures Ready(fs.v, EnvOf(fs)) && fs.open == old(fs.open)[id := NewHandle(slot, p, w, name, oldHead, oldNext)]
    ensures fs.pend == old(fs.pend)[id := []]
    ensures fs.drafts == old(fs.drafts)[id := NewDraft(name)] && Streaming.Writable(fs, id)
    ensures OldNoted(fs.v, fs.Now(), slot, oldHead, oldNext) <==> HeadUnmoved(e0.w, fs.Now(), slot)
    ensures NoteGood(fs.v, EnvOf(fs), id)
    ensures OthersStay(fs.v, old(EnvOf(fs)), old(fs.drafts), EnvOf(fs), fs.drafts, {id})
  {
    ghost var e1, ds1 := EnvOf(fs), fs.drafts;
    Enter(fs, id, slot, name, p, w, oldHead, oldNext);
    NoteThen(fs, e0.w, slot, oldHead, oldNext);
    NoteEntered(fs, id, e0, e1, slot);
    StayByEntry(fs.v, e1, ds1, EnvOf(fs), fs.drafts, id);
  }

  lemma NoteEntered(fs: Volatile, id: nat, e0: Env, e1: Env, slot: u16)
    requires Ready(fs.v, EnvOf(fs)) && Sound(fs.v, e0.w) && fs.files == e0.w.files && Ready(fs.v, e1)
    requires id in fs.open && fs.open[id].slot == slot && fs.open[id].current == fs.open[id].head
    requires id in fs.pend && fs.pend[id] == []
    requires OldNoted(fs.v, e0.w, slot, fs.open[id].out.oldHead, fs.open[id].out.oldNext)
    requires e1 == EnvOf(fs).(w := e1.w) && e1.w == fs.Now().(open := e1.w.open, pend := e1.w.pend)
    requires Compact.Tame(fs.v, e0.w, e1.w) && (e1.g.active ==> GcPass.Stayed(e0.w, e1.w))
    ensures NoteGood(fs.v, EnvOf(fs), id)
  {
    var h := fs.open[id];
    assert InReady(fs.v, e1, TheFiles);
    NoteFresh(fs.v, e0, e1, slot, h);
    assert PathOf(fs.Now(), id) == [h.head];
    NoteElsewhere(fs.v, e1, EnvOf(fs), h, [h.head]);
  }

  /** A note does not depend on who has files open. */
  lemma NoteElsewhere(v: Volume, e: Env, e': Env, h: Handle, path: Path)
    requires NoteAt(v, e, h, path) && e'.g == e.g && e'.w == e.w.(open := e'.w.open, pend := e'.w.pend)
    ensures NoteAt(v, e', h, path)
  {
    if BranchNote(v, e.w, h.slot, path, h.out.oldHead, h.out.oldNext) {
      BranchElsewhere(v, e.w, e'.w, h.slot, h.out.oldHead);
    }
  }

  lemma BranchElsewhere(v: Volume, w: World, w': World, slot: u16, p: nat)
    requires Compact.Branch(v, w, slot, p) && w' == w.(open := w'.open, pend := w'.pend)
    ensures Compact.Branch(v, w', slot, p)
  {
  }

  lemma NoteThen(fs: Volatile, w0: World, slot: u16, oldHead: nat, oldNext: nat)
    requires Ready(fs.v, EnvOf(fs)) && Sound(fs.v, w0) && fs.files == w0.files
    requires OldNoted(fs.v, w0, slot, oldHead, oldNext)
    ensures OldNoted(fs.v, fs.Now(), slot, oldHead, oldNext) <==> HeadUnmoved(w0, fs.Now(), slot)
  {
    assert InReady(fs.v, EnvOf(fs), TheFiles);
    NoteExact(fs.v, w0, fs.Now(), slot, oldHead, oldNext);
  }

  /** The allocation made for the root. */
  method FirstSector(fs: Volatile, id: nat, slot: u16, allowed: Candidate -> bool, scratch: nat)
    returns (status: Status, p: nat, w: Window)
    requires Ready(fs.v, EnvOf(fs)) && id !in fs.ranges && 0 < scratch && VolumeOk(fs.v)
    requires GcPass.DataSectors(fs.v) >= 2
    requires fs.Backed() && NoBegun(fs.disk, slot)
    modifies fs`disk, fs`cuts, fs`gcCursor, fs`gcMd, fs`candidates, fs`reserve, fs`ranges, fs`allocMap, fs`allocCursor,
             fs`nextSerial,
             fs`index, fs`journal, fs`paths
    ensures fs.Backed() && NoBegun(fs.disk, slot)
    ensures Ready(fs.v, EnvOf(fs)) && CutsSafe(fs.v, old(fs.cuts), fs.cuts, fs.files)
    ensures fs.ranges.Keys == old(fs.ranges).Keys + if status.Ok? then {id} else {}
    ensures Compact.WritersKept(old(fs.Now()), fs.disk) && Compact.PinnedSame(old(fs.Now()), fs.Now())
    ensures Compact.Tame(fs.v, old(fs.Now()), fs.Now()) && BegunKept(old(fs.disk), fs.disk) && fs.files == old(fs.files)
    ensures GcPass.WalkElsewhere(old(fs.Now()), old(fs.gcMd), fs.disk, fs.gcMd)
    ensures fs.gcMd.active ==> GcPass.Stayed(old(fs.Now()), fs.Now())
    ensures !status.Ok? ==> Alloc.NoRoom(fs.v, fs.Now(), status)
    ensures OthersStay(fs.v, old(EnvOf(fs)), fs.drafts, EnvOf(fs), fs.drafts, {})
    ensures status.Ok? ==> w.Window? && Alloc.Allocated(fs.v, fs.disk, fs.open, fs.reserve, p, w, slot)
  {
    ghost var e0 := EnvOf(fs);
    status, p, w := AllocFirst(fs, id, slot, allowed, scratch);
    if !status.Ok? {
      DropRange(fs, id);
    }
    NoneBegunYet(fs.v, e0.w, fs.Now(), slot);
    AllStay(fs.v, e0, EnvOf(fs), fs.drafts);
  }

  method AllocFirst(fs: Volatile, id: nat, slot: u16, allowed: Candidate -> bool, scratch: nat)
    returns (status: Status, p: nat, w: Window)
    requires Ready(fs.v, EnvOf(fs)) && id !in fs.ranges && 0 < scratch && VolumeOk(fs.v)
    requires GcPass.DataSectors(fs.v) >= 2 && fs.Backed()
    modifies fs`disk, fs`cuts, fs`gcCursor, fs`gcMd, fs`candidates, fs`reserve, fs`ranges, fs`allocMap, fs`allocCursor,
             fs`nextSerial,
             fs`index, fs`journal, fs`paths
    ensures fs.Backed() && Ready(fs.v, EnvOf(fs)) && CutsSafe(fs.v, old(fs.cuts), fs.cuts, fs.files)
    ensures fs.ranges.Keys == old(fs.ranges).Keys + {id}
    ensures Compact.WritersKept(old(fs.Now()), fs.disk) && Compact.PinnedSame(old(fs.Now()), fs.Now())
    ensures Compact.Tame(fs.v, old(fs.Now()), fs.Now()) && fs.files == old(fs.files)
    ensures GcPass.WalkElsewhere(old(fs.Now()), old(fs.gcMd), fs.disk, fs.gcMd)
    ensures fs.gcMd.active ==> GcPass.Stayed(old(fs.Now()), fs.Now())
    ensures !status.Ok? ==> Alloc.NoRoom(fs.v, fs.Now(), status)
    ensures status.Ok? ==> w.Window? && Alloc.Allocated(fs.v, fs.disk, fs.open, fs.reserve, p, w, slot)
  {
    Streaming.ReadyAll(fs);
    RangeAdded(fs.v, fs.open, fs.Held(), fs.ranges, id);
    fs.ranges := fs.ranges[id := Range(0, 0)];
    status, p, w := Alloc.AllocNextSector(fs, id, slot, false, allowed, scratch);
    Streaming.AllReady(fs);
  }

  lemma NoneBegunYet(v: Volume, w: World, w': World, slot: u16)
    requires Compact.Tame(v, w, w') && NoBegun(w.disk, slot)
    ensures BegunKept(w.disk, w'.disk) && NoBegun(w'.disk, slot)
  {
    assert Compact.TameIn(v, w, w', Compact.NewBegun);
    forall p: nat | p < |w'.disk|
      ensures NoneBegun(w'.disk[p], slot)
    {
      assert NoneBegun(w.disk[p], slot);
    }
  }

  lemma RangeAdded(v: Volume, open: OpenFiles, h: Hold, ranges: map<nat, Range>, id: nat)
    requires Alloc.AllocOk(v, open, h, ranges) && id !in ranges
    ensures Alloc.AllocOk(v, open, h, ranges[id := Range(0, 0)])
  {
  }

  method DropRange(fs: Volatile, id: nat)
    requires Ready(fs.v, EnvOf(fs))
    modifies fs`ranges
    ensures Ready(fs.v, EnvOf(fs)) && fs.ranges == old(fs.ranges) - {id}
  {
    ghost var e := EnvOf(fs);
    fs.ranges := fs.ranges - {id};
    forall a
      ensures InReady(fs.v, EnvOf(fs), a)
    {
      assert InReady(fs.v, e, a);
    }
  }

  /** The handle is filled in and registered. */
  method Enter(fs: Volatile, id: nat, slot: u16, name: Bytes, p: nat, w: Window, oldHead: nat, oldNext: nat)
    requires Ready(fs.v, EnvOf(fs)) && id !in fs.open && id !in fs.pend && id in fs.ranges && 1 <= |name| <= MAX_NAME
    requires ProperSlot(slot)
    requires fs.Backed() && NoBegun(fs.disk, slot) && w.Window?
    requires Alloc.Allocated(fs.v, fs.disk, fs.open, fs.reserve, p, w, slot)
    modifies fs`open, fs`pend, fs`drafts
    ensures Ready(fs.v, EnvOf(fs)) && fs.open == old(fs.open)[id := NewHandle(slot, p, w, name, oldHead, oldNext)]
    ensures fs.pend == old(fs.pend)[id := []]
    ensures fs.drafts == old(fs.drafts)[id := NewDraft(name)] && Streaming.Writable(fs, id)
  {
    ghost var e := EnvOf(fs);
    var h := NewHandle(slot, p, w, name, oldHead, oldNext);
    ReadyDisk(fs.v, e);
    OpenedReady(fs.v, e, id, h);
    FirstWork(fs.v, fs.disk, slot, p, w, name, oldHead, oldNext);
    FirstApart(fs.v, e, slot, p);
    fs.open := fs.open[id := h];
    fs.pend := fs.pend[id := []];
    fs.drafts := fs.drafts[id := NewDraft(name)];
    assert [] + [p] == [p];
  }

  lemma FirstApart(v: Volume, e: Env, slot: u16, p: nat)
    requires Ready(v, e) && p < |e.w.disk| && Lookup(e.w.disk[p], slot).None?
    ensures Apart(e.w.index, e.w.paths, slot, [p])
  {
    assert InReady(v, e, TheFiles);
    NotOnChain(v, e.w, slot, p);
  }
}
