/** Going on to the next sector, and writing bytes (src/fffs_file.c). */
module Streaming {
  import opened Nor
  import opened SectorMd
  import opened SectorView
  import opened Files
  import opened Mounted
  import opened Extents
  import opened Finish
  import opened Content
  import opened Drafts
  import opened Writer
  import opened Notes
  import opened Sharing
  import Alloc
  import Compact
  import Gc
  import GcPass

  // ---------------------------------------------------------------- moving on

  /** The handle as it goes on in sector `next`. */
  function MovedHandle(h: Handle, next: nat, extend: bool, o: Output): Handle {
    h.(current := next, spanHead := if extend then h.spanHead else next, out := o)
  }

  function MovedEnv(e: Env, id: nat, path: Path, h': Handle): Env {
    e.(w := e.w.(open := e.w.open[id := h'], pend := e.w.pend[id := path]))
  }

  /** The sector is free for the writer to go on in. */
  ghost predicate NextOk(v: Volume, e: Env, h: Handle, path: Path, d: Draft, next: nat) {
    && DataSector(v, next) && next < |e.w.disk| && !IsOpen(e.w.open, next) && next !in e.reserve
    && (d.span < |path| ==> next == h.current + 1) && next != 0
  }

  lemma MovedOccupies(h: Handle, next: nat, extend: bool, o: Output, p: nat)
    requires extend ==> next == h.current + 1
    requires h.writing && h.spanHead != 0 && h.spanHead <= h.current
    ensures MovedHandle(h, next, extend, o).Occupies(p) ==> h.Occupies(p) || p == next
    ensures p == h.head ==> MovedHandle(h, next, extend, o).Occupies(p)
    ensures extend && p == h.spanHead ==> MovedHandle(h, next, extend, o).Occupies(p)
  {
  }

  /** Apart from its own extents nothing changes about who has what. */
  lemma MovedOthers(w: World, w': World, id: nat, path: Path, h': Handle)
    requires id in w.open && id in w.pend && w' == w.(open := w.open[id := h'], pend := w.pend[id := path])
    requires h'.slot == w.open[id].slot && h'.writing == w.open[id].writing && (forall p | p in w.pend[id] :: p in path)
    ensures forall slot: u16 :: Pinned(w'.open, slot) == Pinned(w.open, slot)
    ensures forall slot: u16, p: nat | Pending(w', slot, p) :: Pending(w, slot, p) || (slot == h'.slot && p in path)
  {
    forall slot: u16
      ensures Pinned(w'.open, slot) == Pinned(w.open, slot)
    {
      assert forall a | a in w.open :: w'.open[a].slot == w.open[a].slot;
    }
    forall slot: u16, p: nat | Pending(w', slot, p)
      ensures Pending(w, slot, p) || (slot == h'.slot && p in path)
    {
      var a :| a in w'.open && a in w'.pend && w'.open[a].writing && w'.open[a].slot == slot && p in w'.pend[a];
      if a != id {
        assert a in w.open && a in w.pend && w.open[a].writing && w.open[a].slot == slot && p in w.pend[a];
      }
    }
  }

  lemma MovedSound(v: Volume, w: World, w': World, id: nat, path: Path, h': Handle)
    requires Sound(v, w) && id in w.open && id in w.pend
    requires w' == w.(open := w.open[id := h'], pend := w.pend[id := path])
    requires forall p | p in path ::
               p < |w.disk| && DataSector(v, p) && (h'.Occupies(p) || Lookup(w.disk[p], h'.slot).Some?)
    ensures Sound(v, w')
  {
    forall a: nat, p: nat | Extends(w', a, p)
      ensures p < |w.disk| && DataSector(v, p) && (w'.open[a].Occupies(p) || Lookup(w.disk[p], w'.open[a].slot).Some?)
    {
      if a != id {
        assert Extends(w, a, p);
      }
    }
  }

  lemma MovedWalk(v: Volume, w: World, w': World, g: GcWalk, slot: u16, path: Path)
    requires WalkOk(v, w, g) && w' == w.(open := w'.open, pend := w'.pend)
    requires forall s: u16, p: nat | Pending(w', s, p) :: Pending(w, s, p) || (s == slot && p in path)
    requires g.active && g.sector in path && g.sector < |w.disk| && !Pending(w, slot, g.sector) ==>
               g.pos <= FirstLive(w.disk[g.sector].recs, slot)
    ensures WalkOk(v, w', g)
  {
    if g.active && !g.liveSeen {
      forall s: u16 | Needed(w', s, g.sector)
        ensures g.pos <= FirstLive(w'.disk[g.sector].recs, s)
      {
        if Used(w.index, w.paths, s, g.sector) || Pending(w, s, g.sector) {
          assert Needed(w, s, g.sector);
        }
      }
    }
  }

  lemma MovedExclusive(open: OpenFiles, id: nat, h': Handle, next: nat)
    requires Exclusive(open) && id in open && !IsOpen(open, next)
    requires forall p: nat | h'.Occupies(p) :: open[id].Occupies(p) || p == next
    ensures Exclusive(open[id := h'])
    ensures forall p: nat | IsOpen(open[id := h'], p) :: IsOpen(open, p) || p == next
  {
    var open' := open[id := h'];
    forall a, b, p: nat | a in open' && b in open' && a != b && open'[a].Occupies(p)
      ensures !open'[b].Occupies(p)
    {
      if p == next {
        assert forall c | c in open :: !open[c].Occupies(p);
      } else {
        assert open[a].Occupies(p);
      }
    }
    forall p: nat | IsOpen(open', p)
      ensures IsOpen(open, p) || p == next
    {
      var a :| a in open' && open'[a].Occupies(p);
      assert p != next ==> open[a].Occupies(p);
    }
  }

  lemma MovedAlloc(v: Volume, open: OpenFiles, open': OpenFiles, h: Hold, ranges: map<nat, Range>, next: nat)
    requires Alloc.AllocOk(v, open, h, ranges) && next !in h.reserve
    requires forall p: nat | IsOpen(open', p) :: IsOpen(open, p) || p == next
    ensures Alloc.AllocOk(v, open', h, ranges)
  {
  }

  /** The path so far, as the writer's pending extents: each is occupied or live. */
  lemma PathHeld(v: Volume, e: Env, h: Handle, path: Path, d: Draft, next: nat, h': Handle, i: nat)
    requires DoneIn(v, e, h, path, d, next) && i < |path| && h'.slot == h.slot && h.writing
    requires h'.Occupies(h.head) && (d.span < |path| ==> h'.Occupies(h.spanHead))
    ensures path[i] < |e.w.disk| && DataSector(v, path[i])
    ensures (h'.Occupies(path[i]) || Lookup(e.w.disk[path[i]], h.slot).Some?)
  {
    assert InDone(v, e, h, path, d, next, DonePath) && InDone(v, e, h, path, d, next, DoneExtents);
    assert ExtentOk(v, e.w.disk, h.slot, path[i], d, i);
  }

  lemma MovedReady(v: Volume, e: Env, id: nat, path: Path, d: Draft, next: nat, h': Handle, extend: bool, o: Output)
    requires id in e.w.open && id in e.w.pend && DoneIn(v, e, e.w.open[id], path, d, next) && e.w.open[id].writing
    requires path == e.w.pend[id] + [e.w.open[id].current] && NextOk(v, e, e.w.open[id], path, d, next)
    requires extend == (d.span < |path|) && h' == MovedHandle(e.w.open[id], next, extend, o)
    requires e.w.open[id].spanHead != 0 && e.w.open[id].spanHead <= e.w.open[id].current
    ensures Ready(v, MovedEnv(e, id, path, h'))
  {
    var h, e' := e.w.open[id], MovedEnv(e, id, path, h');
    forall p: nat
      ensures h'.Occupies(p) ==> h.Occupies(p) || p == next
      ensures p == h.head ==> h'.Occupies(p)
      ensures extend && p == h.spanHead ==> h'.Occupies(p)
    {
      MovedOccupies(h, next, extend, o, p);
    }
    MovedOthers(e.w, e'.w, id, path, h');
    assert InReady(v, e, TheWriters);
    MovedExclusive(e.w.open, id, h', next);
    forall a
      ensures InReady(v, e', a)
    {
      assert InReady(v, e, a);
      match a
      case TheFiles =>
        forall p | p in path
          ensures p < |e.w.disk| && DataSector(v, p) && (h'.Occupies(p) || Lookup(e.w.disk[p], h'.slot).Some?)
        {
          var i: nat :| i < |path| && path[i] == p;
          PathHeld(v, e, h, path, d, next, h', i);
        }
        MovedSound(v, e.w, e'.w, id, path, h');
      case TheWalk =>
        assert InDone(v, e, h, path, d, next, DoneWalk);
        PathPending(e.w, id, path);
        MovedWalk(v, e.w, e'.w, e.g, h.slot, path);
      case TheStrays =>
      case TheAllocator => MovedAlloc(v, e.w.open, e'.w.open, Hold(e.w.disk, e.used, e.reserve), e.ranges, next);
      case TheWriters =>
    }
  }

  lemma PathPending(w: World, id: nat, path: Path)
    requires id in w.open && id in w.pend && w.open[id].writing && path == w.pend[id] + [w.open[id].current]
    ensures forall p: nat | p in path && p != w.open[id].current :: Pending(w, w.open[id].slot, p)
  {
    forall p: nat | p in path && p != w.open[id].current
      ensures Pending(w, w.open[id].slot, p)
    {
      assert p in w.pend[id];
    }
  }

  lemma MovedWork(v: Volume, e: Env, h: Handle, path: Path, d: Draft, d': Draft, next: nat, h': Handle, extend: bool,
                  o: Output, w: Window)
    requires DoneIn(v, e, h, path, d, next) && NextOk(v, e, h, path, d, next) && extend == (d.span < |path|)
    requires h' == MovedHandle(h, next, extend, o) && d' == d.(flushed := []) && StreamOk(o, d') && OffsetsOk(o, d')
    requires Granted(v, e.w.disk[next], w, MIN_USABLE, h.slot) && w.needsFooter
    requires o.dataOff == w.dataOff && o.recordOff == w.recordOff && o.needsFooter
    ensures WorkOk(v, e.w.disk, h', path, d')
  {
    forall part
      ensures InWork(v, e.w.disk, h', path, d', part)
    {
      match part
      case ThePath => assert InDone(v, e, h, path, d, next, DonePath);
      case TheWindow =>
      case TheStream =>
      case TheOffsets =>
      case TheExtents =>
        assert InDone(v, e, h, path, d, next, DoneExtents);
        ExtentsRename(v, e.w.disk, h.slot, path, d, d');
      case TheLinks =>
        assert InDone(v, e, h, path, d, next, DoneLinks);
        LinksRename(path + [next], d, d');
      case TheRest =>
        assert InDone(v, e, h, path, d, next, DoneRest);
        RestKept(e.w.disk, e.w.disk, h.slot, path, d, d');
    }
  }

  lemma NextApart(v: Volume, e: Env, slot: u16, path: Path, next: nat)
    requires Ready(v, e) && Apart(e.w.index, e.w.paths, slot, path) && next < |e.w.disk|
    requires Lookup(e.w.disk[next], slot).None?
    ensures Apart(e.w.index, e.w.paths, slot, path + [next])
  {
    assert InReady(v, e, TheFiles);
    if slot in e.w.index {
      assert Files.Stored(v, e.w.disk, e.w.index, e.w.paths, slot, e.w.files[slot]);
      Compact.NotOnPath(v, e.w.disk, slot, e.w.paths[slot], next);
    }
  }

  /** The writer goes on in the next sector. */
  lemma MoveOn(v: Volume, e: Env, id: nat, path: Path, d: Draft, d': Draft, next: nat, h': Handle, o: Output, w: Window)
    requires id in e.w.open && id in e.w.pend && id in e.ranges && e.w.open[id].writing
    requires DoneIn(v, e, e.w.open[id], path, d, next)
    requires path == e.w.pend[id] + [e.w.open[id].current] && NextOk(v, e, e.w.open[id], path, d, next)
    requires h' == MovedHandle(e.w.open[id], next, d.span < |path|, o) && d' == d.(flushed := []) && StreamOk(o, d')
    requires OffsetsOk(o, d')
    requires Granted(v, e.w.disk[next], w, MIN_USABLE, e.w.open[id].slot) && w.needsFooter
    requires o.dataOff == w.dataOff && o.recordOff == w.recordOff && o.needsFooter
    requires e.w.open[id].spanHead != 0 && e.w.open[id].spanHead <= e.w.open[id].current
    ensures WriterIn(v, MovedEnv(e, id, path, h'), id, d')
  {
    var h := e.w.open[id];
    MovedReady(v, e, id, path, d, next, h', d.span < |path|, o);
    MovedWork(v, e, h, path, d, d', next, h', d.span < |path|, o, w);
    assert InDone(v, e, h, path, d, next, DoneApart) && InDone(v, e, h, path, d, next, DoneWalk);
    NextApart(v, e, h.slot, path, next);
  }

  // ---------------------------------------------------------------- start_next_extent

  datatype Concern = Writers | Readers | Records

  /** What a writer's own steps do to the rest: other writers keep everything, and the files too. */
  ghost predicate OthersKept(w: World, w': World, id: nat) {
    forall c {:trigger KeptIn(w, w', id, c)} :: KeptIn(w, w', id, c)
  }

  /** One part of it. Callers name the part they need. */
  ghost predicate KeptIn(w: World, w': World, id: nat, c: Concern) {
    match c
    case Writers => OthersSame(w, w', id)
    case Readers => HandsKept(w, w')
    case Records => TracesKept(w, w', id)
  }

  lemma AllKept(w: World, w': World, id: nat)
    requires OthersSame(w, w', id) && HandsKept(w, w') && TracesKept(w, w', id)
    ensures OthersKept(w, w', id)
  {
    forall c
      ensures KeptIn(w, w', id, c)
    {
    }
  }

  lemma KeptBoth(w: World, w': World, id: nat)
    requires OthersKept(w, w', id)
    ensures OthersSame(w, w', id) && HandsKept(w, w')
  {
    assert KeptIn(w, w', id, Writers) && KeptIn(w, w', id, Readers);
  }

  /** Records appear only where the writer has its extents, and only for its own slot. */
  ghost predicate TracesKept(w: World, w': World, id: nat) {
    && |w'.disk| == |w.disk| && id in w.open && id in w.pend && id in w'.open && id in w'.pend
    && w'.open[id].slot == w.open[id].slot && PathOf(w, id) <= PathOf(w', id)
    && (forall t: u16, p: nat {:trigger NoneBegun(w'.disk[p], t)}
          | p < |w.disk| && NoneBegun(w.disk[p], t) && (t != w.open[id].slot || p !in PathOf(w', id)) ::
          NoneBegun(w'.disk[p], t))
    && (forall t: u16, p: nat {:trigger NoneNew(w.disk[p], w'.disk[p], t)}
          | p < |w.disk| && Pinned(w.open, t) && (t != w.open[id].slot || p !in PathOf(w', id)) ::
          NoneNew(w.disk[p], w'.disk[p], t))
  }

  lemma TracesMore(w: World, w1: World, w2: World, id: nat)
    requires TracesKept(w, w1, id) && TracesKept(w1, w2, id)
    requires forall t: u16 | Pinned(w.open, t) :: Pinned(w1.open, t)
    ensures TracesKept(w, w2, id)
  {
    var slot := w.open[id].slot;
    assert forall p | p in PathOf(w1, id) :: p in PathOf(w2, id);
    forall t: u16, p: nat | p < |w.disk| && NoneBegun(w.disk[p], t) && (t != slot || p !in PathOf(w2, id))
      ensures NoneBegun(w2.disk[p], t)
    {
      assert NoneBegun(w1.disk[p], t);
    }
    forall t: u16, p: nat | p < |w.disk| && Pinned(w.open, t) && (t != slot || p !in PathOf(w2, id))
      ensures NoneNew(w.disk[p], w2.disk[p], t)
    {
      assert NoneNew(w.disk[p], w1.disk[p], t) && NoneNew(w1.disk[p], w2.disk[p], t);
    }
  }

  /** A write into a sector that the writer has an extent in. */
  lemma TracesOwn(w: World, w': World, id: nat, p: nat)
    requires id in w.open && id in w.pend && p in PathOf(w, id) && p < |w.disk| == |w'.disk| && id in w'.open
    requires w'.disk == w.disk[p := w'.disk[p]] && w'.pend == w.pend && w'.open == w.open[id := w'.open[id]]
    requires w'.open[id].slot == w.open[id].slot && w'.open[id].current == w.open[id].current
    requires OwnTraces(w.disk[p], w'.disk[p], w.open[id].slot)
    ensures TracesKept(w, w', id)
  {
  }

  /** Nothing was written. */
  lemma TracesSame(w: World, w': World, id: nat)
    requires w'.disk == w.disk && id in w.open && id in w.pend && id in w'.open && id in w'.pend
    requires w'.open[id].slot == w.open[id].slot && PathOf(w, id) <= PathOf(w', id)
    ensures TracesKept(w, w', id)
  {
  }

  lemma TracesTame(v: Volume, w: World, w': World, id: nat)
    requires Compact.Tame(v, w, w') && w'.open == w.open && w'.pend == w.pend && id in w.open && id in w.pend
    ensures TracesKept(w, w', id)
  {
    assert Compact.TameIn(v, w, w', Compact.NewBegun) && Compact.TameIn(v, w, w', Compact.NewLive);
  }

  ghost predicate OthersSame(w: World, w': World, id: nat) {
    && |w'.disk| == |w.disk| && w'.files == w.files && w'.open.Keys == w.open.Keys
    && (forall a | a in w.open && a != id ::
          w'.open[a] == w.open[a] && (a in w.pend ==> a in w'.pend && w'.pend[a] == w.pend[a]))
    && (forall a, p: nat | a in w.open && a != id && w.open[a].Occupies(p) && p < |w.disk| :: w'.disk[p] == w.disk[p])
    && (forall a: nat, p: nat | a != id && Extends(w, a, p) && p < |w.disk| ::
          Keeps(w.disk[p], w'.disk[p], w.open[a].slot))
  }

  /** Open files that are stored keep their place and their extents. */
  ghost predicate HandsKept(w: World, w': World) {
    && |w'.disk| == |w.disk| && Compact.PinnedSame(w, w')
    && (forall slot: u16 | Pinned(w.open, slot) :: Pinned(w'.open, slot))
    && (forall slot: u16, p: nat | p < |w.disk| && Compact.InHand(w, slot, p) :: Keeps(w.disk[p], w'.disk[p], slot))
  }

  /** The handle still is for the same slot and root, and knows the same old chain. */
  predicate SameOrigin(h: Handle, h': Handle) {
    h'.slot == h.slot && h'.head == h.head && h'.out.oldHead == h.out.oldHead && h'.out.oldNext == h.out.oldNext
  }

  /** The collector's walk has stayed clear of what other writers occupy. */
  ghost predicate Aside(open: OpenFiles, id: nat, g: GcWalk, g': GcWalk) {
    g'.active && g' != g ==> forall a | a in open && a != id :: !open[a].Occupies(g'.sector)
  }

  /** Of reservations, drafts and the walk, other writers have what they had. */
  ghost predicate Mine(e: Env, ds: map<nat, Draft>, e': Env, ds': map<nat, Draft>, id: nat) {
    && e'.ranges.Keys == e.ranges.Keys && id in ds && id in ds' && ds' == ds[id := ds'[id]]
    && e'.w.pend.Keys == e.w.pend.Keys
    && Aside(e.w.open, id, e.g, e'.g) && Gc.WalkWary(e.w, e.g, e'.w.disk, e'.g)
  }

  lemma MineMore(e: Env, ds: map<nat, Draft>, e1: Env, ds1: map<nat, Draft>, e2: Env, ds2: map<nat, Draft>, id: nat)
    requires Mine(e, ds, e1, ds1, id) && Mine(e1, ds1, e2, ds2, id) && OthersKept(e.w, e1.w, id)
    ensures Mine(e, ds, e2, ds2, id)
  {
    KeptBoth(e.w, e1.w, id);
    WaryMore(e.w, e.g, e1.w, e1.g, e2.w.disk, e2.g);
  }

  lemma HandsMore(w: World, w1: World, w2: World)
    requires HandsKept(w, w1) && HandsKept(w1, w2)
    ensures HandsKept(w, w2)
  {
    forall slot: u16, p: nat | p < |w.disk| && Compact.InHand(w, slot, p)
      ensures Keeps(w.disk[p], w2.disk[p], slot)
    {
      assert Compact.InHand(w1, slot, p);
      KeepsTransitive(w.disk[p], w1.disk[p], w2.disk[p], slot);
    }
  }

  /** What a writer does leaves all others where they were, if none of them has its slot, */
  lemma StayByWrite(v: Volume, e: Env, ds: map<nat, Draft>, e': Env, ds': map<nat, Draft>, id: nat)
    requires OthersKept(e.w, e'.w, id) && Mine(e, ds, e', ds', id) && Ready(v, e') && id in e.w.open
    requires OnlyWriter(e.w.open, id, e.w.open[id].slot)
    ensures OthersStay(v, e, ds, e', ds', {id})
  {
    KeptBoth(e.w, e'.w, id);
    forall a | a !in {id}
      ensures Stays(v, e, ds, e', ds', a)
    {
      if WritableIn(v, e, ds, a) {
        var h := e.w.open[a];
        assert KeptIn(e.w, e'.w, id, Records) && Pinned(e.w.open, h.slot);
        OtherWork(v, e, ds, e', id, a);
        CalmByWrite(v, e, e', ds, ds', id, h.slot, PathOf(e.w, a));
        StaysBy(v, e, ds, e', ds', a);
      }
    }
  }

  lemma OtherWork(v: Volume, e: Env, ds: map<nat, Draft>, e': Env, id: nat, a: nat)
    requires WritableIn(v, e, ds, a) && a != id && id in e.w.open && e.w.open[a].slot != e.w.open[id].slot
    requires OthersKept(e.w, e'.w, id) && Aside(e.w.open, id, e.g, e'.g)
    ensures WorkOk(v, e'.w.disk, e.w.open[a], e.w.pend[a], ds[a]) && WalkBehind(e'.g, e'.w.disk, e.w.pend[a], ds[a])
  {
    var h, pend := e.w.open[a], e.w.pend[a];
    KeptBoth(e.w, e'.w, id);
    assert KeptIn(e.w, e'.w, id, Records);
    forall p | p in pend && p < |e.w.disk|
      ensures Keeps(e.w.disk[p], e'.w.disk[p], h.slot)
    {
      assert Extends(e.w, a, p);
    }
    UndisturbedWork(v, e.w.disk, e'.w.disk, h, pend, ds[a]);
    forall i: nat | i < |pend| && Uncommitted(ds[a], i)
      ensures h.Occupies(pend[i]) && (pend[i] < |e.w.disk| ==> e'.w.disk[pend[i]] == e.w.disk[pend[i]])
    {
      UncommittedOpen(v, e.w, a, ds[a], i);
    }
  }

  lemma CalmByWrite(v: Volume, e: Env, e': Env, ds: map<nat, Draft>, ds': map<nat, Draft>, id: nat, slot: u16,
                    path': Path)
    requires Ready(v, e) && Ready(v, e') && OthersKept(e.w, e'.w, id) && Mine(e, ds, e', ds', id)
    requires Pinned(e.w.open, slot) && id in e.w.open && id in e'.w.open && id in e'.w.pend
    requires slot == e.w.open[id].slot ==> path' == PathOf(e'.w, id)
    ensures Calm(v, e, e', slot, path')
  {
    KeptBoth(e.w, e'.w, id);
    assert KeptIn(e.w, e'.w, id, Records) && InReady(v, e, TheFiles) && InReady(v, e', TheFiles);
    if slot in e.w.index && slot in e.w.paths {
      forall p | p in e.w.paths[slot] && p < |e.w.disk|
        ensures Keeps(e.w.disk[p], e'.w.disk[p], slot)
      {
        assert Compact.InHand(e.w, slot, p);
      }
    }
  }

  /** and its own note stays as good as it was. */
  lemma NoteByWrite(v: Volume, e: Env, ds: map<nat, Draft>, e': Env, ds': map<nat, Draft>, id: nat)
    requires OthersKept(e.w, e'.w, id) && Mine(e, ds, e', ds', id) && WritableIn(v, e, ds, id)
    requires WritableIn(v, e', ds', id)
    requires SameOrigin(e.w.open[id], e'.w.open[id]) && NoteGood(v, e, id)
    ensures NoteGood(v, e', id)
  {
    var h, path, path' := e.w.open[id], PathOf(e.w, id), PathOf(e'.w, id);
    assert KeptIn(e.w, e'.w, id, Records) && InReady(v, e, TheFiles) && Pinned(e.w.open, h.slot);
    assert InWork(v, e'.w.disk, e'.w.open[id], e'.w.pend[id], ds'[id], ThePath);
    CalmByWrite(v, e, e', ds, ds', id, h.slot, path');
    NoteKept(v, e, e', h, e'.w.open[id], path, path');
  }

  /** A quiet change by one of the open files. */
  lemma HandsQuiet(w: World, w': World, id: nat)
    requires Compact.QuietDisk(w.disk, w'.disk) && w'.index == w.index && w'.paths == w.paths
    requires id in w.open && id in w'.open && w'.open == w.open[id := w'.open[id]]
    requires w'.open[id].slot == w.open[id].slot
    ensures HandsKept(w, w')
  {
    forall slot: u16 | Pinned(w.open, slot)
      ensures Pinned(w'.open, slot)
    {
      var a :| a in w.open && w.open[a].slot == slot;
      assert w'.open[a].slot == slot;
    }
  }

  /** The allocation made for the next extent. */
  method NextSector(fs: Volatile, id: nat, allowed: Candidate -> bool, scratch: nat)
    returns (status: Status, p: nat, w: Window)
    requires WriterOk(fs, id) && 0 < scratch && VolumeOk(fs.v) && GcPass.DataSectors(fs.v) >= 2
    modifies fs`disk, fs`cuts, fs`gcCursor, fs`gcMd, fs`candidates, fs`reserve, fs`ranges, fs`allocMap, fs`allocCursor,
             fs`nextSerial,
             fs`index, fs`journal, fs`paths
    ensures WriterOk(fs, id) && CutsSafe(fs.v, old(fs.cuts), fs.cuts, fs.files)
    ensures Compact.WritersKept(old(fs.Now()), fs.disk) && Compact.PinnedSame(old(fs.Now()), fs.Now())
    ensures Compact.Tame(fs.v, old(fs.Now()), fs.Now())
    ensures fs.ranges.Keys == old(fs.ranges).Keys
    ensures GcPass.WalkElsewhere(old(fs.Now()), old(fs.gcMd), fs.disk, fs.gcMd)
    ensures !status.Ok? ==> Alloc.NoRoom(fs.v, fs.Now(), status)
    ensures status.Ok? ==>
              w.Window? && w.needsFooter && Alloc.Allocated(fs.v, fs.disk, fs.open, fs.reserve, p, w, fs.open[id].slot)
  {
    ghost var e, d := EnvOf(fs), fs.drafts[id];
    ReadyAll(fs);
    status, p, w := Alloc.AllocNextSector(fs, id, fs.open[id].slot, true, allowed, scratch);
    AllReady(fs);
    WriterSurvives(fs.v, e, EnvOf(fs), id, d);
  }

  lemma ReadyAll(fs: Volatile)
    requires Ready(fs.v, EnvOf(fs)) && fs.Backed()
    ensures fs.Valid() && Alloc.AllocOk(fs.v, fs.open, fs.Held(), fs.ranges) && NoStrays(fs.v, fs.Now())
    ensures Exclusive(fs.open)
  {
    var e := EnvOf(fs);
    assert InReady(fs.v, e, TheFiles) && InReady(fs.v, e, TheWalk) && InReady(fs.v, e, TheStrays);
    assert InReady(fs.v, e, TheAllocator) && InReady(fs.v, e, TheWriters);
  }

  lemma AllReady(fs: Volatile)
    requires fs.Valid() && Alloc.AllocOk(fs.v, fs.open, fs.Held(), fs.ranges) && NoStrays(fs.v, fs.Now())
    requires Exclusive(fs.open)
    ensures Ready(fs.v, EnvOf(fs))
  {
    var e := EnvOf(fs);
    forall a
      ensures InReady(fs.v, e, a)
    {
    }
  }

  lemma KeptMore(w: World, w1: World, w2: World, id: nat)
    requires OthersKept(w, w1, id) && OthersKept(w1, w2, id)
    ensures OthersKept(w, w2, id)
  {
    assert KeptIn(w, w1, id, Readers);
    forall c
      ensures KeptIn(w, w2, id, c)
    {
      assert KeptIn(w, w1, id, c) && KeptIn(w1, w2, id, c);
      match c
      case Writers => SameMore(w, w1, w2, id);
      case Readers => HandsMore(w, w1, w2);
      case Records => TracesMore(w, w1, w2, id);
    }
  }

  lemma SameMore(w: World, w1: World, w2: World, id: nat)
    requires OthersSame(w, w1, id) && OthersSame(w1, w2, id)
    ensures OthersSame(w, w2, id)
  {
    forall a: nat, p: nat | a != id && Extends(w, a, p) && p < |w.disk|
      ensures Keeps(w.disk[p], w2.disk[p], w.open[a].slot)
    {
      assert Extends(w1, a, p);
      KeepsTransitive(w.disk[p], w1.disk[p], w2.disk[p], w.open[a].slot);
    }
  }

  lemma KeptByAlloc(v: Volume, w: World, w': World, id: nat)
    requires id in w.open && id in w.pend && Compact.Tame(v, w, w')
    requires Compact.WritersKept(w, w'.disk) && w'.open == w.open && w'.pend == w.pend && w'.files == w.files
    requires Compact.PinnedSame(w, w')
    ensures OthersKept(w, w', id)
  {
    forall a: nat, p: nat | a != id && Extends(w, a, p) && p < |w.disk|
      ensures Keeps(w.disk[p], w'.disk[p], w.open[a].slot)
    {
      assert Pending(w, w.open[a].slot, p);
    }
    forall a, p: nat | a in w.open && a != id && w.open[a].Occupies(p) && p < |w.disk|
      ensures w'.disk[p] == w.disk[p]
    {
      assert IsOpen(w.open, p);
    }
    TracesTame(v, w, w', id);
    AllKept(w, w', id);
  }

  lemma KeptByOwn(w: World, disk': Disk, id: nat, p: nat)
    requires id in w.open && w.open[id].Occupies(p) && Exclusive(w.open) && p < |w.disk| == |disk'|
    requires disk' == w.disk[p := disk'[p]] && Quiet(w.disk[p], disk'[p])
    requires id in w.pend && p in PathOf(w, id) && OwnTraces(w.disk[p], disk'[p], w.open[id].slot)
    ensures OthersKept(w, w.(disk := disk'), id)
  {
    var w' := w.(disk := disk');
    HandsQuiet(w, w', id);
    TracesOwn(w, w', id, p);
    AllKept(w, w', id);
  }

  /** The old extent is recorded and, if the next sector does not follow it, so is its span. */
  method RecordExtent(fs: Volatile, id: nat, next: u16, extend: bool) returns (ghost d': Draft)
    requires WriterOk(fs, id) && fs.open[id].out.cache == [] && fs.drafts[id].flushed != [] && DataSector(fs.v, next)
    modifies fs`disk, fs`cuts, fs`nextSerial, fs`allocMap
    ensures var h, path := fs.open[id], fs.pend[id] + [fs.open[id].current];
      && DoneIn(fs.v, EnvOf(fs), h, path, d', next) && (extend == (d'.span < |path|)) && h.spanHead != 0
      && h.spanHead <= h.current
    ensures CutsSafe(fs.v, old(fs.cuts), fs.cuts, fs.files) && OthersKept(old(fs.Now()), fs.Now(), id)
    ensures && |fs.disk| == |old(fs.disk)|
            && forall p: nat | p < |fs.disk| && !fs.open[id].Occupies(p) :: fs.disk[p] == old(fs.disk)[p]
    ensures StreamKept(fs.open[id].out, fs.drafts[id], d')
    ensures Gc.WalkWary(old(fs.Now()), fs.gcMd, fs.disk, fs.gcMd)
  {
    ghost var w0, d := fs.Now(), fs.drafts[id];
    var h := fs.open[id];
    SpanBounds(fs.v, fs.disk, h, fs.pend[id], d);
    ExclusiveNow(fs);
    ReadyDisk(fs.v, EnvOf(fs));
    ghost var r := FinishCurrent(fs, id, next);
    KeptByOwn(w0, fs.disk, id, h.current);
    d' := Longer(d, r);
    LongerStream(fs.v, w0.disk, h, fs.pend[id], d, r);
    if !extend {
      ghost var w1 := fs.Now();
      ghost var r2 := FinishSpan(fs, id, next, fs.pend[id] + [h.current], d');
      KeptByOwn(w1, fs.disk, id, h.spanHead);
      KeptMore(w0, w1, fs.Now(), id);
      WaryMore(w0, fs.gcMd, w1, fs.gcMd, fs.disk, fs.gcMd);
      RefinedStream(h.out, d, d', d'.span, r2, |fs.pend[id] + [h.current]|);
      d' := Refined(d', d'.span, r2, |fs.pend[id] + [h.current]|);
    }
  }

  /** The draft has one extent more, with the sizes that it should have. */
  ghost predicate StreamKept(o: Output, d: Draft, d': Draft) {
    && d'.name == d.name && d'.written == d.written && d'.pieces == d.pieces + [d.flushed]
    && |d'.recs| == |d'.pieces| == |d.recs| + 1
    && OffsetsOk(o, d')
  }

  lemma LongerStream(v: Volume, disk: Disk, h: Handle, pend: Path, d: Draft, r: Md)
    requires WorkOk(v, disk, h, pend, d) && h.out.cache == [] && (pend != [] ==> r.size == h.out.fileOff)
    ensures StreamKept(h.out, d, Longer(d, r))
  {
    assert InWork(v, disk, h, pend, d, ThePath) && InWork(v, disk, h, pend, d, TheStream)
           && InWork(v, disk, h, pend, d, TheOffsets);
    OffsetsMore(h.out, d, r);
  }

  lemma RefinedStream(o: Output, d: Draft, d': Draft, i: nat, r: Md, span: nat)
    requires StreamKept(o, d, d') && i < |d'.recs| && r.size == d'.recs[i].size
    ensures StreamKept(o, d, Refined(d', i, r, span))
  {
  }

  lemma SpanBounds(v: Volume, disk: Disk, h: Handle, pend: Path, d: Draft)
    requires WorkOk(v, disk, h, pend, d)
    ensures h.spanHead != 0 && h.spanHead <= h.current && d.span <= |pend| == |d.recs|
  {
    assert InWork(v, disk, h, pend, d, ThePath);
  }

  lemma ExclusiveNow(fs: Volatile)
    requires Ready(fs.v, EnvOf(fs))
    ensures Exclusive(fs.open)
  {
    assert InReady(fs.v, EnvOf(fs), TheWriters);
  }

  lemma StreamGoesOn(o: Output, d: Draft, d': Draft, o': Output)
    requires StreamOk(o, d) && OffsetsOk(o, d) && StreamKept(o, d, d') && o.cache == [] && d.flushed != []
    requires |d.recs| == |d.pieces|
    requires o' == o.(dataOff := o'.dataOff, writeOff := o'.writeOff, recordOff := o'.recordOff,
                      needsFooter := o'.needsFooter, dataLen := 0, fileOff := o.fileOff + o.dataLen)
    requires o'.dataOff <= o'.recordOff
    ensures StreamOk(o', d'.(flushed := [])) && OffsetsOk(o', d'.(flushed := []))
  {
    var r := Md(0, 0, 0, 0, 0, 0, 0, o.fileOff, 0);
    StreamNext(o, d, r, o');
  }

  /** What Flush leaves when the window is full is not nothing. */
  lemma FullNotEmpty(v: Volume, disk: Disk, h: Handle, pend: Path, d: Draft)
    requires VolumeOk(v) && WorkOk(v, disk, h, pend, d) && h.out.cache == [] && Full(h.out, d)
    ensures d.flushed != [] && StreamOk(h.out, d) && OffsetsOk(h.out, d)
  {
    assert InWork(v, disk, h, pend, d, TheStream) && InWork(v, disk, h, pend, d, TheWindow);
    assert InWork(v, disk, h, pend, d, TheOffsets) && InWork(v, disk, h, pend, d, ThePath);
    assert d.flushed + h.out.cache == d.flushed;
  }

  /** start_next_extent. */
  method StartNextExtent(fs: Volatile, id: nat, granule: nat, allowed: Candidate -> bool, scratch: nat)
    returns (status: Status)
    requires WriterReady(fs, id) && Full(fs.open[id].out, fs.drafts[id]) && 0 < granule <= RECORD_SIZE + FOOTER_SIZE
    requires 0 < scratch && VolumeOk(fs.v) && GcPass.DataSectors(fs.v) >= 2
    modifies fs`disk, fs`cuts, fs`gcCursor, fs`gcMd, fs`candidates, fs`reserve, fs`ranges, fs`allocMap, fs`allocCursor,
             fs`nextSerial,
             fs`index, fs`journal, fs`paths, fs`open, fs`pend, fs`drafts
    ensures WriterReady(fs, id) && CutsSafe(fs.v, old(fs.cuts), fs.cuts, fs.files)
    ensures OthersKept(old(fs.Now()), fs.Now(), id)
    ensures fs.drafts[id].written == old(fs.drafts)[id].written && fs.drafts[id].name == old(fs.drafts)[id].name
    ensures Mine(old(EnvOf(fs)), old(fs.drafts), EnvOf(fs), fs.drafts, id)
    ensures SameOrigin(old(fs.open)[id], fs.open[id]) && fs.open[id].out.size == old(fs.open)[id].out.size
    ensures status.Ok? ==>
              && fs.open[id].out.cache == [] && fs.drafts[id].flushed == [] && fs.pend[id] != []
              && fs.open[id].out.needsFooter
    ensures !status.Ok? ==> Full(fs.open[id].out, fs.drafts[id]) && fs.open[id].out.cache == []
    ensures !status.Ok? ==> Alloc.NoRoom(fs.v, fs.Now(), status)
  {
    ghost var e0, ds0 := EnvOf(fs), fs.drafts;
    var p, w;
    status, p, w := FlushAndFind(fs, id, granule, allowed, scratch);
    if !status.Ok? {
      return;
    }
    ghost var e2, ds2 := EnvOf(fs), fs.drafts;
    GoOnIn(fs, id, p, w);
    KeptMore(e0.w, e2.w, fs.Now(), id);
    MineMore(e0, ds0, e2, ds2, EnvOf(fs), fs.drafts, id);
  }

  /** The full extent is written out, and a sector for the next one is found. */
  method FlushAndFind(fs: Volatile, id: nat, granule: nat, allowed: Candidate -> bool, scratch: nat)
    returns (status: Status, p: nat, w: Window)
    requires WriterReady(fs, id) && Full(fs.open[id].out, fs.drafts[id]) && 0 < granule <= RECORD_SIZE + FOOTER_SIZE
    requires 0 < scratch && VolumeOk(fs.v) && GcPass.DataSectors(fs.v) >= 2
    modifies fs`disk, fs`cuts, fs`gcCursor, fs`gcMd, fs`candidates, fs`reserve, fs`ranges, fs`allocMap, fs`allocCursor,
             fs`nextSerial,
             fs`index, fs`journal, fs`paths, fs`open, fs`drafts
    ensures WriterReady(fs, id) && CutsSafe(fs.v, old(fs.cuts), fs.cuts, fs.files)
    ensures OthersKept(old(fs.Now()), fs.Now(), id)
    ensures fs.drafts[id].written == old(fs.drafts)[id].written && fs.drafts[id].name == old(fs.drafts)[id].name
    ensures Mine(old(EnvOf(fs)), old(fs.drafts), EnvOf(fs), fs.drafts, id)
    ensures SameOrigin(old(fs.open)[id], fs.open[id]) && fs.open[id].out.size == old(fs.open)[id].out.size
    ensures Full(fs.open[id].out, fs.drafts[id]) && fs.open[id].out.cache == []
    ensures !status.Ok? ==> Alloc.NoRoom(fs.v, fs.Now(), status)
    ensures status.Ok? ==>
              w.Window? && w.needsFooter && Alloc.Allocated(fs.v, fs.disk, fs.open, fs.reserve, p, w, fs.open[id].slot)
  {
    ghost var e0, d0 := EnvOf(fs), fs.drafts[id];
    ExclusiveNow(fs);
    Flush(fs, id, true, granule);
    ghost var w1 := fs.Now();
    KeptByFlush(e0, EnvOf(fs), id, d0, fs.drafts[id]);
    status, p, w := NextSector(fs, id, allowed, scratch);
    AsideAll(e0.w.open, w1, id, e0.g, fs.disk, fs.gcMd);
    KeptByAlloc(fs.v, w1, fs.Now(), id);
    KeptMore(e0.w, w1, fs.Now(), id);
    KeptBoth(e0.w, w1, id);
    WaryMore(e0.w, e0.g, w1, e0.g, fs.disk, fs.gcMd);
  }

  lemma AsideAll(open: OpenFiles, w: World, id: nat, g: GcWalk, disk': Disk, g': GcWalk)
    requires GcPass.WalkElsewhere(w, g, disk', g')
    requires forall a | a in open && a != id :: a in w.open && w.open[a] == open[a]
    ensures Aside(open, id, g, g')
  {
  }

  lemma KeptByFlush(e: Env, e': Env, id: nat, d: Draft, d': Draft)
    requires Flushed(e, e', id, d, d') && Exclusive(e.w.open) && e.w.open[id].writing && id in e.w.pend
    ensures OthersKept(e.w, e'.w, id)
  {
    var p := e.w.open[id].current;
    assert e.w.open[id].Occupies(p);
    assert PathOf(e.w, id)[|e.w.pend[id]|] == p;
    HandsQuiet(e.w, e'.w, id);
    TracesOwn(e.w, e'.w, id, p);
    AllKept(e.w, e'.w, id);
  }

  /** The old extent gets its record, and the writer goes on in the window it was given. */
  method GoOnIn(fs: Volatile, id: nat, p: nat, w: Window)
    requires WriterOk(fs, id) && fs.open[id].out.cache == [] && Full(fs.open[id].out, fs.drafts[id]) && VolumeOk(fs.v)
    requires w.Window? && w.needsFooter && Alloc.Allocated(fs.v, fs.disk, fs.open, fs.reserve, p, w, fs.open[id].slot)
    modifies fs`disk, fs`cuts, fs`nextSerial, fs`allocMap, fs`open, fs`pend, fs`drafts
    ensures WriterReady(fs, id) && CutsSafe(fs.v, old(fs.cuts), fs.cuts, fs.files)
    ensures OthersKept(old(fs.Now()), fs.Now(), id)
    ensures fs.drafts[id].written == old(fs.drafts)[id].written && fs.drafts[id].name == old(fs.drafts)[id].name
    ensures Mine(old(EnvOf(fs)), old(fs.drafts), EnvOf(fs), fs.drafts, id)
    ensures SameOrigin(old(fs.open)[id], fs.open[id]) && fs.open[id].out.size == old(fs.open)[id].out.size
    ensures fs.open[id].out.cache == [] && fs.drafts[id].flushed == [] && fs.pend[id] != []
    ensures fs.open[id].out.needsFooter && fs.pend[id] == old(PathOf(fs.Now(), id)) && fs.open[id].current == p
  {
    var h := fs.open[id];
    ghost var w0, d := fs.Now(), fs.drafts[id];
    FilledWindow(fs.v, fs.disk, h, fs.pend[id], d);
    NotOccupied(fs.open, id, p);
    var extend := p == h.current + 1 && h.current - h.spanHead + 1 < 0xffff;
    ghost var d' := RecordExtent(fs, id, p, extend);
    ghost var w1 := fs.Now();
    MoveHandle(fs, id, p, w, extend, w0.disk, d');
    KeptMore(w0, w1, fs.Now(), id);
  }

  lemma FilledWindow(v: Volume, disk: Disk, h: Handle, pend: Path, d: Draft)
    requires VolumeOk(v) && WorkOk(v, disk, h, pend, d) && h.out.cache == [] && Full(h.out, d)
    ensures d.flushed != [] && h.spanHead <= h.current
  {
    FullNotEmpty(v, disk, h, pend, d);
    SpanBounds(v, disk, h, pend, d);
  }

  /** The stream fields for the next window. */
  function NextOutput(o: Output, w: Window): Output
    requires w.Window?
  {
    o.(dataOff := w.dataOff, writeOff := w.dataOff, recordOff := w.recordOff, needsFooter := w.needsFooter,
       cache := [], dataLen := 0, fileOff := o.fileOff + o.dataLen)
  }

  method MoveHandle(fs: Volatile, id: nat, p: nat, w: Window, extend: bool, ghost disk0: Disk, ghost d': Draft)
    requires id in fs.open && id in fs.pend && id in fs.drafts && id in fs.ranges && fs.open[id].writing
    requires VolumeOk(fs.v)
    requires var h, path := fs.open[id], fs.pend[id] + [fs.open[id].current];
      && DoneIn(fs.v, EnvOf(fs), h, path, d', p) && NextOk(fs.v, EnvOf(fs), h, path, d', p)
      && (extend == (d'.span < |path|))
    requires w.Window? && w.needsFooter && Granted(fs.v, fs.disk[p], w, MIN_USABLE, fs.open[id].slot)
    requires WorkOk(fs.v, disk0, fs.open[id], fs.pend[id], fs.drafts[id]) && fs.open[id].out.cache == []
    requires Full(fs.open[id].out, fs.drafts[id])
    requires StreamKept(fs.open[id].out, fs.drafts[id], d') && fs.Backed()
    modifies fs`open, fs`pend, fs`drafts
    ensures WriterReady(fs, id) && OthersKept(old(fs.Now()), fs.Now(), id) && fs.pend.Keys == old(fs.pend).Keys
    ensures fs.pend[id] == old(PathOf(fs.Now(), id)) && fs.open[id].current == p
    ensures fs.drafts[id].written == old(fs.drafts)[id].written && fs.drafts[id].name == old(fs.drafts)[id].name
    ensures fs.drafts == old(fs.drafts)[id := fs.drafts[id]]
    ensures SameOrigin(old(fs.open)[id], fs.open[id]) && fs.open[id].out.size == old(fs.open)[id].out.size
    ensures fs.open[id].out.cache == [] && fs.drafts[id].flushed == [] && fs.pend[id] != []
    ensures fs.open[id].out.needsFooter
  {
    var h := fs.open[id];
    var h' := MovedHandle(h, p, extend, NextOutput(h.out, w));
    MoveOnFrom(fs.v, disk0, EnvOf(fs), id, fs.drafts[id], d', p, h', w);
    ghost var w1, path := fs.Now(), fs.pend[id] + [h.current];
    fs.open := fs.open[id := h'];
    fs.pend := fs.pend[id := path];
    fs.drafts := fs.drafts[id := d'.(flushed := [])];
    KeptByMove(w1, fs.Now(), id);
  }

  lemma MoveOnFrom(v: Volume, disk0: Disk, e: Env, id: nat, d: Draft, d': Draft, p: nat, h': Handle, w: Window)
    requires id in e.w.open && id in e.w.pend && id in e.ranges && e.w.open[id].writing && VolumeOk(v)
    requires var h, path := e.w.open[id], e.w.pend[id] + [e.w.open[id].current];
      && DoneIn(v, e, h, path, d', p) && NextOk(v, e, h, path, d', p) && w.Window? && w.needsFooter
      && h' == MovedHandle(h, p, d'.span < |path|, NextOutput(h.out, w))
      && Granted(v, e.w.disk[p], w, MIN_USABLE, h.slot)
      && WorkOk(v, disk0, h, e.w.pend[id], d) && h.out.cache == [] && Full(h.out, d) && StreamKept(h.out, d, d')
    ensures WriterIn(v, MovedEnv(e, id, e.w.pend[id] + [e.w.open[id].current], h'), id, d'.(flushed := []))
  {
    var h, path := e.w.open[id], e.w.pend[id] + [e.w.open[id].current];
    var o := NextOutput(h.out, w);
    FullNotEmpty(v, disk0, h, e.w.pend[id], d);
    SpanBounds(v, disk0, h, e.w.pend[id], d);
    StreamGoesOn(h.out, d, d', o);
    MoveOn(v, e, id, path, d', d'.(flushed := []), p, h', o, w);
  }

  lemma NotOccupied(open: OpenFiles, id: nat, p: nat)
    requires id in open && !IsOpen(open, p)
    ensures !open[id].Occupies(p)
  {
  }

  lemma KeptByMove(w: World, w': World, id: nat)
    requires id in w.open && id in w.pend && id in w'.open && id in w'.pend
    requires w' == w.(open := w.open[id := w'.open[id]], pend := w.pend[id := w'.pend[id]])
    requires w'.open[id].slot == w.open[id].slot && w'.pend[id] == PathOf(w, id)
    ensures OthersKept(w, w', id)
  {
    HandsQuiet(w, w', id);
    TracesSame(w, w', id);
    AllKept(w, w', id);
  }

  // ---------------------------------------------------------------- fffs_write

  ghost predicate Writable(fs: Volatile, id: nat)
    reads fs
  {
    WritableIn(fs.v, EnvOf(fs), fs.drafts, id) && fs.Backed()
  }

  /** current_extent_capacity. */
  function Capacity(h: Handle): nat {
    var prefix := if h.current == h.head then h.out.prefix else 0;
    if h.out.recordOff <= h.out.dataOff + prefix then 0 else h.out.recordOff - h.out.dataOff - prefix
  }

  lemma CapacityLeft(v: Volume, disk: Disk, h: Handle, pend: Path, d: Draft)
    requires WorkOk(v, disk, h, pend, d)
    ensures h.out.dataLen >= Capacity(h) <==> Full(h.out, d)
    ensures || h.out.dataOff + |d.flushed + h.out.cache| + (Capacity(h) - h.out.dataLen) == h.out.recordOff
            || Full(h.out, d)
  {
    assert InWork(v, disk, h, pend, d, TheStream) && InWork(v, disk, h, pend, d, ThePath)
           && InWork(v, disk, h, pend, d, TheOffsets);
    CurrentIsNew(v, disk, h, pend, d);
  }

  function Cached(o: Output, x: Bytes): Output {
    o.(cache := o.cache + x, dataLen := o.dataLen + |x|, size := o.size + |x|)
  }

  lemma CacheStep(v: Volume, e: Env, id: nat, d: Draft, x: Bytes)
    requires WriterIn(v, e, id, d) && Aligned(e.w.open[id].out, d)
    requires var o := e.w.open[id].out;
      && |o.cache| + |x| <= CACHE_SIZE && o.size + |x| < 0x1_0000_0000
      && o.dataOff + |d.flushed + o.cache| + |x| <= o.recordOff
      && x != [] && !Full(o, d)
    ensures var h := e.w.open[id];
      var h' := h.(out := Cached(h.out, x));
      && WriterIn(v, e.(w := e.w.(open := e.w.open[id := h'])), id, d.(written := d.written + x))
      && Aligned(h'.out, d.(written := d.written + x))
  {
    var h, pend := e.w.open[id], e.w.pend[id];
    var h', d' := h.(out := Cached(h.out, x)), d.(written := d.written + x);
    OutReady(v, e, id, Cached(h.out, x));
    forall part
      ensures InWork(v, e.w.disk, h', pend, d', part)
    {
      assert InWork(v, e.w.disk, h, pend, d, part);
      match part
      case ThePath =>
      case TheWindow =>
      case TheStream => StreamMore(h.out, d, x);
      case TheOffsets =>
      case TheExtents => ExtentsRename(v, e.w.disk, h.slot, pend, d, d');
      case TheLinks => LinksRename(pend + [h.current], d, d');
      case TheRest => RestKept(e.w.disk, e.w.disk, h.slot, pend, d, d');
    }
  }

  /** Copies bytes into the cache. */
  method AddToCache(fs: Volatile, id: nat, x: Bytes)
    requires WriterReady(fs, id) && x != [] && !Full(fs.open[id].out, fs.drafts[id])
    requires var o, d := fs.open[id].out, fs.drafts[id];
      && |o.cache| + |x| <= CACHE_SIZE && o.size + |x| < 0x1_0000_0000
      && o.dataOff + |d.flushed + o.cache| + |x| <= o.recordOff
    modifies fs`open, fs`drafts
    ensures WriterReady(fs, id) && OthersKept(old(fs.Now()), fs.Now(), id)
    ensures fs.drafts[id] == old(fs.drafts)[id].(written := old(fs.drafts)[id].written + x)
    ensures fs.drafts == old(fs.drafts)[id := fs.drafts[id]]
    ensures fs.open[id] == old(fs.open)[id].(out := Cached(old(fs.open)[id].out, x))
  {
    ghost var w0, d := fs.Now(), fs.drafts[id];
    var h := fs.open[id];
    CacheStep(fs.v, EnvOf(fs), id, d, x);
    fs.open := fs.open[id := h.(out := Cached(h.out, x))];
    fs.drafts := fs.drafts[id := d.(written := d.written + x)];
    KeptByOut(w0, fs.Now(), id);
  }

  lemma KeptByOut(w: World, w': World, id: nat)
    requires id in w.open && id in w'.open && w' == w.(open := w.open[id := w'.open[id]]) && id in w.pend
    requires w'.open[id].slot == w.open[id].slot && w'.open[id].current == w.open[id].current
    ensures OthersKept(w, w', id)
  {
    HandsQuiet(w, w', id);
    TracesSame(w, w', id);
    AllKept(w, w', id);
  }

  /** If the current extent is full, the next one is started. */
  method MakeRoom(fs: Volatile, id: nat, granule: nat, allowed: Candidate -> bool, scratch: nat)
    returns (status: Status)
    requires Writable(fs, id) && 0 < granule <= RECORD_SIZE + FOOTER_SIZE
    requires 0 < scratch && VolumeOk(fs.v) && GcPass.DataSectors(fs.v) >= 2
    modifies fs`disk, fs`cuts, fs`gcCursor, fs`gcMd, fs`candidates, fs`reserve, fs`ranges, fs`allocMap, fs`allocCursor,
             fs`nextSerial,
             fs`index, fs`journal, fs`paths, fs`open, fs`pend, fs`drafts
    ensures WriterReady(fs, id) && CutsSafe(fs.v, old(fs.cuts), fs.cuts, fs.files)
    ensures OthersKept(old(fs.Now()), fs.Now(), id)
    ensures fs.drafts[id].written == old(fs.drafts)[id].written && fs.drafts[id].name == old(fs.drafts)[id].name
    ensures Mine(old(EnvOf(fs)), old(fs.drafts), EnvOf(fs), fs.drafts, id)
    ensures SameOrigin(old(fs.open)[id], fs.open[id]) && fs.open[id].out.size == old(fs.open)[id].out.size
    ensures |fs.open[id].out.cache| < CACHE_SIZE
    ensures status.Ok? ==> !Full(fs.open[id].out, fs.drafts[id])
    ensures !status.Ok? ==> Writable(fs, id) && Alloc.NoRoom(fs.v, fs.Now(), status)
  {
    var h := fs.open[id];
    CapacityLeft(fs.v, fs.disk, h, fs.pend[id], fs.drafts[id]);
    if h.out.dataLen < Capacity(h) {
      WarySame(fs.Now(), fs.gcMd);
      KeptByOut(fs.Now(), fs.Now(), id);
      return Ok;
    }
    status := StartNextExtent(fs, id, granule, allowed, scratch);
    if status.Ok? {
      FreshWindow(fs.v, fs.disk, fs.open[id], fs.pend[id], fs.drafts[id]);
    } else {
      FilledWindow(fs.v, fs.disk, fs.open[id], fs.pend[id], fs.drafts[id]);
    }
  }

  lemma FreshWindow(v: Volume, disk: Disk, h: Handle, pend: Path, d: Draft)
    requires VolumeOk(v) && WorkOk(v, disk, h, pend, d) && h.out.needsFooter && h.out.cache == [] && d.flushed == []
    ensures !Full(h.out, d)
  {
    assert InWork(v, disk, h, pend, d, TheWindow);
  }

  /** One turn of the loop of fffs_write. */
  method WriteSome(fs: Volatile, id: nat, src: Bytes, granule: nat, allowed: Candidate -> bool, scratch: nat)
    returns (status: Status, n: nat)
    requires Writable(fs, id) && src != [] && fs.open[id].out.size + |src| < 0x1_0000_0000
    requires 0 < granule <= RECORD_SIZE + FOOTER_SIZE
    requires 0 < scratch && VolumeOk(fs.v) && GcPass.DataSectors(fs.v) >= 2
    modifies fs`disk, fs`cuts, fs`gcCursor, fs`gcMd, fs`candidates, fs`reserve, fs`ranges, fs`allocMap, fs`allocCursor,
             fs`nextSerial,
             fs`index, fs`journal, fs`paths, fs`open, fs`pend, fs`drafts
    ensures Writable(fs, id) && CutsSafe(fs.v, old(fs.cuts), fs.cuts, fs.files)
    ensures OthersKept(old(fs.Now()), fs.Now(), id)
    ensures n <= |src| && (status.Ok? <==> n > 0)
    ensures !status.Ok? ==> Alloc.NoRoom(fs.v, fs.Now(), status)
    ensures fs.drafts[id].written == old(fs.drafts)[id].written + src[..n]
    ensures fs.drafts[id].name == old(fs.drafts)[id].name
    ensures Mine(old(EnvOf(fs)), old(fs.drafts), EnvOf(fs), fs.drafts, id)
    ensures SameOrigin(old(fs.open)[id], fs.open[id]) && fs.open[id].out.size == old(fs.open)[id].out.size + n
  {
    ghost var e0, ds0 := EnvOf(fs), fs.drafts;
    status := MakeRoom(fs, id, granule, allowed, scratch);
    if !status.Ok? {
      return status, 0;
    }
    ghost var e1, ds1 := EnvOf(fs), fs.drafts;
    n := Take(fs, id, src, granule);
    KeptMore(e0.w, e1.w, fs.Now(), id);
    MineMore(e0, ds0, e1, ds1, EnvOf(fs), fs.drafts, id);
  }

  /** As much as there is room for, into the cache, which is flushed when it is full. */
  method Take(fs: Volatile, id: nat, src: Bytes, granule: nat) returns (n: nat)
    requires WriterReady(fs, id) && src != [] && fs.open[id].out.size + |src| < 0x1_0000_0000
    requires 0 < granule <= RECORD_SIZE + FOOTER_SIZE
    requires |fs.open[id].out.cache| < CACHE_SIZE && !Full(fs.open[id].out, fs.drafts[id])
    modifies fs`disk, fs`cuts, fs`open, fs`drafts
    ensures Writable(fs, id) && CutsSafe(fs.v, old(fs.cuts), fs.cuts, fs.files)
    ensures OthersKept(old(fs.Now()), fs.Now(), id)
    ensures 0 < n <= |src|
    ensures fs.drafts[id].written == old(fs.drafts)[id].written + src[..n]
    ensures fs.drafts[id].name == old(fs.drafts)[id].name
    ensures Mine(old(EnvOf(fs)), old(fs.drafts), EnvOf(fs), fs.drafts, id)
    ensures SameOrigin(old(fs.open)[id], fs.open[id]) && fs.open[id].out.size == old(fs.open)[id].out.size + n
  {
    ghost var w0 := fs.Now();
    WarySame(w0, fs.gcMd);
    var h := fs.open[id];
    CapacityLeft(fs.v, fs.disk, h, fs.pend[id], fs.drafts[id]);
    n := Smaller(|src|, Smaller(Capacity(h) - h.out.dataLen, CACHE_SIZE - |h.out.cache|));
    AddToCache(fs, id, src[..n]);
    if |fs.open[id].out.cache| == CACHE_SIZE {
      ghost var w1 := fs.Now();
      FlushFull(fs, id, granule);
      KeptBoth(w0, w1, id);
      KeptMore(w0, w1, fs.Now(), id);
      WaryMore(w0, fs.gcMd, w1, fs.gcMd, fs.disk, fs.gcMd);
    }
  }

  function Smaller(a: int, b: int): int { if a < b then a else b }

  method FlushFull(fs: Volatile, id: nat, granule: nat)
    requires WriterReady(fs, id) && |fs.open[id].out.cache| == CACHE_SIZE && 0 < granule <= RECORD_SIZE + FOOTER_SIZE
    modifies fs`disk, fs`cuts, fs`open, fs`drafts
    ensures Writable(fs, id) && CutsSafe(fs.v, old(fs.cuts), fs.cuts, fs.files)
    ensures OthersKept(old(fs.Now()), fs.Now(), id)
    ensures fs.drafts[id] == old(fs.drafts)[id].(flushed := fs.drafts[id].flushed)
    ensures fs.drafts == old(fs.drafts)[id := fs.drafts[id]]
    ensures Gc.WalkWary(old(fs.Now()), fs.gcMd, fs.disk, fs.gcMd)
    ensures SameOrigin(old(fs.open)[id], fs.open[id]) && fs.open[id].out.size == old(fs.open)[id].out.size
  {
    ghost var e0, d0 := EnvOf(fs), fs.drafts[id];
    ExclusiveNow(fs);
    Flush(fs, id, false, granule);
    KeptByFlush(e0, EnvOf(fs), id, d0, fs.drafts[id]);
  }

  /** fffs_write: whatever the chunks, what has been written is appended to what was; if it fails, a
      prefix of the chunk has been taken. */
  method Write(fs: Volatile, id: nat, data: Bytes, granule: nat, allowed: Candidate -> bool, scratch: nat)
    returns (status: Status, done: nat)
    requires Writable(fs, id) && fs.open[id].out.size + |data| < 0x1_0000_0000
    requires 0 < granule <= RECORD_SIZE + FOOTER_SIZE
    requires 0 < scratch && VolumeOk(fs.v) && GcPass.DataSectors(fs.v) >= 2
    modifies fs`disk, fs`cuts, fs`gcCursor, fs`gcMd, fs`candidates, fs`reserve, fs`ranges, fs`allocMap, fs`allocCursor,
             fs`nextSerial,
             fs`index, fs`journal, fs`paths, fs`open, fs`pend, fs`drafts
    ensures Writable(fs, id) && CutsSafe(fs.v, old(fs.cuts), fs.cuts, fs.files)
    ensures OthersKept(old(fs.Now()), fs.Now(), id)
    ensures done <= |data| && (status.Ok? <==> done == |data|)
    ensures !status.Ok? ==> Alloc.NoRoom(fs.v, fs.Now(), status)
    ensures fs.drafts[id].written == old(fs.drafts)[id].written + data[..done]
    ensures fs.drafts[id].name == old(fs.drafts)[id].name
    ensures Mine(old(EnvOf(fs)), old(fs.drafts), EnvOf(fs), fs.drafts, id)
    ensures SameOrigin(old(fs.open)[id], fs.open[id])
    ensures old(OnlyWriter(fs.open, id, fs.open[id].slot)) ==>
              OthersStay(fs.v, old(EnvOf(fs)), old(fs.drafts), EnvOf(fs), fs.drafts, {id})
    ensures old(NoteGood(fs.v, EnvOf(fs), id)) ==> NoteGood(fs.v, EnvOf(fs), id)
  {
    ghost var e0, ds0 := EnvOf(fs), fs.drafts;
    status, done := WriteAll(fs, id, data, granule, allowed, scratch);
    if OnlyWriter(e0.w.open, id, e0.w.open[id].slot) {
      StayByWrite(fs.v, e0, ds0, EnvOf(fs), fs.drafts, id);
    }
    if NoteGood(fs.v, e0, id) {
      NoteByWrite(fs.v, e0, ds0, EnvOf(fs), fs.drafts, id);
    }
  }

  /** Its loop. */
  method WriteAll(fs: Volatile, id: nat, data: Bytes, granule: nat, allowed: Candidate -> bool, scratch: nat)
    returns (status: Status, done: nat)
    requires Writable(fs, id) && fs.open[id].out.size + |data| < 0x1_0000_0000
    requires 0 < granule <= RECORD_SIZE + FOOTER_SIZE
    requires 0 < scratch && VolumeOk(fs.v) && GcPass.DataSectors(fs.v) >= 2
    modifies fs`disk, fs`cuts, fs`gcCursor, fs`gcMd, fs`candidates, fs`reserve, fs`ranges, fs`allocMap, fs`allocCursor,
             fs`nextSerial,
             fs`index, fs`journal, fs`paths, fs`open, fs`pend, fs`drafts
    ensures Taken(fs, id, old(EnvOf(fs)), old(fs.drafts), old(fs.cuts), old(fs.drafts)[id], old(fs.open)[id], data,
                  done)
    ensures done <= |data| && (status.Ok? <==> done == |data|)
    ensures !status.Ok? ==> Alloc.NoRoom(fs.v, fs.Now(), status)
  {
    done := 0;
    status := Ok;
    ghost var e0, ds0, cuts0, d0, h0 := EnvOf(fs), fs.drafts, fs.cuts, fs.drafts[id], fs.open[id];
    KeptByOut(e0.w, e0.w, id);
    WarySame(e0.w, e0.g);
    while done < |data|
      invariant status.Ok? && Taken(fs, id, e0, ds0, cuts0, d0, h0, data, done)
    {
      status, done := WriteMore(fs, id, data, done, granule, allowed, scratch, e0, ds0, cuts0, d0, h0);
      if !status.Ok? {
        return;
      }
    }
  }

  /** The first `done` bytes have been taken. */
  ghost predicate Taken(fs: Volatile, id: nat, e0: Env, ds0: map<nat, Draft>, cuts0: iset<Image>, d0: Draft, h0: Handle,
                        data: Bytes, done: nat)
    reads fs
  {
    && done <= |data| && Writable(fs, id) && CutsSafe(fs.v, cuts0, fs.cuts, fs.files) && OthersKept(e0.w, fs.Now(), id)
    && Mine(e0, ds0, EnvOf(fs), fs.drafts, id)
    && fs.drafts[id].written == d0.written + data[..done] && fs.drafts[id].name == d0.name
    && SameOrigin(h0, fs.open[id]) && fs.open[id].out.size == h0.out.size + done
  }

  method WriteMore(fs: Volatile, id: nat, data: Bytes, taken: nat, granule: nat, allowed: Candidate -> bool,
                   scratch: nat,
                   ghost e0: Env, ghost ds0: map<nat, Draft>, ghost cuts0: iset<Image>, ghost d0: Draft,
                   ghost h0: Handle)
    returns (status: Status, done: nat)
    requires Taken(fs, id, e0, ds0, cuts0, d0, h0, data, taken) && taken < |data|
    requires h0.out.size + |data| < 0x1_0000_0000
    requires 0 < granule <= RECORD_SIZE + FOOTER_SIZE && 0 < scratch && VolumeOk(fs.v) && GcPass.DataSectors(fs.v) >= 2
    modifies fs`disk, fs`cuts, fs`gcCursor, fs`gcMd, fs`candidates, fs`reserve, fs`ranges, fs`allocMap, fs`allocCursor,
             fs`nextSerial,
             fs`index, fs`journal, fs`paths, fs`open, fs`pend, fs`drafts
    ensures fs.Backed()
    ensures Taken(fs, id, e0, ds0, cuts0, d0, h0, data, done) && taken <= done && (status.Ok? <==> taken < done)
    ensures !status.Ok? ==> Alloc.NoRoom(fs.v, fs.Now(), status)
  {
    ghost var e1, ds1 := EnvOf(fs), fs.drafts;
    var n;
    status, n := WriteSome(fs, id, data[taken..], granule, allowed, scratch);
    MineMore(e0, ds0, e1, ds1, EnvOf(fs), fs.drafts, id);
    KeptMore(e0.w, e1.w, fs.Now(), id);
    assert data[..taken] + data[taken..][..n] == data[..taken + n];
    done := taken + n;
  }
}
