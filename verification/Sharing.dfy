/** Several writers at a time: what one of them, or the collector, does leaves the others where they were
    (src/fffs_file.c, src/fffs_alloc.c). */
module Sharing {
  import opened Nor
  import opened SectorMd
  import opened SectorView
  import opened Files
  import opened Mounted
  import opened Extents
  import opened Content
  import opened Drafts
  import opened Writer
  import opened Notes
  import Compact
  import Gc
  import GcPass

  /** No other writer is open for the slot. */
  ghost predicate OnlyWriter(open: OpenFiles, id: nat, slot: u16) {
    forall a | a in open && a != id && open[a].writing :: open[a].slot != slot
  }

  /** A writer between two calls: there is room in the cache, and the current extent is not empty. */
  ghost predicate WritableIn(v: Volume, e: Env, ds: map<nat, Draft>, id: nat) {
    && id in ds && WriterIn(v, e, id, ds[id]) && Aligned(e.w.open[id].out, ds[id])
    && |e.w.open[id].out.cache| < CACHE_SIZE
    && (e.w.pend[id] != [] ==> ds[id].flushed + e.w.open[id].out.cache != [])
  }

  /** The sectors of a writer's extents, the one being written included. */
  function PathOf(w: World, id: nat): Path
    requires id in w.open && id in w.pend
  {
    w.pend[id] + [w.open[id].current]
  }

  /** The writer's note is known, and safe to follow. */
  ghost predicate NoteGood(v: Volume, e: Env, id: nat) {
    id in e.w.open && id in e.w.pend && NoteAt(v, e, e.w.open[id], PathOf(e.w, id))
  }

  /** Writer a, if it was one, is still there, with the same handle, extents and draft, and its note is as good. */
  ghost predicate Stays(v: Volume, e: Env, ds: map<nat, Draft>, e': Env, ds': map<nat, Draft>, a: nat) {
    WritableIn(v, e, ds, a) ==>
      && WritableIn(v, e', ds', a) && e'.w.open[a] == e.w.open[a] && e'.w.pend[a] == e.w.pend[a] && ds'[a] == ds[a]
      && (NoteGood(v, e, a) ==> NoteGood(v, e', a))
  }

  /** That is so of all writers but these. */
  ghost predicate OthersStay(v: Volume, e: Env, ds: map<nat, Draft>, e': Env, ds': map<nat, Draft>, but: set<nat>) {
    forall a {:trigger Stays(v, e, ds, e', ds', a)} | a !in but :: Stays(v, e, ds, e', ds', a)
  }

  lemma StayMore(v: Volume, e: Env, ds: map<nat, Draft>, e1: Env, ds1: map<nat, Draft>, e2: Env, ds2: map<nat, Draft>,
                 but: set<nat>)
    requires OthersStay(v, e, ds, e1, ds1, but) && OthersStay(v, e1, ds1, e2, ds2, but)
    ensures OthersStay(v, e, ds, e2, ds2, but)
  {
    forall a | a !in but
      ensures Stays(v, e, ds, e2, ds2, a)
    {
      assert Stays(v, e, ds, e1, ds1, a) && Stays(v, e1, ds1, e2, ds2, a);
    }
  }

  /** What it takes: the handle, its work in order, and its note as good. */
  lemma StaysIf(v: Volume, e: Env, ds: map<nat, Draft>, e': Env, ds': map<nat, Draft>, a: nat)
    requires WritableIn(v, e, ds, a) && Ready(v, e') && a in e'.w.open && a in e'.w.pend && a in ds' && a in e'.ranges
    requires e'.w.open[a] == e.w.open[a] && e'.w.pend[a] == e.w.pend[a] && ds'[a] == ds[a]
    requires WorkOk(v, e'.w.disk, e.w.open[a], e.w.pend[a], ds[a])
    requires WalkBehind(e'.g, e'.w.disk, e.w.pend[a], ds[a])
    requires Apart(e'.w.index, e'.w.paths, e.w.open[a].slot, PathOf(e.w, a))
    requires NoteGood(v, e, a) ==> NoteGood(v, e', a)
    ensures Stays(v, e, ds, e', ds', a)
  {
  }

  /** The last two, when it is calm around the note. */
  lemma StaysBy(v: Volume, e: Env, ds: map<nat, Draft>, e': Env, ds': map<nat, Draft>, a: nat)
    requires WritableIn(v, e, ds, a) && Ready(v, e') && a in e'.w.open && a in e'.w.pend && a in ds' && a in e'.ranges
    requires e'.w.open[a] == e.w.open[a] && e'.w.pend[a] == e.w.pend[a] && ds'[a] == ds[a]
    requires WorkOk(v, e'.w.disk, e.w.open[a], e.w.pend[a], ds[a])
    requires WalkBehind(e'.g, e'.w.disk, e.w.pend[a], ds[a])
    requires Calm(v, e, e', e.w.open[a].slot, PathOf(e.w, a))
    ensures Stays(v, e, ds, e', ds', a)
  {
    var h, path := e.w.open[a], PathOf(e.w, a);
    assert InReady(v, e, TheFiles) && InWork(v, e.w.disk, h, e.w.pend[a], ds[a], ThePath);
    assert forall p :: Used(e'.w.index, e'.w.paths, h.slot, p) == Used(e.w.index, e.w.paths, h.slot, p);
    if NoteGood(v, e, a) {
      NoteKept(v, e, e', h, h, path, path);
    }
    StaysIf(v, e, ds, e', ds', a);
  }

  /** The sectors that the writer occupies are the same, and so are its records elsewhere. */
  ghost predicate Undisturbed(disk: Disk, disk': Disk, h: Handle, pend: Path) {
    && |disk'| == |disk| && (forall p: nat | p < |disk| && h.Occupies(p) :: disk'[p] == disk[p])
    && (forall p | p in pend && p < |disk| :: Keeps(disk[p], disk'[p], h.slot))
    && (forall p: nat {:trigger NoneBegun(disk'[p], h.slot)} | p < |disk| && NoneBegun(disk[p], h.slot) ::
          NoneBegun(disk'[p], h.slot))
  }

  lemma UndisturbedWork(v: Volume, disk: Disk, disk': Disk, h: Handle, pend: Path, d: Draft)
    requires WorkOk(v, disk, h, pend, d) && Undisturbed(disk, disk', h, pend) && h.writing
    ensures WorkOk(v, disk', h, pend, d)
  {
    CurrentIsNew(v, disk, h, pend, d);
    assert InWork(v, disk, h, pend, d, ThePath);
    forall part
      ensures InWork(v, disk', h, pend, d, part)
    {
      assert InWork(v, disk, h, pend, d, part);
      if part.TheExtents? {
        forall i: nat | i < |pend|
          ensures ExtentOk(v, disk', h.slot, pend[i], d, i)
        {
          assert ExtentOk(v, disk, h.slot, pend[i], d, i) && pend[i] in pend;
          if Uncommitted(d, i) {
            assert h.Occupies(pend[i]);
          }
        }
      } else if part.TheRest? {
        RestKept(disk, disk', h.slot, pend, d, d);
      }
    }
  }

  // ---------------------------------------------------------------- while the collector works

  /** Allocation, collection and compaction leave all writers where they were. */
  lemma AllStay(v: Volume, e: Env, e': Env, ds: map<nat, Draft>)
    requires Ready(v, e') && e'.w.open == e.w.open && e'.w.pend == e.w.pend && e.ranges.Keys <= e'.ranges.Keys
    requires e'.w.files == e.w.files && Compact.WritersKept(e.w, e'.w.disk) && Compact.PinnedSame(e.w, e'.w)
    requires Compact.Tame(v, e.w, e'.w) && GcPass.WalkElsewhere(e.w, e.g, e'.w.disk, e'.g)
    ensures OthersStay(v, e, ds, e', ds, {})
  {
    forall a
      ensures Stays(v, e, ds, e', ds, a)
    {
      if WritableIn(v, e, ds, a) {
        assert InReady(v, e, TheFiles) && InReady(v, e', TheFiles) && Pinned(e.w.open, e.w.open[a].slot);
        WriterSurvives(v, e, e', a, ds[a]);
        CalmByOthers(v, e, e', e.w.open[a].slot, PathOf(e.w, a));
        StaysBy(v, e, ds, e', ds, a);
      }
    }
  }

  /** One more writer changes nothing for the others. */
  lemma StayByEntry(v: Volume, e: Env, ds: map<nat, Draft>, e': Env, ds': map<nat, Draft>, id: nat)
    requires Ready(v, e') && id !in e.w.open && e'.w.open.Keys == e.w.open.Keys + {id} && id in e'.w.pend && id in ds'
    requires e' == e.(w := e.w.(open := e.w.open[id := e'.w.open[id]], pend := e.w.pend[id := e'.w.pend[id]]))
    requires ds' == ds[id := ds'[id]]
    ensures OthersStay(v, e, ds, e', ds', {id})
  {
    forall a | a !in {id}
      ensures Stays(v, e, ds, e', ds', a)
    {
      if WritableIn(v, e, ds, a) {
        assert InReady(v, e, TheFiles);
        StaysBy(v, e, ds, e', ds', a);
      }
    }
  }

  // ---------------------------------------------------------------- a harmful note

  /** Whether the close would be a harmful one, by looking: the noted sector is the one that is being written, or has an
      extent of the writer. */
  predicate SeenHarmful(v: Volume, disk: Disk, h: Handle) {
    var p := h.out.oldHead;
    && p != h.head && p != 0
    && (|| p == h.current
        || (&& DataSector(v, p) && p < |disk| && disk[p].footer.Live?
            && exists k | 0 <= k < |disk[p].recs| :: Continues(disk[p].recs[k], h.slot)))
  }

  predicate Continues(r: Md, slot: u16) { r.slot == slot && r.typ == TYPE_CONT && (r.Live() || r.state == UNCOMMITTED) }

  lemma HarmSeen(v: Volume, e: Env, ds: map<nat, Draft>, id: nat)
    requires WritableIn(v, e, ds, id) && NoteGood(v, e, id)
    ensures SeenHarmful(v, e.w.disk, e.w.open[id]) <==> Harmful(e.w.open[id], PathOf(e.w, id))
  {
    var h, pend, d, path := e.w.open[id], e.w.pend[id], ds[id], PathOf(e.w, id);
    var p := h.out.oldHead;
    assert InWork(v, e.w.disk, h, pend, d, ThePath);
    assert path[|pend|] == h.current;
    if Harmful(h, path) && p != h.current {
      var i: nat :| i < |path| && path[i] == p;
      ExtentSeen(v, e.w.disk, h, pend, d, i);
    }
    if p != 0 && p != h.head && p !in path && DataSector(v, p) && p < |e.w.disk| && e.w.disk[p].footer.Live? {
      forall k | 0 <= k < |e.w.disk[p].recs|
        ensures !Continues(e.w.disk[p].recs[k], h.slot)
      {
        NoOtherExtent(v, e, ds, id, k);
      }
    }
  }

  lemma ExtentSeen(v: Volume, disk: Disk, h: Handle, pend: Path, d: Draft, i: nat)
    requires WorkOk(v, disk, h, pend, d) && 0 < i < |pend|
    ensures var p := pend[i];
      && DataSector(v, p) && p < |disk| && disk[p].footer.Live?
      && exists k | 0 <= k < |disk[p].recs| :: Continues(disk[p].recs[k], h.slot)
  {
    assert InWork(v, disk, h, pend, d, TheExtents);
    assert ExtentOk(v, disk, h.slot, pend[i], d, i);
    var s := disk[pend[i]];
    var k := if Uncommitted(d, i) then |s.recs| - 1 else FirstLive(s.recs, h.slot);
    assert Continues(s.recs[k], h.slot);
  }

  /** Outside the writer's own sectors a noted sector has at most a root of its slot. */
  lemma NoOtherExtent(v: Volume, e: Env, ds: map<nat, Draft>, id: nat, k: nat)
    requires WritableIn(v, e, ds, id) && NoteGood(v, e, id)
    requires var h, p := e.w.open[id], e.w.open[id].out.oldHead;
      && p != 0 && p != h.head && p !in PathOf(e.w, id) && DataSector(v, p) && p < |e.w.disk|
      && e.w.disk[p].footer.Live? && k < |e.w.disk[p].recs|
    ensures !Continues(e.w.disk[e.w.open[id].out.oldHead].recs[k], e.w.open[id].slot)
  {
    var h, pend, d := e.w.open[id], e.w.pend[id], ds[id];
    var p := h.out.oldHead;
    assert InReady(v, e, TheFiles) && SaneAt(v, e.w.disk, p);
    assert InWork(v, e.w.disk, h, pend, d, TheRest);
    assert forall i | 0 <= i < |pend| :: pend[i] in PathOf(e.w, id);
    assert Resting(pend, d, p) && NoneBegun(e.w.disk[p], h.slot);
    if e.w.disk[p].recs[k].Live() && e.w.disk[p].recs[k].slot == h.slot {
      Gc.OnlyLive(v, e.w.disk[p], k);
      NotedIsRoot(v, e.w, h.slot, PathOf(e.w, id), p, h.out.oldNext);
    }
  }
}
