/** What an operation on one file leaves alone: the work of other writers, the records of other files, and their
    names (src/fffs_file.c). */
module Bystanders {
  import opened Nor
  import opened SectorMd
  import opened SectorView
  import opened Files
  import opened Mounted
  import opened SectorOps
  import opened Extents
  import opened Drafts
  import opened Writer
  import opened OldChain
  import opened Notes
  import opened Sharing
  import Commit
  import Compact
  import Streaming

  // ---------------------------------------------------------------- the work of other writers

  /** Whatever another writer has in the making is still in order. */
  ghost predicate OthersWork(v: Volume, w: World, w': World, id: nat) {
    forall a: nat, d: Draft {:trigger WorkOk(v, w.disk, w.open[a], w.pend[a], d)}
      | a in w.open && a != id && w.open[a].writing && a in w.pend && WorkOk(v, w.disk, w.open[a], w.pend[a], d) ::
      && a in w'.open && w'.open[a] == w.open[a] && a in w'.pend && w'.pend[a] == w.pend[a]
      && WorkOk(v, w'.disk, w.open[a], w.pend[a], d)
      && RecordsStay(w.disk, w'.disk, w.open[a])
  }

  /** The sectors that the writer occupies have not lost records. */
  ghost predicate RecordsStay(disk: Disk, disk': Disk, h: Handle) {
    forall p: nat | p < |disk| && h.Occupies(p) :: p < |disk'| && |disk[p].recs| <= |disk'[p].recs|
  }

  lemma FadedWindow(v: Volume, s: Sec, s': Sec, slot: u16, off: nat, rec: nat, first: bool, written: Bytes)
    requires InWindow(v, s, off, rec, first, written) && s.footer.Live? && Faded(v, s, s', slot)
    ensures InWindow(v, s', off, rec, first, written)
  {
    ClaimedSame(s.recs, s'.recs);
    assert s'.bytes[off..off + |written|] == s.bytes[off..off + |written|];
  }

  lemma FadedLookup(v: Volume, s: Sec, s': Sec, slot: u16, other: u16)
    requires Faded(v, s, s', slot) && other != slot
    ensures Lookup(s', other) == Lookup(s, other)
  {
    var k, k' := FirstLive(s.recs, other), FirstLive(s'.recs, other);
    assert k < |s.recs| ==> s'.recs[k] == s.recs[k];
    assert k' < |s'.recs| ==> s'.recs[k'] == s.recs[k'];
  }

  lemma FadedWork(v: Volume, disk: Disk, disk': Disk, h: Handle, pend: Path, d: Draft, slot: u16)
    requires WorkOk(v, disk, h, pend, d) && Dimmed(v, disk, disk', slot) && h.slot != slot && h.writing
    ensures WorkOk(v, disk', h, pend, d)
  {
    forall part
      ensures InWork(v, disk', h, pend, d, part)
    {
      assert InWork(v, disk, h, pend, d, part);
      match part
      case ThePath =>
      case TheWindow =>
        assert DimmedAt(v, disk, disk', slot, h.current);
        if disk'[h.current] != disk[h.current] {
          FadedWindow(v, disk[h.current], disk'[h.current], slot, h.out.dataOff, h.out.recordOff, h.out.needsFooter,
                      d.flushed);
          FadedLookup(v, disk[h.current], disk'[h.current], slot, h.slot);
        }
      case TheStream =>
      case TheOffsets =>
      case TheExtents =>
        forall i: nat | i < |pend|
          ensures ExtentOk(v, disk', h.slot, pend[i], d, i)
        {
          FadedExtent(v, disk, disk', h.slot, pend, d, slot, i);
        }
      case TheLinks =>
      case TheRest =>
        DimmedBegun(v, disk, disk', slot);
        RestKept(disk, disk', h.slot, pend, d, d);
    }
  }

  lemma DimmedBegun(v: Volume, disk: Disk, disk': Disk, slot: u16)
    requires Dimmed(v, disk, disk', slot)
    ensures BegunKept(disk, disk')
  {
    forall t: u16, p: nat | p < |disk| && NoneBegun(disk[p], t)
      ensures NoneBegun(disk'[p], t)
    {
      assert DimmedAt(v, disk, disk', slot, p);
    }
  }

  lemma FadedExtent(v: Volume, disk: Disk, disk': Disk, other: u16, pend: Path, d: Draft, slot: u16, i: nat)
    requires ExtentsOk(v, disk, other, pend, d) && Dimmed(v, disk, disk', slot) && other != slot && i < |pend|
    ensures ExtentOk(v, disk', other, pend[i], d, i)
  {
    assert ExtentOk(v, disk, other, pend[i], d, i) && DimmedAt(v, disk, disk', slot, pend[i]);
    var s, s' := disk[pend[i]], disk'[pend[i]];
    if s' != s {
      FadedLookup(v, s, s', slot, other);
      if Uncommitted(d, i) {
        assert s'.recs[|s.recs| - 1] == s.recs[|s.recs| - 1];
      } else {
        assert Keeps(s, s', other);
      }
    }
  }

  lemma WorkMore(v: Volume, w: World, w1: World, w2: World, id: nat)
    requires OthersWork(v, w, w1, id) && OthersWork(v, w1, w2, id)
    ensures OthersWork(v, w, w2, id)
  {
    forall a: nat, d: Draft | && a in w.open && a != id && w.open[a].writing && a in w.pend
                              && WorkOk(v, w.disk, w.open[a], w.pend[a], d)
      ensures a in w2.open && w2.open[a] == w.open[a] && a in w2.pend && w2.pend[a] == w.pend[a]
      ensures WorkOk(v, w2.disk, w.open[a], w.pend[a], d)
      ensures RecordsStay(w.disk, w2.disk, w.open[a])
    {
      assert WorkOk(v, w1.disk, w1.open[a], w1.pend[a], d);
    }
  }

  lemma KeptIsWork(v: Volume, w: World, w': World, id: nat)
    requires Streaming.OthersKept(w, w', id) && id in w.open && OnlyWriter(w.open, id, w.open[id].slot)
    ensures OthersWork(v, w, w', id)
  {
    Streaming.KeptBoth(w, w', id);
    assert Streaming.KeptIn(w, w', id, Streaming.Records);
    forall a: nat, d: Draft | && a in w.open && a != id && w.open[a].writing && a in w.pend
                              && WorkOk(v, w.disk, w.open[a], w.pend[a], d)
      ensures WorkOk(v, w'.disk, w.open[a], w.pend[a], d) && RecordsStay(w.disk, w'.disk, w.open[a])
    {
      forall p | p in w.pend[a] && p < |w.disk|
        ensures Keeps(w.disk[p], w'.disk[p], w.open[a].slot)
      {
        assert Extends(w, a, p);
      }
      UndisturbedWork(v, w.disk, w'.disk, w.open[a], w.pend[a], d);
    }
  }

  lemma HintIsWork(v: Volume, w: World, w': World, id: nat, p: nat)
    requires id in w.open && w.open[id].Occupies(p) && Exclusive(w.open) && w'.open == w.open && w'.pend == w.pend
    requires p < |w.disk| == |w'.disk| && w'.disk == w.disk[p := w'.disk[p]] && Hinted(w.disk[p], w'.disk[p])
    ensures OthersWork(v, w, w', id)
  {
    HintedQuiet(w.disk[p], w'.disk[p]);
    forall a: nat, d: Draft | && a in w.open && a != id && w.open[a].writing && a in w.pend
                              && WorkOk(v, w.disk, w.open[a], w.pend[a], d)
      ensures WorkOk(v, w'.disk, w.open[a], w.pend[a], d) && RecordsStay(w.disk, w'.disk, w.open[a])
    {
      UndisturbedWork(v, w.disk, w'.disk, w.open[a], w.pend[a], d);
    }
  }

  /** The death of records of one slot does not concern the writers of other slots. */
  lemma DimmedIsWork(v: Volume, w: World, w': World, id: nat, slot: u16)
    requires OnlyWriter(w.open, id, slot) && w'.open == w.open && w'.pend == w.pend && Dimmed(v, w.disk, w'.disk, slot)
    ensures OthersWork(v, w, w', id)
  {
    forall a: nat, d: Draft | && a in w.open && a != id && w.open[a].writing && a in w.pend
                              && WorkOk(v, w.disk, w.open[a], w.pend[a], d)
      ensures WorkOk(v, w'.disk, w.open[a], w.pend[a], d) && RecordsStay(w.disk, w'.disk, w.open[a])
    {
      FadedWork(v, w.disk, w'.disk, w.open[a], w.pend[a], d, slot);
      forall p: nat | p < |w.disk| && w.open[a].Occupies(p)
        ensures |w.disk[p].recs| <= |w'.disk[p].recs|
      {
        assert DimmedAt(v, w.disk, w'.disk, slot, p);
      }
    }
  }

  lemma SameIsWork(v: Volume, w: World, w': World, id: nat)
    requires w'.disk == w.disk && w'.open - {id} == w.open - {id} && w'.pend - {id} == w.pend - {id}
    ensures OthersWork(v, w, w', id)
  {
    forall a: nat, d: Draft | && a in w.open && a != id && w.open[a].writing && a in w.pend
                              && WorkOk(v, w.disk, w.open[a], w.pend[a], d)
      ensures a in w'.open && w'.open[a] == w.open[a] && a in w'.pend && w'.pend[a] == w.pend[a]
    {
      assert a in w.open - {id} && a in w.pend - {id};
      assert (w'.open - {id})[a] == (w.open - {id})[a] && (w'.pend - {id})[a] == (w.pend - {id})[a];
    }
  }

  // ---------------------------------------------------------------- records of other slots that appear

  /** Of other slots no sector has got an uncommitted record, nor a live one if the file is open. */
  ghost predicate TracesSpared(w: World, w': World, slot: u16) {
    && |w'.disk| == |w.disk| && (forall t: u16 | t != slot && Pinned(w.open, t) :: Pinned(w'.open, t))
    && (forall t: u16, p: nat {:trigger NoneBegun(w'.disk[p], t)}
          | t != slot && p < |w.disk| && NoneBegun(w.disk[p], t) :: NoneBegun(w'.disk[p], t))
    && (forall t: u16, p: nat {:trigger NoneNew(w.disk[p], w'.disk[p], t)}
          | t != slot && p < |w.disk| && Pinned(w.open, t) :: NoneNew(w.disk[p], w'.disk[p], t))
  }

  lemma SparedTracesMore(w: World, w1: World, w2: World, slot: u16)
    requires TracesSpared(w, w1, slot) && TracesSpared(w1, w2, slot)
    ensures TracesSpared(w, w2, slot)
  {
    forall t: u16, p: nat | t != slot && p < |w.disk| && NoneBegun(w.disk[p], t)
      ensures NoneBegun(w2.disk[p], t)
    {
      assert NoneBegun(w1.disk[p], t);
    }
    forall t: u16, p: nat | t != slot && p < |w.disk| && Pinned(w.open, t)
      ensures NoneNew(w.disk[p], w2.disk[p], t)
    {
      assert NoneNew(w.disk[p], w1.disk[p], t) && NoneNew(w1.disk[p], w2.disk[p], t);
    }
  }

  lemma PinnedOthers(open: OpenFiles, open': OpenFiles, id: nat, slot: u16)
    requires open' - {id} == open - {id} && (id in open ==> open[id].slot == slot)
    ensures forall t: u16 | t != slot && Pinned(open, t) :: Pinned(open', t)
  {
    forall t: u16 | t != slot && Pinned(open, t)
      ensures Pinned(open', t)
    {
      var a :| a in open && open[a].slot == t;
      assert a in open - {id} && (open' - {id})[a] == (open - {id})[a];
    }
  }

  lemma SparedTracesOwn(w: World, w': World, id: nat)
    requires Streaming.OthersKept(w, w', id) && id in w.open
    ensures TracesSpared(w, w', w.open[id].slot)
  {
    assert Streaming.KeptIn(w, w', id, Streaming.Records) && Streaming.KeptIn(w, w', id, Streaming.Readers);
  }

  lemma SparedTracesHinted(w: World, w': World, p: nat, slot: u16)
    requires p < |w.disk| == |w'.disk| && w'.disk == w.disk[p := w'.disk[p]] && w'.open == w.open
    requires w'.disk[p] == w.disk[p] || Hinted(w.disk[p], w'.disk[p])
    ensures TracesSpared(w, w', slot)
  {
  }

  lemma SparedTracesDimmed(v: Volume, w: World, w': World, slot: u16)
    requires Dimmed(v, w.disk, w'.disk, slot) && w'.open == w.open
    ensures TracesSpared(w, w', slot)
  {
    DimmedBegun(v, w.disk, w'.disk, slot);
    forall t: u16, p: nat | t != slot && p < |w.disk|
      ensures NoneNew(w.disk[p], w'.disk[p], t)
    {
      assert DimmedAt(v, w.disk, w'.disk, slot, p);
      if w'.disk[p] != w.disk[p] {
        FadedPlace(v, w.disk[p], w'.disk[p], slot, t);
      }
    }
  }

  lemma FadedPlace(v: Volume, s: Sec, s': Sec, slot: u16, other: u16)
    requires Faded(v, s, s', slot) && other != slot
    ensures NoneNew(s, s', other)
  {
    var k, k' := FirstLive(s.recs, other), FirstLive(s'.recs, other);
    assert k < |s.recs| ==> s'.recs[k] == s.recs[k];
    assert k' < |s'.recs| ==> s'.recs[k'] == s.recs[k'];
  }

  // ---------------------------------------------------------------- the records of other slots

  /** Records of all other slots are kept, with their data. */
  ghost predicate SlotsKept(disk: Disk, disk': Disk, slot: u16) {
    |disk'| == |disk| && forall other: u16, p: nat | other != slot && p < |disk| :: Keeps(disk[p], disk'[p], other)
  }

  lemma SlotsMore(disk: Disk, disk1: Disk, disk2: Disk, slot: u16)
    requires SlotsKept(disk, disk1, slot) && SlotsKept(disk1, disk2, slot)
    ensures SlotsKept(disk, disk2, slot)
  {
    forall other: u16, p: nat | other != slot && p < |disk|
      ensures Keeps(disk[p], disk2[p], other)
    {
      KeepsTransitive(disk[p], disk1[p], disk2[p], other);
    }
  }

  lemma SlotsQuiet(disk: Disk, disk': Disk, slot: u16)
    requires Compact.QuietDisk(disk, disk')
    ensures SlotsKept(disk, disk', slot)
  {
  }

  lemma SlotsHinted(disk: Disk, disk': Disk, p: nat, slot: u16)
    requires p < |disk| == |disk'| && disk' == disk[p := disk'[p]] && (disk'[p] == disk[p] || Hinted(disk[p], disk'[p]))
    ensures SlotsKept(disk, disk', slot)
  {
    if disk'[p] != disk[p] {
      HintedQuiet(disk[p], disk'[p]);
    }
  }

  lemma SlotsDimmed(v: Volume, disk: Disk, disk': Disk, slot: u16)
    requires Dimmed(v, disk, disk', slot)
    ensures SlotsKept(disk, disk', slot)
  {
    forall other: u16, p: nat | other != slot && p < |disk|
      ensures Keeps(disk[p], disk'[p], other)
    {
      assert DimmedAt(v, disk, disk', slot, p);
    }
  }

  /** Only this slot's entry may have changed. */
  ghost predicate OtherNames(w: World, w': World, slot: u16) {
    w'.index - {slot} == w.index - {slot} && w'.paths - {slot} == w.paths - {slot}
  }

  // ---------------------------------------------------------------- all of it

  datatype Side = TheirWork | TheirRecords | TheirTraces | TheirNames

  /** One side of it. Callers name the side they need. */
  ghost predicate SparedIn(v: Volume, w: World, w': World, id: nat, slot: u16, side: Side) {
    match side
    case TheirWork => OthersWork(v, w, w', id)
    case TheirRecords => SlotsKept(w.disk, w'.disk, slot)
    case TheirTraces => TracesSpared(w, w', slot)
    case TheirNames => OtherNames(w, w', slot)
  }

  /** Everybody but writer `id` and everything but the file of `slot` has been spared. */
  ghost predicate Spared(v: Volume, w: World, w': World, id: nat, slot: u16) {
    forall side {:trigger SparedIn(v, w, w', id, slot, side)} :: SparedIn(v, w, w', id, slot, side)
  }

  lemma SparedBy(v: Volume, w: World, w': World, id: nat, slot: u16)
    requires OthersWork(v, w, w', id) && SlotsKept(w.disk, w'.disk, slot) && OtherNames(w, w', slot)
    requires TracesSpared(w, w', slot)
    ensures Spared(v, w, w', id, slot)
  {
    forall side
      ensures SparedIn(v, w, w', id, slot, side)
    {
    }
  }

  lemma SparedMore(v: Volume, w: World, w1: World, w2: World, id: nat, slot: u16)
    requires Spared(v, w, w1, id, slot) && Spared(v, w1, w2, id, slot)
    ensures Spared(v, w, w2, id, slot)
  {
    forall side
      ensures SparedIn(v, w, w2, id, slot, side)
    {
      assert SparedIn(v, w, w1, id, slot, side) && SparedIn(v, w1, w2, id, slot, side);
      match side
      case TheirWork => WorkMore(v, w, w1, w2, id);
      case TheirRecords => SlotsMore(w.disk, w1.disk, w2.disk, slot);
      case TheirTraces => SparedTracesMore(w, w1, w2, slot);
      case TheirNames =>
    }
  }

  /** Of all files but that of `slot` nothing has changed. */
  ghost predicate OtherFiles(files: map<u16, File>, files': map<u16, File>, slot: u16) {
    files' - {slot} == files - {slot}
  }

  /** So all other writers are where they were. */
  lemma StayBySpared(v: Volume, e: Env, ds: map<nat, Draft>, e': Env, ds': map<nat, Draft>, id: nat, slot: u16)
    requires Spared(v, e.w, e'.w, id, slot) && OnlyWriter(e.w.open, id, slot) && Ready(v, e') && e'.g == e.g
    requires OtherFiles(e.w.files, e'.w.files, slot) && ds' - {id} == ds - {id}
    requires e.ranges.Keys - {id} <= e'.ranges.Keys
    ensures OthersStay(v, e, ds, e', ds', {id})
  {
    forall a | a !in {id}
      ensures Stays(v, e, ds, e', ds', a)
    {
      if WritableIn(v, e, ds, a) {
        var d := ds[a];
        assert SparedIn(v, e.w, e'.w, id, slot, TheirWork);
        assert a in ds - {id} && (ds - {id})[a] == d && (ds' - {id})[a] == d;
        assert WorkOk(v, e.w.disk, e.w.open[a], e.w.pend[a], d);
        CalmBySpared(v, e, e', id, slot, a);
        WalkStillBehind(v, e, e', a, d);
        StaysBy(v, e, ds, e', ds', a);
      }
    }
  }

  lemma WalkStillBehind(v: Volume, e: Env, e': Env, a: nat, d: Draft)
    requires WriterIn(v, e, a, d) && e'.g == e.g && RecordsStay(e.w.disk, e'.w.disk, e.w.open[a])
    requires |e'.w.disk| == |e.w.disk|
    ensures WalkBehind(e'.g, e'.w.disk, e.w.pend[a], d)
  {
    forall i: nat | i < |e.w.pend[a]| && Uncommitted(d, i)
      ensures e.w.open[a].Occupies(e.w.pend[a][i])
    {
      UncommittedOpen(v, e.w, a, d, i);
    }
  }

  lemma CalmBySpared(v: Volume, e: Env, e': Env, id: nat, slot: u16, a: nat)
    requires Spared(v, e.w, e'.w, id, slot) && Ready(v, e) && Ready(v, e') && e'.g == e.g && a in e.w.open
    requires OtherFiles(e.w.files, e'.w.files, slot) && e.w.open[a].slot != slot && a in e.w.pend
    ensures Calm(v, e, e', e.w.open[a].slot, PathOf(e.w, a))
  {
    var t := e.w.open[a].slot;
    assert InReady(v, e, TheFiles) && InReady(v, e', TheFiles) && InReady(v, e', TheWalk) && Pinned(e.w.open, t);
    assert SparedIn(v, e.w, e'.w, id, slot, TheirNames) && SparedIn(v, e.w, e'.w, id, slot, TheirTraces);
    assert SparedIn(v, e.w, e'.w, id, slot, TheirRecords);
    SameEntry(e.w.index, e'.w.index, slot, t);
    SameEntry(e.w.paths, e'.w.paths, slot, t);
    SameEntry(e.w.files, e'.w.files, slot, t);
    if Wary(e.w.disk, e.g, t) {
      if e.g.active && e.g.sector < |e.w.disk| {
        assert NoneNew(e.w.disk[e.g.sector], e'.w.disk[e.g.sector], t);
      }
      WaryKept(v, e.w, e'.w, e.g, t);
    }
  }

  lemma SameEntry<T>(m: map<u16, T>, m': map<u16, T>, slot: u16, t: u16)
    requires m' - {slot} == m - {slot} && t != slot
    ensures t in m' <==> t in m
    ensures t in m ==> m'[t] == m[t]
  {
    assert t in m <==> t in m - {slot};
    assert t in m' <==> t in m' - {slot};
    if t in m {
      assert (m - {slot})[t] == m[t] && (m' - {slot})[t] == m'[t];
    }
  }

  /** Nothing happened on flash. */
  lemma SparedSame(v: Volume, w: World, w': World, id: nat, slot: u16)
    requires w'.disk == w.disk && w'.open - {id} == w.open - {id} && w'.pend - {id} == w.pend - {id}
    requires OtherNames(w, w', slot) && (id in w.open ==> w.open[id].slot == slot)
    ensures Spared(v, w, w', id, slot)
  {
    SameIsWork(v, w, w', id);
    PinnedOthers(w.open, w'.open, id, slot);
    SparedBy(v, w, w', id, slot);
  }

  /** A writer's own work. */
  lemma SparedOwn(v: Volume, w: World, w': World, id: nat, slot: u16)
    requires Streaming.OthersKept(w, w', id) && Compact.QuietDisk(w.disk, w'.disk) && w'.index == w.index
    requires w'.paths == w.paths && id in w.open && w.open[id].slot == slot && OnlyWriter(w.open, id, slot)
    ensures Spared(v, w, w', id, slot)
  {
    KeptIsWork(v, w, w', id);
    SparedTracesOwn(w, w', id);
    SlotsQuiet(w.disk, w'.disk, slot);
    SparedBy(v, w, w', id, slot);
  }

  /** A full hint on a sector of the writer's own. */
  lemma SparedHint(v: Volume, w: World, w': World, id: nat, slot: u16, p: nat)
    requires id in w.open && w.open[id].Occupies(p) && Exclusive(w.open) && w' == w.(disk := w'.disk)
    requires p < |w.disk| == |w'.disk| && w'.disk == w.disk[p := w'.disk[p]] && Hinted(w.disk[p], w'.disk[p])
    ensures Spared(v, w, w', id, slot)
  {
    HintIsWork(v, w, w', id, p);
    SparedTracesHinted(w, w', p, slot);
    SlotsHinted(w.disk, w'.disk, p, slot);
    SparedBy(v, w, w', id, slot);
  }

  /** Records of the slot died. */
  lemma SparedDimmed(v: Volume, w: World, w': World, id: nat, slot: u16)
    requires OnlyWriter(w.open, id, slot) && w' == w.(disk := w'.disk) && Dimmed(v, w.disk, w'.disk, slot)
    ensures Spared(v, w, w', id, slot)
  {
    DimmedIsWork(v, w, w', id, slot);
    SparedTracesDimmed(v, w, w', slot);
    SlotsDimmed(v, w.disk, w'.disk, slot);
    SparedBy(v, w, w', id, slot);
  }
}
