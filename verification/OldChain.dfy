/** Tombstoning the extents of a chain that no name leads to any more (fffs_invalidate_old_chain). */
module OldChain {
  import opened Nor
  import opened SectorMd
  import opened SectorView
  import opened Files
  import opened Mounted
  import opened SectorOps
  import Counters
  import Gc
  import Compact

  /** Records of the slot may have died; everything else is as it was. */
  ghost predicate Faded(v: Volume, s: Sec, s': Sec, slot: u16) {
    && s'.footer == s.footer && s'.end == s.end && |s'.recs| == |s.recs| && SameBelow(s, s', Cursor(v, |s.recs|))
    && (forall k | 0 <= k < |s.recs| ::
          || s'.recs[k] == s.recs[k]
          || (&& s.recs[k].slot == slot && s'.recs[k] == s.recs[k].(state := s'.recs[k].state) && s.recs[k].Live()
              && !s'.recs[k].Live() && s'.recs[k].state != UNCOMMITTED))
    && (forall k | 0 <= k < |s.recs| && s.recs[k].DataEnd() <= |s.bytes| ::
          DataOf(s', s.recs[k]) == DataOf(s, s.recs[k]))
    && (forall other: u16 | other != slot :: Keeps(s, s', other))
  }

  /** A tombstone is a byte of the record itself. */
  lemma BurialFades(v: Volume, p: nat, s: Sec, s': Sec, k: nat)
    requires VolumeOk(v) && |s.bytes| == v.size && s == View(v, p, s.bytes) && k < |s.recs| && s.recs[k].Live()
    requires Burial(s, s', k) && !s'.recs[k].Live()
    ensures Faded(v, s, s', s.recs[k].slot)
  {
    RecordPlace(v, p, s, k);
  }

  lemma BurialAt(v: Volume, disk: Disk, p: nat, slot: u16, s': Sec)
    requires VolumeOk(v) && DiskOk(v, disk) && DataSector(v, p) && Lookup(disk[p], slot).Some?
    requires var k := FirstLive(disk[p].recs, slot); Burial(disk[p], s', k) && !s'.recs[k].Live()
    ensures Faded(v, disk[p], s', slot) && Lookup(s', slot).None?
  {
    assert Real(v, disk, p) && SaneAt(v, disk, p);
    BurialFades(v, p, disk[p], s', FirstLive(disk[p].recs, slot));
    BurialClears(v, disk[p], s', FirstLive(disk[p].recs, slot));
  }

  /** Whatever happened to a sector, records of the slot may have died twice over. */
  lemma FadedMore(v: Volume, s: Sec, s1: Sec, s2: Sec, slot: u16)
    requires Faded(v, s, s1, slot) && Faded(v, s1, s2, slot)
    ensures Faded(v, s, s2, slot)
  {
    forall k | 0 <= k < |s.recs|
      ensures || s2.recs[k] == s.recs[k]
              || (&& s.recs[k].slot == slot && s2.recs[k] == s.recs[k].(state := s2.recs[k].state) && s.recs[k].Live()
                  && !s2.recs[k].Live() && s2.recs[k].state != UNCOMMITTED)
    {
      assert s1.recs[k] == s.recs[k] || !s1.recs[k].Live();
    }
    forall k | 0 <= k < |s.recs| && s.recs[k].DataEnd() <= |s.bytes|
      ensures DataOf(s2, s.recs[k]) == DataOf(s, s.recs[k])
    {
      assert s1.recs[k].DataEnd() == s.recs[k].DataEnd() && s1.recs[k].dataOff == s.recs[k].dataOff;
      assert DataOf(s2, s1.recs[k]) == DataOf(s1, s1.recs[k]);
    }
    forall other: u16 | other != slot
      ensures Keeps(s, s2, other)
    {
      KeepsTransitive(s, s1, s2, other);
    }
  }

  lemma FadedNone(v: Volume, s: Sec, s': Sec, slot: u16)
    requires Faded(v, s, s', slot) && Lookup(s, slot).None?
    ensures Lookup(s', slot).None?
  {
    var k := FirstLive(s'.recs, slot);
    assert k < |s'.recs| ==> s'.recs[k] == s.recs[k];
  }

  /** A record that is still live is the one that was. */
  lemma FadedSame(v: Volume, s: Sec, s': Sec, slot: u16)
    requires Faded(v, s, s', slot) && (s.footer.Live? ==> OneLive(s.recs))
    ensures forall t: u16 :: NoneNew(s, s', t)
    ensures forall t: u16 | NoneBegun(s, t) :: NoneBegun(s', t)
  {
    forall t: u16
      ensures NoneNew(s, s', t)
    {
      var k := FirstLive(s'.recs, t);
      if Lookup(s', t).Some? {
        assert s'.recs[k] == s.recs[k];
        assert FirstLive(s.recs, t) == k;
      }
    }
  }

  /** Wherever something changed, records of the slot died. */
  ghost predicate Dimmed(v: Volume, disk: Disk, disk': Disk, slot: u16) {
    |disk'| == |disk| && forall p: nat {:trigger DimmedAt(v, disk, disk', slot, p)} :: DimmedAt(v, disk, disk', slot, p)
  }

  ghost predicate DimmedAt(v: Volume, disk: Disk, disk': Disk, slot: u16, p: nat) {
    p < |disk| && p < |disk'| ==> disk'[p] == disk[p] || (disk[p].footer.Live? && Faded(v, disk[p], disk'[p], slot))
  }

  lemma DimmedOne(v: Volume, disk0: Disk, disk: Disk, disk': Disk, slot: u16, p: nat)
    requires Dimmed(v, disk0, disk, slot) && p < |disk| == |disk'| && disk' == disk[p := disk'[p]]
    requires disk[p].footer.Live? && Faded(v, disk[p], disk'[p], slot)
    ensures Dimmed(v, disk0, disk', slot)
  {
    forall q: nat
      ensures DimmedAt(v, disk0, disk', slot, q)
    {
      assert DimmedAt(v, disk0, disk, slot, q);
      if q == p && disk[p] != disk0[p] {
        FadedMore(v, disk0[p], disk[p], disk'[p], slot);
      }
    }
  }

  lemma DimmedSame(v: Volume, disk: Disk, slot: u16)
    ensures Dimmed(v, disk, disk, slot)
  {
  }

  lemma DimmedMore(v: Volume, disk: Disk, disk1: Disk, disk2: Disk, slot: u16)
    requires Dimmed(v, disk, disk1, slot) && Dimmed(v, disk1, disk2, slot)
    ensures Dimmed(v, disk, disk2, slot)
  {
    forall q: nat
      ensures DimmedAt(v, disk, disk2, slot, q)
    {
      assert DimmedAt(v, disk, disk1, slot, q) && DimmedAt(v, disk1, disk2, slot, q);
      if q < |disk| && disk1[q] != disk[q] && disk2[q] != disk1[q] {
        FadedMore(v, disk[q], disk1[q], disk2[q], slot);
      }
    }
  }

  lemma DimmedNone(v: Volume, disk: Disk, disk': Disk, slot: u16, p: nat)
    requires Dimmed(v, disk, disk', slot) && p < |disk| && Lookup(disk[p], slot).None?
    ensures Lookup(disk'[p], slot).None?
  {
    assert DimmedAt(v, disk, disk', slot, p);
    if disk'[p] != disk[p] {
      FadedNone(v, disk[p], disk'[p], slot);
    }
  }

  /** No records appear when some die. */
  lemma DimmedTraces(v: Volume, disk: Disk, disk': Disk, slot: u16, p: nat)
    requires DiskOk(v, disk) && Dimmed(v, disk, disk', slot) && DataSector(v, p) && p < |disk|
    ensures forall t: u16 :: NoneNew(disk[p], disk'[p], t)
    ensures forall t: u16 | NoneBegun(disk[p], t) :: NoneBegun(disk'[p], t)
  {
    assert SaneAt(v, disk, p) && DimmedAt(v, disk, disk', slot, p);
    if disk'[p] != disk[p] {
      FadedSame(v, disk[p], disk'[p], slot);
    }
  }

  /** Tombstones the slot's record in a sector. If it is safe, that is, no file needs the record, no file
      notices. */
  method BuryInSector(fs: Volatile, p: nat, slot: u16, accounting: bool, ghost safe: bool)
    returns (status: Status, accounted: bool)
    requires VolumeOk(fs.v) && DiskOk(fs.v, fs.disk)
    requires safe ==> Holds(fs.v, fs.disk, fs.index, fs.paths, fs.files) && !Used(fs.index, fs.paths, slot, p)
    modifies fs`disk, fs`cuts, fs`committed
    ensures DiskOk(fs.v, fs.disk) && (accounted ==> status.Ok?)
    ensures if DataSector(fs.v, p) && Lookup(old(fs.disk)[p], slot).Some? then
              && status.Ok? && fs.disk == old(fs.disk)[p := fs.disk[p]]
              && Faded(fs.v, old(fs.disk)[p], fs.disk[p], slot)
              && Lookup(fs.disk[p], slot).None?
              && Accounted(old(fs.committed), fs.committed, Lookup(old(fs.disk)[p], slot).value, accounting, accounted)
            else fs.disk == old(fs.disk) && fs.committed == old(fs.committed) && !accounted
    ensures safe ==>
              && Holds(fs.v, fs.disk, fs.index, fs.paths, fs.files)
              && CutsKept(fs.v, old(fs.cuts), fs.cuts, fs.index, fs.files)
  {
    ghost var w := fs.Now();
    status, accounted := TombstoneMetadataForSlot(fs, p, slot, accounting);
    if DataSector(fs.v, p) && Lookup(w.disk[p], slot).Some? {
      BurialAt(fs.v, w.disk, p, slot, fs.disk[p]);
      if safe {
        BurialSafe(fs.v, w, fs.disk, p, slot, old(fs.cuts), fs.cuts);
      }
    }
  }

  lemma BurialSafe(v: Volume, w: World, disk': Disk, p: nat, slot: u16, cuts: iset<Image>, cuts': iset<Image>)
    requires VolumeOk(v) && DiskOk(v, w.disk) && Holds(v, w.disk, w.index, w.paths, w.files)
    requires !Used(w.index, w.paths, slot, p)
    requires p < |w.disk| == |disk'| && disk' == w.disk[p := disk'[p]] && Lookup(w.disk[p], slot).Some?
    requires DataSector(v, p)
    requires Faded(v, w.disk[p], disk'[p], slot)
    requires BurialCuts(w.disk, w.index, p, FirstLive(w.disk[p].recs, slot), cuts, cuts')
    ensures Holds(v, disk', w.index, w.paths, w.files) && CutsKept(v, cuts, cuts', w.index, w.files)
  {
    Gc.BurialSurvives(v, w, p, FirstLive(w.disk[p].recs, slot), cuts, cuts');
    SectorKept(v, w.disk, p, disk'[p], w.index, w.paths, w.files);
  }

  /** The first i extents of the chain are tombstoned, and nothing else has changed. */
  ghost predicate BuriedTo(v: Volume, disk0: Disk, disk: Disk, slot: u16, path: Path, i: nat) {
    && |disk| == |disk0| && i <= |path|
    && (forall p: nat | p < |disk| && p !in path[..i] :: disk[p] == disk0[p])
    && (forall p: nat | p < |disk| && p in path[..i] ::
          Faded(v, disk0[p], disk[p], slot) && Lookup(disk[p], slot).None?)
  }

  lemma BuriedMore(v: Volume, disk0: Disk, disk: Disk, disk': Disk, slot: u16, path: Path, i: nat)
    requires BuriedTo(v, disk0, disk, slot, path, i) && i < |path| && path[i] < |disk| == |disk'|
    requires path[i] !in path[..i]
    requires disk' == disk[path[i] := disk'[path[i]]] && Faded(v, disk[path[i]], disk'[path[i]], slot)
    requires Lookup(disk'[path[i]], slot).None?
    ensures BuriedTo(v, disk0, disk', slot, path, i + 1)
  {
    assert path[..i + 1] == path[..i] + [path[i]];
  }

  /** An extent that has not been reached yet is as it was. */
  lemma StillThere(v: Volume, disk0: Disk, disk: Disk, slot: u16, path: Path, i: nat, j: nat)
    requires Chain(v, disk0, slot, path) && |disk0| == v.sectors && BuriedTo(v, disk0, disk, slot, path, i)
    requires i <= j < |path|
    ensures path[j] !in path[..i] && path[j] in path && DataSector(v, path[j]) && disk[path[j]] == disk0[path[j]]
    ensures Lookup(disk[path[j]], slot).Some?
  {
    forall k | 0 <= k < i
      ensures path[k] != path[j]
    {
      NoReturn(v, disk0, slot, path, k, j);
    }
    assert Node(v, disk0, slot, path, j);
  }

  /** Nothing but records on this chain has died. */
  ghost predicate Within(disk0: Disk, disk: Disk, path: Path) {
    |disk| == |disk0| && forall p: nat | p < |disk| && p !in path :: disk[p] == disk0[p]
  }

  /** What holds while records of a chain are being tombstoned that no file needs. */
  ghost predicate Skirting(fs: Volatile, disk0: Disk, cuts0: iset<Image>, used0: set<nat>, slot: u16, path: Path)
    reads fs
  {
    && VolumeOk(fs.v) && DiskOk(fs.v, fs.disk) && Holds(fs.v, fs.disk, fs.index, fs.paths, fs.files)
    && Chain(fs.v, disk0, slot, path) && DiskOk(fs.v, disk0)
    && Dimmed(fs.v, disk0, fs.disk, slot) && Within(disk0, fs.disk, path)
    && CutsKept(fs.v, cuts0, fs.cuts, fs.index, fs.files)
    && (forall p | p in path :: !Used(fs.index, fs.paths, slot, p))
    && (forall p | p in used0 && p !in path :: p in fs.allocMap)
  }

  /** Where the slot still has a live record, it is the one that it had. */
  lemma SameRecord(v: Volume, disk0: Disk, disk: Disk, slot: u16, p: nat)
    requires DiskOk(v, disk0) && Dimmed(v, disk0, disk, slot) && DataSector(v, p) && Lookup(disk[p], slot).Some?
    ensures Lookup(disk0[p], slot) == Lookup(disk[p], slot)
  {
    DimmedTraces(v, disk0, disk, slot, p);
    assert NoneNew(disk0[p], disk[p], slot);
  }

  /** What was true of a sector when its burial began. */
  ghost predicate NotedRoot(disk: Disk, slot: u16, p: nat, c: Counters.Count, c': Counters.Count, root: bool,
                            accounted: bool) {
    && p < |disk| && Lookup(disk[p], slot).Some? && Accounted(c, c', Lookup(disk[p], slot).value, root, accounted)
  }

  /** All sectors of one span. The first may be a root that is to be accounted for. */
  method BurySpan(fs: Volatile, slot: u16, first: nat, span: nat, root: bool, ghost disk0: Disk,
                  ghost cuts0: iset<Image>, ghost used0: set<nat>,
                  ghost path: Path, ghost i: nat, ghost near: bool, ghost safe: bool)
    returns (ok: bool, accounted: bool)
    requires VolumeOk(fs.v) && DiskOk(fs.v, fs.disk) && DataSector(fs.v, first) && Lookup(fs.disk[first], slot).Some?
    requires 0 < span
    requires near ==> Skirting(fs, disk0, cuts0, used0, slot, path) && i + span <= |path|
    requires near ==> forall k | i <= k < i + span :: path[k] == first + (k - i)
    requires safe ==> near && BuriedTo(fs.v, disk0, fs.disk, slot, path, i)
    modifies fs`disk, fs`cuts, fs`committed
    ensures DiskOk(fs.v, fs.disk) && Dimmed(fs.v, old(fs.disk), fs.disk, slot) && Lookup(fs.disk[first], slot).None?
    ensures NotedRoot(old(fs.disk), slot, first, old(fs.committed), fs.committed, root, accounted)
    ensures near ==> Skirting(fs, disk0, cuts0, used0, slot, path)
    ensures safe ==> ok && BuriedTo(fs.v, disk0, fs.disk, slot, path, i + span)
  {
    var status;
    ghost var disk1 := fs.disk;
    status, accounted := BuryOne(fs, slot, first, root, disk0, cuts0, used0, path, i, near, safe);
    for t := 1 to span
      invariant DiskOk(fs.v, fs.disk) && Dimmed(fs.v, disk1, fs.disk, slot) && Lookup(fs.disk[first], slot).None?
      invariant NotedRoot(old(fs.disk), slot, first, old(fs.committed), fs.committed, root, accounted)
      invariant near ==> Skirting(fs, disk0, cuts0, used0, slot, path)
      invariant safe ==> BuriedTo(fs.v, disk0, fs.disk, slot, path, i + t)
    {
      ghost var disk2 := fs.disk;
      var noted;
      status, noted := BuryOne(fs, slot, first + t, false, disk0, cuts0, used0, path, i + t, near, safe);
      DimmedNone(fs.v, disk2, fs.disk, slot, first);
      DimmedMore(fs.v, disk1, disk2, fs.disk, slot);
      if !status.Ok? {
        return false, accounted;
      }
    }
    ok := true;
  }

  method BuryOne(fs: Volatile, slot: u16, p: nat, accounting: bool, ghost disk0: Disk, ghost cuts0: iset<Image>,
                 ghost used0: set<nat>,
                 ghost path: Path, ghost i: nat, ghost near: bool, ghost safe: bool)
    returns (status: Status, accounted: bool)
    requires VolumeOk(fs.v) && DiskOk(fs.v, fs.disk)
    requires near ==> Skirting(fs, disk0, cuts0, used0, slot, path) && i < |path| && path[i] == p
    requires safe ==> near && BuriedTo(fs.v, disk0, fs.disk, slot, path, i)
    modifies fs`disk, fs`cuts, fs`committed
    ensures DiskOk(fs.v, fs.disk) && Dimmed(fs.v, old(fs.disk), fs.disk, slot)
    ensures DataSector(fs.v, p) && Lookup(old(fs.disk)[p], slot).Some? ==>
              && status.Ok? && Lookup(fs.disk[p], slot).None?
              && NotedRoot(old(fs.disk), slot, p, old(fs.committed), fs.committed, accounting, accounted)
    ensures !accounting ==> !accounted && fs.committed == old(fs.committed)
    ensures near ==> Skirting(fs, disk0, cuts0, used0, slot, path)
    ensures safe ==> status.Ok? && BuriedTo(fs.v, disk0, fs.disk, slot, path, i + 1)
  {
    ghost var disk1 := fs.disk;
    if safe {
      StillThere(fs.v, disk0, fs.disk, slot, path, i, i);
    }
    status, accounted := BuryInSector(fs, p, slot, accounting, near);
    DimmedSame(fs.v, disk1, slot);
    if DataSector(fs.v, p) && Lookup(disk1[p], slot).Some? {
      DimmedOne(fs.v, disk1, disk1, fs.disk, slot, p);
    }
    if near {
      assert path[i] in path;
      DimmedMore(fs.v, disk0, disk1, fs.disk, slot);
    }
    if safe {
      BuriedMore(fs.v, disk0, disk1, fs.disk, slot, path, i);
    }
  }

  /** The note leads to the head of a chain that no file needs, and goes on somewhere on it. */
  ghost predicate Around(fs: Volatile, slot: u16, head: nat, next: nat, path: Path)
    reads fs
  {
    && Skirting(fs, fs.disk, fs.cuts, fs.allocMap, slot, path) && path[0] == head && (next == 0 || next in path)
  }

  /** The note leads to such a chain, and follows it. */
  ghost predicate OnChain(fs: Volatile, slot: u16, head: nat, next: nat, path: Path)
    reads fs
  {
    && Around(fs, slot, head, next, path) && BuriedTo(fs.v, fs.disk, fs.disk, slot, path, 0)
    && Node(fs.v, fs.disk, slot, path, 0) && next == RecordOf(fs.v, fs.disk, slot, path, 0).next
  }

  /** fffs_invalidate_old_chain. A chain that no file needs dies as a whole, span by span, no file notices, and
      its root is taken off the counters. If the note goes on somewhere else on the chain, some of it dies, and no
      file notices either. If there is no record of the slot at the head nothing happens. In any case all that
      happens is that records of the slot die, among them the one at the head. */
  method Invalidate(fs: Volatile, slot: u16, head: nat, next: nat, ghost path: Path) returns (ok: bool, accounted: bool)
    requires VolumeOk(fs.v) && DiskOk(fs.v, fs.disk)
    modifies fs`disk, fs`cuts, fs`allocMap, fs`committed
    ensures DiskOk(fs.v, fs.disk) && Dimmed(fs.v, old(fs.disk), fs.disk, slot)
    ensures old(OnChain(fs, slot, head, next, path)) ==>
              ok && BuriedTo(fs.v, old(fs.disk), fs.disk, slot, path, |path|)
    ensures old(Around(fs, slot, head, next, path)) ==>
              Skirting(fs, old(fs.disk), old(fs.cuts), old(fs.allocMap), slot, path)
    ensures head != 0 && (!DataSector(fs.v, head) || Lookup(old(fs.disk)[head], slot).None?) ==>
              && !ok && !accounted && fs.disk == old(fs.disk) && fs.cuts == old(fs.cuts)
              && fs.allocMap == old(fs.allocMap) && fs.committed == old(fs.committed)
    ensures head != 0 && DataSector(fs.v, head) && Lookup(old(fs.disk)[head], slot).Some? ==>
              && Lookup(fs.disk[head], slot).None?
              && NotedRoot(old(fs.disk), slot, head, old(fs.committed), fs.committed, true, accounted)
  {
    ghost var disk0, cuts0, used0, i: nat := fs.disk, fs.cuts, fs.allocMap, 0;
    ghost var safe, near, c0 := OnChain(fs, slot, head, next, path), Around(fs, slot, head, next, path), fs.committed;
    var current: nat, haveNext, depth := head, true, 0;
    accounted := false;
    DimmedSame(fs.v, disk0, slot);
    if safe {
      ChainLength(fs.v, disk0, slot, path);
    }
    while current != 0 && depth < fs.v.sectors
      invariant DiskOk(fs.v, fs.disk) && Dimmed(fs.v, disk0, fs.disk, slot) && (haveNext <==> depth == 0)
      invariant near ==>
                  && Skirting(fs, disk0, cuts0, used0, slot, path) && i <= |path| && current == After(path, i)
                  && (depth == 0 ==> i == 0)
      invariant safe ==> depth <= i && BuriedTo(fs.v, disk0, fs.disk, slot, path, i)
      invariant if depth == 0 then
                  && current == head && fs.disk == disk0 && fs.cuts == cuts0 && fs.allocMap == used0
                  && fs.committed == c0 && !accounted
                else
                  && DataSector(fs.v, head) && Lookup(fs.disk[head], slot).None?
                  && NotedRoot(disk0, slot, head, c0, fs.committed, true, accounted)
      decreases fs.v.sectors - depth
    {
      ghost var disk1 := fs.disk;
      var going, noted;
      going, noted, current, i := BuryNext(fs, slot, current, haveNext, next, disk0, cuts0, used0, path, i, near, safe);
      DimmedMore(fs.v, disk0, disk1, fs.disk, slot);
      if depth > 0 {
        DimmedNone(fs.v, disk1, fs.disk, slot, head);
      }
      accounted := accounted || noted;
      if !going {
        return false, accounted;
      }
      haveNext := false;
      depth := depth + 1;
    }
    if safe {
      Gc.NodeSector(fs.v, disk0, slot, path, i);
    }
    ok := current == 0;
  }

  /** One turn: the span that starts here, and where the chain goes on behind it. */
  method BuryNext(fs: Volatile, slot: u16, current: nat, haveNext: bool, next: nat, ghost disk0: Disk,
                  ghost cuts0: iset<Image>,
                  ghost used0: set<nat>, ghost path: Path, ghost i: nat, ghost near: bool, ghost safe: bool)
    returns (going: bool, accounted: bool, following: nat, ghost i': nat)
    requires VolumeOk(fs.v) && DiskOk(fs.v, fs.disk)
    requires near ==>
               && Skirting(fs, disk0, cuts0, used0, slot, path) && current == After(path, i) != 0
               && (haveNext ==> next == 0 || next in path)
    requires safe ==> near && BuriedTo(fs.v, disk0, fs.disk, slot, path, i)
    requires safe && haveNext ==>
               i == 0 && Node(fs.v, disk0, slot, path, 0) && next == RecordOf(fs.v, disk0, slot, path, 0).next
    modifies fs`disk, fs`cuts, fs`allocMap, fs`committed
    ensures DiskOk(fs.v, fs.disk) && Dimmed(fs.v, old(fs.disk), fs.disk, slot)
    ensures if DataSector(fs.v, current) && Lookup(old(fs.disk)[current], slot).Some? then
              && Lookup(fs.disk[current], slot).None?
              && NotedRoot(old(fs.disk), slot, current, old(fs.committed), fs.committed, haveNext, accounted)
            else
              && !going && !accounted && fs.disk == old(fs.disk) && fs.cuts == old(fs.cuts)
              && fs.allocMap == old(fs.allocMap) && fs.committed == old(fs.committed)
    ensures !haveNext ==> !accounted && fs.committed == old(fs.committed)
    ensures near ==> Skirting(fs, disk0, cuts0, used0, slot, path)
    ensures near && going ==> i' <= |path| && following == After(path, i')
    ensures safe ==> going && i < i' && BuriedTo(fs.v, disk0, fs.disk, slot, path, i')
  {
    going, accounted, following, i' := false, false, current, i;
    DimmedSame(fs.v, fs.disk, slot);
    if near {
      Gc.SpanCovers(fs.v, disk0, slot, path, i, current);
      SpanRun(fs.v, disk0, slot, path, i);
    }
    if safe {
      StillThere(fs.v, disk0, fs.disk, slot, path, i, i);
    }
    var status, r := ReadMdForSlot(fs, current, slot);
    if !status.Ok? {
      return;
    }
    if near {
      SameRecord(fs.v, disk0, fs.disk, slot, current);
    }
    SpanInside(fs.v, fs.disk, current, slot);
    if current + r.span > fs.v.sectors {
      return;
    }
    following := if haveNext then next else r.next;
    ForgetRange(fs, current, r.span, disk0, cuts0, used0, slot, path, i, near);
    going, accounted := BurySpan(fs, slot, current, r.span, haveNext, disk0, cuts0, used0, path, i, near, safe);
    i' := i + r.span;
    if near && !safe && haveNext {
      i' := if next == 0 then |path| else Position(path, next);
    }
  }

  ghost function Position(path: Path, p: nat): (i: nat)
    requires p in path
    ensures i < |path| && path[i] == p
  {
    var i: nat :| i < |path| && path[i] == p;
    i
  }

  /** fffs_alloc_map_mark_range_unknown. */
  method ForgetRange(fs: Volatile, first: nat, span: nat, ghost disk0: Disk, ghost cuts0: iset<Image>,
                     ghost used0: set<nat>,
                     ghost slot: u16, ghost path: Path, ghost i: nat, ghost near: bool)
    requires near ==> Skirting(fs, disk0, cuts0, used0, slot, path) && i + span <= |path|
    requires near ==> forall k | i <= k < i + span :: path[k] == first + (k - i)
    modifies fs`allocMap
    ensures near ==> Skirting(fs, disk0, cuts0, used0, slot, path)
  {
    if near {
      forall p: nat | first <= p < first + span
        ensures p in path
      {
        assert path[i + (p - first)] == p;
      }
    }
    fs.allocMap := set p | p in fs.allocMap && !(first <= p < first + span);
  }

  /** A record that decodes spans at least its own sector and no sector behind the last. */
  lemma SpanInside(v: Volume, disk: Disk, p: nat, slot: u16)
    requires VolumeOk(v) && DiskOk(v, disk) && DataSector(v, p) && Lookup(disk[p], slot).Some?
    ensures var r := Lookup(disk[p], slot).value; 0 < r.span && p + r.span <= v.sectors
  {
    assert Real(v, disk, p);
    RecordAt(v, p, disk[p].bytes, FirstLive(disk[p].recs, slot));
  }

  lemma SpanRun(v: Volume, disk: Disk, slot: u16, path: Path, i: nat)
    requires Chain(v, disk, slot, path) && i < |path| && path[i] < |disk|
    ensures var r := Lookup(disk[path[i]], slot);
      r.Some? && i + r.value.span <= |path| && forall k | i <= k < i + r.value.span :: path[k] == path[i] + (k - i)
  {
    assert Node(v, disk, slot, path, i);
  }
}
