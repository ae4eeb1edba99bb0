/** The allocator: reservations of writers, the compaction reserve, the cursor scan, and what is tried
    when there is no room (src/fffs_alloc.c, with the allocation map in its default form). */
module Alloc {
  import opened Nor
  import opened SectorMd
  import opened SectorView
  import opened Files
  import opened Mounted
  import opened Extents
  import Gc
  import GcPass
  import Compact

  const RESERVE_SECTORS: nat := 4
  const TARGET_DENSITY: nat := 6

  // ---------------------------------------------------------------- exclusivity

  /** The sectors reserved by different writers are different, and an erased one among them is not in
      the compaction reserve. */
  ghost predicate RangesOk(v: Volume, disk: Disk, reserve: seq<nat>, ranges: map<nat, Range>) {
    && (forall id, p: nat | id in ranges && ranges[id].Has(p) ::
          DataSector(v, p) && (p < |disk| && p in reserve ==> !Wiped(disk[p])))
    && (forall id, id', p: nat | id in ranges && id' in ranges && id != id' && ranges[id].Has(p) :: !ranges[id'].Has(p))
  }

  /** The map knows the erased sectors of the compaction reserve. */
  ghost predicate MapOk(disk: Disk, reserve: seq<nat>, used: set<nat>) {
    forall p | p in reserve && p < |disk| && Wiped(disk[p]) :: p in used
  }

  ghost predicate AllocOk(v: Volume, open: OpenFiles, h: Hold, ranges: map<nat, Range>) {
    Compact.ReserveOk(v, open, h.reserve) && MapOk(h.disk, h.reserve, h.used) && RangesOk(v, h.disk, h.reserve, ranges)
  }

  /** Whatever collector and compaction do keeps this. */
  lemma AllocKept(v: Volume, open: OpenFiles, h: Hold, h': Hold, ranges: map<nat, Range>)
    requires AllocOk(v, open, h, ranges) && ReserveKept(h, h')
    ensures AllocOk(v, open, h', ranges)
  {
    forall id, p: nat | id in ranges && ranges[id].Has(p)
      ensures DataSector(v, p) && (p < |h'.disk| && p in h'.reserve ==> !Wiped(h'.disk[p]))
    {
      if p < |h'.disk| && p in h'.reserve {
        assert p in h.reserve;
      }
    }
  }

  /** sector_reserved_by_other. */
  predicate ReservedByOther(ranges: map<nat, Range>, id: nat, p: nat) {
    exists other | other in ranges :: other != id && ranges[other].Has(p)
  }

  /** fffs_alloc_release_reservation. */
  method Release(fs: Volatile, id: nat)
    requires id in fs.ranges
    modifies fs`ranges, fs`allocMap
    ensures fs.ranges == old(fs.ranges)[id := Range(0, 0)]
    ensures old(AllocOk(fs.v, fs.open, fs.Held(), fs.ranges)) ==> AllocOk(fs.v, fs.open, fs.Held(), fs.ranges)
  {
    var range := fs.ranges[id];
    ghost var orderly := AllocOk(fs.v, fs.open, fs.Held(), fs.ranges);
    for i := 0 to range.count
      invariant fs.ranges == old(fs.ranges) && (orderly ==> AllocOk(fs.v, fs.open, fs.Held(), fs.ranges))
    {
      if orderly {
        Unmapped(fs.v, fs.open, fs.Held(), fs.ranges, id, range.first + i);
      }
      fs.allocMap := fs.allocMap - {range.first + i};
    }
    if orderly {
      Narrowed(fs.v, fs.open, fs.Held(), fs.ranges, id, Range(0, 0));
    }
    fs.ranges := fs.ranges[id := Range(0, 0)];
  }

  /** A sector that a writer has reserved may leave the map. */
  lemma Unmapped(v: Volume, open: OpenFiles, h: Hold, ranges: map<nat, Range>, id: nat, p: nat)
    requires AllocOk(v, open, h, ranges) && id in ranges && ranges[id].Has(p)
    ensures AllocOk(v, open, h.(used := h.used - {p}), ranges)
  {
  }

  /** A reservation may shrink. */
  lemma Narrowed(v: Volume, open: OpenFiles, h: Hold, ranges: map<nat, Range>, id: nat, part: Range)
    requires AllocOk(v, open, h, ranges) && id in ranges && forall p: nat | part.Has(p) :: ranges[id].Has(p)
    ensures AllocOk(v, open, h, ranges[id := part])
  {
  }

  /** halve_reservations: every writer gives up the upper half of what it has reserved. */
  method HalveReservations(fs: Volatile) returns (released: bool)
    requires AllocOk(fs.v, fs.open, fs.Held(), fs.ranges)
    modifies fs`ranges, fs`allocMap
    ensures AllocOk(fs.v, fs.open, fs.Held(), fs.ranges) && fs.ranges.Keys == old(fs.ranges).Keys
    ensures released == exists id | id in old(fs.ranges) :: old(fs.ranges)[id].count != 0
    ensures forall id | id in fs.ranges :: fs.ranges[id].count == old(fs.ranges)[id].count / 2
  {
    released := false;
    var ids := fs.ranges.Keys;
    while ids != {}
      invariant ids <= old(fs.ranges).Keys && fs.ranges.Keys == old(fs.ranges).Keys
      invariant AllocOk(fs.v, fs.open, fs.Held(), fs.ranges)
      invariant forall id | id in ids :: fs.ranges[id] == old(fs.ranges)[id]
      invariant forall id | id in fs.ranges && id !in ids :: fs.ranges[id].count == old(fs.ranges)[id].count / 2
      invariant released == exists id | id in old(fs.ranges) && id !in ids :: old(fs.ranges)[id].count != 0
    {
      var id :| id in ids;
      if fs.ranges[id].count != 0 {
        HalveOne(fs, id);
        released := true;
      }
      ids := ids - {id};
    }
  }

  method HalveOne(fs: Volatile, id: nat)
    requires AllocOk(fs.v, fs.open, fs.Held(), fs.ranges) && id in fs.ranges
    modifies fs`ranges, fs`allocMap
    ensures AllocOk(fs.v, fs.open, fs.Held(), fs.ranges) && fs.ranges.Keys == old(fs.ranges).Keys
    ensures fs.ranges[id].count == old(fs.ranges)[id].count / 2
    ensures forall other | other in fs.ranges && other != id :: fs.ranges[other] == old(fs.ranges)[other]
  {
    var range := fs.ranges[id];
    var keep := range.count / 2;
    for i := keep to range.count
      invariant fs.ranges == old(fs.ranges) && AllocOk(fs.v, fs.open, fs.Held(), fs.ranges)
    {
      Unmapped(fs.v, fs.open, fs.Held(), fs.ranges, id, range.first + i);
      fs.allocMap := fs.allocMap - {range.first + i};
    }
    var part := Range(if keep == 0 then 0 else range.first, keep);
    Narrowed(fs.v, fs.open, fs.Held(), fs.ranges, id, part);
    fs.ranges := fs.ranges[id := part];
  }

  /** sector_can_be_reserved. */
  predicate CanBeReserved(v: Volume, open: OpenFiles, used: set<nat>, ranges: map<nat, Range>, id: nat, p: nat) {
    DataSector(v, p) && p !in used && !IsOpen(open, p) && !ReservedByOther(ranges, id, p)
  }

  /** reserve_after: the sectors behind the one a writer has got, as far as they are free. */
  method ReserveAfter(fs: Volatile, id: nat, sector: nat)
    requires AllocOk(fs.v, fs.open, fs.Held(), fs.ranges) && id in fs.ranges && |fs.disk| == fs.v.sectors
    modifies fs`ranges, fs`allocMap
    ensures AllocOk(fs.v, fs.open, fs.Held(), fs.ranges) && fs.ranges.Keys == old(fs.ranges).Keys
    ensures forall other | other in fs.ranges && other != id :: fs.ranges[other] == old(fs.ranges)[other]
  {
    var next := if fs.ranges[id].count != 0 then fs.ranges[id].first + fs.ranges[id].count else sector + 1;
    while fs.ranges[id].count < RESERVE_SECTORS && next < fs.v.sectors
      invariant fs.ranges.Keys == old(fs.ranges).Keys && AllocOk(fs.v, fs.open, fs.Held(), fs.ranges)
      invariant fs.ranges[id].count != 0 ==> next == fs.ranges[id].first + fs.ranges[id].count
      invariant forall other | other in fs.ranges && other != id :: fs.ranges[other] == old(fs.ranges)[other]
    {
      if !CanBeReserved(fs.v, fs.open, fs.allocMap, fs.ranges, id, next) {
        break;
      }
      ReserveOne(fs, id, next);
      next := next + 1;
    }
  }

  method ReserveOne(fs: Volatile, id: nat, p: nat)
    requires AllocOk(fs.v, fs.open, fs.Held(), fs.ranges) && id in fs.ranges && |fs.disk| == fs.v.sectors
    requires CanBeReserved(fs.v, fs.open, fs.allocMap, fs.ranges, id, p)
    requires fs.ranges[id].count != 0 ==> p == fs.ranges[id].first + fs.ranges[id].count
    modifies fs`ranges, fs`allocMap
    ensures AllocOk(fs.v, fs.open, fs.Held(), fs.ranges) && fs.ranges.Keys == old(fs.ranges).Keys
    ensures fs.ranges[id].count == old(fs.ranges)[id].count + 1 && p + 1 == fs.ranges[id].first + fs.ranges[id].count
    ensures forall other | other in fs.ranges && other != id :: fs.ranges[other] == old(fs.ranges)[other]
  {
    var range := fs.ranges[id];
    var more := Range(if range.count == 0 then p else range.first, range.count + 1);
    assert forall q: nat :: more.Has(q) <==> range.Has(q) || q == p;
    fs.ranges := fs.ranges[id := more];
    fs.allocMap := fs.allocMap + {p};
  }

  // ---------------------------------------------------------------- what an allocation hands out

  function WholeSector(v: Volume): Window
    requires VolumeOk(v)
  {
    Window(0, v.size - FOOTER_SIZE - RECORD_SIZE, true, 0)
  }

  /** A sector that no open writer occupies and that is not reserved for compaction, with a window that
      is free for a record of this slot. */
  ghost predicate Allocated(v: Volume, disk: Disk, open: OpenFiles, reserve: seq<nat>, p: nat, w: Window, slot: u16) {
    && DataSector(v, p) && p < |disk| && !IsOpen(open, p) && p !in reserve
    && Granted(v, disk[p], w, MIN_USABLE, slot)
  }

  lemma WholeGranted(v: Volume, s: Sec, slot: u16)
    requires VolumeOk(v) && |s.bytes| == v.size && Wiped(s)
    ensures Granted(v, s, WholeSector(v), MIN_USABLE, slot)
  {
  }

  lemma ErasedIsWiped(v: Volume, disk: Disk, p: nat)
    requires VolumeOk(v) && AllReal(v, disk) && p < |disk| && AllErased(disk[p].bytes)
    ensures Wiped(disk[p]) && |disk[p].bytes| == v.size
  {
    assert Real(v, disk, p);
    assert FooterErased(v, disk[p].bytes);
  }

  /** try_reserved_sector: the first reserved sector, if it is still free and erased. */
  method TryReserved(fs: Volatile, id: nat, slot: u16) returns (p: nat, w: Window, skip: Option<nat>)
    requires Sound(fs.v, fs.Now()) && AllocOk(fs.v, fs.open, fs.Held(), fs.ranges) && id in fs.ranges
    modifies fs`ranges, fs`allocMap
    ensures AllocOk(fs.v, fs.open, fs.Held(), fs.ranges) && fs.ranges.Keys == old(fs.ranges).Keys
    ensures w.Window? ==> w.needsFooter && Allocated(fs.v, fs.disk, fs.open, fs.reserve, p, w, slot)
    ensures w.NoWindow? ==> fs.ranges[id].count == 0
  {
    p, w, skip := 0, NoWindow(false), None;
    var range := fs.ranges[id];
    if range.count == 0 {
      return;
    }
    p := range.first;
    assert range.Has(p);
    if IsOpen(fs.open, p) || ReservedByOther(fs.ranges, id, p) || !AllErased(fs.disk[p].bytes) {
      Release(fs, id);
      skip := Some(p);
      return;
    }
    ErasedIsWiped(fs.v, fs.disk, p);
    WholeGranted(fs.v, fs.disk[p], slot);
    w := WholeSector(fs.v);
    TakeFirst(fs, id);
    ReserveAfter(fs, id, p);
  }

  method TakeFirst(fs: Volatile, id: nat)
    requires AllocOk(fs.v, fs.open, fs.Held(), fs.ranges) && id in fs.ranges && fs.ranges[id].count > 0
    modifies fs`ranges, fs`allocMap
    ensures AllocOk(fs.v, fs.open, fs.Held(), fs.ranges) && fs.ranges.Keys == old(fs.ranges).Keys
  {
    var range := fs.ranges[id];
    assert range.Has(range.first);
    var rest := if range.count == 1 then Range(0, 0) else Range(range.first + 1, range.count - 1);
    Unmapped(fs.v, fs.open, fs.Held(), fs.ranges, id, range.first);
    fs.allocMap := fs.allocMap - {range.first};
    Narrowed(fs.v, fs.open, fs.Held(), fs.ranges, id, rest);
    fs.ranges := fs.ranges[id := rest];
  }

  // ---------------------------------------------------------------- the scan from the cursor

  lemma WalkSearched(v: Volume, w: World, disk': Disk, g: GcWalk)
    requires WalkOk(v, w, g) && Compact.Searched(w.open, w.disk, disk')
    ensures WalkOk(v, w.(disk := disk'), g)
  {
    var w' := w.(disk := disk');
    if g.active {
      assert disk'[g.sector].recs == w.disk[g.sector].recs && disk'[g.sector].footer.Live?;
      assert forall slot: u16 :: Needed(w', slot, g.sector) == Needed(w, slot, g.sector);
    }
  }

  /** While the search goes on nothing but full hints is written. */
  ghost predicate Searching(fs: Volatile, w0: World, cuts0: iset<Image>)
    reads fs
  {
    && fs.Valid() && fs.Now() == w0.(disk := fs.disk) && Compact.Searched(w0.open, w0.disk, fs.disk)
    && CutsSafe(fs.v, cuts0, fs.cuts, fs.files) && AllocOk(fs.v, fs.open, fs.Held(), fs.ranges)
  }

  method ProbeFor(fs: Volatile, p: nat, slot: u16, ghost w0: World, ghost cuts0: iset<Image>) returns (w: Window)
    requires Searching(fs, w0, cuts0) && DataSector(fs.v, p) && !IsOpen(fs.open, p)
    modifies fs`disk, fs`cuts
    ensures Searching(fs, w0, cuts0) && (w.Window? ==> Granted(fs.v, fs.disk[p], w, MIN_USABLE, slot))
    ensures Wiped(fs.disk[p]) ==> w.Window? && w.needsFooter
    ensures forall q: nat | q < |fs.disk| && Wiped(fs.disk[q]) :: Wiped(old(fs.disk)[q])
  {
    ghost var w1, h1 := fs.Now(), fs.Held();
    Compact.SearchedSelf(w1.open, w1.disk);
    w := Compact.Probe(fs, p, MIN_USABLE, slot, true, w1.disk, cuts0);
    WalkSearched(fs.v, w1, fs.disk, fs.gcMd);
    Compact.SearchedAgain(w0.open, w0.disk, w1.disk, fs.disk);
    Compact.SearchedReserve(fs.open, h1, fs.Held());
    AllocKept(fs.v, fs.open, h1, fs.Held(), fs.ranges);
  }

  lemma AddReserve(v: Volume, open: OpenFiles, h: Hold, ranges: map<nat, Range>, id: nat, p: nat)
    requires AllocOk(v, open, h, ranges) && DataSector(v, p) && !IsOpen(open, p) && p !in h.reserve
    requires |h.reserve| < Compact.COMPACTION_RESERVE
    requires id in ranges && ranges[id].count == 0 && !ReservedByOther(ranges, id, p)
    ensures AllocOk(v, open, h.(reserve := h.reserve + [p], used := h.used + {p}), ranges)
  {
    forall i, q: nat | i in ranges && ranges[i].Has(q)
      ensures q != p
    {
      assert i != id;
    }
  }

  /** alloc_sector_once. A new file first tops up the compaction reserve with what it finds. */
  method AllocOnce(fs: Volatile, id: nat, slot: u16, continuation: bool, skip: Option<nat>) returns (p: nat, w: Window)
    requires fs.Valid() && AllocOk(fs.v, fs.open, fs.Held(), fs.ranges) && id in fs.ranges && fs.ranges[id].count == 0
    modifies fs`disk, fs`cuts, fs`reserve, fs`ranges, fs`allocMap, fs`allocCursor
    ensures Searching(fs, old(fs.Now()), old(fs.cuts)) && fs.ranges.Keys == old(fs.ranges).Keys
    ensures w.Window? ==> (continuation ==> w.needsFooter) && Allocated(fs.v, fs.disk, fs.open, fs.reserve, p, w, slot)
    ensures w.NoWindow? ==> fs.ranges == old(fs.ranges)
  {
    p := Gc.Normalized(fs.v, fs.allocCursor);
    ghost var w0, cuts0 := fs.Now(), fs.cuts;
    Compact.SearchedSelf(w0.open, w0.disk);
    var checked := 0;
    while checked < fs.v.sectors - fs.v.index
      invariant Searching(fs, w0, cuts0) && DataSector(fs.v, p) && fs.ranges == old(fs.ranges)
    {
      if !(|| (skip.Some? && p == skip.value) || IsOpen(fs.open, p) || ReservedByOther(fs.ranges, id, p)
           || p in fs.reserve || p in fs.allocMap) {
        w := Consider(fs, id, slot, continuation, p, w0, cuts0);
        if w.Window? {
          if w.records >= TARGET_DENSITY {
            fs.allocCursor := Gc.NextDataSector(fs.v, p);
          }
          return;
        }
      }
      p := Gc.NextDataSector(fs.v, p);
      checked := checked + 1;
    }
    w := NoWindow(false);
  }

  /** One sector that nobody has: take it, or put it into the compaction reserve, or leave it. */
  method Consider(fs: Volatile, id: nat, slot: u16, continuation: bool, p: nat, ghost w0: World,
                  ghost cuts0: iset<Image>)
    returns (w: Window)
    requires Searching(fs, w0, cuts0) && id in fs.ranges && fs.ranges[id].count == 0
    requires DataSector(fs.v, p) && !IsOpen(fs.open, p) && !ReservedByOther(fs.ranges, id, p) && p !in fs.reserve
    modifies fs`disk, fs`cuts, fs`reserve, fs`ranges, fs`allocMap
    ensures Searching(fs, w0, cuts0) && fs.ranges.Keys == old(fs.ranges).Keys
    ensures w.Window? ==> (continuation ==> w.needsFooter) && Allocated(fs.v, fs.disk, fs.open, fs.reserve, p, w, slot)
    ensures w.NoWindow? ==> fs.ranges == old(fs.ranges)
  {
    w := ProbeFor(fs, p, slot, w0, cuts0);
    if w.NoWindow? || (continuation && !w.needsFooter) {
      return NoWindow(false);
    }
    if !continuation && |fs.reserve| < Compact.COMPACTION_RESERVE {
      AddReserve(fs.v, fs.open, fs.Held(), fs.ranges, id, p);
      fs.reserve := fs.reserve + [p];
      fs.allocMap := fs.allocMap + {p};
      return NoWindow(false);
    }
    if w.needsFooter {
      ReserveAfter(fs, id, p);
    }
  }

  // ---------------------------------------------------------------- the ladder

  /** What every rung keeps. */
  ghost predicate Climbed(fs: Volatile, w0: World, cuts0: iset<Image>, g0: GcWalk)
    reads fs
  {
    && fs.Valid() && Compact.SameFiles(fs.v, w0, fs.Now(), cuts0, fs.cuts)
    && AllocOk(fs.v, fs.open, fs.Held(), fs.ranges)
    && GcPass.WalkElsewhere(w0, g0, fs.disk, fs.gcMd)
  }

  lemma SearchClimbs(v: Volume, w0: World, w: World, disk': Disk, cuts0: iset<Image>, cuts: iset<Image>,
                     cuts': iset<Image>)
    requires Compact.SameFiles(v, w0, w, cuts0, cuts) && Sound(v, w.(disk := disk'))
    requires Compact.Searched(w.open, w.disk, disk')
    requires CutsSafe(v, cuts, cuts', w.files)
    ensures Compact.SameFiles(v, w0, w.(disk := disk'), cuts0, cuts') && Compact.TwinsKept(v, w, w.(disk := disk'))
  {
    Compact.SearchPreserves(v, w, disk', cuts, cuts');
    Compact.PreservedMore(v, w0, w, w.(disk := disk'), cuts0, cuts, cuts');
  }

  /** Without any collecting: the writer's own reservation, then the scan, then the scan once more after
      every writer has given up half of its reservation. */
  method QuickAlloc(fs: Volatile, id: nat, slot: u16, continuation: bool) returns (p: nat, w: Window)
    requires fs.Valid() && AllocOk(fs.v, fs.open, fs.Held(), fs.ranges) && id in fs.ranges
    modifies fs`disk, fs`cuts, fs`reserve, fs`ranges, fs`allocMap, fs`allocCursor
    ensures Climbed(fs, old(fs.Now()), old(fs.cuts), old(fs.gcMd)) && fs.ranges.Keys == old(fs.ranges).Keys
    ensures w.Window? ==> (continuation ==> w.needsFooter) && Allocated(fs.v, fs.disk, fs.open, fs.reserve, p, w, slot)
    ensures Compact.Searched(fs.open, old(fs.disk), fs.disk)
  {
    Compact.SearchedSelf(fs.open, fs.disk);
    GcPass.SameHere(fs.v, fs.Now(), fs.cuts);
    GcPass.ElsewhereResting(fs.v, fs.Now(), fs.Now(), fs.gcMd);
    var skip;
    p, w, skip := TryReserved(fs, id, slot);
    if w.Window? {
      return;
    }
    p, w := ScanTwice(fs, id, slot, continuation, skip);
  }

  method ScanTwice(fs: Volatile, id: nat, slot: u16, continuation: bool, skip: Option<nat>) returns (p: nat, w: Window)
    requires fs.Valid() && AllocOk(fs.v, fs.open, fs.Held(), fs.ranges) && id in fs.ranges && fs.ranges[id].count == 0
    modifies fs`disk, fs`cuts, fs`reserve, fs`ranges, fs`allocMap, fs`allocCursor
    ensures Compact.Searched(fs.open, old(fs.disk), fs.disk)
    ensures Climbed(fs, old(fs.Now()), old(fs.cuts), old(fs.gcMd)) && fs.ranges.Keys == old(fs.ranges).Keys
    ensures w.Window? ==> (continuation ==> w.needsFooter) && Allocated(fs.v, fs.disk, fs.open, fs.reserve, p, w, slot)
  {
    ghost var w0, cuts0 := fs.Now(), fs.cuts;
    GcPass.SameHere(fs.v, w0, cuts0);
    p, w := AllocOnce(fs, id, slot, continuation, skip);
    SearchClimbs(fs.v, w0, w0, fs.disk, cuts0, cuts0, fs.cuts);
    if w.NoWindow? {
      var released := HalveReservations(fs);
      if released {
        ghost var w1, cuts1 := fs.Now(), fs.cuts;
        p, w := AllocOnce(fs, id, slot, continuation, skip);
        Compact.SearchedAgain(fs.open, w0.disk, w1.disk, fs.disk);
        SearchClimbs(fs.v, w0, w1, fs.disk, cuts0, cuts1, fs.cuts);
      }
    }
    GcPass.ElsewhereResting(fs.v, w0, fs.Now(), fs.gcMd);
  }

  /** allocate_erased_gc_sector. */
  method GcAlloc(fs: Volatile, id: nat, slot: u16, allowed: Candidate -> bool, scratch: nat)
    returns (status: Status, p: nat, w: Window)
    requires fs.Valid() && AllocOk(fs.v, fs.open, fs.Held(), fs.ranges) && id in fs.ranges && 0 < scratch
    requires GcPass.DataSectors(fs.v) >= 2 && NoStrays(fs.v, fs.Now())
    modifies fs`disk, fs`cuts, fs`gcCursor, fs`gcMd, fs`candidates, fs`reserve, fs`ranges, fs`allocMap, fs`allocCursor,
             fs`nextSerial,
             fs`index, fs`journal, fs`paths
    ensures Climbed(fs, old(fs.Now()), old(fs.cuts), old(fs.gcMd)) && fs.ranges.Keys == old(fs.ranges).Keys
    ensures w.Window? == status.Ok?
    ensures (w.Window? ==> w.needsFooter && Allocated(fs.v, fs.disk, fs.open, fs.reserve, p, w, slot))
    ensures status.ErrNoSpace? ==> !fs.gcMd.active && GcPass.AllCompactable(fs.v, fs.Now(), fs.reserve, fs.candidates)
    ensures fs.gcMd.active ==> GcPass.Stayed(old(fs.Now()), fs.Now())
    ensures status.ErrCorrupt? ==> GcPass.Mangled(fs.v, fs.disk)
    ensures status.ErrNoSpace? ==>
              GcPass.NothingErased(fs.v, fs.open, fs.Held()) && GcPass.Crowded(fs.v, fs.Now())
  {
    var erased;
    ghost var h0 := fs.Held();
    status, erased := GcPass.GcUntilErased(fs, allowed, scratch);
    AllocKept(fs.v, fs.open, h0, fs.Held(), fs.ranges);
    p, w := 0, NoWindow(false);
    if status.Ok? {
      p, w := erased.value, WholeSector(fs.v);
      RealSize(fs.v, fs.disk, p);
      WholeGranted(fs.v, fs.disk[p], slot);
      ReserveAfter(fs, id, p);
    }
  }

  /** try_compaction_reserve_for_alloc: give up a sector of the compaction reserve. */
  method TryCompactionReserve(fs: Volatile, id: nat, slot: u16, continuation: bool) returns (p: nat, w: Window)
    requires fs.Valid() && AllocOk(fs.v, fs.open, fs.Held(), fs.ranges) && id in fs.ranges
    modifies fs`disk, fs`cuts, fs`reserve, fs`ranges, fs`allocMap, fs`allocCursor
    ensures Searching(fs, old(fs.Now()), old(fs.cuts)) && fs.ranges.Keys == old(fs.ranges).Keys
    ensures w.Window? ==> (continuation ==> w.needsFooter) && Allocated(fs.v, fs.disk, fs.open, fs.reserve, p, w, slot)
    ensures w.NoWindow? ==>
              && fs.reserve == old(fs.reserve) && NoneFreed(old(fs.Held()), fs.Held())
              && forall q | q in fs.reserve && q < |fs.disk| :: !Wiped(fs.disk[q])
  {
    ghost var w0, cuts0 := fs.Now(), fs.cuts;
    Compact.SearchedSelf(w0.open, w0.disk);
    for i := 0 to |fs.reserve|
      invariant Searching(fs, w0, cuts0) && fs.ranges == old(fs.ranges) && fs.reserve == old(fs.reserve)
      invariant forall j | 0 <= j < i && fs.reserve[j] < |fs.disk| :: !Wiped(fs.disk[fs.reserve[j]])
    {
      p, w := TryOne(fs, id, slot, continuation, i, w0, cuts0);
      if w.Window? {
        return;
      }
    }
    SearchedFreed(fs.open, old(fs.Held()), fs.Held());
    return 0, NoWindow(false);
  }

  method TryOne(fs: Volatile, id: nat, slot: u16, continuation: bool, i: nat, ghost w0: World, ghost cuts0: iset<Image>)
    returns (p: nat, w: Window)
    requires Searching(fs, w0, cuts0) && id in fs.ranges && i < |fs.reserve|
    modifies fs`disk, fs`cuts, fs`reserve, fs`ranges, fs`allocMap, fs`allocCursor
    ensures Searching(fs, w0, cuts0) && fs.ranges.Keys == old(fs.ranges).Keys
    ensures w.Window? ==> (continuation ==> w.needsFooter) && Allocated(fs.v, fs.disk, fs.open, fs.reserve, p, w, slot)
    ensures w.NoWindow? ==>
              && fs.reserve == old(fs.reserve) && fs.ranges == old(fs.ranges)
              && fs.reserve[i] < |fs.disk| && !Wiped(fs.disk[fs.reserve[i]])
              && forall q: nat | q < |fs.disk| && Wiped(fs.disk[q]) :: Wiped(old(fs.disk)[q])
  {
    p := fs.reserve[i];
    w := ProbeFor(fs, p, slot, w0, cuts0);
    if w.Window? && (!continuation || w.needsFooter) {
      GiveUp(fs, id, p, w.needsFooter);
    } else {
      w := NoWindow(false);
    }
  }

  lemma SearchedFreed(open: OpenFiles, h: Hold, h': Hold)
    requires Compact.Searched(open, h.disk, h'.disk) && h'.reserve == h.reserve
    ensures NoneFreed(h, h')
  {
  }

  method GiveUp(fs: Volatile, id: nat, p: nat, whole: bool)
    requires AllocOk(fs.v, fs.open, fs.Held(), fs.ranges) && id in fs.ranges && |fs.disk| == fs.v.sectors
    modifies fs`reserve, fs`ranges, fs`allocMap, fs`allocCursor
    ensures AllocOk(fs.v, fs.open, fs.Held(), fs.ranges) && fs.ranges.Keys == old(fs.ranges).Keys && p !in fs.reserve
  {
    Compact.Unreserve(fs, p);
    AllocKept(fs.v, fs.open, old(fs.Held()), fs.Held(), fs.ranges);
    if whole {
      ReserveAfter(fs, id, p);
    }
    fs.allocCursor := p;
  }

  /** The last rung: compaction with fewer scruples, on the candidates of the last pass. */
  method RelaxedCompaction(fs: Volatile, id: nat, slot: u16, allowed: Candidate -> bool, scratch: nat)
    returns (status: Status, p: nat, w: Window)
    requires fs.Valid() && !fs.gcMd.active && AllocOk(fs.v, fs.open, fs.Held(), fs.ranges) && id in fs.ranges
    requires 0 < scratch
    requires GcPass.AllCompactable(fs.v, fs.Now(), fs.reserve, fs.candidates)
    modifies fs`disk, fs`cuts, fs`reserve, fs`ranges, fs`allocMap, fs`allocCursor, fs`nextSerial, fs`index, fs`journal,
             fs`paths
    ensures Climbed(fs, old(fs.Now()), old(fs.cuts), old(fs.gcMd)) && fs.ranges.Keys == old(fs.ranges).Keys
    ensures w.Window? == status.Ok?
    ensures (w.Window? ==> w.needsFooter && Allocated(fs.v, fs.disk, fs.open, fs.reserve, p, w, slot))
    ensures !status.Ok? ==> status.ErrNoSpace? && NoneFreed(old(fs.Held()), fs.Held())
    ensures !status.Ok? ==> ReserveKept(old(fs.Held()), fs.Held())
  {
    var erased;
    ghost var h0, w0 := fs.Held(), fs.Now();
    status, erased := GcPass.CompactUntilErased(fs, allowed, true, scratch);
    GcPass.ElsewhereResting(fs.v, w0, fs.Now(), fs.gcMd);
    AllocKept(fs.v, fs.open, h0, fs.Held(), fs.ranges);
    p, w := 0, NoWindow(false);
    if status.Ok? {
      p, w := erased.value, WholeSector(fs.v);
      RealSize(fs.v, fs.disk, p);
      WholeGranted(fs.v, fs.disk[p], slot);
      ReserveAfter(fs, id, p);
    }
  }

  /** fffs_alloc_next_sector. Whatever it takes to find the sector, no file changes, no open writer loses
      anything, and the sector is nobody else's: no open writer has it as head, as current sector or in
      its span, and compaction will not use it. */
  method AllocNextSector(fs: Volatile, id: nat, slot: u16, continuation: bool, allowed: Candidate -> bool, scratch: nat)
    returns (status: Status, p: nat, w: Window)
    requires fs.Valid() && AllocOk(fs.v, fs.open, fs.Held(), fs.ranges) && id in fs.ranges && 0 < scratch
    requires GcPass.DataSectors(fs.v) >= 2 && NoStrays(fs.v, fs.Now())
    modifies fs`disk, fs`cuts, fs`gcCursor, fs`gcMd, fs`candidates, fs`reserve, fs`ranges, fs`allocMap, fs`allocCursor,
             fs`nextSerial,
             fs`index, fs`journal, fs`paths
    ensures Climbed(fs, old(fs.Now()), old(fs.cuts), old(fs.gcMd)) && fs.ranges.Keys == old(fs.ranges).Keys
    ensures status.Ok? ==>
              w.Window? && (continuation ==> w.needsFooter) && Allocated(fs.v, fs.disk, fs.open, fs.reserve, p, w, slot)
    ensures !status.Ok? ==> NoRoom(fs.v, fs.Now(), status)
    ensures fs.gcMd.active ==> GcPass.Stayed(old(fs.Now()), fs.Now())
  {
    ghost var w0, cuts0, g0 := fs.Now(), fs.cuts, fs.gcMd;
    p, w := QuickAlloc(fs, id, slot, continuation);
    SearchedStayed(w0, fs.Now());
    if w.Window? {
      return Ok, p, w;
    }
    ghost var w1, cuts1, g1 := fs.Now(), fs.cuts, fs.gcMd;
    status, p, w := GcAlloc(fs, id, slot, allowed, scratch);
    ClimbedMore(fs.v, w0, w1, fs.Now(), cuts0, cuts1, fs.cuts, g0, g1, fs.gcMd);
    if fs.gcMd.active {
      GcPass.StayedMore(w0, w1, fs.Now());
    }
    if !status.ErrNoSpace? {
      return;
    }
    ghost var w2, cuts2, g2 := fs.Now(), fs.cuts, fs.gcMd;
    status, p, w := LastResorts(fs, id, slot, continuation, allowed, scratch);
    ClimbedMore(fs.v, w0, w2, fs.Now(), cuts0, cuts2, fs.cuts, g0, g2, fs.gcMd);
  }

  /** Why an allocation failed: no sector is erased but those of open writers, and the collector has found something
      that is needed in all of them, save the few that are kept for compaction; or it has met a footer that it does
      not know. */
  ghost predicate NoRoom(v: Volume, w: World, status: Status) {
    match status
    case Ok => false
    case ErrNoSpace =>
      && GcPass.Crowded(v, w)
      && forall p: nat | DataSector(v, p) && p < |w.disk| && !IsOpen(w.open, p) :: !Wiped(w.disk[p])
    case ErrCorrupt => GcPass.Mangled(v, w.disk)
  }

  lemma SearchedStayed(w: World, w': World)
    requires Compact.Searched(w.open, w.disk, w'.disk) && w'.index == w.index && w'.paths == w.paths
    ensures GcPass.Stayed(w, w')
  {
    Compact.SearchedQuiet(w.open, w.disk, w'.disk);
  }

  lemma ClimbedMore(v: Volume, w: World, w1: World, w2: World, cuts: iset<Image>, cuts1: iset<Image>,
                    cuts2: iset<Image>, g: GcWalk, g1: GcWalk, g2: GcWalk)
    requires Compact.SameFiles(v, w, w1, cuts, cuts1) && Compact.SameFiles(v, w1, w2, cuts1, cuts2)
    requires GcPass.WalkElsewhere(w, g, w1.disk, g1) && GcPass.WalkElsewhere(w1, g1, w2.disk, g2)
    ensures Compact.SameFiles(v, w, w2, cuts, cuts2) && GcPass.WalkElsewhere(w, g, w2.disk, g2)
  {
    Compact.PreservedMore(v, w, w1, w2, cuts, cuts1, cuts2);
    GcPass.ElsewhereMore(w, g, w1, g1, w2.disk, g2);
  }

  method LastResorts(fs: Volatile, id: nat, slot: u16, continuation: bool, allowed: Candidate -> bool, scratch: nat)
    returns (status: Status, p: nat, w: Window)
    requires fs.Valid() && !fs.gcMd.active && AllocOk(fs.v, fs.open, fs.Held(), fs.ranges) && id in fs.ranges
    requires 0 < scratch
    requires GcPass.AllCompactable(fs.v, fs.Now(), fs.reserve, fs.candidates)
    requires GcPass.NothingErased(fs.v, fs.open, fs.Held()) && GcPass.Crowded(fs.v, fs.Now())
    modifies fs`disk, fs`cuts, fs`reserve, fs`ranges, fs`allocMap, fs`allocCursor, fs`nextSerial, fs`index, fs`journal,
             fs`paths
    ensures Climbed(fs, old(fs.Now()), old(fs.cuts), old(fs.gcMd)) && fs.ranges.Keys == old(fs.ranges).Keys
    ensures status.Ok? ==>
              w.Window? && (continuation ==> w.needsFooter) && Allocated(fs.v, fs.disk, fs.open, fs.reserve, p, w, slot)
    ensures !status.Ok? ==> NoRoom(fs.v, fs.Now(), status)
  {
    ghost var w0, cuts0, reserve0, h0 := fs.Now(), fs.cuts, fs.reserve, fs.Held();
    GcPass.SameHere(fs.v, w0, cuts0);
    p, w := TryCompactionReserve(fs, id, slot, continuation);
    SearchClimbs(fs.v, w0, w0, fs.disk, cuts0, cuts0, fs.cuts);
    GcPass.ElsewhereResting(fs.v, w0, fs.Now(), fs.gcMd);
    if w.Window? {
      return Ok, p, w;
    }
    GcPass.StillCompactable(fs.v, w0, fs.Now(), reserve0, fs.reserve, fs.candidates);
    ghost var w1, cuts1, h1, g1 := fs.Now(), fs.cuts, fs.Held(), fs.gcMd;
    status, p, w := RelaxedCompaction(fs, id, slot, allowed, scratch);
    ClimbedMore(fs.v, w0, w1, fs.Now(), cuts0, cuts1, fs.cuts, g1, g1, fs.gcMd);
    if !status.Ok? {
      GcPass.CrowdedStill(fs.v, w0, fs.Now(), cuts0, fs.cuts);
      NoneLeft(fs.v, fs.Now(), h0, h1, fs.Held(), status);
    }
  }

  /** Nothing was erased outside the reserve, then nothing in it, and it has stayed like that. */
  lemma NoneLeft(v: Volume, w: World, h: Hold, h1: Hold, h2: Hold, status: Status)
    requires GcPass.NothingErased(v, w.open, h) && NoneFreed(h, h1) && NoneFreed(h1, h2) && ReserveKept(h1, h2)
    requires (forall q | q in h1.reserve && q < |h1.disk| :: !Wiped(h1.disk[q])) && w.disk == h2.disk
    requires status.ErrNoSpace? && GcPass.Crowded(v, w)
    ensures NoRoom(v, w, status)
  {
    GcPass.StillNothing(v, w.open, h, h1);
    GcPass.StillNothing(v, w.open, h1, h2);
    forall p: nat | DataSector(v, p) && p < |w.disk| && !IsOpen(w.open, p)
      ensures !Wiped(w.disk[p])
    {
      if p in h2.reserve {
        assert p in h1.reserve;
      }
    }
  }
}
