/** The collector: reachability, classification of records and the incremental step (src/fffs_gc.c). */
module Gc {
  import opened Nor
  import opened SectorMd
  import opened SectorView
  import opened Files
  import opened Mounted
  import opened SectorOps

  /** sector_is_reachable_from_chain: walks span by span, and is exact on every chain. */
  method ReachableFromChain(fs: Volatile, slot: u16, head: nat, sector: nat, ghost path: Path)
    returns (status: Status, reachable: bool)
    requires VolumeOk(fs.v) && DiskOk(fs.v, fs.disk)
    ensures Chain(fs.v, fs.disk, slot, path) && path[0] == head ==> status.Ok? && (reachable <==> sector in path)
  {
    var current: nat, depth: nat := head, 0;
    ghost var i: nat := 0;
    ghost var given := Chain(fs.v, fs.disk, slot, path) && path[0] == head;
    if given {
      ChainLength(fs.v, fs.disk, slot, path);
    }
    while current != 0 && depth < fs.v.sectors
      invariant depth <= fs.v.sectors
      invariant given ==> depth <= i <= |path| && current == After(path, i) && sector !in path[..i]
      decreases fs.v.sectors - depth
    {
      var st, r := ReadMdForSlot(fs, current, slot);
      if given {
        SpanCovers(fs.v, fs.disk, slot, path, i, sector);
      }
      if !st.Ok? {
        return st, false;
      }
      if current + r.span > fs.v.sectors {
        return ErrCorrupt, false;
      }
      if current <= sector < current + r.span {
        return Ok, true;
      }
      i := i + r.span;
      current := r.next;
      depth := depth + 1;
    }
    if given {
      assert path[..|path|] == path;
      NodeSector(fs.v, fs.disk, slot, path, i);
    }
    return if current != 0 then ErrCorrupt else Ok, false;
  }

  lemma NodeSector(v: Volume, disk: Disk, slot: u16, path: Path, i: nat)
    requires Chain(v, disk, slot, path)
    ensures i < |path| ==> DataSector(v, path[i]) && path[i] != 0
    ensures |path| <= v.sectors - v.index
  {
    ChainLength(v, disk, slot, path);
    assert i < |path| ==> Node(v, disk, slot, path, i);
  }

  /** The record at position i of a chain covers exactly the sectors of its span, and links behind it. */
  lemma SpanCovers(v: Volume, disk: Disk, slot: u16, path: Path, i: nat, sector: nat)
    requires Chain(v, disk, slot, path) && i <= |path| && After(path, i) != 0 && |disk| == v.sectors
    ensures i < |path| && DataSector(v, path[i]) && Lookup(disk[path[i]], slot).Some?
    ensures var r := Lookup(disk[path[i]], slot).value;
      && 0 < r.span && i + r.span <= |path| && path[i] + r.span <= v.sectors && r.next == After(path, i + r.span)
      && (path[i] <= sector < path[i] + r.span ==> sector in path)
      && (!(path[i] <= sector < path[i] + r.span) && sector !in path[..i] ==> sector !in path[..i + r.span])
  {
    assert Node(v, disk, slot, path, i);
    var r := Lookup(disk[path[i]], slot).value;
    assert forall k | i <= k < i + r.span :: path[k] == path[i] + (k - i);
    var last := i + r.span - 1;
    assert Node(v, disk, slot, path, last) && path[last] == path[i] + (last - i);
    if path[i] <= sector < path[i] + r.span {
      assert path[i + (sector - path[i])] == sector;
    }
  }

  // ---------------------------------------------------------------- classification

  /** Record j of sector p was tombstoned. */
  ghost predicate BuriedAt(disk: Disk, disk': Disk, p: nat, j: nat) {
    && p < |disk| == |disk'| && disk' == disk[p := disk'[p]]
    && Burial(disk[p], disk'[p], j) && !disk'[p].recs[j].Live()
  }

  /** What classification makes of record j of sector p: it is live for the sake of an open file or
      because its file reaches it; or nothing needs it, and it is dead, a stray, or tombstoned now. */
  ghost predicate Classified(w: World, p: nat, j: nat, disk': Disk, live: bool) {
    && p < |w.disk| && j < |w.disk[p].recs|
    && var r := w.disk[p].recs[j];
    if live then
      r.Live() && disk' == w.disk && (Pinned(w.open, r.slot) || Used(w.index, w.paths, r.slot, p))
    else
      && (r.Live() ==> !Needed(w, r.slot, p) && !Pinned(w.open, r.slot))
      && ((disk' == w.disk && (r.Live() ==> r.slot !in w.index)) || (r.Live() && BuriedAt(w.disk, disk', p, j)))
  }

  /** gc_classify_record. */
  method ClassifyRecord(fs: Volatile, p: nat, j: nat, r: Md) returns (status: Status, live: bool)
    requires Sound(fs.v, fs.Now()) && DataSector(fs.v, p) && fs.disk[p].footer.Live?
    requires j < |fs.disk[p].recs| && r == fs.disk[p].recs[j]
    modifies fs`disk, fs`cuts
    ensures DiskOk(fs.v, fs.disk) && status.Ok?
    ensures Classified(old(fs.Now()), p, j, fs.disk, live)
    ensures CutsKept(fs.v, old(fs.cuts), fs.cuts, fs.index, fs.files)
  {
    ghost var w := fs.Now();
    if !r.Live() {
      return Ok, false;
    }
    if Pinned(fs.open, r.slot) {
      return Ok, true;
    }
    NotPending(w, r.slot, p);
    if r.slot !in fs.index {
      return Ok, false;
    }
    assert Files.Stored(fs.v, fs.disk, fs.index, fs.paths, r.slot, fs.files[r.slot]);
    status, live := ReachableFromChain(fs, r.slot, fs.index[r.slot], p, fs.paths[r.slot]);
    if !status.Ok? {
      return status, false;
    }
    if !live {
      status := BuryRecord(fs, p, j, r.slot);
    }
  }

  /** Tombstones record j of sector p, which is of no use to any stored file. */
  method BuryRecord(fs: Volatile, p: nat, j: nat, slot: u16) returns (status: Status)
    requires VolumeOk(fs.v) && DiskOk(fs.v, fs.disk) && Holds(fs.v, fs.disk, fs.index, fs.paths, fs.files)
    requires DataSector(fs.v, p) && fs.disk[p].footer.Live? && j < |fs.disk[p].recs|
    requires fs.disk[p].recs[j].Live() && slot == fs.disk[p].recs[j].slot && !Used(fs.index, fs.paths, slot, p)
    modifies fs`disk, fs`cuts
    ensures DiskOk(fs.v, fs.disk) && status.Ok? && BuriedAt(old(fs.disk), fs.disk, p, j)
    ensures CutsKept(fs.v, old(fs.cuts), fs.cuts, fs.index, fs.files)
  {
    assert SaneAt(fs.v, fs.disk, p);
    OnlyLive(fs.v, fs.disk[p], j);
    var accounted;
    status, accounted := TombstoneMetadataForSlot(fs, p, slot, false);
    BurialSurvives(fs.v, old(fs.Now()), p, j, old(fs.cuts), fs.cuts);
  }

  lemma NotPending(w: World, slot: u16, p: nat)
    requires !Pinned(w.open, slot)
    ensures !Pending(w, slot, p)
  {
  }

  /** A live record is the first one of its slot. */
  lemma OnlyLive(v: Volume, s: Sec, j: nat)
    requires Sane(v, s) && s.footer.Live? && j < |s.recs| && s.recs[j].Live()
    ensures Lookup(s, s.recs[j].slot) == Some(s.recs[j]) && FirstLive(s.recs, s.recs[j].slot) == j
  {
    assert FirstLive(s.recs, s.recs[j].slot) <= j;
  }

  /** Tombstoning a record that no file uses never costs a file anything, cut short or not. */
  lemma BurialSurvives(v: Volume, w: World, p: nat, k: nat, before: iset<Image>, after: iset<Image>)
    requires Holds(v, w.disk, w.index, w.paths, w.files) && p < |w.disk| && k < |w.disk[p].recs|
    requires !Used(w.index, w.paths, w.disk[p].recs[k].slot, p) && BurialCuts(w.disk, w.index, p, k, before, after)
    ensures CutsKept(v, before, after, w.index, w.files)
  {
    forall c | c in after && c !in before
      ensures Survives(v, c, w.files)
    {
      forall slot: u16 | Used(w.index, w.paths, slot, p)
        ensures Keeps(w.disk[p], c.disk[p], slot)
      {
        assert w.disk[p].recs[k].slot != slot;
      }
      CutSurvives(v, w, p, c);
    }
  }

  lemma ClassifiedKept(w: World, p: nat, j: nat, disk': Disk, live: bool)
    requires Classified(w, p, j, disk', live) && !IsOpen(w.open, p)
    ensures Kept(w, disk')
  {
    if disk' != w.disk {
      forall slot: u16 | Needed(w, slot, p)
        ensures Keeps(w.disk[p], disk'[p], slot)
      {
        assert w.disk[p].recs[j].slot != slot;
      }
      KeptOne(w, p, disk'[p]);
    }
  }

  /** What the walk knows grows by the record that was classified. */
  lemma ClassifiedNone(w: World, p: nat, j: nat, disk': Disk, live: bool)
    requires Classified(w, p, j, disk', live) && !live && NoneNeeded(w, p, w.disk[p].recs, j)
    ensures p < |disk'| && NoneNeeded(w.(disk := disk'), p, disk'[p].recs, j + 1)
  {
    forall slot: u16 | Needed(w.(disk := disk'), slot, p)
      ensures j + 1 <= FirstLive(disk'[p].recs, slot)
    {
      assert Needed(w, slot, p);
      var recs, recs' := w.disk[p].recs, disk'[p].recs;
      var k := FirstLive(recs', slot);
      if k < |recs'| && k != j {
        assert recs'[k] == recs[k];
      }
    }
  }

  lemma ClassifiedInUse(w: World, p: nat, j: nat, disk': Disk, live: bool)
    requires Classified(w, p, j, disk', live) && AllInUse(w, p, w.disk[p].recs, j)
    requires live ==> !Pinned(w.open, w.disk[p].recs[j].slot)
    ensures p < |disk'| && AllInUse(w.(disk := disk'), p, disk'[p].recs, j + 1)
  {
    var w', recs' := w.(disk := disk'), disk'[p].recs;
    forall k | && 0 <= k < j + 1 && k < |recs'|
               && recs'[k].Live() && recs'[k].typ == TYPE_ROOT && recs'[k].slot in w'.index
      ensures Used(w'.index, w'.paths, recs'[k].slot, p)
    {
      if k < j {
        assert recs'[k] == w.disk[p].recs[k];
      }
    }
  }

  // ---------------------------------------------------------------- sectors without use

  /** A needed record of a sector that no writer occupies can be found there. */
  lemma NeededIsThere(v: Volume, w: World, slot: u16, p: nat)
    requires Sound(v, w) && Needed(w, slot, p) && !IsOpen(w.open, p)
    ensures p < |w.disk| && w.disk[p].footer.Live? && FirstLive(w.disk[p].recs, slot) < |w.disk[p].recs|
  {
    if Used(w.index, w.paths, slot, p) {
      assert Files.Stored(v, w.disk, w.index, w.paths, slot, w.files[slot]);
      var i: nat :| i < |w.paths[slot]| && w.paths[slot][i] == p;
      assert Node(v, w.disk, slot, w.paths[slot], i);
    } else {
      var id :| id in w.open && id in w.pend && w.open[id].writing && w.open[id].slot == slot && p in w.pend[id];
      assert Extends(w, id, p);
    }
  }

  /** The sector can go: it is not live, or the walk has seen all its records and none is needed. */
  ghost predicate Useless(w: World, p: nat) {
    p < |w.disk| && !IsOpen(w.open, p) && forall slot: u16 :: !Needed(w, slot, p)
  }

  lemma DeadIsUseless(v: Volume, w: World, p: nat)
    requires Sound(v, w) && p < |w.disk| && !IsOpen(w.open, p)
    requires !w.disk[p].footer.Live? || NoneNeeded(w, p, w.disk[p].recs, |w.disk[p].recs|)
    ensures Useless(w, p)
  {
    forall slot: u16
      ensures !Needed(w, slot, p)
    {
      if Needed(w, slot, p) {
        NeededIsThere(v, w, slot, p);
      }
    }
  }

  lemma UselessGoes(v: Volume, w: World, p: nat, disk': Disk, before: iset<Image>, after: iset<Image>)
    requires Sound(v, w) && Useless(w, p) && DiskOk(v, disk') && disk' == w.disk[p := disk'[p]]
    requires CutsAt(w.disk, w.index, p, before, after)
    ensures Kept(w, disk') && Sound(v, w.(disk := disk')) && CutsKept(v, before, after, w.index, w.files)
  {
    KeptOne(w, p, disk'[p]);
    KeptSound(v, w, disk');
    forall c | c in after && c !in before
      ensures Survives(v, c, w.files)
    {
      forall slot: u16
        ensures !Used(w.index, w.paths, slot, p)
      {
        assert !Needed(w, slot, p);
      }
      CutSurvives(v, w, p, c);
    }
  }

  // ---------------------------------------------------------------- what holds a sector

  /** A live record that the collector leaves alone: one of an open file, or one that its file reaches. */
  ghost predicate Holding(w: World, p: nat, k: nat) {
    && p < |w.disk| && w.disk[p].footer.Live? && k < |w.disk[p].recs|
    && var r := w.disk[p].recs[k]; r.Live() && (Pinned(w.open, r.slot) || Used(w.index, w.paths, r.slot, p))
  }

  ghost predicate HeldFrom(w: World, p: nat, n: nat) { exists k: nat :: n <= k && Holding(w, p, k) }

  predicate Walking(g: GcWalk, p: nat) { g.active && g.sector == p }

  /** The sector is held, and a walk under way has seen that or will. */
  ghost predicate Watched(w: World, g: GcWalk, p: nat) {
    HeldFrom(w, p, 0) && (Walking(g, p) ==> g.liveSeen || HeldFrom(w, p, g.pos))
  }

  /** The sector is not held, or a walk under way has come past what holds it without seeing that. */
  ghost predicate Forsaken(w: World, g: GcWalk, p: nat) {
    if Walking(g, p) then !g.liveSeen && !HeldFrom(w, p, g.pos) else !HeldFrom(w, p, 0)
  }

  /** The sector is not held, but a walk under way has seen something live that is gone by now. */
  ghost predicate Fading(w: World, g: GcWalk, p: nat) {
    p < |w.disk| && w.disk[p].footer.Live? && !HeldFrom(w, p, 0) && Walking(g, p) && g.liveSeen
  }

  /** What a scan of the next record makes of this. */
  ghost predicate ScanNotes(w: World, g: GcWalk, w': World, g': GcWalk, p: nat) {
    forall q: nat {:trigger ScanNotesIs(w, g, w', g', q)} | q == p :: ScanNotesIs(w, g, w', g', q)
  }

  ghost predicate ScanNotesIs(w: World, g: GcWalk, w': World, g': GcWalk, p: nat) {
    && (Watched(w, g, p) ==> HeldFrom(w', p, 0) && (g'.liveSeen || (g'.active && HeldFrom(w', p, g'.pos))))
    && (Forsaken(w, g, p) ==> !g'.liveSeen && (g'.active ==> !HeldFrom(w', p, g'.pos)))
    && (Fading(w, g, p) ==> !HeldFrom(w', p, 0) && g'.liveSeen)
  }

  /** The classification of record j. */
  lemma ClassifiedHolds(w: World, p: nat, j: nat, disk': Disk, live: bool, k: nat)
    requires Classified(w, p, j, disk', live) && w.disk[p].footer.Live?
    ensures k != j ==> (Holding(w.(disk := disk'), p, k) <==> Holding(w, p, k))
    ensures Holding(w, p, j) <==> live
    ensures Holding(w.(disk := disk'), p, j) <==> live
  {
    var r := w.disk[p].recs[j];
    assert Used(w.index, w.paths, r.slot, p) ==> Needed(w, r.slot, p);
    if disk' != w.disk {
      assert Buried(w.disk[p], disk'[p], j);
    }
  }

  lemma FoundNotes(w: World, g: GcWalk, disk': Disk, live: bool, r: Md, pinned: bool, claimed: nat, active: bool)
    requires g.active && Classified(w, g.sector, g.pos, disk', live) && w.disk[g.sector].footer.Live?
    requires active || g.pos + 1 == |w.disk[g.sector].recs|
    ensures ScanNotes(w, g, w.(disk := disk'), Noted(g, r, live, pinned).(claimed := claimed, active := active),
                      g.sector)
  {
    var p, w', g' := g.sector, w.(disk := disk'), Noted(g, r, live, pinned).(claimed := claimed, active := active);
    forall k: nat
      ensures k != g.pos ==> (Holding(w', p, k) <==> Holding(w, p, k))
      ensures (Holding(w, p, g.pos) <==> live) && (Holding(w', p, g.pos) <==> live)
    {
      ClassifiedHolds(w, p, g.pos, disk', live, k);
    }
    ClassifiedHolds(w, p, g.pos, disk', live, 0);
    if Watched(w, g, p) {
      WatchedOn(w, g, w', g', p, live);
    }
    assert Forsaken(w, g, p) ==> !Holding(w, p, g.pos);
    if HeldFrom(w', p, 0) {
      var k: nat :| Holding(w', p, k);
      assert Holding(w, p, k);
    }
    assert ScanNotesIs(w, g, w', g', p);
  }

  lemma WatchedOn(w: World, g: GcWalk, w': World, g': GcWalk, p: nat, live: bool)
    requires Watched(w, g, p) && Walking(g, p) && g'.pos == g.pos + 1 && g'.liveSeen == (g.liveSeen || live)
    requires forall k: nat :: Holding(w', p, k) <==> Holding(w, p, k)
    requires (Holding(w, p, g.pos) <==> live) && (!g'.active ==> g.pos + 1 == |w.disk[p].recs|) && p < |w.disk|
    ensures HeldFrom(w', p, 0) && (g'.liveSeen || (g'.active && HeldFrom(w', p, g'.pos)))
  {
    var k0: nat :| Holding(w, p, k0);
    assert Holding(w', p, k0);
    if !g'.liveSeen {
      var k: nat :| g.pos <= k && Holding(w, p, k);
      assert Holding(w', p, k);
    }
  }

  // ---------------------------------------------------------------- the step

  datatype Action = Idle | Scanned | Tombstoned | Erased

  function NextDataSector(v: Volume, s: nat): nat { if s + 1 >= v.sectors then v.index else s + 1 }

  function Normalized(v: Volume, s: nat): nat { if DataSector(v, s) then s else v.index }

  const NO_WALK: GcWalk := GcWalk(0, 0, 0, false, false, false, false, 0, FOOTER_SIZE, false)

  /** Moves the cursor on. */
  method Advance(fs: Volatile, s: nat, liveSeen: bool)
    requires fs.Valid() && DataSector(fs.v, s)
    modifies fs`gcCursor, fs`gcMd
    ensures fs.Valid() && fs.gcCursor == NextDataSector(fs.v, s) && !fs.gcMd.active
  {
    fs.gcCursor := NextDataSector(fs.v, s);
    fs.gcMd := fs.gcMd.(liveSeen := liveSeen, active := false);
  }

  /** The walk has seen every record of the sector. */
  ghost predicate ScannedAll(w: World, p: nat, g: GcWalk) {
    && p < |w.disk| && w.disk[p].footer.Live?
    && (!g.liveSeen ==> NoneNeeded(w, p, w.disk[p].recs, |w.disk[p].recs|))
    && (!g.openSeen ==> AllInUse(w, p, w.disk[p].recs, |w.disk[p].recs|))
  }

  /** A sector whose live roots of stored files are all in use there. */
  ghost predicate CandidateOk(w: World, p: nat) {
    p < |w.disk| && w.disk[p].footer.Live? && AllInUse(w, p, w.disk[p].recs, |w.disk[p].recs|)
  }

  /** What a record adds to the walk's notes. */
  function Noted(g: GcWalk, r: Md, live: bool, pinned: bool): GcWalk {
    if !live then g.(pos := g.pos + 1)
    else
      g.(pos := g.pos + 1, liveSeen := true, liveBytes := g.liveBytes + r.dataLen + RECORD_SIZE,
         rootSeen := g.rootSeen || r.typ == TYPE_ROOT,
         rootCount := if r.typ == TYPE_ROOT then g.rootCount + 1 else g.rootCount,
         contSeen := g.contSeen || r.typ == TYPE_CONT, openSeen := g.openSeen || pinned)
  }

  lemma NotedOk(v: Volume, w: World, g: GcWalk, disk': Disk, live: bool, claimed: nat, active: bool)
    requires Sound(v, w) && WalkOk(v, w, g) && g.active && g.pos < |w.disk[g.sector].recs|
    requires Classified(w, g.sector, g.pos, disk', live)
    requires if active then
               Resumable(v, w.disk[g.sector].recs, g.pos + 1, claimed)
             else
               g.pos + 1 == |w.disk[g.sector].recs|
    ensures var r := w.disk[g.sector].recs[g.pos];
      var g' := Noted(g, r, live, Pinned(w.open, r.slot)).(claimed := claimed, active := active);
      WalkOk(v, w.(disk := disk'), g') && (!active ==> ScannedAll(w.(disk := disk'), g.sector, g'))
  {
    var s := w.disk[g.sector];
    if !live && !g.liveSeen {
      ClassifiedNone(w, g.sector, g.pos, disk', live);
    }
    if !g.openSeen && !(live && Pinned(w.open, s.recs[g.pos].slot)) {
      ClassifiedInUse(w, g.sector, g.pos, disk', live);
    }
    if disk' != w.disk && active {
      ResumableBuried(v, s, disk'[g.sector], g.pos, g.pos + 1, claimed);
    }
  }

  lemma ResumableBuried(v: Volume, s: Sec, s': Sec, k: nat, j: nat, claimed: nat)
    requires Buried(s, s', k) && Resumable(v, s.recs, j, claimed)
    ensures Resumable(v, s'.recs, j, claimed)
  {
    ClaimedSame(s.recs[..j], s'.recs[..j]);
  }

  // ---------------------------------------------------------------- compaction candidates

  /** compaction_candidate_better. */
  predicate Better(c: Candidate, other: Candidate) {
    && c.sector != 0
    && (other.sector == 0 || c.trapped > other.trapped || (c.trapped == other.trapped && c.roots > other.roots))
  }

  /** The insertion of gc_update_compaction_candidate: the worst entry makes room, the new one bubbles up. */
  method InsertCandidate(cs: seq<Candidate>, c: Candidate) returns (r: seq<Candidate>)
    ensures |r| == |cs| && forall x | x in r :: x in cs || x == c
  {
    r := cs;
    if |cs| == 0 || !Better(c, cs[|cs| - 1]) {
      return;
    }
    var pos := |cs| - 1;
    r := r[pos := c];
    while pos > 0 && Better(r[pos], r[pos - 1])
      invariant 0 <= pos < |r| == |cs|
      invariant forall x | x in r :: x in cs || x == c
    {
      var a, b := r[pos - 1], r[pos];
      assert a in r && b in r;
      r := r[pos - 1 := b][pos := a];
      pos := pos - 1;
    }
  }

  /** What is free right now behind the records of a sector whose walk ended in erased space. */
  function ImmediateFree(v: Volume, b: Bytes, pos: nat, claimed: nat): nat
    requires |b| == v.size
  {
    var at := Cursor(v, pos);
    if claimed < at <= v.size && at - claimed >= MIN_USABLE && ErasedRange(b, claimed, at) then at - claimed else 0
  }

  /** The end of gc_step's walk over a sector with live records: note it as a candidate for
      compaction, and as used where normal allocation has nothing to gain. */
  method NoteLiveSector(fs: Volatile, s: nat, atErased: bool)
    requires fs.Valid() && DataSector(fs.v, s) && ScannedAll(fs.Now(), s, fs.gcMd) && !fs.gcMd.active
    modifies fs`gcCursor, fs`gcMd, fs`candidates, fs`allocMap
    ensures forall p | p in old(fs.allocMap) && p != s :: p in fs.allocMap
    ensures fs.Valid() && fs.gcCursor == NextDataSector(fs.v, s) && !fs.gcMd.active
    ensures forall c | c in fs.candidates :: c in old(fs.candidates) || (c.sector == s && CandidateOk(fs.Now(), s))
  {
    assert Real(fs.v, fs.disk, s);
    var g := fs.gcMd;
    var candidate := g.rootSeen && !g.contSeen && !g.openSeen;
    var full := g.contSeen || g.rootCount >= MAX_RECORDS;
    var free := 0;
    if (candidate || !full) && atErased {
      free := ImmediateFree(fs.v, fs.disk[s].bytes, g.pos, g.claimed);
    }
    if candidate {
      var accounted := g.liveBytes + free;
      var trapped := if accounted < fs.v.size then fs.v.size - accounted else 0;
      fs.candidates := InsertCandidate(fs.candidates,
                                       Candidate(s, if trapped > 0xffff then 0xffff else trapped, g.rootCount));
    }
    if full || free < MIN_USABLE + RECORD_SIZE {
      fs.allocMap := fs.allocMap + {s};
    }
    Advance(fs, s, g.liveSeen);
  }

  // ---------------------------------------------------------------- gc_step

  /** No record became live, and those that are have their data. */
  ghost predicate Thinned(s: Sec, s': Sec) {
    s'.footer.Live? ==>
      && s.footer.Live? && |s'.recs| == |s.recs| && |s'.bytes| == |s.bytes|
      && (forall k | 0 <= k < |s.recs| && (s'.recs[k].Live() || s'.recs[k].state == UNCOMMITTED) ::
            s'.recs[k] == s.recs[k])
      && forall k | 0 <= k < |s.recs| && s.recs[k].DataEnd() <= |s.bytes| ::
           DataOf(s', s.recs[k]) == DataOf(s, s.recs[k])
  }

  lemma ThinnedSame(s: Sec, s': Sec, slot: u16)
    requires Thinned(s, s') && (s'.footer.Live? ==> OneLive(s.recs))
    ensures NoneNew(s, s', slot) && (Lookup(s', slot).Some? ==> Keeps(s, s', slot))
  {
    var k := FirstLive(s'.recs, slot);
    if Lookup(s', slot).Some? {
      assert s'.recs[k] == s.recs[k];
      assert FirstLive(s.recs, slot) == k;
    }
  }

  lemma ThinnedNoStrays(v: Volume, w: World, disk': Disk, p: nat)
    requires NoStrays(v, w) && p < |w.disk| == |disk'| && disk' == w.disk[p := disk'[p]] && Thinned(w.disk[p], disk'[p])
    ensures NoStrays(v, w.(disk := disk'))
  {
    forall q: nat, k: nat | DataSector(v, q) && q < |disk'| && k < |disk'[q].recs| && disk'[q].footer.Live?
      ensures disk'[q].recs[k].Live() && disk'[q].recs[k].typ == TYPE_ROOT ==> disk'[q].recs[k].slot in w.index
    {
      if disk'[q].recs[k].Live() {
        assert w.disk[q].recs[k] == disk'[q].recs[k];
      }
    }
  }

  lemma ThinnedBegun(disk: Disk, disk': Disk, p: nat)
    requires p < |disk| == |disk'| && disk' == disk[p := disk'[p]] && Thinned(disk[p], disk'[p])
    ensures BegunKept(disk, disk')
  {
    BegunOne(disk, disk', p);
  }

  lemma ClassifiedThinned(w: World, p: nat, j: nat, disk': Disk, live: bool)
    requires Classified(w, p, j, disk', live)
    ensures p < |disk'| && Thinned(w.disk[p], disk'[p])
  {
    if disk' != w.disk {
      assert Buried(w.disk[p], disk'[p], j);
    }
  }

  /** How far the walk over the sector under the cursor still has to go. */
  ghost function Rank(disk: Disk, g: GcWalk, s: nat): nat
    requires s < |disk|
  {
    if !disk[s].footer.Live? then 0
    else if g.active && g.sector == s && g.pos <= |disk[s].recs| then 1 + |disk[s].recs| - g.pos
    else 2 + |disk[s].recs|
  }

  /** The walk over a live sector is over: it is kept if something in it is live, tombstoned if not. The
      walk cannot run into the front of a sane sector, which would condemn it whatever it holds. */
  method FinishSector(fs: Volatile, s: nat, d: Step) returns (action: Action)
    requires fs.Valid() && s == fs.gcCursor && !IsOpen(fs.open, s) && !fs.gcMd.active
    requires ScannedAll(fs.Now(), s, fs.gcMd) && (d.Found? || d == fs.disk[s].end)
    modifies fs`disk, fs`cuts, fs`gcCursor, fs`gcMd, fs`candidates, fs`allocMap
    ensures forall p | p in old(fs.allocMap) && p != s :: p in fs.allocMap
    ensures fs.Valid() && !action.Erased? && !fs.gcMd.active
    ensures fs.disk == old(fs.disk)[s := fs.disk[s]] && Kept(old(fs.Now()), fs.disk)
    ensures Thinned(old(fs.disk)[s], fs.disk[s])
    ensures CutsKept(fs.v, old(fs.cuts), fs.cuts, fs.index, fs.files)
    ensures (fs.gcCursor == s && !fs.disk[s].footer.Live?) || fs.gcCursor == NextDataSector(fs.v, s)
    ensures fs.gcCursor == s || fs.disk[s].footer.Live?
    ensures if old(fs.gcMd).liveSeen then fs.disk == old(fs.disk) else !fs.disk[s].footer.Live? && s !in fs.allocMap
    ensures forall c | c in fs.candidates ::
              || c in old(fs.candidates)
              || (c.sector == s && CandidateOk(fs.Now(), s) && fs.gcCursor == NextDataSector(fs.v, s))
  {
    assert SaneAt(fs.v, fs.disk, s);
    if !d.Corrupt? && fs.gcMd.liveSeen {
      NoteLiveSector(fs, s, d.EndErased?);
      return Scanned;
    }
    ghost var w := fs.Now();
    DeadIsUseless(fs.v, w, s);
    TombstoneSector(fs, s);
    UselessGoes(fs.v, w, s, fs.disk, old(fs.cuts), fs.cuts);
    fs.allocMap := fs.allocMap - {s};
    return Tombstoned;
  }

  /** One turn of the walk over a live sector that no writer occupies: the walk starts if it has not,
      and the next record, if there is one, is classified. */
  method ScanRecord(fs: Volatile, s: nat) returns (d: Step)
    requires fs.Valid() && s == fs.gcCursor && fs.disk[s].footer.Live? && !IsOpen(fs.open, s)
    modifies fs`disk, fs`cuts, fs`gcMd
    ensures fs.Valid() && fs.disk == old(fs.disk)[s := fs.disk[s]] && Kept(old(fs.Now()), fs.disk)
    ensures Thinned(old(fs.disk)[s], fs.disk[s])
    ensures CutsKept(fs.v, old(fs.cuts), fs.cuts, fs.index, fs.files)
    ensures fs.gcMd.active ==> Rank(fs.disk, fs.gcMd, s) < Rank(old(fs.disk), old(fs.gcMd), s)
    ensures fs.gcMd.active ==> d.Found? && fs.gcMd.sector == s
    ensures !fs.gcMd.active ==> ScannedAll(fs.Now(), s, fs.gcMd) && (d.Found? || d == fs.disk[s].end)
    ensures ScanNotes(old(fs.Now()), old(fs.gcMd), fs.Now(), fs.gcMd, s)
    ensures WalkWary(old(fs.Now()), old(fs.gcMd), fs.disk, fs.gcMd)
  {
    ghost var w, g0 := fs.Now(), fs.gcMd;
    StartWalk(fs, s);
    ghost var g1 := fs.gcMd;
    StartedWary(w, g0, g1);
    var claimed: nat, active;
    d, claimed, active := NextRecord(fs, s, fs.gcMd.pos, fs.gcMd.claimed);
    if d.Found? {
      ScanFound(fs, s, d.r, claimed, active);
      StartedNotes(w, g0, g1, fs.Now(), fs.gcMd, s);
    } else {
      fs.gcMd := fs.gcMd.(active := false);
      EndNotes(w, g0, g1, fs.gcMd, s);
    }
  }

  /** The walk comes past no live record of an open file without noting that. */
  ghost predicate WalkWary(w: World, g: GcWalk, disk': Disk, g': GcWalk) {
    forall slot: u16 {:trigger Wary(disk', g', slot)} | Pinned(w.open, slot) && Wary(w.disk, g, slot) ::
      Wary(disk', g', slot)
  }

  lemma ClassifiedWary(w: World, g: GcWalk, disk': Disk, live: bool, claimed: nat, active: bool)
    requires g.active && Classified(w, g.sector, g.pos, disk', live)
    ensures var r := w.disk[g.sector].recs[g.pos];
      WalkWary(w, g, disk', Noted(g, r, live, Pinned(w.open, r.slot)).(claimed := claimed, active := active))
  {
    var p, recs := g.sector, w.disk[g.sector].recs;
    var r := recs[g.pos];
    var g' := Noted(g, r, live, Pinned(w.open, r.slot)).(claimed := claimed, active := active);
    forall slot: u16 | Pinned(w.open, slot) && Wary(w.disk, g, slot)
      ensures Wary(disk', g', slot)
    {
      if active && !g'.openSeen {
        assert !(r.Live() && r.slot == slot);
        if disk' != w.disk {
          assert Buried(w.disk[p], disk'[p], g.pos);
        }
        var k := FirstLive(disk'[p].recs, slot);
        assert k < |disk'[p].recs| && k != g.pos ==> disk'[p].recs[k] == recs[k];
      }
    }
  }

  lemma StartedWary(w: World, g0: GcWalk, g1: GcWalk)
    requires g1 == g0 || g1.pos == 0
    ensures WalkWary(w, g0, w.disk, g1)
  {
  }

  /** A walk that starts afresh knows as much as none. */
  lemma StartedNotes(w: World, g0: GcWalk, g1: GcWalk, w': World, g': GcWalk, p: nat)
    requires ScanNotes(w, g1, w', g', p) && Walking(g1, p)
    requires (g1 == g0 || (!Walking(g0, p) && g1.pos == 0 && !g1.liveSeen))
    ensures ScanNotes(w, g0, w', g', p)
  {
    assert ScanNotesIs(w, g1, w', g', p);
    assert ScanNotesIs(w, g0, w', g', p);
  }

  /** At the end there is nothing more to come. */
  lemma EndNotes(w: World, g0: GcWalk, g1: GcWalk, g': GcWalk, p: nat)
    requires p < |w.disk| && |w.disk[p].recs| <= g1.pos && Walking(g1, p) && g' == g1.(active := false)
    requires g1 == g0 || (!Walking(g0, p) && g1.pos == 0 && !g1.liveSeen)
    ensures ScanNotes(w, g0, w, g', p)
  {
    assert ScanNotesIs(w, g0, w, g', p);
  }

  /** fffs_md_walk_init, if the walk is not already under way in this sector. */
  method StartWalk(fs: Volatile, s: nat)
    requires fs.Valid() && DataSector(fs.v, s) && fs.disk[s].footer.Live?
    modifies fs`gcMd
    ensures fs.Valid() && Walking(fs.gcMd, s) && Rank(fs.disk, fs.gcMd, s) <= Rank(fs.disk, old(fs.gcMd), s)
    ensures fs.gcMd == old(fs.gcMd) || (!Walking(old(fs.gcMd), s) && fs.gcMd.pos == 0 && !fs.gcMd.liveSeen)
  {
    if !fs.gcMd.active || fs.gcMd.sector != s {
      fs.gcMd := NO_WALK.(sector := s, active := true);
      assert fs.disk[s].recs[..0] == [];
    }
  }

  method ScanFound(fs: Volatile, s: nat, r: Md, claimed: nat, active: bool)
    requires fs.Valid() && !IsOpen(fs.open, s) && fs.gcMd.active && s == fs.gcMd.sector
    requires fs.gcMd.pos < |fs.disk[s].recs| && r == fs.disk[s].recs[fs.gcMd.pos]
    requires if active then
               Resumable(fs.v, fs.disk[s].recs, fs.gcMd.pos + 1, claimed)
             else
               fs.gcMd.pos + 1 == |fs.disk[s].recs|
    modifies fs`disk, fs`cuts, fs`gcMd
    ensures fs.Valid() && fs.disk == old(fs.disk)[s := fs.disk[s]] && Kept(old(fs.Now()), fs.disk)
    ensures Thinned(old(fs.disk)[s], fs.disk[s])
    ensures CutsKept(fs.v, old(fs.cuts), fs.cuts, fs.index, fs.files)
    ensures fs.gcMd.active == active && fs.gcMd.sector == s && fs.gcMd.pos == old(fs.gcMd.pos) + 1
    ensures fs.disk[s].footer.Live? && |fs.disk[s].recs| == |old(fs.disk)[s].recs|
    ensures !active ==> ScannedAll(fs.Now(), s, fs.gcMd)
    ensures ScanNotes(old(fs.Now()), old(fs.gcMd), fs.Now(), fs.gcMd, s)
    ensures WalkWary(old(fs.Now()), old(fs.gcMd), fs.disk, fs.gcMd)
  {
    ghost var w, g := fs.Now(), fs.gcMd;
    var status, live := ClassifyRecord(fs, s, fs.gcMd.pos, r);
    FoundNotes(w, g, fs.disk, live, r, Pinned(fs.open, r.slot), claimed, active);
    ClassifiedKept(w, s, g.pos, fs.disk, live);
    ClassifiedThinned(w, s, g.pos, fs.disk, live);
    ClassifiedWary(w, g, fs.disk, live, claimed, active);
    KeptSound(fs.v, w, fs.disk);
    NotedOk(fs.v, w, g, fs.disk, live, claimed, active);
    fs.gcMd := Noted(fs.gcMd, r, live, Pinned(fs.open, r.slot)).(claimed := claimed, active := active);
  }

  method ScanSector(fs: Volatile, s: nat) returns (action: Action)
    requires fs.Valid() && s == fs.gcCursor && fs.disk[s].footer.Live? && !IsOpen(fs.open, s)
    modifies fs`disk, fs`cuts, fs`gcCursor, fs`gcMd, fs`candidates, fs`allocMap
    ensures forall p | p in old(fs.allocMap) && p != s :: p in fs.allocMap
    ensures fs.Valid() && !action.Erased? && (fs.gcMd.active ==> fs.gcMd.sector == s)
    ensures fs.disk == old(fs.disk)[s := fs.disk[s]] && Kept(old(fs.Now()), fs.disk)
    ensures Thinned(old(fs.disk)[s], fs.disk[s])
    ensures CutsKept(fs.v, old(fs.cuts), fs.cuts, fs.index, fs.files)
    ensures || (fs.gcCursor == s && Rank(fs.disk, fs.gcMd, s) < Rank(old(fs.disk), old(fs.gcMd), s))
            || (fs.gcCursor == NextDataSector(fs.v, s) && !fs.gcMd.active)
    ensures fs.gcCursor == s || fs.disk[s].footer.Live?
    ensures forall c | c in fs.candidates ::
              || c in old(fs.candidates)
              || (c.sector == s && CandidateOk(fs.Now(), s) && fs.gcCursor == NextDataSector(fs.v, s))
    ensures Observed(old(fs.Now()), old(fs.gcMd), fs.Now(), fs.gcMd, s, false)
    ensures Forsaken(old(fs.Now()), old(fs.gcMd), s) && s !in old(fs.allocMap) ==> s !in fs.allocMap
    ensures WalkWary(old(fs.Now()), old(fs.gcMd), fs.disk, fs.gcMd)
  {
    ghost var w, g := fs.Now(), fs.gcMd;
    var d := ScanRecord(fs, s);
    if fs.gcMd.active {
      ObservedScan(w, g, fs.Now(), fs.gcMd, s);
      return if d.r.Live() && !fs.gcMd.liveSeen then Tombstoned else Scanned;
    }
    ghost var w1, g1 := fs.Now(), fs.gcMd;
    action := FinishSector(fs, s, d);
    ObservedEnd(w, g, w1, g1, fs.Now(), fs.gcMd, s);
    assert ScanNotesIs(w, g, w1, g1, s);
    KeptTransitive(w, w1.disk, fs.disk);
  }

  /** What a step makes of a sector: one that is held stays held; one that is not comes nearer to its end, unless
      the step itself is the end. */
  ghost predicate Observed(w: World, g: GcWalk, w': World, g': GcWalk, p: nat, done: bool) {
    forall q: nat {:trigger ObservedIs(w, g, w', g', q, done)} | q == p :: ObservedIs(w, g, w', g', q, done)
  }

  ghost predicate ObservedIs(w: World, g: GcWalk, w': World, g': GcWalk, p: nat, done: bool) {
    && p < |w.disk| && p < |w'.disk|
    && (Watched(w, g, p) ==> Watched(w', g', p) && !done)
    && (Forsaken(w, g, p) ==> done || (Forsaken(w', g', p) && Rank(w'.disk, g', p) < Rank(w.disk, g, p)))
    && (Fading(w, g, p) ==>
          && !done
          && (if g'.active then Fading(w', g', p) && Rank(w'.disk, g', p) < Rank(w.disk, g, p)
              else !HeldFrom(w', p, 0) && |w'.disk[p].recs| <= |w.disk[p].recs|))
  }

  lemma ObservedScan(w: World, g: GcWalk, w': World, g': GcWalk, p: nat)
    requires ScanNotes(w, g, w', g', p) && Walking(g', p) && p < |w.disk| && p < |w'.disk|
    requires Rank(w'.disk, g', p) < Rank(w.disk, g, p) && w'.disk[p].footer.Live?
    ensures Observed(w, g, w', g', p, false)
  {
    assert ScanNotesIs(w, g, w', g', p);
    assert ObservedIs(w, g, w', g', p, false);
  }

  lemma ObservedEnd(w: World, g: GcWalk, w1: World, g1: GcWalk, w': World, g': GcWalk, p: nat)
    requires ScanNotes(w, g, w1, g1, p) && !g1.active && !g'.active && p < |w.disk| && p < |w'.disk|
    requires p < |w1.disk| && |w1.disk[p].recs| <= |w.disk[p].recs|
    requires w.disk[p].footer.Live?
    requires w' == w1.(disk := w'.disk) && if g1.liveSeen then w'.disk == w1.disk else !w'.disk[p].footer.Live?
    ensures Observed(w, g, w', g', p, false)
  {
    assert ScanNotesIs(w, g, w1, g1, p);
    assert ObservedIs(w, g, w', g', p, false);
  }

  /** gc_step. Whatever the walk was in the middle of, it touches at most the sector under the cursor;
      the sectors of open writers are as before, and so is every record that a stored file or an open
      writer needs, with its data: no file changes, at any power cut on the way either. */
  method GcStep(fs: Volatile, useMap: bool) returns (status: Status, action: Action)
    requires fs.Valid()
    modifies fs`disk, fs`cuts, fs`gcCursor, fs`gcMd, fs`candidates, fs`allocMap
    ensures fs.Valid()
    ensures fs.disk == old(fs.disk)[old(fs.gcCursor) := fs.disk[old(fs.gcCursor)]] && Kept(old(fs.Now()), fs.disk)
    ensures Thinned(old(fs.disk)[old(fs.gcCursor)], fs.disk[old(fs.gcCursor)])
    ensures CutsKept(fs.v, old(fs.cuts), fs.cuts, fs.index, fs.files) && ReserveKept(old(fs.Held()), fs.Held())
    ensures (status.Ok? || status == ErrCorrupt) && (action.Erased? ==> status.Ok? && Reclaimed(fs, old(fs.gcCursor)))
    ensures fs.gcMd.active ==> fs.gcMd == old(fs.gcMd) || !IsOpen(fs.open, fs.gcMd.sector)
    ensures WalkWary(old(fs.Now()), old(fs.gcMd), fs.disk, fs.gcMd)
    ensures status.Ok? && !action.Erased? ==>
              || (&& fs.gcCursor == old(fs.gcCursor)
                  && Rank(fs.disk, fs.gcMd, fs.gcCursor) < Rank(old(fs.disk), old(fs.gcMd), fs.gcCursor))
              || (fs.gcCursor == NextDataSector(fs.v, old(fs.gcCursor)) && !fs.gcMd.active)
    ensures forall c | c in fs.candidates ::
              || c in old(fs.candidates)
              || (&& c.sector == old(fs.gcCursor) && CandidateOk(fs.Now(), c.sector)
                  && fs.gcCursor == NextDataSector(fs.v, c.sector)
                  && !IsOpen(fs.open, c.sector) && c.sector !in fs.reserve)
    ensures if Skipped(fs.open, old(fs.Held()), old(fs.gcCursor), useMap) then
              && status.Ok? && !action.Erased? && !fs.gcMd.active && fs.disk == old(fs.disk)
              && fs.allocMap == old(fs.allocMap)
            else
              && Observed(old(fs.Now()), old(fs.gcMd), fs.Now(), fs.gcMd, old(fs.gcCursor),
                          !status.Ok? || action.Erased?)
              && (Forsaken(old(fs.Now()), old(fs.gcMd), old(fs.gcCursor)) ==>
                    old(fs.gcCursor) !in old(fs.allocMap) ==> old(fs.gcCursor) !in fs.allocMap)
              && (if !status.Ok? then fs.disk[old(fs.gcCursor)].footer.Odd?
                  else action.Erased? || fs.gcCursor == old(fs.gcCursor) || fs.disk[old(fs.gcCursor)].footer.Live?)
  {
    var s := Normalized(fs.v, fs.gcCursor);
    if (useMap && s in fs.allocMap) || s in fs.reserve {
      Advance(fs, s, false);
      return Ok, Scanned;
    }
    if IsOpen(fs.open, s) {
      Advance(fs, s, true);
      return Ok, Scanned;
    }
    status, action := GcSector(fs, s);
  }

  /** A sector that a step passes by without looking at it. */
  ghost predicate Skipped(open: OpenFiles, h: Hold, p: nat, useMap: bool) {
    (useMap && p in h.used) || p in h.reserve || IsOpen(open, p)
  }

  /** The sector under the cursor is nobody's: look at its footer, and at a record if it is live. */
  method GcSector(fs: Volatile, s: nat) returns (status: Status, action: Action)
    requires fs.Valid() && s == fs.gcCursor && !IsOpen(fs.open, s) && s !in fs.reserve
    modifies fs`disk, fs`cuts, fs`gcCursor, fs`gcMd, fs`candidates, fs`allocMap
    ensures fs.Valid() && fs.disk == old(fs.disk)[s := fs.disk[s]] && Kept(old(fs.Now()), fs.disk)
    ensures Thinned(old(fs.disk)[s], fs.disk[s]) && CutsKept(fs.v, old(fs.cuts), fs.cuts, fs.index, fs.files)
    ensures ReserveKept(old(fs.Held()), fs.Held())
    ensures (status.Ok? || status == ErrCorrupt) && (action.Erased? ==> status.Ok? && Reclaimed(fs, s))
    ensures fs.gcMd.active ==> fs.gcMd == old(fs.gcMd) || fs.gcMd.sector == s
    ensures WalkWary(old(fs.Now()), old(fs.gcMd), fs.disk, fs.gcMd)
    ensures status.Ok? && !action.Erased? ==>
              || (fs.gcCursor == s && Rank(fs.disk, fs.gcMd, s) < Rank(old(fs.disk), old(fs.gcMd), s))
              || (fs.gcCursor == NextDataSector(fs.v, s) && !fs.gcMd.active)
    ensures if !status.Ok? then fs.disk[s].footer.Odd?
            else action.Erased? || fs.gcCursor == s || fs.disk[s].footer.Live?
    ensures forall c | c in fs.candidates ::
              || c in old(fs.candidates)
              || (c.sector == s && CandidateOk(fs.Now(), s) && fs.gcCursor == NextDataSector(fs.v, s))
    ensures Observed(old(fs.Now()), old(fs.gcMd), fs.Now(), fs.gcMd, s, !status.Ok? || action.Erased?)
    ensures Forsaken(old(fs.Now()), old(fs.gcMd), s) && s !in old(fs.allocMap) ==> s !in fs.allocMap
  {
    ghost var w, g := fs.Now(), fs.gcMd;
    var footer := fs.disk[s].footer;
    if footer.Odd? {
      ObservedDone(w, g, w, g, s);
      return ErrCorrupt, Idle;
    }
    if footer.Live? {
      action := ScanSector(fs, s);
      ReserveElsewhere(old(fs.Held()), fs.Held(), s);
      return Ok, action;
    }
    ReclaimSector(fs, s);
    ReserveElsewhere(old(fs.Held()), fs.Held(), s);
    ObservedDone(w, g, fs.Now(), fs.gcMd, s);
    return Ok, Erased;
  }

  lemma ObservedDone(w: World, g: GcWalk, w': World, g': GcWalk, p: nat)
    requires p < |w.disk| && p < |w'.disk| && !w.disk[p].footer.Live?
    ensures Observed(w, g, w', g', p, true)
  {
    assert ObservedIs(w, g, w', g', p, true);
  }

  /** A sector whose footer is erased or unfit is erased, unless it is erased throughout. */
  method ReclaimSector(fs: Volatile, s: nat)
    requires fs.Valid() && s == fs.gcCursor && !fs.disk[s].footer.Live? && !IsOpen(fs.open, s)
    modifies fs`disk, fs`cuts, fs`gcCursor, fs`gcMd, fs`allocMap
    ensures fs.Valid() && fs.disk == old(fs.disk)[s := fs.disk[s]] && Kept(old(fs.Now()), fs.disk)
    ensures Thinned(old(fs.disk)[s], fs.disk[s])
    ensures CutsKept(fs.v, old(fs.cuts), fs.cuts, fs.index, fs.files)
    ensures forall p | p in old(fs.allocMap) && p != s :: p in fs.allocMap
    ensures fs.disk[s].footer.Blank? && AllErased(fs.disk[s].bytes) && s !in fs.allocMap
    ensures fs.gcCursor == NextDataSector(fs.v, s) && !fs.gcMd.active
  {
    if !fs.disk[s].footer.Blank? || !AllErased(fs.disk[s].bytes) {
      ghost var w := fs.Now();
      DeadIsUseless(fs.v, w, s);
      Erase(fs, s);
      UselessGoes(fs.v, w, s, fs.disk, old(fs.cuts), fs.cuts);
      ErasedWalk(fs.v, w, fs.disk, fs.gcMd, s);
    }
    fs.allocMap := fs.allocMap - {s};
    Advance(fs, s, false);
  }

  /** The sector is erased and belongs to no one. */
  ghost predicate Reclaimed(fs: Volatile, p: nat)
    reads fs
  {
    && DataSector(fs.v, p) && p < |fs.disk| && fs.disk[p].footer.Blank? && AllErased(fs.disk[p].bytes)
    && !IsOpen(fs.open, p) && p !in fs.reserve && p !in fs.allocMap
  }

  /** No walk is under way in a sector that is not live. */
  lemma ErasedWalk(v: Volume, w: World, disk': Disk, g: GcWalk, s: nat)
    requires WalkOk(v, w, g) && s < |w.disk| == |disk'| && !w.disk[s].footer.Live? && disk' == w.disk[s := disk'[s]]
    ensures WalkOk(v, w.(disk := disk'), g)
  {
    var w' := w.(disk := disk');
    if g.active {
      assert g.sector != s && disk'[g.sector] == w.disk[g.sector];
      assert forall slot: u16 :: Needed(w', slot, g.sector) == Needed(w, slot, g.sector);
    }
  }
}
