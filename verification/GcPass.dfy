/** Whole passes of the collector, and compaction when they free nothing (src/fffs_gc.c). */
module GcPass {
  import opened Nor
  import opened SectorMd
  import opened SectorView
  import opened Files
  import opened Mounted
  import opened Gc
  import Compact

  function DataSectors(v: Volume): nat
    requires VolumeOk(v)
  {
    v.sectors - v.index
  }

  /** The sector n steps behind `start` in the ring of data sectors, and how many steps that were. */
  function Along(v: Volume, start: nat, n: nat): int
    requires VolumeOk(v)
  {
    if start + n < v.sectors then start + n else start + n - DataSectors(v)
  }

  function Steps(v: Volume, start: nat, p: nat): int
    requires VolumeOk(v)
  {
    if p >= start then p - start else p - start + DataSectors(v)
  }

  // ---------------------------------------------------------------- a single data sector

  /** With a single data sector the cursor comes back to where it was, so a pass of gc_until_erased, which counts how
      often the cursor has moved, ends only by erasing the sector or with an error. This keeps it from that: the
      sector is passed by, or holds a live record of an open file or one that its file reaches, and a walk under
      way has not yet come past it unseen. */
  ghost predicate Blocked(fs: Volatile, useMap: bool)
    reads fs
  {
    Skipped(fs.open, fs.Held(), fs.gcCursor, useMap) || Watched(fs.Now(), fs.gcMd, fs.gcCursor)
  }

  /** The turns that a pass needs: a walk under way that has seen something live is finished first. */
  ghost function TurnsNeeded(disk: Disk, g: GcWalk, s: nat): nat
    requires s < |disk|
  {
    Rank(disk, g, s) + if Walking(g, s) && g.liveSeen then 3 + |disk[s].recs| else 0
  }

  /** The loop of a pass over a single data sector, given so many turns: it comes to its end if and only if nothing
      blocks it. A blocked pass never ends, however many turns it gets. Only a pass that trusts the allocation map
      and resumes a walk that has seen something live, which is gone by now, may get blocked on its way: that walk
      may still mark the sector in the map. */
  method OneSectorPass(fs: Volatile, useMap: bool, turns: nat) returns (ended: bool)
    requires fs.Valid() && DataSectors(fs.v) == 1
    modifies fs`disk, fs`cuts, fs`gcCursor, fs`gcMd, fs`candidates, fs`allocMap
    ensures old(Blocked(fs, useMap)) ==> !ended
    ensures !old(Blocked(fs, useMap)) && turns > TurnsNeeded(old(fs.disk), old(fs.gcMd), old(fs.gcCursor)) ==>
              ended || (useMap && old(Fading(fs.Now(), fs.gcMd, fs.gcCursor)) && old(fs.gcCursor) in fs.allocMap)
    ensures fs.Valid()
  {
    ghost var blocked, fading, s := Blocked(fs, useMap), Fading(fs.Now(), fs.gcMd, fs.gcCursor), fs.gcCursor;
    ghost var rank := TurnsNeeded(fs.disk, fs.gcMd, fs.gcCursor);
    ended := false;
    var t := 0;
    while t < turns && !ended
      invariant fs.Valid() && t <= turns && (!ended ==> fs.gcCursor == s)
      invariant if blocked then
                  !ended && Blocked(fs, useMap)
                else
                  || ended || (useMap && fading && s in fs.allocMap)
                  || (NotBlocked(fs, useMap, fading) && TurnsNeeded(fs.disk, fs.gcMd, s) + t <= rank)
    {
      ended := OneTurn(fs, useMap, fading);
      t := t + 1;
    }
  }

  ghost predicate NotBlocked(fs: Volatile, useMap: bool, fading: bool)
    reads fs
  {
    && !Skipped(fs.open, fs.Held(), fs.gcCursor, useMap)
    && (Forsaken(fs.Now(), fs.gcMd, fs.gcCursor) || (fading && Fading(fs.Now(), fs.gcMd, fs.gcCursor)))
  }

  /** One turn: whether it ends the pass. */
  method OneTurn(fs: Volatile, useMap: bool, ghost fading: bool) returns (ended: bool)
    requires fs.Valid() && DataSectors(fs.v) == 1
    modifies fs`disk, fs`cuts, fs`gcCursor, fs`gcMd, fs`candidates, fs`allocMap
    ensures fs.Valid() && |fs.disk| == |old(fs.disk)|
    ensures !ended ==> fs.gcCursor == old(fs.gcCursor)
    ensures old(Blocked(fs, useMap)) ==> !ended && Blocked(fs, useMap)
    ensures useMap && old(fs.gcCursor in fs.allocMap) ==> fs.gcCursor in fs.allocMap
    ensures old(NotBlocked(fs, useMap, fading)) ==>
              || ended
              || (useMap && fading && fs.gcCursor in fs.allocMap)
              || (&& NotBlocked(fs, useMap, fading)
                  && (TurnsNeeded(fs.disk, fs.gcMd, fs.gcCursor)
                      < TurnsNeeded(old(fs.disk), old(fs.gcMd), fs.gcCursor)))
  {
    ghost var w, g, s := fs.Now(), fs.gcMd, fs.gcCursor;
    var status, action := GcStep(fs, useMap);
    ended := !status.Ok? || action.Erased?;
    if !Skipped(w.open, old(fs.Held()), s, useMap) {
      assert ObservedIs(w, g, fs.Now(), fs.gcMd, s, ended);
    }
  }

  /** A candidate that this pass has left behind. */
  ghost predicate Noted(v: Volume, w: World, reserve: seq<nat>, p: nat) {
    DataSector(v, p) && CandidateOk(w, p) && !IsOpen(w.open, p) && p !in reserve
  }

  ghost predicate AllNoted(v: Volume, w: World, reserve: seq<nat>, cs: seq<Candidate>, start: nat, advanced: nat)
    requires VolumeOk(v)
  {
    forall c | c in cs && c.sector != 0 :: Noted(v, w, reserve, c.sector) && Steps(v, start, c.sector) < advanced
  }

  lemma StillNoted(v: Volume, w: World, disk': Disk, reserve: seq<nat>, cs: seq<Candidate>, cs': seq<Candidate>,
                   start: nat, advanced: nat, s: nat, advanced': nat)
    requires VolumeOk(v) && AllNoted(v, w, reserve, cs, start, advanced) && advanced < DataSectors(v)
    requires DataSector(v, start)
    requires s == Along(v, start, advanced) && s < |w.disk| == |disk'| && disk' == w.disk[s := disk'[s]]
    requires advanced <= advanced' <= advanced + 1
    requires forall c | c in cs' ::
               c in cs || (c.sector == s && Noted(v, w.(disk := disk'), reserve, s) && advanced' == advanced + 1)
    ensures AllNoted(v, w.(disk := disk'), reserve, cs', start, advanced')
  {
    forall c | c in cs' && c.sector != 0
      ensures Noted(v, w.(disk := disk'), reserve, c.sector) && Steps(v, start, c.sector) < advanced'
    {
      if c in cs {
        assert Noted(v, w, reserve, c.sector) && c.sector != s;
      }
    }
  }

  /** Every sector that the pass has left behind, and that it has looked at, has something live that an open file or a
      stored one needs. */
  ghost predicate AllHeld(v: Volume, w: World, reserve: seq<nat>, start: nat, advanced: nat)
    requires VolumeOk(v)
  {
    forall p: nat {:trigger HeldFrom(w, p, 0)} | DataSector(v, p) && p < |w.disk| && Steps(v, start, p) < advanced ::
      IsOpen(w.open, p) || p in reserve || HeldFrom(w, p, 0)
  }

  /** Besides, the walk over the sector under the cursor is not misled by something that is gone. */
  ghost predicate Knowing(fs: Volatile, start: nat, advanced: nat)
    requires VolumeOk(fs.v)
    reads fs
  {
    && AllHeld(fs.v, fs.Now(), fs.reserve, start, advanced)
    && (advanced < DataSectors(fs.v) ==>
          Watched(fs.Now(), fs.gcMd, fs.gcCursor) || Forsaken(fs.Now(), fs.gcMd, fs.gcCursor))
  }

  /** What a step that trusts no map has done at sector s. Callers unfold this where they need it. */
  ghost predicate Passed(w: World, g: GcWalk, disk': Disk, g': GcWalk, reserve: seq<nat>, s: nat, cursor: nat) {
    forall q: nat {:trigger PassedIs(w, g, disk', g', reserve, q, cursor)} | q == s ::
      PassedIs(w, g, disk', g', reserve, q, cursor)
  }

  ghost predicate PassedIs(w: World, g: GcWalk, disk': Disk, g': GcWalk, reserve: seq<nat>, s: nat, cursor: nat) {
    && s < |w.disk| && s < |disk'|
    && (if IsOpen(w.open, s) || s in reserve then cursor != s else
          && Observed(w, g, w.(disk := disk'), g', s, false) && Thinned(w.disk[s], disk'[s])
          && (cursor != s ==> disk'[s].footer.Live?))
    && (cursor != s ==> !g'.active)
  }

  /** A step keeps this: if nothing holds the sector, it has been condemned when the walk is over. */
  lemma HeldMore(v: Volume, w: World, g: GcWalk, disk': Disk, g': GcWalk, reserve: seq<nat>, start: nat, advanced: nat,
                 s: nat, moved: bool, cursor: nat)
    requires VolumeOk(v) && DataSector(v, start) && advanced < DataSectors(v) && s == Along(v, start, advanced)
    requires AllHeld(v, w, reserve, start, advanced) && s < |w.disk| == |disk'| && disk' == w.disk[s := disk'[s]]
    requires (Watched(w, g, s) || Forsaken(w, g, s)) && moved == (cursor != s)
    requires Passed(w, g, disk', g', reserve, s, cursor)
    ensures AllHeld(v, w.(disk := disk'), reserve, start, if moved then advanced + 1 else advanced)
    ensures Watched(w.(disk := disk'), g', cursor) || Forsaken(w.(disk := disk'), g', cursor)
  {
    var w' := w.(disk := disk');
    assert PassedIs(w, g, disk', g', reserve, s, cursor);
    if !IsOpen(w.open, s) && s !in reserve {
      assert ObservedIs(w, g, w', g', s, false);
    }
    forall p: nat | DataSector(v, p) && p < |disk'| && Steps(v, start, p) < if moved then advanced + 1 else advanced
      ensures IsOpen(w.open, p) || p in reserve || HeldFrom(w', p, 0)
    {
      if p != s && HeldFrom(w, p, 0) {
        var k: nat :| Holding(w, p, k);
        assert Holding(w', p, k);
      }
    }
  }

  /** Some sector has a footer that the collector does not know what to do with. */
  ghost predicate Mangled(v: Volume, disk: Disk) {
    exists p: nat :: DataSector(v, p) && p < |disk| && disk[p].footer.Odd?
  }

  /** No sector is erased and unreserved, apart from those of open writers. */
  ghost predicate NothingErased(v: Volume, open: OpenFiles, h: Hold) {
    forall p: nat {:trigger Wiped(h.disk[p])}
      | DataSector(v, p) && p < |h.disk| && !IsOpen(open, p) && p !in h.reserve ::
      !Wiped(h.disk[p])
  }

  lemma StillNothing(v: Volume, open: OpenFiles, h: Hold, h': Hold)
    requires NothingErased(v, open, h) && NoneFreed(h, h')
    ensures NothingErased(v, open, h')
  {
  }

  /** No sector can go: whatever the collector looks at has something live that an open file or a stored one needs. */
  ghost predicate NothingUseless(v: Volume, w: World, reserve: seq<nat>) {
    forall p: nat {:trigger HeldFrom(w, p, 0)} | DataSector(v, p) && p < |w.disk| ::
      IsOpen(w.open, p) || p in reserve || HeldFrom(w, p, 0)
  }

  /** At some moment no sector could go. Since then copies of roots may have come, and heads may have moved to them. */
  ghost predicate Crowded(v: Volume, w: World) {
    exists before: World, reserve: seq<nat> {:trigger CrowdedAt(v, before, w, reserve)} ::
      CrowdedAt(v, before, w, reserve)
  }

  ghost predicate CrowdedAt(v: Volume, before: World, w: World, reserve: seq<nat>) {
    && Sound(v, before) && NothingUseless(v, before, reserve) && Compact.ReserveOk(v, before.open, reserve)
    && before.open == w.open && before.files == w.files && Compact.PinnedSame(before, w)
    && Compact.Tame(v, before, w)
  }

  lemma CrowdedStill(v: Volume, w: World, w': World, cuts: iset<Image>, cuts': iset<Image>)
    requires Crowded(v, w) && Compact.SameFiles(v, w, w', cuts, cuts')
    ensures Crowded(v, w')
  {
    var before, reserve :| CrowdedAt(v, before, w, reserve);
    Compact.TameMore(v, before, w, w');
    assert CrowdedAt(v, before, w', reserve);
  }

  lemma CrowdedNow(v: Volume, w: World, w': World, reserve: seq<nat>, cuts: iset<Image>, cuts': iset<Image>)
    requires Sound(v, w) && NothingUseless(v, w, reserve) && Compact.ReserveOk(v, w.open, reserve)
    requires Compact.SameFiles(v, w, w', cuts, cuts')
    ensures Crowded(v, w')
  {
    assert CrowdedAt(v, w, w', reserve);
  }

  /** So none is erased. */
  lemma NothingBlank(v: Volume, w: World, h: Hold)
    requires NothingUseless(v, w, h.reserve) && h.disk == w.disk
    ensures NothingErased(v, w.open, h)
  {
    forall p: nat | DataSector(v, p) && p < |h.disk| && !IsOpen(w.open, p) && p !in h.reserve
      ensures !Wiped(h.disk[p])
    {
      assert HeldFrom(w, p, 0);
    }
  }

  /** One pass of fffs_gc_until_erased: it ends after every data sector has had its turn, or earlier with
      a sector erased or an error. */
  method Pass(fs: Volatile, useMap: bool) returns (status: Status, erased: Option<nat>)
    requires fs.Valid() && DataSectors(fs.v) >= 2 && NoStrays(fs.v, fs.Now())
    modifies fs`disk, fs`cuts, fs`gcCursor, fs`gcMd, fs`candidates, fs`allocMap
    ensures fs.Valid() && Kept(old(fs.Now()), fs.disk) && CutsSafe(fs.v, old(fs.cuts), fs.cuts, fs.files)
    ensures NoStrays(fs.v, fs.Now()) && (status.Ok? || status == ErrCorrupt) && ReserveKept(old(fs.Held()), fs.Held())
    ensures Compact.Tame(fs.v, old(fs.Now()), fs.Now())
    ensures WalkElsewhere(old(fs.Now()), old(fs.gcMd), fs.disk, fs.gcMd)
    ensures erased.Some? ==> status.Ok? && Reclaimed(fs, erased.value)
    ensures !status.Ok? ==> Mangled(fs.v, fs.disk)
    ensures status.Ok? && erased.None? && !useMap && !old(fs.gcMd.active) ==> NothingUseless(fs.v, fs.Now(), fs.reserve)
    ensures status.Ok? && erased.None? ==>
              && !fs.gcMd.active
              && forall c | c in fs.candidates && c.sector != 0 :: Noted(fs.v, fs.Now(), fs.reserve, c.sector)
  {
    fs.candidates := seq(4, i => Candidate(0, 0, 0));
    var advanced := 0;
    ghost var w0, cuts0, h0, start := fs.Now(), fs.cuts, fs.Held(), fs.gcCursor;
    ghost var whole := !useMap && !fs.gcMd.active;
    Compact.TameSame(fs.v, w0);
    while advanced < DataSectors(fs.v)
      invariant Passing(fs, w0, cuts0, h0, start, advanced) && WalkElsewhere(w0, old(fs.gcMd), fs.disk, fs.gcMd)
      invariant whole ==> Knowing(fs, start, advanced)
      decreases DataSectors(fs.v) - advanced, Rank(fs.disk, fs.gcMd, fs.gcCursor)
    {
      var before := Normalized(fs.v, fs.gcCursor);
      var action;
      status, action := PassTurn(fs, useMap, w0, old(fs.gcMd), cuts0, h0, start, advanced);
      if !status.Ok? {
        return status, None;
      }
      if action.Erased? {
        return Ok, Some(before);
      }
      var after := Normalized(fs.v, fs.gcCursor);
      if after != before {
        advanced := advanced + 1;
      }
    }
    return Ok, None;
  }

  /** The pass has seen `advanced` sectors, and nothing that is needed has been touched. */
  ghost predicate Passing(fs: Volatile, w0: World, cuts0: iset<Image>, h0: Hold, start: nat, advanced: nat)
    reads fs
  {
    && fs.Valid() && advanced <= DataSectors(fs.v) && DataSector(fs.v, start) && Untouched(fs, w0, cuts0, h0)
    && fs.gcCursor == Along(fs.v, start, advanced) && (advanced == DataSectors(fs.v) ==> !fs.gcMd.active)
    && AllNoted(fs.v, fs.Now(), fs.reserve, fs.candidates, start, advanced)
  }

  ghost predicate Untouched(fs: Volatile, w0: World, cuts0: iset<Image>, h0: Hold)
    reads fs
  {
    && fs.Now() == w0.(disk := fs.disk) && Kept(w0, fs.disk) && CutsSafe(fs.v, cuts0, fs.cuts, fs.files)
    && NoStrays(fs.v, fs.Now()) && ReserveKept(h0, fs.Held()) && Compact.Tame(fs.v, w0, fs.Now())
  }

  /** The walk is where it was, or over, or in a sector that no writer occupies, and it has come past no live record
      of an open file without noting that. */
  ghost predicate WalkElsewhere(w: World, g: GcWalk, disk': Disk, g': GcWalk) {
    (g'.active ==> g' == g || !IsOpen(w.open, g'.sector)) && WalkWary(w, g, disk', g')
  }

  lemma ElsewhereMore(w: World, g: GcWalk, w1: World, g1: GcWalk, disk2: Disk, g2: GcWalk)
    requires WalkElsewhere(w, g, w1.disk, g1) && WalkElsewhere(w1, g1, disk2, g2) && w1.open == w.open
    ensures WalkElsewhere(w, g, disk2, g2)
  {
    forall slot: u16 | Pinned(w.open, slot) && Wary(w.disk, g, slot)
      ensures Wary(disk2, g2, slot)
    {
      assert Wary(w1.disk, g1, slot);
    }
  }

  /** While the walk rests. */
  lemma ElsewhereResting(v: Volume, w: World, w': World, g: GcWalk)
    requires Compact.Tame(v, w, w') && WalkOk(v, w', g)
    ensures WalkElsewhere(w, g, w'.disk, g)
  {
    assert Compact.TameIn(v, w, w', Compact.NewLive);
    forall slot: u16 | Pinned(w.open, slot) && Wary(w.disk, g, slot)
      ensures Wary(w'.disk, g, slot)
    {
      if g.active && g.sector < |w.disk| {
        assert NoneNew(w.disk[g.sector], w'.disk[g.sector], slot);
      }
      WaryKept(v, w, w', g, slot);
    }
  }

  lemma ThinnedMore(v: Volume, w0: World, w1: World, disk': Disk, s: nat)
    requires w1 == w0.(disk := w1.disk) && Kept(w0, w1.disk) && Compact.Tame(v, w0, w1) && NoStrays(v, w1)
    requires Sound(v, w1) && Kept(w1, disk') && DataSector(v, s) && s < |w1.disk| == |disk'|
    requires disk' == w1.disk[s := disk'[s]] && Thinned(w1.disk[s], disk'[s])
    ensures Kept(w0, disk') && NoStrays(v, w1.(disk := disk')) && Compact.Tame(v, w0, w1.(disk := disk'))
  {
    KeptTransitive(w0, w1.disk, disk');
    ThinnedNoStrays(v, w1, disk', s);
    Compact.TameThinned(v, w1, disk', s);
    Compact.TameMore(v, w0, w1, w1.(disk := disk'));
  }

  method PassTurn(fs: Volatile, useMap: bool, ghost w0: World, ghost g0: GcWalk, ghost cuts0: iset<Image>,
                  ghost h0: Hold, ghost start: nat, ghost advanced: nat)
    returns (status: Status, action: Action)
    requires Passing(fs, w0, cuts0, h0, start, advanced) && advanced < DataSectors(fs.v) && DataSectors(fs.v) >= 2
    requires WalkElsewhere(w0, g0, fs.disk, fs.gcMd)
    modifies fs`disk, fs`cuts, fs`gcCursor, fs`gcMd, fs`candidates, fs`allocMap
    ensures fs.Valid() && Untouched(fs, w0, cuts0, h0) && WalkElsewhere(w0, g0, fs.disk, fs.gcMd)
    ensures (status.Ok? || status == ErrCorrupt) && (action.Erased? ==> status.Ok? && Reclaimed(fs, old(fs.gcCursor)))
    ensures status.Ok? && !action.Erased? ==>
              if fs.gcCursor == old(fs.gcCursor) then
                && Passing(fs, w0, cuts0, h0, start, advanced)
                && Rank(fs.disk, fs.gcMd, fs.gcCursor) < Rank(old(fs.disk), old(fs.gcMd), fs.gcCursor)
              else Passing(fs, w0, cuts0, h0, start, advanced + 1)
    ensures !status.Ok? ==> Mangled(fs.v, fs.disk)
    ensures status.Ok? && !action.Erased? && !useMap && old(Knowing(fs, start, advanced)) ==>
              Knowing(fs, start, if fs.gcCursor == old(fs.gcCursor) then advanced else advanced + 1)
  {
    ghost var w1, g1, s, knowing := fs.Now(), fs.gcMd, fs.gcCursor, !useMap && Knowing(fs, start, advanced);
    status, action := PassStep(fs, useMap, w0, cuts0, h0, start, advanced);
    if knowing && status.Ok? && !action.Erased? {
      HeldMore(fs.v, w1, g1, fs.disk, fs.gcMd, fs.reserve, start, advanced, s, fs.gcCursor != s, fs.gcCursor);
    }
    ElsewhereMore(w0, g0, w1, g1, fs.disk, fs.gcMd);
  }

  method PassStep(fs: Volatile, useMap: bool, ghost w0: World, ghost cuts0: iset<Image>, ghost h0: Hold,
                  ghost start: nat, ghost advanced: nat)
    returns (status: Status, action: Action)
    requires Passing(fs, w0, cuts0, h0, start, advanced) && advanced < DataSectors(fs.v) && DataSectors(fs.v) >= 2
    modifies fs`disk, fs`cuts, fs`gcCursor, fs`gcMd, fs`candidates, fs`allocMap
    ensures fs.Valid() && Untouched(fs, w0, cuts0, h0)
    ensures WalkElsewhere(old(fs.Now()), old(fs.gcMd), fs.disk, fs.gcMd)
    ensures (status.Ok? || status == ErrCorrupt) && (action.Erased? ==> status.Ok? && Reclaimed(fs, old(fs.gcCursor)))
    ensures status.Ok? && !action.Erased? ==>
              if fs.gcCursor == old(fs.gcCursor) then
                && Passing(fs, w0, cuts0, h0, start, advanced)
                && Rank(fs.disk, fs.gcMd, fs.gcCursor) < Rank(old(fs.disk), old(fs.gcMd), fs.gcCursor)
              else Passing(fs, w0, cuts0, h0, start, advanced + 1)
    ensures !status.Ok? ==> Mangled(fs.v, fs.disk)
    ensures status.Ok? && !action.Erased? && !useMap ==>
              && fs.disk == old(fs.disk)[old(fs.gcCursor) := fs.disk[old(fs.gcCursor)]] && |fs.disk| == |old(fs.disk)|
              && Passed(old(fs.Now()), old(fs.gcMd), fs.disk, fs.gcMd, fs.reserve, old(fs.gcCursor), fs.gcCursor)
  {
    ghost var w1, g1, cs, s := fs.Now(), fs.gcMd, fs.candidates, fs.gcCursor;
    status, action := GcStep(fs, useMap);
    ThinnedMore(fs.v, w0, w1, fs.disk, s);
    if status.Ok? && !action.Erased? {
      StillNoted(fs.v, w1, fs.disk, fs.reserve, cs, fs.candidates, start, advanced, s,
                 if fs.gcCursor != s then advanced + 1 else advanced);
    }
    if status.Ok? && !action.Erased? && !useMap {
      assert PassedIs(w1, g1, fs.disk, fs.gcMd, fs.reserve, s, fs.gcCursor);
    }
  }

  // ---------------------------------------------------------------- compaction of the candidates

  /** Where every live root is its slot's root, the sector can be compacted. */
  lemma CandidateTwins(v: Volume, w: World, p: nat)
    requires Sound(v, w) && NoStrays(v, w) && DataSector(v, p) && CandidateOk(w, p)
    ensures Compact.AllTwins(v, w, p)
  {
    forall k | 0 <= k < |w.disk[p].recs| && w.disk[p].recs[k].Live() && w.disk[p].recs[k].typ == TYPE_ROOT
      ensures Compact.Twin(v, w, w.disk[p].recs[k].slot, p)
    {
      RootIsHead(v, w, p, k);
    }
  }

  lemma RootIsHead(v: Volume, w: World, p: nat, k: nat)
    requires Sound(v, w) && DataSector(v, p) && w.disk[p].footer.Live? && k < |w.disk[p].recs|
    requires w.disk[p].recs[k].Live() && w.disk[p].recs[k].typ == TYPE_ROOT
    requires Used(w.index, w.paths, w.disk[p].recs[k].slot, p)
    ensures Compact.Twin(v, w, w.disk[p].recs[k].slot, p)
  {
    var slot := w.disk[p].recs[k].slot;
    assert SaneAt(v, w.disk, p) && Files.Stored(v, w.disk, w.index, w.paths, slot, w.files[slot]);
    OnlyLive(v, w.disk[p], k);
    var i: nat :| i < |w.paths[slot]| && w.paths[slot][i] == p;
    assert Node(v, w.disk, slot, w.paths[slot], i);
    assert Compact.Moved(w.paths[slot], p) == w.paths[slot];
  }

  ghost predicate Compactable(v: Volume, w: World, reserve: seq<nat>, p: nat) {
    DataSector(v, p) && !IsOpen(w.open, p) && p !in reserve && Compact.AllTwins(v, w, p)
  }

  ghost predicate AllCompactable(v: Volume, w: World, reserve: seq<nat>, cs: seq<Candidate>) {
    forall c | c in cs && c.sector != 0 :: Compactable(v, w, reserve, c.sector)
  }

  lemma StillCompactable(v: Volume, w: World, w': World, reserve: seq<nat>, reserve': seq<nat>, cs: seq<Candidate>)
    requires AllCompactable(v, w, reserve, cs) && Compact.TwinsKept(v, w, w') && w'.open == w.open
    requires forall q | q in reserve' :: q in reserve
    ensures AllCompactable(v, w', reserve', cs)
  {
    forall c | c in cs && c.sector != 0
      ensures Compactable(v, w', reserve', c.sector)
    {
      assert Compactable(v, w, reserve, c.sector);
    }
  }

  /** fffs_gc_compact_until_erased. Whether the space left is worth it is for `allowed` to say. */
  method CompactUntilErased(fs: Volatile, allowed: Candidate -> bool, relaxed: bool, scratch: nat)
    returns (status: Status, erased: Option<nat>)
    requires fs.Valid() && !fs.gcMd.active && Compact.ReserveOk(fs.v, fs.open, fs.reserve) && 0 < scratch
    requires AllCompactable(fs.v, fs.Now(), fs.reserve, fs.candidates)
    modifies fs`disk, fs`cuts, fs`reserve, fs`allocMap, fs`allocCursor, fs`nextSerial, fs`index, fs`journal, fs`paths
    ensures fs.Valid() && Compact.SameFiles(fs.v, old(fs.Now()), fs.Now(), old(fs.cuts), fs.cuts)
    ensures ReserveKept(old(fs.Held()), fs.Held())
    ensures status.Ok? ==> erased.Some? && Reclaimed(fs, erased.value)
    ensures !status.Ok? ==>
              && status == ErrNoSpace && erased.None? && AllCompactable(fs.v, fs.Now(), fs.reserve, fs.candidates)
              && NoneFreed(old(fs.Held()), fs.Held())
  {
    ghost var w0, cuts0, h0 := fs.Now(), fs.cuts, fs.Held();
    SameHere(fs.v, w0, cuts0);
    var i := 0;
    while i < |fs.candidates| && fs.candidates[i].sector != 0
      invariant fs.Valid() && Compact.SameFiles(fs.v, w0, fs.Now(), cuts0, fs.cuts)
      invariant ReserveKept(h0, fs.Held()) && AllCompactable(fs.v, fs.Now(), fs.reserve, fs.candidates)
      invariant NoneFreed(h0, fs.Held())
    {
      var c := fs.candidates[i];
      if allowed(c) {
        assert Compactable(fs.v, fs.Now(), fs.reserve, c.sector);
        ghost var w1, cuts1, reserve1 := fs.Now(), fs.cuts, fs.reserve;
        status := Compact.CompactRootOnlySector(fs, c.sector, relaxed, scratch);
        Compact.PreservedMore(fs.v, w0, w1, fs.Now(), cuts0, cuts1, fs.cuts);
        if status.Ok? {
          return Ok, Some(c.sector);
        }
        StillCompactable(fs.v, w1, fs.Now(), reserve1, fs.reserve, fs.candidates);
      }
      i := i + 1;
    }
    return ErrNoSpace, None;
  }

  lemma SameHere(v: Volume, w: World, cuts: iset<Image>)
    requires Sound(v, w)
    ensures Compact.SameFiles(v, w, w, cuts, cuts)
  {
    Compact.TameSame(v, w);
  }

  /** fffs_gc_until_erased: a pass that trusts the allocation map, one that does not, then compaction.
      It comes to an end, and whatever it does the files stay what they are. */
  method GcUntilErased(fs: Volatile, allowed: Candidate -> bool, scratch: nat)
    returns (status: Status, erased: Option<nat>)
    requires fs.Valid() && DataSectors(fs.v) >= 2 && NoStrays(fs.v, fs.Now())
    requires Compact.ReserveOk(fs.v, fs.open, fs.reserve) && 0 < scratch
    modifies fs`disk, fs`cuts, fs`gcCursor, fs`gcMd, fs`candidates, fs`reserve, fs`allocMap, fs`allocCursor,
             fs`nextSerial,
             fs`index, fs`journal, fs`paths
    ensures fs.Valid() && Compact.SameFiles(fs.v, old(fs.Now()), fs.Now(), old(fs.cuts), fs.cuts)
    ensures ReserveKept(old(fs.Held()), fs.Held())
    ensures erased.Some? ==> status.Ok? && Reclaimed(fs, erased.value)
    ensures status.Ok? ==> erased.Some?
    ensures fs.gcMd.active ==> Stayed(old(fs.Now()), fs.Now())
    ensures status.ErrCorrupt? ==> Mangled(fs.v, fs.disk)
    ensures status.ErrNoSpace? ==> NothingErased(fs.v, fs.open, fs.Held()) && Crowded(fs.v, fs.Now())
    ensures WalkElsewhere(old(fs.Now()), old(fs.gcMd), fs.disk, fs.gcMd)
    ensures status.ErrNoSpace? ==> !fs.gcMd.active && AllCompactable(fs.v, fs.Now(), fs.reserve, fs.candidates)
  {
    ghost var w0, cuts0, g0 := fs.Now(), fs.cuts, fs.gcMd;
    status, erased := TwoPasses(fs);
    if !status.Ok? || erased.Some? {
      return;
    }
    ghost var w2, cuts2, h2 := fs.Now(), fs.cuts, fs.Held();
    status, erased := CompactUntilErased(fs, allowed, false, scratch);
    if !status.Ok? {
      StillNothing(fs.v, fs.open, h2, fs.Held());
      CrowdedNow(fs.v, w2, fs.Now(), h2.reserve, cuts2, fs.cuts);
    }
    ElsewhereResting(fs.v, w2, fs.Now(), fs.gcMd);
    ElsewhereMore(w0, g0, w2, fs.gcMd, fs.disk, fs.gcMd);
    Compact.PreservedMore(fs.v, w0, w2, fs.Now(), cuts0, cuts2, fs.cuts);
  }

  /** All heads are where they were, and all files keep their records and data. */
  ghost predicate Stayed(w: World, w': World) {
    w'.index == w.index && w'.paths == w.paths && KeepsUsed(w.disk, w'.disk, w.index, w.paths)
  }

  lemma KeptStayed(w: World, w': World)
    requires Kept(w, w'.disk) && w'.index == w.index && w'.paths == w.paths
    ensures Stayed(w, w')
  {
    forall slot: u16, p: nat | Used(w.index, w.paths, slot, p) && p < |w.disk|
      ensures Keeps(w.disk[p], w'.disk[p], slot)
    {
      assert Needed(w, slot, p);
    }
  }

  lemma StayedMore(w: World, w1: World, w2: World)
    requires Stayed(w, w1) && Stayed(w1, w2)
    ensures Stayed(w, w2)
  {
    forall slot: u16, p: nat | Used(w.index, w.paths, slot, p) && p < |w.disk|
      ensures Keeps(w.disk[p], w2.disk[p], slot)
    {
      KeepsTransitive(w.disk[p], w1.disk[p], w2.disk[p], slot);
    }
  }

  method TwoPasses(fs: Volatile) returns (status: Status, erased: Option<nat>)
    requires fs.Valid() && DataSectors(fs.v) >= 2 && NoStrays(fs.v, fs.Now())
    modifies fs`disk, fs`cuts, fs`gcCursor, fs`gcMd, fs`candidates, fs`allocMap
    ensures fs.Valid() && Compact.SameFiles(fs.v, old(fs.Now()), fs.Now(), old(fs.cuts), fs.cuts)
    ensures ReserveKept(old(fs.Held()), fs.Held())
    ensures WalkElsewhere(old(fs.Now()), old(fs.gcMd), fs.disk, fs.gcMd)
    ensures (status.Ok? || status == ErrCorrupt) && (erased.Some? ==> status.Ok? && Reclaimed(fs, erased.value))
    ensures status.Ok? && erased.None? ==> !fs.gcMd.active && AllCompactable(fs.v, fs.Now(), fs.reserve, fs.candidates)
    ensures if !status.Ok? then Mangled(fs.v, fs.disk) else erased.None? ==> NothingErased(fs.v, fs.open, fs.Held())
    ensures Stayed(old(fs.Now()), fs.Now())
    ensures status.Ok? && erased.None? ==> NothingUseless(fs.v, fs.Now(), fs.reserve)
  {
    ghost var w0, cuts0, g0 := fs.Now(), fs.cuts, fs.gcMd;
    status, erased := Pass(fs, true);
    KeptStayed(w0, fs.Now());
    KeptSame(fs.v, w0, fs.Now(), cuts0, fs.cuts);
    if !status.Ok? || erased.Some? {
      return;
    }
    ghost var w1, cuts1, g1 := fs.Now(), fs.cuts, fs.gcMd;
    status, erased := Pass(fs, false);
    KeptStayed(w1, fs.Now());
    StayedMore(w0, w1, fs.Now());
    ElsewhereMore(w0, g0, w1, g1, fs.disk, fs.gcMd);
    KeptSame(fs.v, w1, fs.Now(), cuts1, fs.cuts);
    Compact.PreservedMore(fs.v, w0, w1, fs.Now(), cuts0, cuts1, fs.cuts);
    if status.Ok? && erased.None? {
      NothingBlank(fs.v, fs.Now(), fs.Held());
      NotedCompactable(fs.v, fs.Now(), fs.reserve, fs.candidates);
    }
  }

  lemma KeptSame(v: Volume, w: World, w': World, cuts: iset<Image>, cuts': iset<Image>)
    requires Sound(v, w') && w' == w.(disk := w'.disk) && Kept(w, w'.disk) && CutsSafe(v, cuts, cuts', w.files)
    requires NoStrays(v, w') && Compact.Tame(v, w, w')
    ensures Compact.SameFiles(v, w, w', cuts, cuts')
  {
    Compact.KeptWriters(w, w'.disk);
  }

  lemma NotedCompactable(v: Volume, w: World, reserve: seq<nat>, cs: seq<Candidate>)
    requires Sound(v, w) && NoStrays(v, w) && forall c | c in cs && c.sector != 0 :: Noted(v, w, reserve, c.sector)
    ensures AllCompactable(v, w, reserve, cs)
  {
    forall c | c in cs && c.sector != 0
      ensures Compactable(v, w, reserve, c.sector)
    {
      CandidateTwins(v, w, c.sector);
    }
  }
}
