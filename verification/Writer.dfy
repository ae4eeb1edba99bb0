/** Streaming writes: the cache, extents, spans, and the commit at close (src/fffs_file.c). */
module Writer {
  import opened Nor
  import opened SectorMd
  import opened SectorView
  import opened Files
  import opened Mounted
  import opened Extents
  import opened Finish
  import opened Content
  import opened Drafts
  import Alloc
  import Compact
  import Gc
  import GcPass
  import IndexLog

  // ---------------------------------------------------------------- the state of a writer

  /** The window that is being filled. */
  ghost predicate WindowOk(v: Volume, disk: Disk, h: Handle, d: Draft) {
    var o := h.out;
    && h.current < |disk| && DataSector(v, h.current)
    && InWindow(v, disk[h.current], o.dataOff, o.recordOff, o.needsFooter, d.flushed)
    && Lookup(disk[h.current], h.slot).None? && (d.recs != [] ==> o.needsFooter)
    && (!o.needsFooter ==> NoneBegun(disk[h.current], h.slot))
  }

  /** What is programmed next goes behind what is on flash, unless the window is full anyway. */
  ghost predicate Aligned(o: Output, d: Draft) {
    o.writeOff == o.dataOff + |d.flushed| || (o.cache == [] && o.dataOff + |d.flushed| == o.recordOff)
  }

  ghost predicate PathOk(h: Handle, pend: Path, d: Draft) {
    && |pend| == |d.recs| && d.span <= |pend| && ProperSlot(h.slot)
    && var path := pend + [h.current];
    path[0] == h.head && path[d.span] == h.spanHead && h.current == h.spanHead + (|pend| - d.span) && h.spanHead != 0
  }

  datatype Part = ThePath | TheWindow | TheStream | TheOffsets | TheExtents | TheLinks | TheRest

  /** One part of what holds of a file in the making. Callers name the parts they need. */
  ghost predicate InWork(v: Volume, disk: Disk, h: Handle, pend: Path, d: Draft, part: Part) {
    match part
    case ThePath => PathOk(h, pend, d)
    case TheWindow => WindowOk(v, disk, h, d)
    case TheStream => StreamOk(h.out, d)
    case TheOffsets => OffsetsOk(h.out, d)
    case TheExtents => ExtentsOk(v, disk, h.slot, pend, d)
    case TheLinks => LinksOk(pend + [h.current], d)
    case TheRest => RestOk(disk, h.slot, pend, d)
  }

  ghost predicate WorkOk(v: Volume, disk: Disk, h: Handle, pend: Path, d: Draft) {
    forall part {:trigger InWork(v, disk, h, pend, d, part)} :: InWork(v, disk, h, pend, d, part)
  }

  /** No two writers share a sector that they are writing. */
  ghost predicate Exclusive(open: OpenFiles) {
    forall a, b, p: nat | a in open && b in open && a != b && open[a].Occupies(p) :: !open[b].Occupies(p)
  }

  /** The new extents are not on the chain that the slot has so far. */
  ghost predicate Apart(index: Index, paths: Paths, slot: u16, path: Path) {
    forall p | p in path :: !Used(index, paths, slot, p)
  }

  /** A walk of the collector has not come past a record that is still to be finished. */
  ghost predicate WalkBehind(g: GcWalk, disk: Disk, pend: Path, d: Draft) {
    g.active ==>
      forall i: nat | i < |pend| && Uncommitted(d, i) && pend[i] == g.sector && pend[i] < |disk| ::
        g.pos < |disk[pend[i]].recs|
  }

  /** What the invariants of a mounted volume with open files depend on. */
  datatype Env = Env(w: World, g: GcWalk, cursor: nat, used: set<nat>, reserve: seq<nat>, ranges: map<nat, Range>)

  ghost function EnvOf(fs: Volatile): Env
    reads fs
  {
    Env(fs.Now(), fs.gcMd, fs.gcCursor, fs.allocMap, fs.reserve, fs.ranges)
  }

  datatype Aspect = TheFiles | TheWalk | TheStrays | TheAllocator | TheWriters

  /** One aspect of a sound mounted volume. Callers name the aspects they need. */
  ghost predicate InReady(v: Volume, e: Env, a: Aspect) {
    match a
    case TheFiles => Sound(v, e.w)
    case TheWalk => WalkOk(v, e.w, e.g) && DataSector(v, e.cursor)
    case TheStrays => NoStrays(v, e.w)
    case TheAllocator => Alloc.AllocOk(v, e.w.open, Hold(e.w.disk, e.used, e.reserve), e.ranges)
    case TheWriters => Exclusive(e.w.open)
  }

  ghost predicate Ready(v: Volume, e: Env) {
    forall a {:trigger InReady(v, e, a)} :: InReady(v, e, a)
  }

  /** Everything that must hold of the volume and of writer `id`. */
  ghost predicate WriterIn(v: Volume, e: Env, id: nat, d: Draft) {
    && Ready(v, e) && id in e.w.open && id in e.w.pend && id in e.ranges && e.w.open[id].writing
    && var h, pend := e.w.open[id], e.w.pend[id];
    && WorkOk(v, e.w.disk, h, pend, d) && Apart(e.w.index, e.w.paths, h.slot, pend + [h.current])
    && WalkBehind(e.g, e.w.disk, pend, d)
  }

  ghost predicate WriterOk(fs: Volatile, id: nat)
    reads fs
  {
    id in fs.drafts && WriterIn(fs.v, EnvOf(fs), id, fs.drafts[id]) && fs.Backed()
  }

  ghost predicate WriterReady(fs: Volatile, id: nat)
    reads fs
  {
    WriterOk(fs, id) && Aligned(fs.open[id].out, fs.drafts[id])
  }

  lemma ReadyDisk(v: Volume, e: Env)
    requires Ready(v, e)
    ensures VolumeOk(v) && DiskOk(v, e.w.disk)
  {
    assert InReady(v, e, TheFiles);
  }

  lemma ReadyCuts(v: Volume, e: Env, p: nat, cuts: iset<Image>, cuts': iset<Image>)
    requires Ready(v, e) && p < |e.w.disk| && QuietCuts(e.w.disk, e.w.index, p, cuts, cuts')
    ensures CutsKept(v, cuts, cuts', e.w.index, e.w.files)
  {
    assert InReady(v, e, TheFiles);
    QuietSurvives(v, e.w, p, cuts, cuts');
  }

  // ---------------------------------------------------------------- own writes

  /** The records that the walk has passed are still there. */
  ghost predicate WalkKept(g: GcWalk, p: nat, s: Sec, s': Sec) {
    g.active && g.sector == p ==>
      s'.footer.Live? && g.pos <= |s.recs| && g.pos <= |s'.recs| && s'.recs[..g.pos] == s.recs[..g.pos]
  }

  /** No root became live. */
  ghost predicate NoNewRoot(s: Sec, s': Sec) {
    s'.footer.Live? ==>
      forall k | 0 <= k < |s'.recs| && s'.recs[k].Live() && s'.recs[k].typ == TYPE_ROOT ::
        s.footer.Live? && s'.recs[k] in s.recs
  }

  /** No records of other slots have appeared. */
  ghost predicate OwnTraces(s: Sec, s': Sec, slot: u16) {
    && (forall t: u16 {:trigger NoneBegun(s', t)} | t != slot && NoneBegun(s, t) :: NoneBegun(s', t))
    && (forall t: u16 {:trigger NoneNew(s, s', t)} | t != slot :: NoneNew(s, s', t))
  }

  /** The sector that a writer writes to next has got a record of its slot, */
  lemma AppendedTraces(s: Sec, s': Sec, first: bool, r: Md)
    requires s'.recs == (if first then [] else s.recs) + [r] && (!first ==> s.footer.Live?) && s'.footer.Live?
    ensures OwnTraces(s, s', r.slot)
  {
    var n := |s'.recs| - 1;
    assert s'.recs[n] == r && forall k | 0 <= k < n :: s'.recs[k] == s.recs[k];
    forall t: u16 | t != r.slot
      ensures NoneNew(s, s', t)
    {
      var k := FirstLive(s'.recs, t);
      assert k < |s'.recs| ==> k < n;
    }
  }

  /** or its last record has been replaced, and the sector may have been marked full. */
  lemma ReplacedTraces(s: Sec, s': Sec, s'': Sec, r: Md)
    requires Replaced(s, s', r) && r.slot == s.recs[|s.recs| - 1].slot && (s'' == s' || Hinted(s', s''))
    ensures OwnTraces(s, s'', r.slot)
  {
    var n := |s.recs| - 1;
    assert s''.recs[n] == r && forall k | 0 <= k < n :: s''.recs[k] == s.recs[k];
    forall t: u16 | t != r.slot
      ensures NoneNew(s, s'', t)
    {
      var k, k' := FirstLive(s.recs, t), FirstLive(s''.recs, t);
      assert k < |s.recs| ==> k < n;
      assert k' < |s.recs| ==> k' < n;
    }
  }

  /** A walk is as wary as before, if it has not come past the writer's own record. */
  lemma OwnWary(v: Volume, w: World, disk': Disk, p: nat, g: GcWalk, slot: u16)
    requires p < |w.disk| == |disk'| && disk' == w.disk[p := disk'[p]] && WalkOk(v, w.(disk := disk'), g)
    requires OwnTraces(w.disk[p], disk'[p], slot)
    requires g.active && g.sector == p ==> g.pos <= FirstLive(disk'[p].recs, slot)
    ensures Gc.WalkWary(w, g, disk', g)
  {
    forall t: u16 | Pinned(w.open, t) && Wary(w.disk, g, t)
      ensures Wary(disk', g, t)
    {
      if g.active && g.sector == p && t != slot {
        assert NoneNew(w.disk[p], disk'[p], t);
        WaryKept(v, w, w.(disk := disk'), g, t);
      }
    }
  }

  lemma WarySame(w: World, g: GcWalk)
    ensures Gc.WalkWary(w, g, w.disk, g)
  {
  }

  lemma WaryMore(w: World, g: GcWalk, w1: World, g1: GcWalk, disk2: Disk, g2: GcWalk)
    requires Gc.WalkWary(w, g, w1.disk, g1) && Gc.WalkWary(w1, g1, disk2, g2)
    requires forall slot: u16 | Pinned(w.open, slot) :: Pinned(w1.open, slot)
    ensures Gc.WalkWary(w, g, disk2, g2)
  {
    forall slot: u16 | Pinned(w.open, slot) && Wary(w.disk, g, slot)
      ensures Wary(disk2, g2, slot)
    {
      assert Wary(w1.disk, g1, slot);
    }
  }

  lemma OwnSound(v: Volume, w: World, disk': Disk, p: nat)
    requires Sound(v, w) && p < |w.disk| == |disk'| && disk' == w.disk[p := disk'[p]] && DiskOk(v, disk')
    requires Quiet(w.disk[p], disk'[p])
    ensures Sound(v, w.(disk := disk'))
  {
    var w' := w.(disk := disk');
    SectorKept(v, w.disk, p, disk'[p], w.index, w.paths, w.files);
    forall id: nat, q: nat | Extends(w', id, q)
      ensures q < |disk'| && DataSector(v, q) && (w.open[id].Occupies(q) || Lookup(disk'[q], w.open[id].slot).Some?)
    {
      assert Extends(w, id, q);
      if q == p {
        assert Keeps(w.disk[p], disk'[p], w.open[id].slot);
      }
    }
  }

  lemma OwnWalk(v: Volume, w: World, disk': Disk, p: nat, g: GcWalk)
    requires WalkOk(v, w, g) && p < |w.disk| == |disk'| && disk' == w.disk[p := disk'[p]]
    requires WalkKept(g, p, w.disk[p], disk'[p])
    ensures WalkOk(v, w.(disk := disk'), g)
  {
    if g.active {
      var w', recs, recs' := w.(disk := disk'), w.disk[g.sector].recs, disk'[g.sector].recs;
      assert recs'[..g.pos] == recs[..g.pos];
      assert forall k | 0 <= k < g.pos :: recs'[k] == recs'[..g.pos][k] == recs[..g.pos][k] == recs[k];
      forall slot: u16 | Needed(w', slot, g.sector) && !g.liveSeen
        ensures g.pos <= FirstLive(recs', slot)
      {
        assert Needed(w, slot, g.sector);
      }
    }
  }

  lemma OwnStrays(v: Volume, w: World, disk': Disk, p: nat)
    requires NoStrays(v, w) && p < |w.disk| == |disk'| && disk' == w.disk[p := disk'[p]]
    requires NoNewRoot(w.disk[p], disk'[p])
    ensures NoStrays(v, w.(disk := disk'))
  {
    forall q: nat, k: nat | DataSector(v, q) && q < |disk'| && k < |disk'[q].recs| && disk'[q].footer.Live?
      ensures disk'[q].recs[k].Live() && disk'[q].recs[k].typ == TYPE_ROOT ==> disk'[q].recs[k].slot in w.index
    {
      if q == p && disk'[q].recs[k].Live() && disk'[q].recs[k].typ == TYPE_ROOT {
        var j :| 0 <= j < |w.disk[p].recs| && w.disk[p].recs[j] == disk'[q].recs[k];
      }
    }
  }

  lemma OwnAlloc(v: Volume, open: OpenFiles, h: Hold, h': Hold, ranges: map<nat, Range>, p: nat)
    requires Alloc.AllocOk(v, open, h, ranges) && IsOpen(open, p) && p < |h.disk| == |h'.disk|
    requires h'.disk == h.disk[p := h'.disk[p]]
    requires h.used <= h'.used && h'.reserve == h.reserve
    ensures Alloc.AllocOk(v, open, h', ranges)
  {
    assert p !in h.reserve;
    ReserveElsewhere(h, h', p);
    Alloc.AllocKept(v, open, h, h', ranges);
  }

  /** A write into a sector that the writer occupies. */
  lemma OwnReady(v: Volume, e: Env, disk': Disk, used': set<nat>, p: nat)
    requires Ready(v, e) && IsOpen(e.w.open, p) && p < |e.w.disk| == |disk'| && disk' == e.w.disk[p := disk'[p]]
    requires DiskOk(v, disk') && Quiet(e.w.disk[p], disk'[p]) && WalkKept(e.g, p, e.w.disk[p], disk'[p])
    requires NoNewRoot(e.w.disk[p], disk'[p]) && e.used <= used'
    ensures Ready(v, e.(w := e.w.(disk := disk'), used := used'))
  {
    var e' := e.(w := e.w.(disk := disk'), used := used');
    forall a
      ensures InReady(v, e', a)
    {
      assert InReady(v, e, a);
      match a
      case TheFiles => OwnSound(v, e.w, disk', p);
      case TheWalk => OwnWalk(v, e.w, disk', p, e.g);
      case TheStrays => OwnStrays(v, e.w, disk', p);
      case TheAllocator =>
        OwnAlloc(v, e.w.open, Hold(e.w.disk, e.used, e.reserve), Hold(disk', used', e.reserve), e.ranges, p);
      case TheWriters =>
    }
  }

  /** The stream fields of a handle are its own business. */
  lemma OutReady(v: Volume, e: Env, id: nat, o: Output)
    requires Ready(v, e) && id in e.w.open
    ensures Ready(v, e.(w := e.w.(open := e.w.open[id := e.w.open[id].(out := o)])))
  {
    var w' := e.w.(open := e.w.open[id := e.w.open[id].(out := o)]);
    assert InReady(v, e, TheWriters);
    SameOpen(e.w, w', id);
    OpenReady(v, e, w');
  }

  ghost predicate SameHolding(w: World, w': World) {
    && (forall p: nat :: IsOpen(w'.open, p) == IsOpen(w.open, p))
    && (forall slot: u16 :: Pinned(w'.open, slot) == Pinned(w.open, slot))
    && (forall slot: u16, p: nat :: Pending(w', slot, p) == Pending(w, slot, p))
    && (forall id: nat, p: nat :: Extends(w', id, p) == Extends(w, id, p))
    && (forall id: nat, p: nat | Extends(w, id, p) ::
          w'.open[id].Occupies(p) == w.open[id].Occupies(p) && w'.open[id].slot == w.open[id].slot)
  }

  lemma SameOpen(w: World, w': World, id: nat)
    requires id in w.open && id in w'.open && w' == w.(open := w.open[id := w'.open[id]])
    requires w'.open[id] == w.open[id].(out := w'.open[id].out)
    ensures SameHolding(w, w') && (Exclusive(w.open) ==> Exclusive(w'.open))
  {
    forall p: nat
      ensures IsOpen(w'.open, p) == IsOpen(w.open, p)
    {
      assert forall a | a in w.open :: w'.open[a].Occupies(p) == w.open[a].Occupies(p);
    }
    forall slot: u16
      ensures Pinned(w'.open, slot) == Pinned(w.open, slot)
    {
      assert forall a | a in w.open :: w'.open[a].slot == w.open[a].slot;
    }
    forall slot: u16, p: nat
      ensures Pending(w', slot, p) == Pending(w, slot, p)
    {
      assert forall a | a in w.open :: w'.open[a].slot == w.open[a].slot && w'.open[a].writing == w.open[a].writing;
    }
  }

  lemma OpenReady(v: Volume, e: Env, w': World)
    requires Ready(v, e) && w' == e.w.(open := w'.open) && SameHolding(e.w, w') && Exclusive(w'.open)
    ensures Ready(v, e.(w := w'))
  {
    assert forall slot: u16, p: nat :: Needed(w', slot, p) == Needed(e.w, slot, p);
    forall a
      ensures InReady(v, e.(w := w'), a)
    {
      assert InReady(v, e, a);
    }
  }

  // ---------------------------------------------------------------- flush_write_cache

  /** Finished extents do not notice a change in another sector. */
  lemma ExtentsElsewhere(v: Volume, disk: Disk, disk': Disk, slot: u16, pend: Path, d: Draft, p: nat)
    requires ExtentsOk(v, disk, slot, pend, d) && p < |disk| == |disk'| && disk' == disk[p := disk'[p]] && p !in pend
    ensures ExtentsOk(v, disk', slot, pend, d)
  {
    forall i: nat | i < |pend|
      ensures ExtentOk(v, disk', slot, pend[i], d, i)
    {
      assert ExtentOk(v, disk, slot, pend[i], d, i) && pend[i] in pend;
    }
  }

  /** The sector being filled is not among the finished ones: those have live footers. */
  lemma CurrentIsNew(v: Volume, disk: Disk, h: Handle, pend: Path, d: Draft)
    requires WorkOk(v, disk, h, pend, d)
    ensures h.current !in pend && h.current < |disk| && (h.writing ==> h.Occupies(h.current))
  {
    assert InWork(v, disk, h, pend, d, TheExtents) && InWork(v, disk, h, pend, d, TheWindow);
    forall i: nat | i < |pend|
      ensures pend[i] != h.current
    {
      assert ExtentOk(v, disk, h.slot, pend[i], d, i);
    }
  }

  function RoundUp(n: nat, granule: nat): (m: nat)
    requires 0 < granule
    ensures n <= m < n + granule
  {
    if n % granule == 0 then n else n - n % granule + granule
  }

  /** How much of the cache is programmed now, and with how much padding. */
  function FlushSize(cache: nat, final: bool, granule: nat): (r: (nat, nat))
    requires 0 < granule
    ensures r.0 <= cache && r.1 < granule && (if final then r.0 == cache else cache - r.0 < granule)
  {
    if final then (cache, RoundUp(cache, granule) - cache) else (cache - cache % granule, 0)
  }

  /** The window after some of the cache was programmed into it. */
  lemma FlushedWindow(v: Volume, disk: Disk, disk': Disk, h: Handle, pend: Path, d: Draft, n: nat, writeOff: nat)
    requires WorkOk(v, disk, h, pend, d) && n <= |h.out.cache| && h.current < |disk'| == |disk|
    requires disk' == disk[h.current := disk'[h.current]]
    requires var o, s' := h.out, disk'[h.current];
      && InWindow(v, s', o.dataOff, o.recordOff, o.needsFooter, d.flushed + o.cache[..n])
      && s'.footer == disk[h.current].footer
      && (!o.needsFooter ==> s'.recs == disk[h.current].recs)
    ensures WorkOk(v, disk', h.(out := h.out.(cache := h.out.cache[n..], writeOff := writeOff)), pend,
                   d.(flushed := d.flushed + h.out.cache[..n]))
  {
    var d' := d.(flushed := d.flushed + h.out.cache[..n]);
    var h' := h.(out := h.out.(cache := h.out.cache[n..], writeOff := writeOff));
    CurrentIsNew(v, disk, h, pend, d);
    forall part
      ensures InWork(v, disk', h', pend, d', part)
    {
      assert InWork(v, disk, h, pend, d, part);
      match part
      case ThePath =>
      case TheWindow =>
      case TheStream => StreamFlushed(h.out, d, n, writeOff);
      case TheOffsets =>
      case TheExtents =>
        ExtentsElsewhere(v, disk, disk', h.slot, pend, d, h.current);
        ExtentsRename(v, disk', h.slot, pend, d, d');
      case TheLinks => LinksRename(pend + [h.current], d, d');
      case TheRest => RestKept(disk, disk', h.slot, pend, d, d');
    }
  }

  lemma ExtentsRename(v: Volume, disk: Disk, slot: u16, pend: Path, d: Draft, d': Draft)
    requires ExtentsOk(v, disk, slot, pend, d) && d'.recs == d.recs && d'.pieces == d.pieces && d'.span == d.span
    ensures ExtentsOk(v, disk, slot, pend, d')
  {
    forall i: nat | i < |pend|
      ensures ExtentOk(v, disk, slot, pend[i], d', i)
    {
      assert ExtentOk(v, disk, slot, pend[i], d, i);
    }
  }

  lemma LinksRename(path: Path, d: Draft, d': Draft)
    requires LinksOk(path, d) && d'.recs == d.recs && d'.span == d.span
    ensures LinksOk(path, d')
  {
    forall i: nat | i < |d'.recs|
      ensures LinkOk(path, d', i)
    {
      assert LinkOk(path, d, i);
    }
  }

  /** flush_write_cache. */
  method Flush(fs: Volatile, id: nat, final: bool, granule: nat)
    requires WriterReady(fs, id) && 0 < granule <= RECORD_SIZE + FOOTER_SIZE
    modifies fs`disk, fs`cuts, fs`open, fs`drafts
    ensures WriterOk(fs, id) && CutsKept(fs.v, old(fs.cuts), fs.cuts, fs.index, fs.files)
    ensures Flushed(old(EnvOf(fs)), EnvOf(fs), id, old(fs.drafts)[id], fs.drafts[id])
    ensures Gc.WalkWary(old(fs.Now()), fs.gcMd, fs.disk, fs.gcMd)
    ensures fs.drafts == old(fs.drafts)[id := fs.drafts[id]]
    ensures if final then
              fs.open[id].out.cache == []
            else
              |fs.open[id].out.cache| < granule || fs.open[id].out.cache == []
    ensures !final || Full(old(fs.open)[id].out, old(fs.drafts)[id]) ==> Aligned(fs.open[id].out, fs.drafts[id])
  {
    var h := fs.open[id];
    CurrentIsNew(fs.v, fs.disk, h, fs.pend[id], fs.drafts[id]);
    WarySame(fs.Now(), fs.gcMd);
    if h.out.cache == [] || (!final && |h.out.cache| < granule) {
      return;
    }
    var (n, pad) := FlushSize(|h.out.cache|, final, granule);
    if n == 0 {
      return;
    }
    FlushChunk(fs, id, n, pad);
  }

  ghost predicate Full(o: Output, d: Draft) { o.dataOff + |d.flushed + o.cache| == o.recordOff }

  /** Some bytes went from the cache to flash, and nothing else changed. */
  ghost predicate Flushed(e: Env, e': Env, id: nat, d: Draft, d': Draft) {
    && id in e.w.open && id in e'.w.open
    && var h, h' := e.w.open[id], e'.w.open[id];
    && h.current < |e.w.disk| == |e'.w.disk| && Quiet(e.w.disk[h.current], e'.w.disk[h.current])
    && d' == d.(flushed := d'.flushed)
    && NoNewRoot(e.w.disk[h.current], e'.w.disk[h.current])
    && OwnTraces(e.w.disk[h.current], e'.w.disk[h.current], h.slot)
    && h' == h.(out := h.out.(cache := h'.out.cache, writeOff := h'.out.writeOff))
    && d'.flushed + h'.out.cache == d.flushed + h.out.cache
    && e' == e.(w := e.w.(disk := e.w.disk[h.current := e'.w.disk[h.current]], open := e.w.open[id := h']))
  }

  method FlushChunk(fs: Volatile, id: nat, n: nat, pad: nat)
    requires WriterReady(fs, id) && 0 < n <= |fs.open[id].out.cache| && pad < RECORD_SIZE + FOOTER_SIZE
    modifies fs`disk, fs`cuts, fs`open, fs`drafts
    ensures WriterOk(fs, id) && CutsKept(fs.v, old(fs.cuts), fs.cuts, fs.index, fs.files)
    ensures Flushed(old(EnvOf(fs)), EnvOf(fs), id, old(fs.drafts)[id], fs.drafts[id])
    ensures Gc.WalkWary(old(fs.Now()), fs.gcMd, fs.disk, fs.gcMd)
    ensures fs.drafts == old(fs.drafts)[id := fs.drafts[id]]
    ensures fs.open[id].out.cache == old(fs.open)[id].out.cache[n..]
    ensures pad == 0 || (n == |old(fs.open)[id].out.cache| && Full(old(fs.open)[id].out, old(fs.drafts)[id]))
            ==> Aligned(fs.open[id].out, fs.drafts[id])
  {
    var h := fs.open[id];
    ghost var e, d := EnvOf(fs), fs.drafts[id];
    Pour(fs, id, n, pad);
    fs.open := fs.open[id := h.(out := h.out.(cache := h.out.cache[n..], writeOff := h.out.writeOff + n + pad))];
    fs.drafts := fs.drafts[id := d.(flushed := d.flushed + h.out.cache[..n])];
    FlushStep(fs.v, e, id, d, n, h.out.writeOff + n + pad, fs.disk);
  }

  /** The sector being filled, after some bytes of the cache were programmed. */
  ghost predicate Poured(v: Volume, disk: Disk, disk': Disk, h: Handle, d: Draft, n: nat) {
    && n <= |h.out.cache| && h.current < |disk'| == |disk| && disk' == disk[h.current := disk'[h.current]]
    && DiskOk(v, disk')
    && Quiet(disk[h.current], disk'[h.current]) && disk'[h.current].footer == disk[h.current].footer
    && InWindow(v, disk'[h.current], h.out.dataOff, h.out.recordOff, h.out.needsFooter, d.flushed + h.out.cache[..n])
    && (!h.out.needsFooter ==> disk'[h.current].recs == disk[h.current].recs)
  }

  method Pour(fs: Volatile, id: nat, n: nat, pad: nat)
    requires WriterReady(fs, id) && 0 < n <= |fs.open[id].out.cache| && pad < RECORD_SIZE + FOOTER_SIZE
    modifies fs`disk, fs`cuts
    ensures Poured(fs.v, old(fs.disk), fs.disk, fs.open[id], fs.drafts[id], n)
    ensures CutsKept(fs.v, old(fs.cuts), fs.cuts, fs.index, fs.files)
  {
    var h := fs.open[id];
    ghost var e, d, cuts := EnvOf(fs), fs.drafts[id], fs.cuts;
    ReadyDisk(fs.v, e);
    FlushStarts(fs.v, fs.disk, h, fs.pend[id], d, n);
    ProgramData(fs, h.current, h.out.dataOff, h.out.recordOff, h.out.needsFooter, d.flushed, h.out.writeOff,
                h.out.cache[..n], pad);
    ReadyCuts(fs.v, e, h.current, cuts, fs.cuts);
  }

  lemma FlushStep(v: Volume, e: Env, id: nat, d: Draft, n: nat, writeOff: nat, disk': Disk)
    requires WriterIn(v, e, id, d) && Poured(v, e.w.disk, disk', e.w.open[id], d, n)
    ensures var h, d' := e.w.open[id], d.(flushed := d.flushed + e.w.open[id].out.cache[..n]);
      var h' := h.(out := h.out.(cache := h.out.cache[n..], writeOff := writeOff));
      var e' := e.(w := e.w.(disk := disk', open := e.w.open[id := h']));
      WriterIn(v, e', id, d') && Flushed(e, e', id, d, d') && Gc.WalkWary(e.w, e.g, disk', e.g)
  {
    var h := e.w.open[id];
    CurrentIsNew(v, e.w.disk, h, e.w.pend[id], d);
    FlushWalk(v, e, id, d, disk');
    OwnReady(v, e, disk', e.used, h.current);
    FlushWary(v, e, id, d, disk');
    FlushedWindow(v, e.w.disk, disk', h, e.w.pend[id], d, n, writeOff);
    OutReady(v, e.(w := e.w.(disk := disk')), id, h.out.(cache := h.out.cache[n..], writeOff := writeOff));
    assert d.flushed + h.out.cache[..n] + h.out.cache[n..] == d.flushed + h.out.cache;
    WalkBehindElsewhere(e.g, e.w.disk, disk', e.w.pend[id], d, d.(flushed := d.flushed + h.out.cache[..n]), h.current);
  }

  lemma FlushWalk(v: Volume, e: Env, id: nat, d: Draft, disk': Disk)
    requires Ready(v, e) && id in e.w.open && id in e.w.pend && WorkOk(v, e.w.disk, e.w.open[id], e.w.pend[id], d)
    requires var h := e.w.open[id];
      && h.current < |disk'| == |e.w.disk| && disk'[h.current].footer == e.w.disk[h.current].footer
      && (!h.out.needsFooter ==> disk'[h.current].recs == e.w.disk[h.current].recs)
    ensures var p := e.w.open[id].current; WalkKept(e.g, p, e.w.disk[p], disk'[p]) && NoNewRoot(e.w.disk[p], disk'[p])
    ensures var p := e.w.open[id].current;
      OwnTraces(e.w.disk[p], disk'[p], e.w.open[id].slot) && NoneNew(e.w.disk[p], disk'[p], e.w.open[id].slot)
  {
    assert InReady(v, e, TheWalk) && InWork(v, e.w.disk, e.w.open[id], e.w.pend[id], d, TheWindow);
  }

  lemma FlushWary(v: Volume, e: Env, id: nat, d: Draft, disk': Disk)
    requires Ready(v, e) && Ready(v, e.(w := e.w.(disk := disk')))
    requires id in e.w.open && id in e.w.pend && WorkOk(v, e.w.disk, e.w.open[id], e.w.pend[id], d)
    requires var p := e.w.open[id].current;
      && p < |disk'| == |e.w.disk| && disk' == e.w.disk[p := disk'[p]]
      && OwnTraces(e.w.disk[p], disk'[p], e.w.open[id].slot)
      && NoneNew(e.w.disk[p], disk'[p], e.w.open[id].slot)
    ensures Gc.WalkWary(e.w, e.g, disk', e.g)
  {
    var h := e.w.open[id];
    assert InReady(v, e, TheWalk) && InReady(v, e.(w := e.w.(disk := disk')), TheWalk);
    assert InWork(v, e.w.disk, h, e.w.pend[id], d, TheWindow);
    OwnWary(v, e.w, disk', h.current, e.g, h.slot);
  }

  lemma WalkBehindElsewhere(g: GcWalk, disk: Disk, disk': Disk, pend: Path, d: Draft, d': Draft, p: nat)
    requires WalkBehind(g, disk, pend, d) && p < |disk| == |disk'| && disk' == disk[p := disk'[p]] && p !in pend
    requires d'.span == d.span
    ensures WalkBehind(g, disk', pend, d')
  {
  }

  /** The first byte of a window that shares its sector is the length of a name. */
  lemma FlushStarts(v: Volume, disk: Disk, h: Handle, pend: Path, d: Draft, n: nat)
    requires WorkOk(v, disk, h, pend, d) && 0 < n <= |h.out.cache|
    ensures h.out.needsFooter || (d.flushed + h.out.cache[..n])[0] != ERASED_BYTE
    ensures h.current < |disk| && DataSector(v, h.current)
    ensures h.out.dataOff + |d.flushed + h.out.cache| <= h.out.recordOff
    ensures InWindow(v, disk[h.current], h.out.dataOff, h.out.recordOff, h.out.needsFooter, d.flushed)
  {
    assert InWork(v, disk, h, pend, d, TheWindow) && InWork(v, disk, h, pend, d, TheStream)
           && InWork(v, disk, h, pend, d, TheOffsets);
    if !h.out.needsFooter {
      PrefixRoundTrip(d.name, []);
      assert Prefix(d.name) + [] == Prefix(d.name);
      var piece := d.flushed + h.out.cache;
      assert piece[0] == Prefix(d.name)[0] && (d.flushed + h.out.cache[..n])[0] == piece[0];
    }
  }

  // ---------------------------------------------------------------- while others work

  /** What the allocator and the collector do leaves a writer in peace. */
  lemma WriterSurvives(v: Volume, e: Env, e': Env, id: nat, d: Draft)
    requires WriterIn(v, e, id, d) && Ready(v, e') && e'.w.open == e.w.open && e'.w.pend == e.w.pend && id in e'.ranges
    requires Compact.WritersKept(e.w, e'.w.disk) && Compact.PinnedSame(e.w, e'.w) && Compact.Tame(v, e.w, e'.w)
    requires GcPass.WalkElsewhere(e.w, e.g, e'.w.disk, e'.g)
    ensures WriterIn(v, e', id, d)
  {
    var h, pend := e.w.open[id], e.w.pend[id];
    assert Compact.TameIn(v, e.w, e'.w, Compact.NewBegun);
    WorkSurvives(v, e, e'.w.disk, id, d);
    assert Pinned(e.w.open, h.slot);
    forall i: nat | i < |pend| && Uncommitted(d, i)
      ensures IsOpen(e.w.open, pend[i]) && (pend[i] < |e.w.disk| ==> e'.w.disk[pend[i]] == e.w.disk[pend[i]])
    {
      UncommittedOpen(v, e.w, id, d, i);
    }
  }

  /** Sectors with uncommitted records are open. */
  lemma UncommittedOpen(v: Volume, w: World, id: nat, d: Draft, i: nat)
    requires id in w.open && id in w.pend && w.open[id].writing && i < |w.pend[id]| && Uncommitted(d, i)
    requires WorkOk(v, w.disk, w.open[id], w.pend[id], d)
    ensures w.open[id].Occupies(w.pend[id][i]) && IsOpen(w.open, w.pend[id][i])
  {
    assert InWork(v, w.disk, w.open[id], w.pend[id], d, ThePath);
  }

  lemma WorkSurvives(v: Volume, e: Env, disk': Disk, id: nat, d: Draft)
    requires id in e.w.open && id in e.w.pend && e.w.open[id].writing
    requires WorkOk(v, e.w.disk, e.w.open[id], e.w.pend[id], d)
    requires Compact.WritersKept(e.w, disk') && BegunKept(e.w.disk, disk')
    ensures WorkOk(v, disk', e.w.open[id], e.w.pend[id], d)
  {
    var h, pend := e.w.open[id], e.w.pend[id];
    CurrentIsNew(v, e.w.disk, h, pend, d);
    forall part
      ensures InWork(v, disk', h, pend, d, part)
    {
      assert InWork(v, e.w.disk, h, pend, d, part);
      if part.TheExtents? {
        forall i: nat | i < |pend|
          ensures ExtentOk(v, disk', h.slot, pend[i], d, i)
        {
          ExtentSurvives(v, e.w, disk', id, d, i);
        }
      } else if part.TheRest? {
        RestKept(e.w.disk, disk', h.slot, pend, d, d);
      }
    }
  }

  lemma ExtentSurvives(v: Volume, w: World, disk': Disk, id: nat, d: Draft, i: nat)
    requires id in w.open && id in w.pend && w.open[id].writing && WorkOk(v, w.disk, w.open[id], w.pend[id], d)
    requires Compact.WritersKept(w, disk') && i < |w.pend[id]|
    ensures ExtentOk(v, disk', w.open[id].slot, w.pend[id][i], d, i)
  {
    var h, pend := w.open[id], w.pend[id];
    assert InWork(v, w.disk, h, pend, d, TheExtents);
    assert ExtentOk(v, w.disk, h.slot, pend[i], d, i);
    if Uncommitted(d, i) {
      UncommittedOpen(v, w, id, d, i);
    } else {
      assert Pending(w, h.slot, pend[i]);
    }
  }

  // ---------------------------------------------------------------- the record of the current extent

  /** The record that goes behind the data: only begun where a span starts, complete inside one. */
  function ExtentRecord(h: Handle, root: bool, begin: bool, len: u16, next: u16): Md
    requires h.out.dataOff < 0x1_0000
  {
    var typ := if root then TYPE_ROOT else TYPE_CONT;
    if begin then
      Md(typ, UNCOMMITTED, h.slot, NO_LINK, NO_LINK, h.out.dataOff, len, if root then NO_SIZE else h.out.fileOff,
         h.out.recordOff)
    else Md(typ, STATE_VALID, h.slot, next, 1, h.out.dataOff, len, h.out.fileOff, h.out.recordOff)
  }

  /** The draft with the current extent finished. */
  function Longer(d: Draft, r: Md): Draft {
    d.(recs := d.recs + [r], pieces := d.pieces + [d.flushed])
  }

  lemma RecordFits(v: Volume, disk: Disk, h: Handle, pend: Path, d: Draft, next: u16)
    requires VolumeOk(v) && WorkOk(v, disk, h, pend, d) && h.out.cache == [] && d.flushed != []
    requires (next == 0 || DataSector(v, next))
    ensures h.current < |disk| && DataSector(v, h.current) && h.out.dataOff < 0x1_0000 && |d.flushed| < 0x1_0000
    ensures h.out.dataLen + (if h.current == h.head then h.out.prefix else 0) == |d.flushed|
    ensures (h.current == h.head) == (pend == []) && (h.current == h.spanHead) == (d.span == |pend|)
    ensures InWindow(v, disk[h.current], h.out.dataOff, h.out.recordOff, h.out.needsFooter, d.flushed)
    ensures var r := ExtentRecord(h, pend == [], d.span == |pend|, |d.flushed|, next);
      && RecordOfWindow(v, h.current, r, h.out.dataOff, h.out.recordOff, d.flushed)
      && Available(disk[h.current], h.out.needsFooter, r)
  {
    assert InWork(v, disk, h, pend, d, ThePath) && InWork(v, disk, h, pend, d, TheWindow);
    CurrentIsNew(v, disk, h, pend, d);
    RecordLength(v, disk, h, pend, d);
    LifecycleTorn(UNCOMMITTED, UNCOMMITTED);
  }

  lemma RecordLength(v: Volume, disk: Disk, h: Handle, pend: Path, d: Draft)
    requires WorkOk(v, disk, h, pend, d) && h.out.cache == []
    ensures h.out.dataLen + (if pend == [] then h.out.prefix else 0) == |d.flushed| && h.out.fileOff < 0x1_0000_0000
  {
    assert InWork(v, disk, h, pend, d, ThePath) && InWork(v, disk, h, pend, d, TheStream)
           && InWork(v, disk, h, pend, d, TheOffsets);
    assert d.flushed + h.out.cache == d.flushed;
    var ps := Stripped(h.out.prefix, d.pieces + [d.flushed]);
    JoinGrows(ps, |d.pieces|);
  }

  /** The record is in place: what the new extent looks like. */
  lemma NewExtent(v: Volume, disk: Disk, disk': Disk, h: Handle, pend: Path, d: Draft, r: Md)
    requires WorkOk(v, disk, h, pend, d) && h.current < |disk| == |disk'|
    requires disk' == disk[h.current := disk'[h.current]]
    requires Appended(v, disk[h.current], disk'[h.current], h.out.needsFooter, r, d.flushed)
    requires r.slot == h.slot && r.typ == (if pend == [] then TYPE_ROOT else TYPE_CONT)
    requires if d.span == |pend| then r.state == UNCOMMITTED else r.Live()
    ensures ExtentOk(v, disk', h.slot, h.current, Longer(d, r), |pend|)
  {
    var s, s' := disk[h.current], disk'[h.current];
    assert InWork(v, disk, h, pend, d, ThePath) && InWork(v, disk, h, pend, d, TheWindow)
           && InWork(v, disk, h, pend, d, TheOffsets);
    assert s'.recs[|s'.recs| - 1] == r;
    if d.span == |pend| {
      LifecycleTorn(UNCOMMITTED, UNCOMMITTED);
      NewBegun(s, s', h.out.needsFooter, r);
    } else {
      Compact.AppendedFound(v, s, s, s', h.out.needsFooter, r, d.flushed);
    }
  }

  lemma NewBegun(s: Sec, s': Sec, first: bool, r: Md)
    requires Lookup(s, r.slot).None? && !r.Live() && (!first ==> s.footer.Live? && NoneBegun(s, r.slot))
    requires s'.recs == (if first then [] else s.recs) + [r]
    ensures NoLeftover(s', r.slot) && Lookup(s', r.slot).None?
  {
    if !first {
      assert FirstLive(s.recs, r.slot) == |s.recs|;
    }
    assert forall k | 0 <= k < |s'.recs| - 1 :: s'.recs[k] == s.recs[k];
  }

  lemma ExtentsMore(v: Volume, disk: Disk, disk': Disk, h: Handle, pend: Path, d: Draft, r: Md)
    requires WorkOk(v, disk, h, pend, d) && h.current < |disk| == |disk'|
    requires disk' == disk[h.current := disk'[h.current]]
    requires ExtentOk(v, disk', h.slot, h.current, Longer(d, r), |pend|)
    ensures ExtentsOk(v, disk', h.slot, pend + [h.current], Longer(d, r))
  {
    assert InWork(v, disk, h, pend, d, TheExtents);
    CurrentIsNew(v, disk, h, pend, d);
    ExtentsElsewhere(v, disk, disk', h.slot, pend, d, h.current);
    var d', path := Longer(d, r), pend + [h.current];
    forall i: nat | i < |path|
      ensures ExtentOk(v, disk', h.slot, path[i], d', i)
    {
      if i < |pend| {
        assert ExtentOk(v, disk', h.slot, pend[i], d, i);
      }
    }
  }

  datatype DonePart = DonePath | DoneExtents | DoneLinks | DoneWalk | DoneApart | DoneRest

  /** One part of what holds between the record of the current extent and the move to the next. */
  ghost predicate InDone(v: Volume, e: Env, h: Handle, path: Path, d: Draft, next: nat, part: DonePart) {
    match part
    case DonePath =>
      && ProperSlot(h.slot) && path != [] && |path| == |d.recs| && d.span <= |path| && path[0] == h.head
      && path[|path| - 1] == h.current
      && (d.span < |path| ==> path[d.span] == h.spanHead != 0 && h.current == h.spanHead + (|path| - 1 - d.span))
    case DoneExtents => ExtentsOk(v, e.w.disk, h.slot, path, d)
    case DoneLinks => LinksOk(path + [next], d)
    case DoneWalk =>
      && WalkBehind(e.g, e.w.disk, path, d)
      && (e.g.active && e.g.sector == h.current < |e.w.disk| ==> e.g.pos <= FirstLive(e.w.disk[h.current].recs, h.slot))
    case DoneApart => Apart(e.w.index, e.w.paths, h.slot, path)
    case DoneRest => RestOk(e.w.disk, h.slot, path, d)
  }

  /** Every extent up to the current one has its record; the path goes on at `next`, or ends if that is 0. */
  ghost predicate DoneIn(v: Volume, e: Env, h: Handle, path: Path, d: Draft, next: nat) {
    Ready(v, e) && forall part {:trigger InDone(v, e, h, path, d, next, part)} :: InDone(v, e, h, path, d, next, part)
  }

  lemma RecordStep(v: Volume, e: Env, id: nat, d: Draft, r: Md, next: u16, disk': Disk, used': set<nat>)
    requires WriterIn(v, e, id, d) && e.w.open[id].out.cache == [] && d.flushed != []
    requires (next == 0 || DataSector(v, next)) && VolumeOk(v)
    requires var h, pend := e.w.open[id], e.w.pend[id];
      && h.current < |e.w.disk| == |disk'| && disk' == e.w.disk[h.current := disk'[h.current]] && DiskOk(v, disk')
      && e.used <= used'
      && h.out.dataOff < 0x1_0000 && |d.flushed| < 0x1_0000
      && r == ExtentRecord(h, pend == [], d.span == |pend|, |d.flushed|, next)
      && Appended(v, e.w.disk[h.current], disk'[h.current], h.out.needsFooter, r, d.flushed)
      && Quiet(e.w.disk[h.current], disk'[h.current])
    ensures var h := e.w.open[id];
      DoneIn(v, e.(w := e.w.(disk := disk'), used := used'), h, e.w.pend[id] + [h.current], Longer(d, r), next)
      && NoNewRoot(e.w.disk[h.current], disk'[h.current]) && OwnTraces(e.w.disk[h.current], disk'[h.current], h.slot)
      && Gc.WalkWary(e.w, e.g, disk', e.g)
  {
    var h, pend := e.w.open[id], e.w.pend[id];
    var e', path, d' := e.(w := e.w.(disk := disk'), used := used'), pend + [h.current], Longer(d, r);
    LifecycleTorn(UNCOMMITTED, UNCOMMITTED);
    CurrentIsNew(v, e.w.disk, h, pend, d);
    RecordWalk(v, e, id, d, r, disk');
    OwnReady(v, e, disk', used', h.current);
    RecordTraces(v, e, id, d, r, disk', used');
    forall part
      ensures InDone(v, e', h, path, d', next, part)
    {
      match part
      case DonePath => assert InWork(v, e.w.disk, h, pend, d, ThePath);
      case DoneExtents =>
        NewExtent(v, e.w.disk, disk', h, pend, d, r);
        ExtentsMore(v, e.w.disk, disk', h, pend, d, r);
      case DoneLinks => RecordLinks(v, e.w.disk, h, pend, d, r, next);
      case DoneWalk =>
      case DoneApart =>
      case DoneRest => RecordRest(v, e.w.disk, disk', h, pend, d, r);
    }
  }

  lemma RecordRest(v: Volume, disk: Disk, disk': Disk, h: Handle, pend: Path, d: Draft, r: Md)
    requires WorkOk(v, disk, h, pend, d) && h.current < |disk| == |disk'|
    requires disk' == disk[h.current := disk'[h.current]]
    requires Appended(v, disk[h.current], disk'[h.current], h.out.needsFooter, r, d.flushed)
    requires if d.span == |pend| then r.state == UNCOMMITTED else r.Live()
    ensures RestOk(disk', h.slot, pend + [h.current], Longer(d, r))
  {
    assert InWork(v, disk, h, pend, d, ThePath) && InWork(v, disk, h, pend, d, TheWindow)
           && InWork(v, disk, h, pend, d, TheRest);
    LifecycleTorn(UNCOMMITTED, UNCOMMITTED);
    var path := pend + [h.current];
    forall p: nat | p < |disk'| && Resting(path, Longer(d, r), p)
      ensures NoneBegun(disk'[p], h.slot)
    {
      assert path[|pend|] == h.current && forall i | 0 <= i < |pend| :: path[i] == pend[i];
      assert Resting(pend, d, p) && NoneBegun(disk[p], h.slot);
      if p == h.current {
        assert d.span != |pend|;
        assert disk'[p].recs == [r];
      }
    }
  }

  lemma RecordTraces(v: Volume, e: Env, id: nat, d: Draft, r: Md, disk': Disk, used': set<nat>)
    requires WriterIn(v, e, id, d) && Ready(v, e.(w := e.w.(disk := disk'), used := used'))
    requires var h := e.w.open[id];
      && h.current < |e.w.disk| == |disk'| && disk' == e.w.disk[h.current := disk'[h.current]] && r.slot == h.slot
      && Appended(v, e.w.disk[h.current], disk'[h.current], h.out.needsFooter, r, d.flushed)
      && (e.g.active && e.g.sector == h.current ==> e.g.pos <= FirstLive(disk'[h.current].recs, h.slot))
    ensures var h := e.w.open[id];
      OwnTraces(e.w.disk[h.current], disk'[h.current], h.slot) && Gc.WalkWary(e.w, e.g, disk', e.g)
  {
    var h := e.w.open[id];
    assert InReady(v, e.(w := e.w.(disk := disk'), used := used'), TheWalk);
    assert InWork(v, e.w.disk, h, e.w.pend[id], d, TheWindow);
    AppendedTraces(e.w.disk[h.current], disk'[h.current], h.out.needsFooter, r);
    OwnWary(v, e.w, disk', h.current, e.g, h.slot);
  }

  lemma RecordLinks(v: Volume, disk: Disk, h: Handle, pend: Path, d: Draft, r: Md, next: u16)
    requires WorkOk(v, disk, h, pend, d) && h.out.dataOff < 0x1_0000 && |d.flushed| < 0x1_0000
    requires r == ExtentRecord(h, pend == [], d.span == |pend|, |d.flushed|, next)
    ensures LinksOk(pend + [h.current] + [next], Longer(d, r))
  {
    assert InWork(v, disk, h, pend, d, ThePath) && InWork(v, disk, h, pend, d, TheLinks);
    LinksMore(pend + [h.current], d, r, d.flushed, next);
  }

  /** The collector's walk is not disturbed by the new record, and has not passed it. */
  lemma RecordWalk(v: Volume, e: Env, id: nat, d: Draft, r: Md, disk': Disk)
    requires WriterIn(v, e, id, d) && !(r.Live() && r.typ == TYPE_ROOT)
    requires var h := e.w.open[id];
      && h.current < |e.w.disk| == |disk'| && disk' == e.w.disk[h.current := disk'[h.current]]
      && Appended(v, e.w.disk[h.current], disk'[h.current], h.out.needsFooter, r, d.flushed)
    ensures var p, pend := e.w.open[id].current, e.w.pend[id];
      && WalkKept(e.g, p, e.w.disk[p], disk'[p]) && NoNewRoot(e.w.disk[p], disk'[p])
      && WalkBehind(e.g, disk', pend + [p], Longer(d, r))
      && (e.g.active && e.g.sector == p ==> e.g.pos <= FirstLive(disk'[p].recs, e.w.open[id].slot))
  {
    var h, pend := e.w.open[id], e.w.pend[id];
    assert InReady(v, e, TheWalk) && InWork(v, e.w.disk, h, pend, d, TheWindow)
           && InWork(v, e.w.disk, h, pend, d, ThePath);
    CurrentIsNew(v, e.w.disk, h, pend, d);
    WalkAppended(v, e.w, e.g, h, d, r, disk');
    WalkStaysBehind(e.g, e.w.disk, disk', h, pend, d, r);
  }

  lemma WalkAppended(v: Volume, w: World, g: GcWalk, h: Handle, d: Draft, r: Md, disk': Disk)
    requires WalkOk(v, w, g) && WindowOk(v, w.disk, h, d) && !(r.Live() && r.typ == TYPE_ROOT)
    requires h.current < |w.disk| == |disk'|
    requires Appended(v, w.disk[h.current], disk'[h.current], h.out.needsFooter, r, d.flushed)
    ensures var p := h.current;
      && WalkKept(g, p, w.disk[p], disk'[p]) && NoNewRoot(w.disk[p], disk'[p])
      && (g.active && g.sector == p ==> g.pos < |disk'[p].recs| && g.pos <= FirstLive(disk'[p].recs, h.slot))
  {
    var s, s' := w.disk[h.current], disk'[h.current];
    if !h.out.needsFooter {
      assert s'.recs[..|s.recs|] == s.recs;
      assert forall k | 0 <= k < |s.recs| :: s'.recs[k] in s.recs;
      if g.active && g.sector == h.current {
        assert s'.recs[..g.pos] == s'.recs[..|s.recs|][..g.pos];
        assert FirstLive(s.recs, h.slot) == |s.recs|;
      }
    }
  }

  lemma WalkStaysBehind(g: GcWalk, disk: Disk, disk': Disk, h: Handle, pend: Path, d: Draft, r: Md)
    requires WalkBehind(g, disk, pend, d) && h.current < |disk| == |disk'|
    requires disk' == disk[h.current := disk'[h.current]]
    requires h.current !in pend && |pend| == |d.recs|
    requires (g.active && g.sector == h.current ==> g.pos < |disk'[h.current].recs|)
    ensures WalkBehind(g, disk', pend + [h.current], Longer(d, r))
  {
    forall i: nat | && g.active && i < |pend + [h.current]| && Uncommitted(Longer(d, r), i)
                    && (pend + [h.current])[i] == g.sector && g.sector < |disk'|
      ensures g.pos < |disk'[g.sector].recs|
    {
      if i < |pend| {
        assert pend[i] in pend;
      }
    }
  }

  /** fffs_begin_extent_metadata or fffs_write_extent_metadata, for the current extent. */
  method FinishCurrent(fs: Volatile, id: nat, next: u16) returns (ghost r: Md)
    requires WriterOk(fs, id) && fs.open[id].out.cache == [] && fs.drafts[id].flushed != []
    requires (next == 0 || DataSector(fs.v, next))
    modifies fs`disk, fs`cuts, fs`nextSerial, fs`allocMap
    ensures var h := fs.open[id];
      DoneIn(fs.v, EnvOf(fs), h, fs.pend[id] + [h.current], Longer(fs.drafts[id], r), next)
    ensures CutsKept(fs.v, old(fs.cuts), fs.cuts, fs.index, fs.files)
    ensures var p := fs.open[id].current;
      && p < |fs.disk| == |old(fs.disk)| && fs.disk == old(fs.disk)[p := fs.disk[p]]
      && Quiet(old(fs.disk)[p], fs.disk[p])
      && NoNewRoot(old(fs.disk)[p], fs.disk[p]) && OwnTraces(old(fs.disk)[p], fs.disk[p], fs.open[id].slot)
    ensures Gc.WalkWary(old(fs.Now()), fs.gcMd, fs.disk, fs.gcMd)
    ensures old(fs.allocMap) <= fs.allocMap
    ensures fs.pend[id] != [] ==> r.size == fs.open[id].out.fileOff
  {
    var h := fs.open[id];
    ghost var e, d, cuts := EnvOf(fs), fs.drafts[id], fs.cuts;
    ReadyDisk(fs.v, e);
    RecordFits(fs.v, fs.disk, h, fs.pend[id], d, next);
    var len := h.out.dataLen + if h.current == h.head then h.out.prefix else 0;
    var md := ExtentRecord(h, h.current == h.head, h.current == h.spanHead, len, next);
    r := md;
    ProgramExtentMetadata(fs, h.current, h.out.dataOff, h.out.recordOff, h.out.needsFooter, d.flushed, md);
    ReadyCuts(fs.v, e, h.current, cuts, fs.cuts);
    RecordStep(fs.v, e, id, d, r, next, fs.disk, fs.allocMap);
  }

  // ---------------------------------------------------------------- finishing a begun record

  /** Record i of the draft is replaced; with `span` at the end no span is open any more. */
  function Refined(d: Draft, i: nat, r: Md, span: nat): Draft
    requires i < |d.recs|
  {
    d.(recs := d.recs[i := r], span := span)
  }

  /** An uncommitted record has its sector to itself. */
  lemma SpanAlone(v: Volume, disk: Disk, slot: u16, path: Path, d: Draft, i: nat, j: nat)
    requires ExtentsOk(v, disk, slot, path, d) && i < |path| && j < |path| && Uncommitted(d, i) && i != j
    ensures path[i] != path[j]
  {
    assert ExtentOk(v, disk, slot, path[i], d, i) && ExtentOk(v, disk, slot, path[j], d, j);
  }

  /** The same data is claimed, and it has not been touched. */
  lemma ReplacedData(s: Sec, s': Sec, r: Md, r': Md)
    requires s.recs != [] && Clear(s.recs) && s.recs[|s.recs| - 1] == r && Replaced(s, s', r')
    requires r'.dataOff == r.dataOff && r'.dataLen == r.dataLen && r.DataEnd() <= |s.bytes|
    ensures r'.DataEnd() <= |s'.bytes| && DataOf(s', r') == DataOf(s, r)
  {
    assert r.DataEnd() <= r.start;
    assert s'.bytes[r.dataOff..r.DataEnd()] == s.bytes[r.dataOff..r.DataEnd()];
  }

  /** The finished record is what its slot finds, or still the only uncommitted one. */
  lemma ReplacedLookup(s: Sec, s': Sec, r: Md, r': Md)
    requires Begun(s, r) && NoLeftover(s, r.slot) && Lookup(s, r.slot).None? && Replaced(s, s', r') && r'.slot == r.slot
    requires r'.state == UNCOMMITTED || r'.Live()
    ensures r'.Live() ==> Lookup(s', r.slot) == Some(r')
    ensures r'.state == UNCOMMITTED ==> Begun(s', r') && NoLeftover(s', r.slot) && Lookup(s', r.slot).None?
  {
    LifecycleTorn(UNCOMMITTED, UNCOMMITTED);
    var n := |s.recs|;
    assert FirstLive(s.recs, r.slot) == n;
    assert s'.recs[n - 1] == r' && forall k | 0 <= k < n - 1 :: s'.recs[k] == s.recs[k];
  }

  /** Extent i after its record was finished, and after a full hint. */
  lemma RefinedExtent(v: Volume, disk: Disk, s': Sec, s'': Sec, slot: u16, path: Path, d: Draft, i: nat, r': Md,
                      span: nat)
    requires ExtentsOk(v, disk, slot, path, d) && i < |path| && Uncommitted(d, i) && DiskOk(v, disk)
    requires Replaced(disk[path[i]], s', r')
    requires s'' == s' || Hinted(s', s'')
    requires var r := d.recs[i];
      && r' == r.(next := r'.next, span := r'.span, size := r'.size, state := r'.state)
      && (if i == 0 || i == span then r'.state == UNCOMMITTED else r'.Live())
    ensures ExtentOk(v, disk[path[i] := s''], slot, path[i], Refined(d, i, r', span), i)
  {
    var p := path[i];
    assert ExtentOk(v, disk, slot, p, d, i) && SaneAt(v, disk, p);
    ReplacedData(disk[p], s', d.recs[i], r');
    ReplacedLookup(disk[p], s', d.recs[i], r');
    if s'' != s' {
      assert s'.recs[|s'.recs| - 1] == r';
    }
  }

  lemma RefinedExtents(v: Volume, disk: Disk, s': Sec, s'': Sec, slot: u16, path: Path, d: Draft, i: nat, r': Md,
                       span: nat)
    requires ExtentsOk(v, disk, slot, path, d) && i < |path| && i == d.span && DiskOk(v, disk)
    requires Replaced(disk[path[i]], s', r')
    requires (s'' == s' || Hinted(s', s'')) && span == |path|
    requires var r := d.recs[i];
      && r' == r.(next := r'.next, span := r'.span, size := r'.size, state := r'.state)
      && (if i == 0 then r'.state == UNCOMMITTED else r'.Live())
    ensures ExtentsOk(v, disk[path[i] := s''], slot, path, Refined(d, i, r', span))
  {
    RefinedExtent(v, disk, s', s'', slot, path, d, i, r', span);
    forall j: nat | j < |path|
      ensures ExtentOk(v, disk[path[i] := s''], slot, path[j], Refined(d, i, r', span), j)
    {
      if j != i {
        SpanAlone(v, disk, slot, path, d, i, j);
        assert ExtentOk(v, disk, slot, path[j], d, j);
      }
    }
  }

  // ---------------------------------------------------------------- flush_pending_span_head

  /** The head of the current span can be given its link, and can go live unless it is the root. */
  lemma SpanFits(v: Volume, e: Env, h: Handle, path: Path, d: Draft, next: u16)
    requires DoneIn(v, e, h, path, d, next) && d.span < |path| && h.writing && (next == 0 || DataSector(v, next))
    requires VolumeOk(v)
    ensures h.spanHead < |e.w.disk| && DataSector(v, h.spanHead) && path[d.span] == h.spanHead && |d.recs| == |path|
    ensures (h.spanHead == h.head) == (d.span == 0) && h.spanHead <= h.current
    ensures h.current - h.spanHead + 1 == |path| - d.span < 0x1_0000
    ensures var r, len := d.recs[d.span], |path| - d.span;
      && Begun(e.w.disk[h.spanHead], r) && r.slot == h.slot && NoLeftover(e.w.disk[h.spanHead], h.slot)
      && Takes(r.next, next) && Takes(r.span, len) && (r.typ == if d.span == 0 then TYPE_ROOT else TYPE_CONT)
      && Lookup(e.w.disk[h.spanHead], h.slot).None?
      && (d.span != 0 ==> CanBecome(v, h.spanHead, e.w.disk[h.spanHead], FinishedRecord(r, next, len, None, true)))
  {
    assert InDone(v, e, h, path, d, next, DonePath) && InDone(v, e, h, path, d, next, DoneExtents)
           && InDone(v, e, h, path, d, next, DoneLinks);
    var n := |path|;
    assert ExtentOk(v, e.w.disk, h.slot, path[d.span], d, d.span)
           && ExtentOk(v, e.w.disk, h.slot, path[n - 1], d, n - 1);
    assert LinkOk(path + [next], d, d.span);
    if d.span != 0 {
      SpanAlone(v, e.w.disk, h.slot, path, d, d.span, 0);
      ReadyDisk(v, e);
      BegunCan(v, e.w.disk, h.spanHead, d.recs[d.span]);
      LifecycleTorn(UNCOMMITTED, UNCOMMITTED);
      assert FirstLive(e.w.disk[h.spanHead].recs, h.slot) == |e.w.disk[h.spanHead].recs|;
    }
  }

  /** Programs link, and liveness if due, of the head of the current span, and the full hint of a root
      whose file goes on elsewhere. */
  method FinishSpan(fs: Volatile, id: nat, next: u16, ghost path: Path, ghost d: Draft) returns (ghost r: Md)
    requires id in fs.open && fs.open[id].writing && DoneIn(fs.v, EnvOf(fs), fs.open[id], path, d, next)
    requires d.span < |path|
    requires next == 0 || DataSector(fs.v, next)
    requires next == 0 ==> d.span != 0
    modifies fs`disk, fs`cuts, fs`allocMap
    ensures d.span < |d.recs| && DoneIn(fs.v, EnvOf(fs), fs.open[id], path, Refined(d, d.span, r, |path|), next)
    ensures CutsKept(fs.v, old(fs.cuts), fs.cuts, fs.index, fs.files) && old(fs.allocMap) <= fs.allocMap
    ensures var p := fs.open[id].spanHead;
      && p < |fs.disk| == |old(fs.disk)| && fs.disk == old(fs.disk)[p := fs.disk[p]]
      && Quiet(old(fs.disk)[p], fs.disk[p])
      && NoNewRoot(old(fs.disk)[p], fs.disk[p]) && OwnTraces(old(fs.disk)[p], fs.disk[p], fs.open[id].slot)
      && path[d.span] == p
    ensures Gc.WalkWary(old(fs.Now()), fs.gcMd, fs.disk, fs.gcMd)
    ensures r.size == d.recs[d.span].size
  {
    var h := fs.open[id];
    ghost var e, cuts := EnvOf(fs), fs.cuts;
    ReadyDisk(fs.v, e);
    SpanFits(fs.v, e, h, path, d, next);
    var p, len: u16 := h.spanHead, h.current - h.spanHead + 1;
    r := FinishedRecord(d.recs[d.span], next, len, None, p != h.head);
    var status := FinishExtent(fs, p, h.slot, next, len, None, p != h.head, d.recs[d.span]);
    ghost var s', cuts' := fs.disk[p], fs.cuts;
    if p == h.head && (next != 0 || len > 1) {
      HintAfter(fs, p, e.w.disk, cuts);
    }
    ReadyCuts(fs.v, e, p, cuts, fs.cuts);
    SpanStep(fs.v, e, id, path, d, next, r, s', fs.disk, fs.allocMap);
  }

  /** A full hint behind another quiet change of the same sector. */
  method HintAfter(fs: Volatile, p: nat, ghost disk0: Disk, ghost cuts0: iset<Image>)
    requires VolumeOk(fs.v) && DiskOk(fs.v, fs.disk) && DataSector(fs.v, p) && fs.disk[p].footer.Live?
    requires |disk0| == |fs.disk| && fs.disk == disk0[p := fs.disk[p]] && Quiet(disk0[p], fs.disk[p])
    requires QuietCuts(disk0, fs.index, p, cuts0, fs.cuts)
    modifies fs`disk, fs`cuts, fs`allocMap
    ensures DiskOk(fs.v, fs.disk) && |disk0| == |fs.disk| && fs.disk == disk0[p := fs.disk[p]]
    ensures Hinted(old(fs.disk)[p], fs.disk[p])
    ensures Quiet(disk0[p], fs.disk[p]) && QuietCuts(disk0, fs.index, p, cuts0, fs.cuts)
    ensures old(fs.allocMap) <= fs.allocMap
  {
    ghost var disk1, cuts1 := fs.disk, fs.cuts;
    MarkFull(fs, p);
    fs.allocMap := fs.allocMap + {p};
    HintedQuiet(disk1[p], fs.disk[p]);
    QuietMore(disk0, disk1, fs.disk, fs.index, p, cuts0, cuts1, fs.cuts);
  }

  lemma SpanStep(v: Volume, e: Env, id: nat, path: Path, d: Draft, next: u16, r: Md, s': Sec, disk': Disk,
                 used': set<nat>)
    requires id in e.w.open && e.w.open[id].writing && DoneIn(v, e, e.w.open[id], path, d, next) && d.span < |path|
    requires VolumeOk(v)
    requires (next == 0 || DataSector(v, next)) && (next == 0 ==> d.span != 0) && e.used <= used'
    requires var h := e.w.open[id];
      && h.spanHead < |e.w.disk| == |disk'| && disk' == e.w.disk[h.spanHead := disk'[h.spanHead]] && DiskOk(v, disk')
      && Quiet(e.w.disk[h.spanHead], disk'[h.spanHead]) && (disk'[h.spanHead] == s' || Hinted(s', disk'[h.spanHead]))
      && Replaced(e.w.disk[h.spanHead], s', r) && |d.recs| == |path| && |path| - d.span < 0x1_0000
      && r == FinishedRecord(d.recs[d.span], next, |path| - d.span, None, d.span != 0)
    ensures DoneIn(v, e.(w := e.w.(disk := disk'), used := used'), e.w.open[id], path, Refined(d, d.span, r, |path|),
                   next)
    ensures var p := e.w.open[id].spanHead;
      NoNewRoot(e.w.disk[p], disk'[p]) && OwnTraces(e.w.disk[p], disk'[p], e.w.open[id].slot)
    ensures Gc.WalkWary(e.w, e.g, disk', e.g)
  {
    var h := e.w.open[id];
    var e', d' := e.(w := e.w.(disk := disk'), used := used'), Refined(d, d.span, r, |path|);
    SpanFits(v, e, h, path, d, next);
    LifecycleTorn(UNCOMMITTED, UNCOMMITTED);
    SpanWalk(v, e, h, path, d, next, r, s', disk');
    assert h.Occupies(h.spanHead);
    OwnReady(v, e, disk', used', h.spanHead);
    SpanTraces(v, e, id, path, d, next, r, s', disk', used');
    ReadyDisk(v, e);
    forall part
      ensures InDone(v, e', h, path, d', next, part)
    {
      assert InDone(v, e, h, path, d, next, part);
      match part
      case DonePath =>
      case DoneExtents =>
        LifecycleTorn(UNCOMMITTED, UNCOMMITTED);
        RefinedExtents(v, e.w.disk, s', disk'[h.spanHead], h.slot, path, d, d.span, r, |path|);
      case DoneLinks =>
        assert LinkOk(path + [next], d, d.span);
        SpanLinks(path + [next], d, r);
      case DoneWalk =>
      case DoneApart =>
      case DoneRest => SpanRest(v, e, h, path, d, next, r, s', disk');
    }
  }

  lemma SpanTraces(v: Volume, e: Env, id: nat, path: Path, d: Draft, next: u16, r: Md, s': Sec, disk': Disk,
                   used': set<nat>)
    requires id in e.w.open && DoneIn(v, e, e.w.open[id], path, d, next) && d.span < |path|
    requires Ready(v, e.(w := e.w.(disk := disk'), used := used'))
    requires var h := e.w.open[id];
      && h.spanHead < |e.w.disk| == |disk'| && disk' == e.w.disk[h.spanHead := disk'[h.spanHead]]
      && path[d.span] == h.spanHead && |d.recs| == |path|
      && (disk'[h.spanHead] == s' || Hinted(s', disk'[h.spanHead])) && Replaced(e.w.disk[h.spanHead], s', r)
      && Begun(e.w.disk[h.spanHead], d.recs[d.span]) && r.slot == d.recs[d.span].slot == h.slot
      && Lookup(e.w.disk[h.spanHead], h.slot).None?
    ensures var h := e.w.open[id]; OwnTraces(e.w.disk[h.spanHead], disk'[h.spanHead], h.slot)
    ensures Gc.WalkWary(e.w, e.g, disk', e.g)
  {
    var h := e.w.open[id];
    var s, s'' := e.w.disk[h.spanHead], disk'[h.spanHead];
    assert InDone(v, e, h, path, d, next, DoneWalk);
    assert InReady(v, e.(w := e.w.(disk := disk'), used := used'), TheWalk);
    ReplacedTraces(s, s', s'', r);
    if e.g.active && e.g.sector == h.spanHead {
      assert FirstLive(s.recs, h.slot) == |s.recs|;
      assert forall k | 0 <= k < |s.recs| - 1 :: s''.recs[k] == s.recs[k];
      assert Uncommitted(d, d.span);
    }
    OwnWary(v, e.w, disk', h.spanHead, e.g, h.slot);
  }

  /** The head of the span is not one of those that are still to be finished, unless it is the root. */
  lemma SpanRest(v: Volume, e: Env, h: Handle, path: Path, d: Draft, next: u16, r: Md, s': Sec, disk': Disk)
    requires DoneIn(v, e, h, path, d, next) && d.span < |path| && |d.recs| == |path|
    requires path[d.span] == h.spanHead < |e.w.disk| == |disk'|
    requires disk' == e.w.disk[h.spanHead := disk'[h.spanHead]]
    requires (disk'[h.spanHead] == s' || Hinted(s', disk'[h.spanHead])) && Replaced(e.w.disk[h.spanHead], s', r)
    requires NoLeftover(e.w.disk[h.spanHead], h.slot) && (d.span != 0 ==> r.Live())
    ensures RestOk(disk', h.slot, path, Refined(d, d.span, r, |path|))
  {
    assert InDone(v, e, h, path, d, next, DoneRest);
    LifecycleTorn(UNCOMMITTED, UNCOMMITTED);
    var d' := Refined(d, d.span, r, |path|);
    forall p: nat | p < |disk'| && Resting(path, d', p)
      ensures NoneBegun(disk'[p], h.slot)
    {
      assert Uncommitted(d', 0);
      if p == h.spanHead {
        var s := e.w.disk[p];
        assert d.span != 0;
        assert forall k | 0 <= k < |s.recs| - 1 :: disk'[p].recs[k] == s.recs[k];
      } else {
        assert Resting(path, d, p) && NoneBegun(e.w.disk[p], h.slot);
      }
    }
  }

  lemma SpanWalk(v: Volume, e: Env, h: Handle, path: Path, d: Draft, next: u16, r: Md, s': Sec, disk': Disk)
    requires DoneIn(v, e, h, path, d, next) && d.span < |path| && path[d.span] == h.spanHead < |e.w.disk| == |disk'|
    requires disk' == e.w.disk[h.spanHead := disk'[h.spanHead]]
    requires (disk'[h.spanHead] == s' || Hinted(s', disk'[h.spanHead]))
    requires e.w.disk[h.spanHead].footer.Live? && Replaced(e.w.disk[h.spanHead], s', r)
    requires !(r.Live() && r.typ == TYPE_ROOT)
    ensures WalkKept(e.g, h.spanHead, e.w.disk[h.spanHead], disk'[h.spanHead])
    ensures NoNewRoot(e.w.disk[h.spanHead], disk'[h.spanHead])
    ensures |d.recs| == |path| && WalkBehind(e.g, disk', path, Refined(d, d.span, r, |path|))
    ensures e.g.active && e.g.sector == h.current < |disk'| ==> e.g.pos <= FirstLive(disk'[h.current].recs, h.slot)
  {
    assert InDone(v, e, h, path, d, next, DoneWalk) && InDone(v, e, h, path, d, next, DonePath);
    var s, s'' := e.w.disk[h.spanHead], disk'[h.spanHead];
    var n := |s.recs|;
    assert s''.recs == s.recs[n - 1 := r];
    assert forall k | 0 <= k < n - 1 :: s''.recs[k] == s.recs[k] && s.recs[k] in s.recs;
    if e.g.active && e.g.sector == h.spanHead {
      assert e.g.pos < n;
      assert s''.recs[..e.g.pos] == s.recs[..e.g.pos];
    }
  }
}
