/** Committing a file: the root goes live, the journal takes its record, the old chain is tombstoned
    (src/fffs_file.c, src/fffs_file_md.c). */
module Commit {
  import opened Nor
  import opened SectorMd
  import opened SectorView
  import opened Files
  import opened Mounted
  import opened SectorOps
  import opened Extents
  import opened Finish
  import opened Content
  import opened Drafts
  import opened Writer
  import Sharing
  import Streaming
  import opened Remount
  import Alloc
  import Compact
  import Gc
  import IndexLog
  import opened OldChain

  // ---------------------------------------------------------------- the root goes live

  /** Every extent but the root is live, and the root knows its link or heads the only span. */
  ghost predicate AlmostLive(v: Volume, e: Env, h: Handle, path: Path, d: Draft) {
    DoneIn(v, e, h, path, d, 0) && (d.span == 0 || d.span == |path|)
  }

  /** The link that the root is finished with: its own, if it was deferred. */
  ghost predicate RootLink(d: Draft, path: Path, next: u16, span: u16) {
    && d.recs != []
    && (if d.span == 0 then next == 0 && span == |path| else next == d.recs[0].next && span == d.recs[0].span)
  }

  lemma RootFits(v: Volume, e: Env, h: Handle, path: Path, d: Draft, next: u16, span: u16, size: nat)
    requires AlmostLive(v, e, h, path, d) && RootLink(d, path, next, span) && size < 0x1_0000_0000 && VolumeOk(v)
    ensures h.head < |e.w.disk| && DataSector(v, h.head) && path != [] && path[0] == h.head && |d.recs| == |path|
    ensures var r := d.recs[0];
      && Begun(e.w.disk[h.head], r) && r.slot == h.slot && NoLeftover(e.w.disk[h.head], h.slot) && r.size == 0xffff_ffff
      && Takes(r.next, next) && Takes(r.span, span) && r.typ == TYPE_ROOT
      && CanBecome(v, h.head, e.w.disk[h.head], FinishedRecord(r, next, span, Some(size), true))
  {
    assert InDone(v, e, h, path, d, 0, DonePath) && InDone(v, e, h, path, d, 0, DoneExtents)
           && InDone(v, e, h, path, d, 0, DoneLinks);
    assert ExtentOk(v, e.w.disk, h.slot, path[0], d, 0) && LinkOk(path + [0], d, 0);
    RootDecodes(v, e, h, path, d, next, span);
    ReadyDisk(v, e);
    BegunCan(v, e.w.disk, h.head, d.recs[0]);
    LifecycleTorn(UNCOMMITTED, UNCOMMITTED);
    assert FirstLive(e.w.disk[h.head].recs, h.slot) == |e.w.disk[h.head].recs|;
  }

  lemma RootDecodes(v: Volume, e: Env, h: Handle, path: Path, d: Draft, next: u16, span: u16)
    requires AlmostLive(v, e, h, path, d) && RootLink(d, path, next, span) && VolumeOk(v)
    ensures 0 < span && h.head + span <= v.sectors && (next == 0 || DataSector(v, next))
  {
    assert InDone(v, e, h, path, d, 0, DonePath) && InDone(v, e, h, path, d, 0, DoneExtents)
           && InDone(v, e, h, path, d, 0, DoneLinks);
    var n, all := |path|, path + [0];
    assert LinkOk(all, d, 0);
    if d.span == 0 {
      assert ExtentOk(v, e.w.disk, h.slot, path[n - 1], d, n - 1);
    } else {
      var last := d.recs[0].span - 1;
      assert last < n && path[last] == path[0] + last;
      assert ExtentOk(v, e.w.disk, h.slot, path[last], d, last);
      if last + 1 < n {
        assert ExtentOk(v, e.w.disk, h.slot, path[last + 1], d, last + 1);
      }
    }
  }

  /** Every live root has its slot in the index, save one of `slot` in sector `head`. */
  ghost predicate NoStraysBut(v: Volume, w: World, slot: u16, head: nat) {
    forall p: nat, k: nat | DataSector(v, p) && p < |w.disk| && k < |w.disk[p].recs| && w.disk[p].footer.Live? ::
      w.disk[p].recs[k].Live() && w.disk[p].recs[k].typ == TYPE_ROOT ==>
        w.disk[p].recs[k].slot in w.index || (w.disk[p].recs[k].slot == slot && p == head)
  }

  /** The collector's walk has not come past the new root, nor, unless it has seen something live, past
      any other record of the new file. */
  ghost predicate NotPassed(w: World, g: GcWalk, slot: u16, path: Path) {
    g.active && path != [] && (g.sector == path[0] || (!g.liveSeen && g.sector in path)) && g.sector < |w.disk| ==>
      g.pos <= FirstLive(w.disk[g.sector].recs, slot)
  }

  datatype LivePart = LiveReady(a: Aspect) | LiveStrays | LiveExtents | LiveLinks | LiveApart | LiveWalk | LiveRest

  ghost predicate InLive(v: Volume, e: Env, h: Handle, path: Path, recs: seq<Md>, pieces: seq<Bytes>, part: LivePart) {
    match part
    case LiveReady(a) => !a.TheStrays? ==> InReady(v, e, a)
    case LiveStrays => NoStraysBut(v, e.w, h.slot, h.head)
    case LiveExtents => path != [] && path[0] == h.head && AllLive(v, e.w.disk, h.slot, path, recs, pieces)
    case LiveLinks => AllLinked(path + [0], recs)
    case LiveApart => Apart(e.w.index, e.w.paths, h.slot, path)
    case LiveWalk => NotPassed(e.w, e.g, h.slot, path)
    case LiveRest => NoBegun(e.w.disk, h.slot)
  }

  /** The whole chain is live; only the index does not know it yet. */
  ghost predicate LiveIn(v: Volume, e: Env, h: Handle, path: Path, recs: seq<Md>, pieces: seq<Bytes>) {
    forall part {:trigger InLive(v, e, h, path, recs, pieces, part)} :: InLive(v, e, h, path, recs, pieces, part)
  }

  /** The root's sector, after the root went live. */
  ghost predicate RootLive(v: Volume, e: Env, h: Handle, path: Path, d: Draft, r: Md, disk': Disk) {
    && path != [] && |d.recs| == |path| && h.head < |e.w.disk| == |disk'| && disk' == e.w.disk[h.head := disk'[h.head]]
    && DiskOk(v, disk')
    && Quiet(e.w.disk[h.head], disk'[h.head]) && Replaced(e.w.disk[h.head], disk'[h.head], r)
    && r == d.recs[0].(next := r.next, span := r.span, size := r.size, state := STATE_VALID)
  }

  lemma LiveExtentsNow(v: Volume, e: Env, h: Handle, path: Path, d: Draft, r: Md, disk': Disk)
    requires AlmostLive(v, e, h, path, d) && RootLive(v, e, h, path, d, r, disk') && VolumeOk(v)
    ensures path[0] == h.head && AllLive(v, disk', h.slot, path, d.recs[0 := r], d.pieces)
  {
    assert InDone(v, e, h, path, d, 0, DonePath) && InDone(v, e, h, path, d, 0, DoneExtents);
    ReadyDisk(v, e);
    var recs := d.recs[0 := r];
    forall i: nat | i < |path|
      ensures LiveExtent(v, disk', h.slot, path[i], recs[i], d.pieces[i], i)
    {
      assert ExtentOk(v, e.w.disk, h.slot, path[i], d, i);
      if i == 0 {
        assert SaneAt(v, e.w.disk, h.head);
        LifecycleTorn(STATE_VALID, STATE_VALID);
        ReplacedData(e.w.disk[h.head], disk'[h.head], d.recs[0], r);
        ReplacedLookup(e.w.disk[h.head], disk'[h.head], d.recs[0], r);
      } else {
        SpanAlone(v, e.w.disk, h.slot, path, d, 0, i);
      }
    }
  }

  lemma LiveLinksNow(v: Volume, e: Env, h: Handle, path: Path, d: Draft, r: Md)
    requires AlmostLive(v, e, h, path, d) && RootLink(d, path, r.next, r.span)
    ensures AllLinked(path + [0], d.recs[0 := r])
  {
    assert InDone(v, e, h, path, d, 0, DonePath) && InDone(v, e, h, path, d, 0, DoneLinks);
    var all := path + [0];
    if d.span == 0 {
      var linked := r.(size := NO_SIZE);
      SpanLinks(all, d, linked);
      LinksDone(all, d.(recs := d.recs[0 := linked], span := |d.recs|));
      RootLinks(all, d.recs[0 := linked], r);
      assert d.recs[0 := linked][0 := r] == d.recs[0 := r];
    } else {
      LinksDone(all, d);
      RootLinks(all, d.recs, r);
    }
  }

  lemma LiveStraysNow(v: Volume, e: Env, h: Handle, r: Md, disk': Disk)
    requires Ready(v, e) && h.head < |e.w.disk| == |disk'| && disk' == e.w.disk[h.head := disk'[h.head]]
    requires r.slot == h.slot
    requires e.w.disk[h.head].footer.Live? && Replaced(e.w.disk[h.head], disk'[h.head], r)
    ensures NoStraysBut(v, e.w.(disk := disk'), h.slot, h.head)
  {
    assert InReady(v, e, TheStrays);
    forall p: nat, k: nat | DataSector(v, p) && p < |disk'| && k < |disk'[p].recs| && disk'[p].footer.Live?
      ensures disk'[p].recs[k].Live() && disk'[p].recs[k].typ == TYPE_ROOT ==>
                disk'[p].recs[k].slot in e.w.index || (disk'[p].recs[k].slot == h.slot && p == h.head)
    {
      if p != h.head || k < |disk'[p].recs| - 1 {
        assert disk'[p].recs[k] == e.w.disk[p].recs[k];
      }
    }
  }

  /** The walk, in the root's sector, is still in front of the root. */
  lemma RootWalk(v: Volume, e: Env, id: nat, path: Path, d: Draft, r: Md, disk': Disk)
    requires id in e.w.open && id in e.w.pend && e.w.open[id].writing && path == e.w.pend[id] + [e.w.open[id].current]
    requires VolumeOk(v)
    requires AlmostLive(v, e, e.w.open[id], path, d) && RootLive(v, e, e.w.open[id], path, d, r, disk')
    ensures var h := e.w.open[id];
      WalkKept(e.g, h.head, e.w.disk[h.head], disk'[h.head]) && NotPassed(e.w.(disk := disk'), e.g, h.slot, path)
  {
    var h := e.w.open[id];
    assert InDone(v, e, h, path, d, 0, DonePath) && InDone(v, e, h, path, d, 0, DoneExtents)
           && InDone(v, e, h, path, d, 0, DoneWalk);
    assert ExtentOk(v, e.w.disk, h.slot, path[0], d, 0);
    assert InReady(v, e, TheWalk);
    var s, s', n := e.w.disk[h.head], disk'[h.head], |e.w.disk[h.head].recs|;
    assert FirstLive(s.recs, h.slot) == n;
    assert forall k | 0 <= k < n - 1 :: s'.recs[k] == s.recs[k];
    if e.g.active && e.g.sector == h.head {
      assert e.g.pos < n;
      assert s'.recs[..e.g.pos] == s.recs[..e.g.pos];
    } else if e.g.active && !e.g.liveSeen && e.g.sector in path && e.g.sector != h.current {
      assert e.g.sector in e.w.pend[id];
      assert Pending(e.w, h.slot, e.g.sector) && Needed(e.w, h.slot, e.g.sector);
    }
  }

  lemma RootStep(v: Volume, e: Env, id: nat, path: Path, d: Draft, r: Md, disk': Disk)
    requires id in e.w.open && id in e.w.pend && e.w.open[id].writing && path == e.w.pend[id] + [e.w.open[id].current]
    requires VolumeOk(v)
    requires AlmostLive(v, e, e.w.open[id], path, d) && RootLive(v, e, e.w.open[id], path, d, r, disk')
    requires RootLink(d, path, r.next, r.span)
    requires e.w.disk[e.w.open[id].head].footer.Live? && r.slot == e.w.open[id].slot
    ensures LiveIn(v, e.(w := e.w.(disk := disk')), e.w.open[id], path, d.recs[0 := r], d.pieces)
    ensures OwnTraces(e.w.disk[e.w.open[id].head], disk'[e.w.open[id].head], e.w.open[id].slot)
    ensures Gc.WalkWary(e.w, e.g, disk', e.g)
  {
    var h, e' := e.w.open[id], e.(w := e.w.(disk := disk'));
    RootRest(v, e, h, path, d, r, disk');
    RootWalk(v, e, id, path, d, r, disk');
    LiveExtentsNow(v, e, h, path, d, r, disk');
    LiveLinksNow(v, e, h, path, d, r);
    LiveStraysNow(v, e, h, r, disk');
    var recs := d.recs[0 := r];
    forall part
      ensures InLive(v, e', h, path, recs, d.pieces, part)
    {
      if part.LiveReady? && !part.a.TheStrays? {
        LiveReadyNow(v, e, id, disk', part.a);
      } else if part.LiveApart? {
        assert InDone(v, e, h, path, d, 0, DoneApart);
      }
    }
    LiveReadyNow(v, e, id, disk', TheWalk);
    OwnWary(v, e.w, disk', h.head, e.g, h.slot);
  }

  /** The root was the last record to be finished. */
  lemma RootRest(v: Volume, e: Env, h: Handle, path: Path, d: Draft, r: Md, disk': Disk)
    requires AlmostLive(v, e, h, path, d) && RootLive(v, e, h, path, d, r, disk') && r.slot == h.slot
    ensures path[0] == h.head && NoBegun(disk', h.slot) && OwnTraces(e.w.disk[h.head], disk'[h.head], h.slot)
  {
    assert InDone(v, e, h, path, d, 0, DonePath) && InDone(v, e, h, path, d, 0, DoneExtents)
           && InDone(v, e, h, path, d, 0, DoneRest);
    var s := e.w.disk[h.head];
    assert ExtentOk(v, e.w.disk, h.slot, path[0], d, 0);
    LifecycleTorn(UNCOMMITTED, UNCOMMITTED);
    ReplacedTraces(s, disk'[h.head], disk'[h.head], r);
    forall p: nat | p < |disk'|
      ensures NoneBegun(disk'[p], h.slot)
    {
      if p == h.head {
        LiveIsNotBegun(r);
        assert forall k | 0 <= k < |s.recs| - 1 :: disk'[p].recs[k] == s.recs[k];
      } else {
        assert Resting(path, d, p) && NoneBegun(e.w.disk[p], h.slot);
      }
    }
  }

  lemma LiveIsNotBegun(r: Md)
    requires r.state == STATE_VALID
    ensures r.state != UNCOMMITTED
  {
    LifecycleTorn(STATE_VALID, STATE_VALID);
    LifecycleTorn(UNCOMMITTED, UNCOMMITTED);
  }

  lemma LiveReadyNow(v: Volume, e: Env, id: nat, disk': Disk, a: Aspect)
    requires Ready(v, e) && id in e.w.open && e.w.open[id].writing && !a.TheStrays?
    requires var p := e.w.open[id].head;
      && p < |e.w.disk| == |disk'| && disk' == e.w.disk[p := disk'[p]] && DiskOk(v, disk')
      && Quiet(e.w.disk[p], disk'[p])
      && WalkKept(e.g, p, e.w.disk[p], disk'[p])
    ensures InReady(v, e.(w := e.w.(disk := disk')), a)
  {
    var p := e.w.open[id].head;
    assert e.w.open[id].Occupies(p);
    assert InReady(v, e, a);
    match a
    case TheFiles => OwnSound(v, e.w, disk', p);
    case TheWalk => OwnWalk(v, e.w, disk', p, e.g);
    case TheAllocator => OwnAlloc(v, e.w.open, Hold(e.w.disk, e.used, e.reserve), Hold(disk', e.used, e.reserve),
                                  e.ranges, p);
    case TheWriters =>
  }

  /** The root is finished with its size and goes live. */
  method FinishRoot(fs: Volatile, id: nat, next: u16, span: u16, ghost path: Path, ghost d: Draft) returns (ghost r: Md)
    requires id in fs.open && id in fs.pend && fs.open[id].writing && path == fs.pend[id] + [fs.open[id].current]
    requires AlmostLive(fs.v, EnvOf(fs), fs.open[id], path, d) && RootLink(d, path, next, span)
    requires fs.open[id].out.size < 0x1_0000_0000
    modifies fs`disk, fs`cuts
    ensures d.recs != [] && LiveIn(fs.v, EnvOf(fs), fs.open[id], path, d.recs[0 := r], d.pieces)
    ensures r.size == fs.open[id].out.size
    ensures CutsKept(fs.v, old(fs.cuts), fs.cuts, fs.index, fs.files)
    ensures Streaming.OthersKept(old(fs.Now()), fs.Now(), id)
    ensures OwnWork(old(fs.disk), fs.disk, fs.open[id]) && Gc.WalkWary(old(fs.Now()), fs.gcMd, fs.disk, fs.gcMd)
  {
    var h := fs.open[id];
    ghost var e, cuts := EnvOf(fs), fs.cuts;
    ReadyDisk(fs.v, e);
    RootFits(fs.v, e, h, path, d, next, span, h.out.size);
    r := FinishedRecord(d.recs[0], next, span, Some(h.out.size), true);
    var status := FinishExtent(fs, h.head, h.slot, next, span, Some(h.out.size), true, d.recs[0]);
    ReadyCuts(fs.v, e, h.head, cuts, fs.cuts);
    RootStep(fs.v, e, id, path, d, r, fs.disk);
    assert InReady(fs.v, e, TheWriters);
    assert path[0] == h.head;
    Streaming.KeptByOwn(e.w, fs.disk, id, h.head);
    OwnOne(e.w.disk, fs.disk, h, h.head);
  }

  // ---------------------------------------------------------------- what a writer does to the disk

  /** The writer changed sectors that it occupies, quietly, and no root but its own went live. */
  ghost predicate OwnWork(disk: Disk, disk': Disk, h: Handle) {
    |disk'| == |disk| && forall p: nat {:trigger OwnAt(disk, disk', h, p)} :: OwnAt(disk, disk', h, p)
  }

  ghost predicate OwnAt(disk: Disk, disk': Disk, h: Handle, p: nat) {
    p < |disk| && p < |disk'| ==>
      && Quiet(disk[p], disk'[p]) && (!h.Occupies(p) ==> disk'[p] == disk[p])
      && (p != h.head ==> NoNewRoot(disk[p], disk'[p]))
  }

  lemma OwnOne(disk: Disk, disk': Disk, h: Handle, p: nat)
    requires h.Occupies(p) && p < |disk| == |disk'| && disk' == disk[p := disk'[p]] && Quiet(disk[p], disk'[p])
    requires p != h.head ==> NoNewRoot(disk[p], disk'[p])
    ensures OwnWork(disk, disk', h)
  {
    forall q: nat
      ensures OwnAt(disk, disk', h, q)
    {
    }
  }

  lemma OwnMore(disk: Disk, disk1: Disk, disk2: Disk, h: Handle)
    requires OwnWork(disk, disk1, h) && OwnWork(disk1, disk2, h)
    ensures OwnWork(disk, disk2, h)
  {
    forall p: nat
      ensures OwnAt(disk, disk2, h, p)
    {
      assert OwnAt(disk, disk1, h, p) && OwnAt(disk1, disk2, h, p);
      if p < |disk| {
        QuietChain(disk[p], disk1[p], disk2[p]);
      }
    }
  }

  lemma OwnIsQuiet(disk: Disk, disk': Disk, h: Handle)
    requires OwnWork(disk, disk', h)
    ensures Compact.QuietDisk(disk, disk')
  {
    forall p: nat | p < |disk|
      ensures Quiet(disk[p], disk'[p])
    {
      assert OwnAt(disk, disk', h, p);
    }
  }

  // ---------------------------------------------------------------- up to the commit

  /** The file that the draft has become. */
  ghost function NewFile(recs: seq<Md>, pieces: seq<Bytes>): File { File(pieces, SizesOf(recs)) }

  /** The file has the draft's name and bytes. */
  ghost predicate SaysIs(f: File, d: Draft) { Rooted(f) && Contents(f) == d.written && NameOf(f.pieces[0]) == d.name }

  /** The same. Callers unfold this where they need it. */
  ghost predicate Says(f: File, d: Draft) { forall x {:trigger SaysIs(x, d)} | x == f :: SaysIs(x, d) }

  /** The chain is live and says what was written. */
  ghost predicate Prepared(v: Volume, e: Env, h: Handle, path: Path, recs: seq<Md>, pieces: seq<Bytes>, d: Draft) {
    LiveIn(v, e, h, path, recs, pieces) && Says(NewFile(recs, pieces), d)
  }

  lemma PreparedSays(o: Output, d: Draft, d': Draft, recs: seq<Md>)
    requires StreamOk(o, d) && Streaming.StreamKept(o, d, d') && o.cache == [] && d.flushed != []
    requires |recs| == |d'.recs| && recs[0].size == o.size && forall i | 0 < i < |recs| :: recs[i] == d'.recs[i]
    ensures Says(NewFile(recs, d'.pieces), d)
  {
    assert d.flushed + o.cache == d.flushed;
    FileSays(o, d', recs);
    assert SaysIs(NewFile(recs, d'.pieces), d);
  }

  /** The root's link, read back from flash if it was deferred (fffs_finish_deferred_root_metadata). */
  method ReadRootLink(fs: Volatile, id: nat, ghost path: Path, ghost d: Draft) returns (next: u16, span: u16)
    requires id in fs.open && AlmostLive(fs.v, EnvOf(fs), fs.open[id], path, d) && d.span != 0
    ensures RootLink(d, path, next, span)
  {
    var h := fs.open[id];
    ReadyDisk(fs.v, EnvOf(fs));
    DeferredRoot(fs.v, EnvOf(fs), h, path, d);
    var k := ReadUncommitted(fs, h.head, h.slot);
    var root := fs.disk[h.head].recs[k];
    return root.next, root.span;
  }

  lemma DeferredRoot(v: Volume, e: Env, h: Handle, path: Path, d: Draft)
    requires AlmostLive(v, e, h, path, d)
    ensures h.head < |e.w.disk| && d.recs != []
    ensures var s := e.w.disk[h.head];
              Begun(s, d.recs[0]) && d.recs[0].slot == h.slot && FirstBegun(s.recs, h.slot) == |s.recs| - 1
  {
    assert InDone(v, e, h, path, d, 0, DonePath) && InDone(v, e, h, path, d, 0, DoneExtents);
    assert ExtentOk(v, e.w.disk, h.slot, path[0], d, 0);
  }

  /** The records of all extents, the root's last: begun extents are finished, and the chain is live. */
  method FinishAll(fs: Volatile, id: nat) returns (ghost path: Path, ghost recs: seq<Md>, ghost pieces: seq<Bytes>)
    requires WriterOk(fs, id) && fs.open[id].out.cache == [] && fs.drafts[id].flushed != []
    modifies fs`disk, fs`cuts, fs`nextSerial, fs`allocMap
    ensures Prepared(fs.v, EnvOf(fs), fs.open[id], path, recs, pieces, fs.drafts[id])
    ensures path == fs.pend[id] + [fs.open[id].current]
    ensures RootSize(NewFile(recs, pieces)) == fs.open[id].out.size
    ensures CutsKept(fs.v, old(fs.cuts), fs.cuts, fs.index, fs.files)
    ensures Streaming.OthersKept(old(fs.Now()), fs.Now(), id)
    ensures OwnWork(old(fs.disk), fs.disk, fs.open[id]) && Gc.WalkWary(old(fs.Now()), fs.gcMd, fs.disk, fs.gcMd)
  {
    ghost var w0, d, cuts0 := fs.Now(), fs.drafts[id], fs.cuts;
    var h := fs.open[id];
    ghost var d' := FinishExtents(fs, id);
    path := fs.pend[id] + [h.current];
    ghost var w1, cuts1 := fs.Now(), fs.cuts;
    var next: u16, span: u16 := 0, 1;
    RootSpan(fs.v, EnvOf(fs), h, path, d');
    if h.spanHead != h.head {
      next, span := ReadRootLink(fs, id, path, d');
    } else {
      span := h.current - h.spanHead + 1;
    }
    ghost var r := FinishRoot(fs, id, next, span, path, d');
    Streaming.KeptMore(w0, w1, fs.Now(), id);
    WaryMore(w0, fs.gcMd, w1, fs.gcMd, fs.disk, fs.gcMd);
    OwnMore(w0.disk, w1.disk, fs.disk, h);
    recs, pieces := d'.recs[0 := r], d'.pieces;
    PreparedNow(fs.v, w0.disk, h, fs.pend[id], d, d', recs);
  }

  lemma PreparedNow(v: Volume, disk: Disk, h: Handle, pend: Path, d: Draft, d': Draft, recs: seq<Md>)
    requires WorkOk(v, disk, h, pend, d) && Streaming.StreamKept(h.out, d, d') && h.out.cache == [] && d.flushed != []
    requires |recs| == |d'.recs| && recs[0].size == h.out.size && forall i | 0 < i < |recs| :: recs[i] == d'.recs[i]
    ensures Says(NewFile(recs, d'.pieces), d)
  {
    assert InWork(v, disk, h, pend, d, TheStream);
    PreparedSays(h.out, d, d', recs);
  }

  lemma RootSpan(v: Volume, e: Env, h: Handle, path: Path, d: Draft)
    requires AlmostLive(v, e, h, path, d)
    ensures path != [] && |d.recs| == |path|
    ensures (d.span == 0 ==> h.spanHead == h.head && h.current - h.spanHead + 1 == |path|)
  {
    assert InDone(v, e, h, path, d, 0, DonePath);
  }

  /** All extents but the root: the current one's record, and the head of the last span if that is not
      the root. */
  method FinishExtents(fs: Volatile, id: nat) returns (ghost d': Draft)
    requires WriterOk(fs, id) && fs.open[id].out.cache == [] && fs.drafts[id].flushed != []
    modifies fs`disk, fs`cuts, fs`nextSerial, fs`allocMap
    ensures var h, path := fs.open[id], fs.pend[id] + [fs.open[id].current];
      && AlmostLive(fs.v, EnvOf(fs), h, path, d') && (d'.span == 0 <==> h.spanHead == h.head)
      && (d'.span == 0 ==> |path| < 0x1_0000)
    ensures Streaming.StreamKept(fs.open[id].out, fs.drafts[id], d') && fs.open[id].out.size < 0x1_0000_0000
    ensures OwnWork(old(fs.disk), fs.disk, fs.open[id])
    ensures CutsKept(fs.v, old(fs.cuts), fs.cuts, fs.index, fs.files)
    ensures Streaming.OthersKept(old(fs.Now()), fs.Now(), id)
    ensures Gc.WalkWary(old(fs.Now()), fs.gcMd, fs.disk, fs.gcMd)
  {
    ghost var w0, d := fs.Now(), fs.drafts[id];
    var h := fs.open[id];
    Streaming.SpanBounds(fs.v, fs.disk, h, fs.pend[id], d);
    Streaming.ExclusiveNow(fs);
    SizeSmall(fs.v, fs.disk, h, fs.pend[id], d);
    ghost var r := FinishCurrent(fs, id, 0);
    assert Sharing.PathOf(w0, id)[|fs.pend[id]|] == h.current;
    Streaming.KeptByOwn(w0, fs.disk, id, h.current);
    OwnOne(w0.disk, fs.disk, h, h.current);
    d' := Longer(d, r);
    Streaming.LongerStream(fs.v, w0.disk, h, fs.pend[id], d, r);
    ghost var path := fs.pend[id] + [h.current];
    SpanOrRoot(fs.v, EnvOf(fs), h, path, d');
    if h.spanHead != h.head {
      ghost var w1 := fs.Now();
      ghost var r2 := FinishSpan(fs, id, 0, path, d');
      Streaming.KeptByOwn(w1, fs.disk, id, h.spanHead);
      Streaming.KeptMore(w0, w1, fs.Now(), id);
      WaryMore(w0, fs.gcMd, w1, fs.gcMd, fs.disk, fs.gcMd);
      OwnOne(w1.disk, fs.disk, h, h.spanHead);
      OwnMore(w0.disk, w1.disk, fs.disk, h);
      Streaming.RefinedStream(h.out, d, d', d'.span, r2, |path|);
      d' := Refined(d', d'.span, r2, |path|);
    }
  }

  lemma SizeSmall(v: Volume, disk: Disk, h: Handle, pend: Path, d: Draft)
    requires WorkOk(v, disk, h, pend, d)
    ensures h.out.size < 0x1_0000_0000
  {
    assert InWork(v, disk, h, pend, d, TheStream);
  }

  /** The current span starts at the root, or somewhere else than the root. */
  lemma SpanOrRoot(v: Volume, e: Env, h: Handle, path: Path, d: Draft)
    requires DoneIn(v, e, h, path, d, 0) && d.span < |path| && h.writing
    ensures (d.span == 0 <==> h.spanHead == h.head) && (d.span == 0 ==> |path| < 0x1_0000)
  {
    ReadyDisk(v, e);
    SpanFits(v, e, h, path, d, 0);
  }

  // ---------------------------------------------------------------- the commit

  ghost function Committed(w: World, slot: u16, head: u16, path: Path, f: File): World {
    w.(index := w.index[slot := head], paths := w.paths[slot := path], files := w.files[slot := f])
  }

  lemma CommitSound(v: Volume, e: Env, h: Handle, path: Path, recs: seq<Md>, pieces: seq<Bytes>, d: Draft)
    requires Prepared(v, e, h, path, recs, pieces, d) && VolumeOk(v)
    ensures path != [] && h.head < 0x1_0000 && h.head != 0 && DataSector(v, h.head)
    ensures Sound(v, Committed(e.w, h.slot, h.head, path, NewFile(recs, pieces)))
    ensures Chain(v, e.w.disk, h.slot, path)
  {
    assert InLive(v, e, h, path, recs, pieces, LiveReady(TheFiles)) && InLive(v, e, h, path, recs, pieces, LiveExtents);
    assert InLive(v, e, h, path, recs, pieces, LiveLinks);
    assert InReady(v, e, TheFiles);
    assert LiveExtent(v, e.w.disk, h.slot, path[0], recs[0], pieces[0], 0);
    ChainBuilt(v, e.w.disk, h.slot, path, recs, pieces);
    HoldsSet(v, e.w.disk, e.w.index, e.w.paths, e.w.files, h.slot, path);
    CommitPending(v, e.w, Committed(e.w, h.slot, h.head, path, NewFile(recs, pieces)));
    assert SaysIs(NewFile(recs, pieces), d);
    CommitRooted(e.w.files, h.slot, NewFile(recs, pieces));
  }

  lemma CommitRooted(files: map<u16, File>, slot: u16, f: File)
    requires AllRooted(files) && Rooted(f)
    ensures AllRooted(files[slot := f])
  {
    var files' := files[slot := f];
    forall s | s in files'
      ensures Rooted(files'[s])
    {
      if s != slot {
        assert Rooted(files[s]);
      }
    }
  }

  lemma CommitPending(v: Volume, w: World, w': World)
    requires PendingOk(v, w) && w'.disk == w.disk && w'.open == w.open && w'.pend == w.pend
    ensures PendingOk(v, w')
  {
    forall id: nat, p: nat | Extends(w', id, p)
      ensures p < |w.disk| && DataSector(v, p) && (w.open[id].Occupies(p) || Lookup(w.disk[p], w.open[id].slot).Some?)
    {
      assert Extends(w, id, p);
    }
  }

  /** The journal record: before it the old file is there, after it the new one. */
  method CommitIndex(fs: Volatile, id: nat, ghost path: Path, ghost recs: seq<Md>, ghost pieces: seq<Bytes>)
    returns (status: Status)
    requires id in fs.open && id in fs.drafts && VolumeOk(fs.v)
    requires Prepared(fs.v, EnvOf(fs), fs.open[id], path, recs, pieces, fs.drafts[id])
    requires fs.Backed() && ProperSlot(fs.open[id].slot)
    modifies fs`index, fs`journal, fs`cuts, fs`paths, fs`files
    ensures fs.Backed() && fs.open[id].head < 0x1_0000
    ensures Passage(fs.v, fs.g, old(StageOf(fs)), StageOf(fs), fs.disk, fs.open[id].slot, fs.open[id].head, status.Ok?)
    ensures fs.Now() ==
              if status.Ok? then
                Committed(old(fs.Now()), fs.open[id].slot, fs.open[id].head, path, NewFile(recs, pieces))
              else
                old(fs.Now())
    ensures Sound(fs.v, fs.Now()) && (status.Ok? || status == ErrNoSpace)
  {
    var h := fs.open[id];
    ghost var w := fs.Now();
    CommitSound(fs.v, EnvOf(fs), h, path, recs, pieces, fs.drafts[id]);
    SoundNow(fs.v, EnvOf(fs), h, path, recs, pieces);
    fs.MayAppend(h.slot, h.head);
    status := fs.AppendIndex(h.slot, h.head);
    if status.Ok? {
      fs.paths := fs.paths[h.slot := path];
      fs.files := fs.files[h.slot := NewFile(recs, pieces)];
    }
    RecordCuts(fs.v, w, fs.Now(), Recording(w.disk, w.index, fs.index, fs.g, old(fs.journal), h.slot, h.head),
               old(fs.cuts), fs.cuts);
    assert PassageIs(fs.v, fs.g, old(StageOf(fs)), StageOf(fs), fs.disk, h.slot, h.head, status.Ok?);
  }

  /** Around an index record the volume has the files before or after. */
  lemma RecordCuts(v: Volume, w: World, w': World, c: Image, cuts: iset<Image>, cuts': iset<Image>)
    requires Sound(v, w) && Sound(v, w') && w'.disk == w.disk
    requires c.Recording? && c.disk == w.disk && c.index == w.index && c.after == w'.index && Genuine(v, c)
    requires cuts' == cuts + RecordImages(c)
    ensures CutsEither(v, cuts, cuts', w.files, w'.files)
    ensures Survives(v, Image(w.disk, w.index), w.files) && Survives(v, Image(w.disk, w'.index), w'.files)
  {
    assert Holds(v, w.disk, w.index, w.paths, w.files) && Holds(v, w.disk, w'.index, w'.paths, w'.files);
  }

  lemma SoundNow(v: Volume, e: Env, h: Handle, path: Path, recs: seq<Md>, pieces: seq<Bytes>)
    requires LiveIn(v, e, h, path, recs, pieces)
    ensures Sound(v, e.w)
  {
    assert InLive(v, e, h, path, recs, pieces, LiveReady(TheFiles));
    assert InReady(v, e, TheFiles);
  }

  // ---------------------------------------------------------------- after the commit

  /** What has happened to a sector since: full hints, and records of the slot that died. */
  ghost predicate Settled(s: Sec, s': Sec, slot: u16) {
    && s'.footer.Live? == s.footer.Live? && |s'.recs| == |s.recs| && (Wiped(s') ==> Wiped(s))
    && forall k | 0 <= k < |s.recs| ::
         || s'.recs[k] == s.recs[k]
         || (&& s.recs[k].slot == slot && s'.recs[k].DataEnd() == s.recs[k].DataEnd() && s.recs[k].Live()
             && !s'.recs[k].Live() && s'.recs[k].state != UNCOMMITTED)
  }

  ghost predicate SettledDisk(disk: Disk, disk': Disk, slot: u16) {
    |disk'| == |disk| && forall p: nat | p < |disk| :: Settled(disk[p], disk'[p], slot)
  }

  lemma SettledBegun(disk: Disk, disk': Disk, slot: u16, t: u16)
    requires SettledDisk(disk, disk', slot) && NoBegun(disk, t)
    ensures NoBegun(disk', t)
  {
    forall p: nat | p < |disk'|
      ensures NoneBegun(disk'[p], t)
    {
      assert Settled(disk[p], disk'[p], slot) && NoneBegun(disk[p], t);
    }
  }

  lemma SettledLive(s: Sec, s': Sec, slot: u16, other: u16, n: nat)
    requires Settled(s, s', slot) && n <= FirstLive(s.recs, other)
    ensures n <= FirstLive(s'.recs, other)
  {
  }

  /** The walk is as well off as before: nothing new is needed that it has passed, and the old root, if
      it has passed that, is dead. */
  lemma SettledWalk(v: Volume, w: World, w': World, g: GcWalk, slot: u16, path: Path)
    requires WalkOk(v, w, g) && SettledDisk(w.disk, w'.disk, slot) && NotPassed(w, g, slot, path)
    requires forall s: u16, p: nat | Needed(w', s, p) :: Needed(w, s, p) || (s == slot && p in path)
    requires forall s: u16, p: nat | s != slot && s in w'.index && Used(w.index, w.paths, s, p) ::
               Used(w'.index, w'.paths, s, p)
    requires forall s: u16 | s != slot && s in w'.index :: s in w.index
    requires g.active ==> NoPassedRoot(w'.disk, g, slot)
    ensures WalkOk(v, w', g)
  {
    if g.active {
      var s, s' := w.disk[g.sector], w'.disk[g.sector];
      assert Settled(s, s', slot);
      assert forall k | 0 <= k < g.pos :: s'.recs[..g.pos][k] == s'.recs[k] && s.recs[..g.pos][k] == s.recs[k];
      ClaimedSame(s.recs[..g.pos], s'.recs[..g.pos]);
      if !g.liveSeen {
        forall x: u16 | Needed(w', x, g.sector)
          ensures g.pos <= FirstLive(s'.recs, x)
        {
          SettledLive(s, s', slot, x, g.pos);
        }
      }
    }
  }

  /** No live root of the slot among the records that the walk has passed. */
  ghost predicate NoPassedRoot(disk: Disk, g: GcWalk, slot: u16) {
    !g.openSeen && g.sector < |disk| ==>
      forall k | && 0 <= k < g.pos && k < |disk[g.sector].recs|
                 && disk[g.sector].recs[k].typ == TYPE_ROOT && disk[g.sector].recs[k].slot == slot ::
        !disk[g.sector].recs[k].Live()
  }

  lemma SettledStrays(v: Volume, w: World, w': World, slot: u16, head: nat)
    requires NoStraysBut(v, w, slot, head) && SettledDisk(w.disk, w'.disk, slot) && slot in w'.index
    requires w.index.Keys <= w'.index.Keys
    ensures NoStrays(v, w')
  {
    forall p: nat, k: nat | DataSector(v, p) && p < |w'.disk| && k < |w'.disk[p].recs| && w'.disk[p].footer.Live?
      ensures w'.disk[p].recs[k].Live() && w'.disk[p].recs[k].typ == TYPE_ROOT ==> w'.disk[p].recs[k].slot in w'.index
    {
      assert Settled(w.disk[p], w'.disk[p], slot);
    }
  }

  /** Only sectors with live footers may have left the map. */
  ghost predicate MapRetired(disk: Disk, used: set<nat>, used': set<nat>) {
    forall p | p in used && p !in used' && p < |disk| :: disk[p].footer.Live?
  }

  lemma SettledAlloc(v: Volume, open: OpenFiles, h: Hold, h': Hold, ranges: map<nat, Range>, slot: u16)
    requires Alloc.AllocOk(v, open, h, ranges) && SettledDisk(h.disk, h'.disk, slot) && h'.reserve == h.reserve
    requires MapRetired(h.disk, h.used, h'.used)
    ensures Alloc.AllocOk(v, open, h', ranges)
  {
    forall p | p in h'.reserve && p < |h'.disk| && Wiped(h'.disk[p])
      ensures p in h'.used
    {
      assert Settled(h.disk[p], h'.disk[p], slot);
    }
    forall id, p: nat | id in ranges && ranges[id].Has(p)
      ensures DataSector(v, p) && (p < |h'.disk| && p in h'.reserve ==> !Wiped(h'.disk[p]))
    {
      if p < |h'.disk| {
        assert Settled(h.disk[p], h'.disk[p], slot);
      }
    }
  }

  /** A walk that is wary of the slot has passed no root of it. */
  lemma WaryPassedNone(disk: Disk, disk': Disk, g: GcWalk, slot: u16)
    requires Wary(disk, g, slot) && g.active && SettledDisk(disk, disk', slot)
    ensures NoPassedRoot(disk', g, slot)
  {
    if !g.openSeen && g.sector < |disk'| {
      assert Settled(disk[g.sector], disk'[g.sector], slot);
    }
  }

  /** The walk has passed no root of the slot but the old one, and that is dead now. */
  lemma PassedRoots(v: Volume, e: Env, h: Handle, path: Path, recs: seq<Md>, pieces: seq<Bytes>, disk': Disk)
    requires LiveIn(v, e, h, path, recs, pieces) && SettledDisk(e.w.disk, disk', h.slot)
    requires h.slot in e.w.index ==> e.w.index[h.slot] < |disk'| && Lookup(disk'[e.w.index[h.slot]], h.slot).None?
    ensures e.g.active ==> NoPassedRoot(disk', e.g, h.slot)
  {
    if e.g.active && !e.g.openSeen && e.g.sector < |disk'| {
      forall k | 0 <= k < e.g.pos && k < |disk'[e.g.sector].recs| && disk'[e.g.sector].recs[k].typ == TYPE_ROOT
                 && disk'[e.g.sector].recs[k].slot == h.slot
        ensures !disk'[e.g.sector].recs[k].Live()
      {
        PassedRoot(v, e, h, path, recs, pieces, disk', k);
      }
    }
  }

  lemma PassedRoot(v: Volume, e: Env, h: Handle, path: Path, recs: seq<Md>, pieces: seq<Bytes>, disk': Disk, k: nat)
    requires LiveIn(v, e, h, path, recs, pieces) && SettledDisk(e.w.disk, disk', h.slot)
    requires h.slot in e.w.index ==> e.w.index[h.slot] < |disk'| && Lookup(disk'[e.w.index[h.slot]], h.slot).None?
    requires e.g.active && !e.g.openSeen && e.g.sector < |disk'| && k < e.g.pos && k < |disk'[e.g.sector].recs|
    requires var r := disk'[e.g.sector].recs[k]; r.typ == TYPE_ROOT && r.slot == h.slot
    ensures !disk'[e.g.sector].recs[k].Live()
  {
    var p := e.g.sector;
    assert InLive(v, e, h, path, recs, pieces, LiveReady(TheWalk))
           && InLive(v, e, h, path, recs, pieces, LiveReady(TheFiles));
    assert InLive(v, e, h, path, recs, pieces, LiveStrays) && InLive(v, e, h, path, recs, pieces, LiveWalk);
    assert InLive(v, e, h, path, recs, pieces, LiveExtents);
    assert InReady(v, e, TheWalk) && InReady(v, e, TheFiles);
    assert Settled(e.w.disk[p], disk'[p], h.slot);
    var r := e.w.disk[p].recs[k];
    if h.slot in e.w.index && r.Live() && r.typ == TYPE_ROOT && r.slot == h.slot {
      assert Used(e.w.index, e.w.paths, h.slot, p);
      OldRoot(v, e.w, h.slot, p, k);
      assert FirstLive(disk'[p].recs, h.slot) == |disk'[p].recs|;
    }
  }

  /** A live root that its file uses is the head of the file. */
  lemma OldRoot(v: Volume, w: World, slot: u16, p: nat, k: nat)
    requires Sound(v, w) && Used(w.index, w.paths, slot, p) && DataSector(v, p) && w.disk[p].footer.Live?
    requires k < |w.disk[p].recs|
    requires var r := w.disk[p].recs[k]; r.Live() && r.typ == TYPE_ROOT && r.slot == slot
    ensures w.index[slot] == p
  {
    assert SaneAt(v, w.disk, p) && Files.Stored(v, w.disk, w.index, w.paths, slot, w.files[slot]);
    Gc.OnlyLive(v, w.disk[p], k);
    var i: nat :| i < |w.paths[slot]| && w.paths[slot][i] == p;
    assert Node(v, w.disk, slot, w.paths[slot], i);
  }
}
