/** Root-only compaction: the live roots of a sector move elsewhere, then it is erased
    (src/fffs_gc.c, src/fffs_alloc.c). */
module Compact {
  import opened Nor
  import opened SectorMd
  import opened SectorView
  import opened Files
  import opened Mounted
  import opened SectorOps
  import opened Extents
  import opened Remount
  import IndexLog
  import Gc

  // ---------------------------------------------------------------- moving the head of a chain

  /** The chain of the slot with another sector in front. */
  function Moved(path: Path, p: nat): Path
    requires path != []
  {
    [p] + path[1..]
  }

  /** The slot's live root in sector p, with the rest of the slot's chain, is the slot's file. */
  ghost predicate Twin(v: Volume, w: World, slot: u16, p: nat) {
    && slot in w.index && slot in w.paths && slot in w.files && w.paths[slot] != []
    && Chain(v, w.disk, slot, Moved(w.paths[slot], p))
    && FileOf(v, w.disk, slot, Moved(w.paths[slot], p)) == w.files[slot]
  }

  /** Sector `dest`, which had no live record of the slot, has got a root that continues as r does. */
  ghost predicate RootCopied(v: Volume, disk: Disk, disk': Disk, src: nat, dest: nat, slot: u16, r: Md, r': Md) {
    && DataSector(v, dest) && src < |disk| == |disk'| == v.sectors && disk' == disk[dest := disk'[dest]]
    && Lookup(disk[src], slot) == Some(r) && Lookup(disk[dest], slot).None? && Lookup(disk'[dest], slot) == Some(r')
    && disk'[dest].footer.Live? && disk'[dest].recs == (if disk[dest].footer.Live? then disk[dest].recs else []) + [r']
    && r'.slot == slot && r'.typ == TYPE_ROOT && r'.span == 1 && r'.next == Succ(r, src) && r'.size == r.size
    && r.DataEnd() <= |disk[src].bytes| && r'.DataEnd() <= |disk'[dest].bytes|
    && DataOf(disk'[dest], r') == DataOf(disk[src], r)
  }

  /** The chain goes on from the copy as it did from the original, span or not, and reads the same. */
  lemma HeadMoves(v: Volume, disk: Disk, disk': Disk, src: nat, dest: nat, slot: u16, r: Md, r': Md, path: Path)
    requires Chain(v, disk, slot, path) && path[0] == src && RootCopied(v, disk, disk', src, dest, slot, r, r')
    ensures dest !in path && Chain(v, disk', slot, Moved(path, dest))
    ensures FileOf(v, disk', slot, Moved(path, dest)) == FileOf(v, disk, slot, path)
  {
    var path' := Moved(path, dest);
    NotOnPath(v, disk, slot, path, dest);
    assert Node(v, disk, slot, path, 0);
    assert After(path', 1) == After(path, 1);
    assert Node(v, disk', slot, path', 0);
    forall i: nat | 0 < i < |path|
      ensures Node(v, disk', slot, path', i) && Node(v, disk, slot, path, i)
      ensures Piece(v, disk', slot, path', i) == Piece(v, disk, slot, path, i)
      ensures RecordOf(v, disk', slot, path', i).size == RecordOf(v, disk, slot, path, i).size
    {
      NodeMoves(v, disk, disk', dest, slot, path, i);
    }
    SamePieces(v, disk, disk', slot, path, path');
  }

  lemma NotOnPath(v: Volume, disk: Disk, slot: u16, path: Path, p: nat)
    requires Chain(v, disk, slot, path) && p < |disk| && Lookup(disk[p], slot).None?
    ensures p !in path
  {
    forall i: nat | i < |path|
      ensures path[i] != p
    {
      assert Node(v, disk, slot, path, i);
    }
  }

  lemma NodeMoves(v: Volume, disk: Disk, disk': Disk, dest: nat, slot: u16, path: Path, i: nat)
    requires Chain(v, disk, slot, path) && dest !in path && 0 < i < |path|
    requires dest < |disk| == |disk'| && disk' == disk[dest := disk'[dest]]
    ensures Node(v, disk', slot, Moved(path, dest), i) && Node(v, disk, slot, path, i)
    ensures Piece(v, disk', slot, Moved(path, dest), i) == Piece(v, disk, slot, path, i)
    ensures RecordOf(v, disk', slot, Moved(path, dest), i) == RecordOf(v, disk, slot, path, i)
  {
    var path' := Moved(path, dest);
    assert Node(v, disk, slot, path, i);
    assert forall k | 0 < k < |path| :: path'[k] == path[k] && path[k] in path;
    var r := RecordOf(v, disk, slot, path, i);
    if r.span > 1 {
      forall k | i < k < i + r.span
        ensures path'[k] == path'[i] + (k - i)
        ensures RecordFor(disk', slot, path'[k]).Some? && RecordFor(disk', slot, path'[k]).value.span == 1
      {
        assert path[k] == path[i] + (k - i) && path[k] in path;
      }
    }
  }

  lemma SamePieces(v: Volume, disk: Disk, disk': Disk, slot: u16, path: Path, path': Path)
    requires Chain(v, disk, slot, path) && |path'| == |path|
    requires forall i: nat | i < |path| :: Node(v, disk', slot, path', i) && Node(v, disk, slot, path, i)
    requires forall i: nat | i < |path| ::
               && Piece(v, disk', slot, path', i) == Piece(v, disk, slot, path, i)
               && RecordOf(v, disk', slot, path', i).size == RecordOf(v, disk, slot, path, i).size
    ensures Chain(v, disk', slot, path') && FileOf(v, disk', slot, path') == FileOf(v, disk, slot, path)
  {
    assert FileOf(v, disk', slot, path').pieces == FileOf(v, disk, slot, path).pieces;
    assert FileOf(v, disk', slot, path').sizes == FileOf(v, disk, slot, path).sizes;
  }

  // ---------------------------------------------------------------- finding a place for a root

  /** Sectors may have got full hints, those of open writers not even that. */
  ghost predicate Searched(open: OpenFiles, disk: Disk, disk': Disk) {
    && |disk| == |disk'|
    && forall p: nat | p < |disk| :: disk'[p] == disk[p] || (!IsOpen(open, p) && Hinted(disk[p], disk'[p]))
  }

  lemma SearchedSelf(open: OpenFiles, disk: Disk)
    ensures Searched(open, disk, disk)
  {
  }

  lemma SearchedMore(open: OpenFiles, disk: Disk, disk1: Disk, disk2: Disk, p: nat)
    requires Searched(open, disk, disk1) && HintAt(disk1, disk2, p) && !IsOpen(open, p)
    ensures Searched(open, disk, disk2)
  {
    forall q: nat | q < |disk|
      ensures disk2[q] == disk[q] || (!IsOpen(open, q) && Hinted(disk[q], disk2[q]))
    {
      if q == p && disk1[q] != disk[q] && disk2[q] != disk1[q] {
        HintedTwice(disk[q], disk1[q], disk2[q]);
      }
    }
  }

  lemma HintedTwice(s: Sec, s1: Sec, s2: Sec)
    requires Hinted(s, s1) && Hinted(s1, s2)
    ensures Hinted(s, s2)
  {
    forall k | 0 <= k < |s.recs|
      ensures s.recs[k].DataEnd() <= |s.bytes| && DataOf(s2, s.recs[k]) == DataOf(s, s.recs[k])
    {
      assert s1.recs[k] == s.recs[k];
    }
  }

  lemma HintSound(v: Volume, w: World, disk': Disk, p: nat)
    requires Sound(v, w) && HintAt(w.disk, disk', p) && DiskOk(v, disk') && !IsOpen(w.open, p)
    ensures Sound(v, w.(disk := disk'))
  {
    if disk'[p] != w.disk[p] {
      HintedQuiet(w.disk[p], disk'[p]);
    }
    KeptOne(w, p, disk'[p]);
    KeptSound(v, w, disk');
  }

  /** Asks one sector for a window. */
  method Probe(fs: Volatile, p: nat, min: nat, slot: u16, normal: bool, ghost disk0: Disk, ghost cuts0: iset<Image>)
    returns (w: Window)
    requires Sound(fs.v, fs.Now()) && DataSector(fs.v, p) && !IsOpen(fs.open, p) && MIN_ROOT <= min
    requires Searched(fs.open, disk0, fs.disk) && CutsSafe(fs.v, cuts0, fs.cuts, fs.files)
    modifies fs`disk, fs`cuts
    ensures Sound(fs.v, fs.Now()) && Searched(fs.open, disk0, fs.disk) && CutsSafe(fs.v, cuts0, fs.cuts, fs.files)
    ensures w.Window? ==> Granted(fs.v, fs.disk[p], w, min, slot)
    ensures Wiped(fs.disk[p]) && min <= fs.v.size - FOOTER_SIZE - RECORD_SIZE ==> w.Window? && w.needsFooter
    ensures HintAt(old(fs.disk), fs.disk, p)
  {
    ghost var before, cuts1 := fs.Now(), fs.cuts;
    w := FindWindow(fs, p, min, slot, normal);
    HintSound(fs.v, before, fs.disk, p);
    SearchedMore(fs.open, disk0, before.disk, fs.disk, p);
    QuietSurvives(fs.v, before, p, cuts1, fs.cuts);
  }

  const COMPACTION_RESERVE: nat := 5

  ghost predicate ReserveOk(v: Volume, open: OpenFiles, reserve: seq<nat>) {
    && |reserve| <= COMPACTION_RESERVE && Distinct(reserve)
    && forall p | p in reserve :: DataSector(v, p) && !IsOpen(open, p)
  }

  /** fffs_alloc_compaction_reserve_remove. */
  method WithoutSector(reserve: seq<nat>, p: nat) returns (r: seq<nat>)
    ensures forall q | q in r :: q in reserve
    ensures forall q | q in reserve && q != p :: q in r
    ensures Distinct(reserve) ==> Distinct(r) && p !in r
    ensures |r| <= |reserve|
  {
    var i := 0;
    while i < |reserve|
      invariant 0 <= i <= |reserve| && p !in reserve[..i]
    {
      if reserve[i] == p {
        return reserve[..i] + reserve[i + 1..];
      }
      i := i + 1;
    }
    return reserve;
  }

  method Unreserve(fs: Volatile, p: nat)
    requires Distinct(fs.reserve)
    modifies fs`reserve, fs`allocMap
    ensures ReserveKept(old(fs.Held()), fs.Held()) && p !in fs.reserve
    ensures forall q | q in old(fs.reserve) && q != p :: q in fs.reserve
  {
    fs.reserve := WithoutSector(fs.reserve, p);
    fs.allocMap := fs.allocMap - {p};
  }

  lemma SearchedReserve(open: OpenFiles, h: Hold, h': Hold)
    requires Searched(open, h.disk, h'.disk) && h' == h.(disk := h'.disk)
    ensures ReserveKept(h, h')
  {
  }

  /** The reserve first (fffs_alloc_find_compaction_root_window). */
  method FindInReserve(fs: Volatile, source: nat, slot: u16, dataLen: nat) returns (dest: nat, w: Window)
    requires Sound(fs.v, fs.Now()) && ReserveOk(fs.v, fs.open, fs.reserve) && source !in fs.reserve
    requires MIN_ROOT <= dataLen
    modifies fs`disk, fs`cuts
    ensures Sound(fs.v, fs.Now()) && Searched(fs.open, old(fs.disk), fs.disk)
    ensures CutsSafe(fs.v, old(fs.cuts), fs.cuts, fs.files)
    ensures w.Window? ==>
              && dest != source && DataSector(fs.v, dest) && !IsOpen(fs.open, dest)
              && Granted(fs.v, fs.disk[dest], w, dataLen, slot)
  {
    for i := 0 to |fs.reserve|
      invariant Sound(fs.v, fs.Now())
      invariant Searched(fs.open, old(fs.disk), fs.disk) && CutsSafe(fs.v, old(fs.cuts), fs.cuts, fs.files)
    {
      dest := fs.reserve[i];
      w := Probe(fs, dest, dataLen, slot, true, old(fs.disk), old(fs.cuts));
      if w.Window? {
        return;
      }
    }
    return 0, NoWindow(false);
  }

  /** Then all sectors, from the allocation cursor on. */
  method FindInRing(fs: Volatile, source: nat, slot: u16, dataLen: nat, normal: bool) returns (dest: nat, w: Window)
    requires Sound(fs.v, fs.Now()) && MIN_ROOT <= dataLen
    modifies fs`disk, fs`cuts, fs`allocCursor
    ensures Sound(fs.v, fs.Now()) && Searched(fs.open, old(fs.disk), fs.disk)
    ensures CutsSafe(fs.v, old(fs.cuts), fs.cuts, fs.files)
    ensures w.Window? ==>
              && dest != source && DataSector(fs.v, dest) && !IsOpen(fs.open, dest)
              && Granted(fs.v, fs.disk[dest], w, dataLen, slot)
  {
    dest := Gc.Normalized(fs.v, fs.allocCursor);
    var checked := 0;
    while checked < fs.v.sectors - fs.v.index
      invariant Sound(fs.v, fs.Now()) && DataSector(fs.v, dest) && fs.allocCursor == old(fs.allocCursor)
      invariant Searched(fs.open, old(fs.disk), fs.disk) && CutsSafe(fs.v, old(fs.cuts), fs.cuts, fs.files)
    {
      if !((normal && dest in fs.allocMap) || dest == source || IsOpen(fs.open, dest)) {
        w := Probe(fs, dest, dataLen, slot, normal, old(fs.disk), old(fs.cuts));
        if w.Window? {
          fs.allocCursor := if w.records >= 6 then Gc.NextDataSector(fs.v, dest) else dest;
          return;
        }
      }
      dest := Gc.NextDataSector(fs.v, dest);
      checked := checked + 1;
    }
    return 0, NoWindow(false);
  }

  /** fffs_alloc_find_compaction_root_window. */
  method FindCompactionRootWindow(fs: Volatile, source: nat, slot: u16, dataLen: nat, relaxed: bool)
    returns (dest: nat, w: Window)
    requires Sound(fs.v, fs.Now()) && ReserveOk(fs.v, fs.open, fs.reserve) && source !in fs.reserve
    requires MIN_ROOT <= dataLen
    modifies fs`disk, fs`cuts, fs`reserve, fs`allocMap, fs`allocCursor
    ensures Sound(fs.v, fs.Now()) && Searched(fs.open, old(fs.disk), fs.disk)
    ensures CutsSafe(fs.v, old(fs.cuts), fs.cuts, fs.files)
    ensures ReserveKept(old(fs.Held()), fs.Held())
    ensures forall q | q in old(fs.reserve) && (w.Window? ==> q != dest) :: q in fs.reserve
    ensures w.Window? ==>
              && dest != source && DataSector(fs.v, dest) && !IsOpen(fs.open, dest)
              && Granted(fs.v, fs.disk[dest], w, dataLen, slot)
  {
    dest, w := FindInReserve(fs, source, slot, dataLen);
    if w.Window? {
      SearchedReserve(fs.open, old(fs.Held()), fs.Held());
      Unreserve(fs, dest);
      return;
    }
    ghost var disk1 := fs.disk;
    dest, w := FindInRing(fs, source, slot, dataLen, true);
    SearchedAgain(fs.open, old(fs.disk), disk1, fs.disk);
    if w.NoWindow? && relaxed {
      ghost var disk2 := fs.disk;
      dest, w := FindInRing(fs, source, slot, dataLen, false);
      SearchedAgain(fs.open, old(fs.disk), disk2, fs.disk);
    }
    SearchedReserve(fs.open, old(fs.Held()), fs.Held());
  }

  lemma SearchedAgain(open: OpenFiles, disk: Disk, disk1: Disk, disk2: Disk)
    requires Searched(open, disk, disk1) && Searched(open, disk1, disk2)
    ensures Searched(open, disk, disk2)
  {
    forall q: nat | q < |disk|
      ensures disk2[q] == disk[q] || (!IsOpen(open, q) && Hinted(disk[q], disk2[q]))
    {
      if disk1[q] != disk[q] && disk2[q] != disk1[q] {
        HintedTwice(disk[q], disk1[q], disk2[q]);
      }
    }
  }

  // ---------------------------------------------------------------- copying one root

  /** gc_copy_root_data: in chunks of the scratch buffer. */
  method CopyRootData(fs: Volatile, data: Bytes, dest: nat, w: Window, scratch: nat)
    requires VolumeOk(fs.v) && DiskOk(fs.v, fs.disk) && DataSector(fs.v, dest) && w.Window? && 0 < scratch
    requires InWindow(fs.v, fs.disk[dest], w.dataOff, w.recordOff, w.needsFooter, [])
    requires w.dataOff + |data| <= w.recordOff
    requires data != [] && data[0] != ERASED_BYTE
    modifies fs`disk, fs`cuts
    ensures DiskOk(fs.v, fs.disk) && fs.disk == old(fs.disk)[dest := fs.disk[dest]]
    ensures InWindow(fs.v, fs.disk[dest], w.dataOff, w.recordOff, w.needsFooter, data)
    ensures !w.needsFooter ==> fs.disk[dest].recs == old(fs.disk)[dest].recs
    ensures Quiet(old(fs.disk)[dest], fs.disk[dest]) && QuietCuts(old(fs.disk), fs.index, dest, old(fs.cuts), fs.cuts)
  {
    var done := 0;
    ghost var disk0, cuts0 := fs.disk, fs.cuts;
    assert data[..0] == [];
    while done < |data|
      invariant 0 <= done <= |data| && CopiedTo(fs.v, disk0, fs.disk, fs.index, dest, w, data[..done], cuts0, fs.cuts)
    {
      var n := if |data| - done < scratch then |data| - done else scratch;
      assert data[..done] + data[done..done + n] == data[..done + n];
      CopyChunk(fs, dest, w, data[..done], w.dataOff + done, data[done..done + n], disk0, cuts0);
      done := done + n;
    }
    assert data[..|data|] == data;
  }

  method CopyChunk(fs: Volatile, dest: nat, w: Window, ghost written: Bytes, at: nat, chunk: Bytes, ghost disk0: Disk,
                   ghost cuts0: iset<Image>)
    requires VolumeOk(fs.v) && DataSector(fs.v, dest)
    requires CopiedTo(fs.v, disk0, fs.disk, fs.index, dest, w, written, cuts0, fs.cuts)
    requires at == w.dataOff + |written| && at + |chunk| <= w.recordOff && chunk != []
    requires (written + chunk)[0] != ERASED_BYTE
    modifies fs`disk, fs`cuts
    ensures CopiedTo(fs.v, disk0, fs.disk, fs.index, dest, w, written + chunk, cuts0, fs.cuts)
  {
    ghost var disk1, cuts1 := fs.disk, fs.cuts;
    ProgramData(fs, dest, w.dataOff, w.recordOff, w.needsFooter, written, at, chunk, 0);
    QuietMore(disk0, disk1, fs.disk, fs.index, dest, cuts0, cuts1, fs.cuts);
  }

  /** So much of the data is in the window, and nobody can see it. */
  ghost predicate CopiedTo(v: Volume, disk: Disk, disk': Disk, index: Index, dest: nat, w: Window, data: Bytes,
                           cuts: iset<Image>, cuts': iset<Image>)
  {
    && w.Window? && dest < |disk| == |disk'| && DiskOk(v, disk') && disk' == disk[dest := disk'[dest]]
    && InWindow(v, disk'[dest], w.dataOff, w.recordOff, w.needsFooter, data)
    && (!w.needsFooter ==> disk'[dest].recs == disk[dest].recs)
    && Quiet(disk[dest], disk'[dest]) && QuietCuts(disk, index, dest, cuts, cuts')
  }

  /** The appended live record is what the slot finds in the sector. */
  lemma AppendedFound(v: Volume, s: Sec, s1: Sec, s2: Sec, first: bool, r: Md, data: Bytes)
    requires Lookup(s, r.slot).None? && (if first then !s.footer.Live? else s.footer.Live? && s1.recs == s.recs)
    requires Appended(v, s1, s2, first, r, data) && r.Live()
    ensures Lookup(s2, r.slot) == Some(r)
  {
    var k := FirstLive(s2.recs, r.slot);
    assert s2.recs[|s2.recs| - 1] == r;
    if !first {
      assert FirstLive(s.recs, r.slot) == |s.recs|;
      assert forall i | 0 <= i < |s.recs| :: s2.recs[i] == s.recs[i];
    }
  }

  /** The record of a copied root: a span of one that links to where reading went on. */
  function CopyOf(r: Md, source: nat, w: Window): Md
    requires w.Window? && w.dataOff < 0x1_0000 && Succ(r, source) < 0x1_0000
  {
    Md(TYPE_ROOT, STATE_VALID, r.slot, Succ(r, source), 1, w.dataOff, r.dataLen, r.size, w.recordOff)
  }

  lemma CopyFits(v: Volume, disk: Disk, slot: u16, source: nat, path: Path, dest: nat, w: Window, data: Bytes)
    requires VolumeOk(v) && |disk| == v.sectors && AllReal(v, disk) && DataSector(v, dest) && Chain(v, disk, slot, path)
    requires path[0] == source < |disk|
    requires w.Window? && InWindow(v, disk[dest], w.dataOff, w.recordOff, w.needsFooter, [])
    requires var r := Lookup(disk[source], slot);
      r.Some? && |data| == r.value.dataLen && w.dataOff + |data| <= w.recordOff && data != []
    ensures var r := Lookup(disk[source], slot).value;
      && Succ(r, source) < 0x1_0000 && w.dataOff < 0x1_0000
      && RecordOfWindow(v, dest, CopyOf(r, source, w), w.dataOff, w.recordOff, data) && CopyOf(r, source, w).Live()
  {
    assert Node(v, disk, slot, path, 0);
    assert |path| > 1 ==> Node(v, disk, slot, path, 1);
    LifecycleTorn(STATE_VALID, STATE_VALID);
    SizeBound(v, disk, source, slot);
  }

  lemma SizeBound(v: Volume, disk: Disk, p: nat, slot: u16)
    requires VolumeOk(v) && AllReal(v, disk) && p < |disk| && Lookup(disk[p], slot).Some?
    ensures Lookup(disk[p], slot).value.size < 0x1_0000_0000
  {
    assert Real(v, disk, p);
    RecordAt(v, p, disk[p].bytes, FirstLive(disk[p].recs, slot));
  }

  /** Data and record of a root into a window granted for it. */
  method PlaceRoot(fs: Volatile, source: nat, r: Md, dest: nat, w: Window, scratch: nat, ghost path: Path)
    requires VolumeOk(fs.v) && DiskOk(fs.v, fs.disk) && DataSector(fs.v, source) && DataSector(fs.v, dest)
    requires dest != source
    requires Lookup(fs.disk[source], r.slot) == Some(r) && r.DataEnd() <= |fs.disk[source].bytes|
    requires Chain(fs.v, fs.disk, r.slot, path) && path[0] == source && 0 < scratch
    requires Granted(fs.v, fs.disk[dest], w, r.dataLen, r.slot)
    requires r.dataLen > 0 && DataOf(fs.disk[source], r)[0] != ERASED_BYTE
    modifies fs`disk, fs`cuts, fs`nextSerial, fs`allocMap
    ensures DiskOk(fs.v, fs.disk) && fs.disk == old(fs.disk)[dest := fs.disk[dest]]
    ensures Quiet(old(fs.disk)[dest], fs.disk[dest]) && QuietCuts(old(fs.disk), fs.index, dest, old(fs.cuts), fs.cuts)
    ensures exists r' :: RootCopied(fs.v, old(fs.disk), fs.disk, source, dest, r.slot, r, r')
    ensures ReserveKept(old(fs.Held()), fs.Held())
  {
    var data := DataOf(fs.disk[source], r);
    CopyFits(fs.v, fs.disk, r.slot, source, path, dest, w, data);
    var r' := CopyOf(r, source, w);
    ghost var disk0, cuts0 := fs.disk, fs.cuts;
    CopyRootData(fs, data, dest, w, scratch);
    ghost var disk1, cuts1 := fs.disk, fs.cuts;
    StillAvailable(disk0[dest], disk1[dest], w.needsFooter, r');
    ProgramExtentMetadata(fs, dest, w.dataOff, w.recordOff, w.needsFooter, data, r');
    QuietMore(disk0, disk1, fs.disk, fs.index, dest, cuts0, cuts1, fs.cuts);
    RootIsCopied(fs.v, disk0, disk1, fs.disk, source, dest, r, r', w.needsFooter, data);
  }

  lemma RootIsCopied(v: Volume, disk0: Disk, disk1: Disk, disk2: Disk, source: nat, dest: nat, r: Md, r': Md,
                     first: bool, data: Bytes)
    requires DataSector(v, dest) && dest != source && source < |disk0| == |disk1| == |disk2| == v.sectors
    requires disk1 == disk0[dest := disk1[dest]] && disk2 == disk1[dest := disk2[dest]]
    requires Lookup(disk0[source], r.slot) == Some(r) && r.DataEnd() <= |disk0[source].bytes|
    requires data == DataOf(disk0[source], r)
    requires && Lookup(disk0[dest], r.slot).None?
             && (if first then
                   !disk0[dest].footer.Live?
                 else
                   disk0[dest].footer.Live? && disk1[dest].recs == disk0[dest].recs)
    requires Appended(v, disk1[dest], disk2[dest], first, r', data) && r'.Live()
    requires r'.slot == r.slot && r'.typ == TYPE_ROOT && r'.span == 1 && r'.next == Succ(r, source) && r'.size == r.size
    ensures RootCopied(v, disk0, disk2, source, dest, r.slot, r, r')
  {
    AppendedFound(v, disk0[dest], disk1[dest], disk2[dest], first, r', data);
  }

  lemma StillAvailable(s: Sec, s1: Sec, first: bool, r: Md)
    requires Lookup(s, r.slot).None? && (!first ==> s.footer.Live? && s1.recs == s.recs)
    ensures Available(s1, first, r)
  {
    if !first {
      assert FirstLive(s.recs, r.slot) == |s.recs|;
    }
  }

  // ---------------------------------------------------------------- twins

  /** Every live root of sector p is a twin of its slot's root, or that root itself. */
  ghost predicate AllTwins(v: Volume, w: World, p: nat) {
    && p < |w.disk| && w.disk[p].footer.Live?
    && forall k | 0 <= k < |w.disk[p].recs| && w.disk[p].recs[k].Live() && w.disk[p].recs[k].typ == TYPE_ROOT ::
         Twin(v, w, w.disk[p].recs[k].slot, p)
  }

  ghost predicate TwinsKept(v: Volume, w: World, w': World) {
    forall p: nat | AllTwins(v, w, p) :: AllTwins(v, w', p)
  }

  ghost predicate QuietDisk(disk: Disk, disk': Disk) {
    |disk'| == |disk| && forall p: nat | p < |disk| :: Quiet(disk[p], disk'[p])
  }

  lemma TwinQuiet(v: Volume, w: World, disk': Disk, slot: u16, p: nat)
    requires Twin(v, w, slot, p) && QuietDisk(w.disk, disk')
    ensures Twin(v, w.(disk := disk'), slot, p)
  {
    ChainKept(v, w.disk, disk', slot, Moved(w.paths[slot], p));
  }

  lemma SearchedQuiet(open: OpenFiles, disk: Disk, disk': Disk)
    requires Searched(open, disk, disk')
    ensures QuietDisk(disk, disk')
  {
    forall p: nat | p < |disk|
      ensures Quiet(disk[p], disk'[p])
    {
      if disk'[p] != disk[p] {
        HintedQuiet(disk[p], disk'[p]);
      }
    }
  }

  lemma TwinsSearched(v: Volume, w: World, disk': Disk)
    requires Searched(w.open, w.disk, disk')
    ensures TwinsKept(v, w, w.(disk := disk'))
  {
    SearchedQuiet(w.open, w.disk, disk');
    var w' := w.(disk := disk');
    forall p: nat | AllTwins(v, w, p)
      ensures AllTwins(v, w', p)
    {
      assert disk'[p].recs == w.disk[p].recs && disk'[p].footer.Live?;
      forall k | 0 <= k < |disk'[p].recs| && disk'[p].recs[k].Live() && disk'[p].recs[k].typ == TYPE_ROOT
        ensures Twin(v, w', disk'[p].recs[k].slot, p)
      {
        TwinQuiet(v, w, disk', disk'[p].recs[k].slot, p);
      }
    }
  }

  lemma PlacedQuiet(disk: Disk, disk': Disk, dest: nat)
    requires dest < |disk| == |disk'| && disk' == disk[dest := disk'[dest]] && Quiet(disk[dest], disk'[dest])
    ensures QuietDisk(disk, disk')
  {
  }

  lemma TwinsPlaced(v: Volume, w: World, disk': Disk, src: nat, dest: nat, slot: u16, r: Md, r': Md)
    requires RootCopied(v, w.disk, disk', src, dest, slot, r, r') && Quiet(w.disk[dest], disk'[dest])
    requires Twin(v, w, slot, src)
    ensures Twin(v, w.(disk := disk'), slot, dest) && TwinsKept(v, w, w.(disk := disk'))
  {
    PlacedQuiet(w.disk, disk', dest);
    var w', path := w.(disk := disk'), w.paths[slot];
    HeadMoves(v, w.disk, disk', src, dest, slot, r, r', Moved(path, src));
    assert Moved(Moved(path, src), dest) == Moved(path, dest);
    forall p: nat | AllTwins(v, w, p)
      ensures AllTwins(v, w', p)
    {
      forall k | 0 <= k < |disk'[p].recs| && disk'[p].recs[k].Live() && disk'[p].recs[k].typ == TYPE_ROOT
        ensures Twin(v, w', disk'[p].recs[k].slot, p)
      {
        if p != dest || k < |w.disk[p].recs| {
          assert disk'[p].recs[k] == w.disk[p].recs[k];
          TwinQuiet(v, w, disk', disk'[p].recs[k].slot, p);
        }
      }
    }
  }

  /** The slot's head moves to a twin. */
  ghost function Rehead(w: World, slot: u16, dest: u16): World
    requires slot in w.paths && w.paths[slot] != []
  {
    w.(index := w.index[slot := dest], paths := w.paths[slot := Moved(w.paths[slot], dest)])
  }

  lemma TwinsReheaded(v: Volume, w: World, slot: u16, dest: u16)
    requires Twin(v, w, slot, dest)
    ensures TwinsKept(v, w, Rehead(w, slot, dest))
  {
    var w' := Rehead(w, slot, dest);
    forall p: nat | AllTwins(v, w, p)
      ensures AllTwins(v, w', p)
    {
      forall k | 0 <= k < |w'.disk[p].recs| && w'.disk[p].recs[k].Live() && w'.disk[p].recs[k].typ == TYPE_ROOT
        ensures Twin(v, w', w'.disk[p].recs[k].slot, p)
      {
        assert Twin(v, w, w.disk[p].recs[k].slot, p);
        assert Moved(Moved(w.paths[slot], dest), p) == Moved(w.paths[slot], p);
      }
    }
  }

  lemma ReheadSound(v: Volume, w: World, slot: u16, dest: u16)
    requires Sound(v, w) && Twin(v, w, slot, dest)
    ensures Sound(v, Rehead(w, slot, dest))
  {
    var w', path := Rehead(w, slot, dest), Moved(w.paths[slot], dest);
    HoldsSet(v, w.disk, w.index, w.paths, w.files, slot, path);
    assert w.files[slot := FileOf(v, w.disk, slot, path)] == w.files;
    forall id: nat, p: nat | Extends(w', id, p)
      ensures p < |w.disk| && DataSector(v, p) && (w.open[id].Occupies(p) || Lookup(w.disk[p], w.open[id].slot).Some?)
    {
      assert Extends(w, id, p);
    }
  }

  /** What open writers and open readers have is kept. */
  ghost predicate WritersKept(w: World, disk': Disk) {
    && |disk'| == |w.disk|
    && (forall p: nat | p < |w.disk| && IsOpen(w.open, p) :: disk'[p] == w.disk[p])
    && (forall slot: u16, p: nat | p < |w.disk| && Pending(w, slot, p) :: Keeps(w.disk[p], disk'[p], slot))
    && (forall slot: u16, p: nat | p < |w.disk| && InHand(w, slot, p) :: Keeps(w.disk[p], disk'[p], slot))
  }

  /** Sector p has an extent of a stored file that is open. */
  ghost predicate InHand(w: World, slot: u16, p: nat) { Pinned(w.open, slot) && Used(w.index, w.paths, slot, p) }

  /** The volume still stores the same files, open writers have lost nothing, and a power cut on the way
      leaves the same files too. */
  ghost predicate SameFiles(v: Volume, w: World, w': World, cuts: iset<Image>, cuts': iset<Image>) {
    && Sound(v, w') && w'.files == w.files && w'.open == w.open && w'.pend == w.pend
    && WritersKept(w, w'.disk) && CutsSafe(v, cuts, cuts', w.files)
    && (NoStrays(v, w) ==> NoStrays(v, w')) && PinnedSame(w, w') && Tame(v, w, w')
  }

  // ---------------------------------------------------------------- records that appear

  /** If the slot has a live record in sector p, it is a root with the rest of the slot's chain behind it, and of
      the slot's file. */
  ghost predicate Branch(v: Volume, w: World, slot: u16, p: nat) {
    && slot in w.index && slot in w.paths && slot in w.files && w.paths[slot] != []
    && (p < |w.disk| && Lookup(w.disk[p], slot).Some? ==>
          && Chain(v, w.disk, slot, Moved(w.paths[slot], p))
          && Lookup(w.disk[p], slot).value.size == RootSize(w.files[slot]))
  }

  datatype Trace = NewBegun | NewLive | NewRoots | NewChains

  /** One kind of records that do not appear. Callers name the kind they need. */
  ghost predicate TameIn(v: Volume, w: World, w': World, trace: Trace) {
    match trace
    case NewBegun => BegunKept(w.disk, w'.disk)
    case NewLive =>
      && |w'.disk| == |w.disk|
      && forall slot: u16, p: nat {:trigger NoneNew(w.disk[p], w'.disk[p], slot)} |
           Pinned(w.open, slot) && p < |w.disk| :: NoneNew(w.disk[p], w'.disk[p], slot)
    case NewRoots =>
      forall slot: u16, p: nat {:trigger Branch(v, w', slot, p)} | Branch(v, w, slot, p) :: Branch(v, w', slot, p)
    case NewChains =>
      forall slot: u16 | slot in w.paths && w.paths[slot] != [] ::
        slot in w'.paths && w'.paths[slot] != [] && w'.paths[slot][1..] == w.paths[slot][1..]
  }

  /** No uncommitted record has come, no live one of an open file, and of other files only copies of their root; the
      rest of their chains is where it was. */
  ghost predicate Tame(v: Volume, w: World, w': World) {
    forall trace {:trigger TameIn(v, w, w', trace)} :: TameIn(v, w, w', trace)
  }

  lemma TameMore(v: Volume, w: World, w1: World, w2: World)
    requires Tame(v, w, w1) && Tame(v, w1, w2) && w1.open == w.open
    ensures Tame(v, w, w2)
  {
    forall trace
      ensures TameIn(v, w, w2, trace)
    {
      assert TameIn(v, w, w1, trace) && TameIn(v, w1, w2, trace);
      if trace.NewBegun? {
        forall slot: u16, p: nat | p < |w.disk| && NoneBegun(w.disk[p], slot)
          ensures NoneBegun(w2.disk[p], slot)
        {
          assert NoneBegun(w1.disk[p], slot);
        }
      } else if trace.NewLive? {
        forall slot: u16, p: nat | Pinned(w.open, slot) && p < |w.disk|
          ensures NoneNew(w.disk[p], w2.disk[p], slot)
        {
          assert NoneNew(w.disk[p], w1.disk[p], slot) && NoneNew(w1.disk[p], w2.disk[p], slot);
        }
      } else if trace.NewRoots? {
        forall slot: u16, p: nat | Branch(v, w, slot, p)
          ensures Branch(v, w2, slot, p)
        {
          assert Branch(v, w1, slot, p);
        }
      }
    }
  }

  lemma TameSame(v: Volume, w: World)
    ensures Tame(v, w, w)
  {
    forall trace
      ensures TameIn(v, w, w, trace)
    {
    }
  }

  /** A branch whose root is as it was or gone, and whose rest is as it was. */
  lemma BranchKept(v: Volume, w: World, disk': Disk, slot: u16, p: nat)
    requires Sound(v, w) && Branch(v, w, slot, p) && |disk'| == |w.disk|
    requires p < |disk'| && Lookup(disk'[p], slot).Some? ==>
               Keeps(w.disk[p], disk'[p], slot) && Lookup(w.disk[p], slot).Some?
    requires forall q | q in w.paths[slot] && q < |w.disk| :: Keeps(w.disk[q], disk'[q], slot)
    ensures Branch(v, w.(disk := disk'), slot, p)
  {
    if p < |disk'| && Lookup(disk'[p], slot).Some? {
      var path := Moved(w.paths[slot], p);
      forall q | q in path && q < |w.disk|
        ensures Keeps(w.disk[q], disk'[q], slot)
      {
        if q != p {
          assert q in w.paths[slot];
        }
      }
      ChainKept(v, w.disk, disk', slot, path);
    }
  }

  /** In one sector records may have died. */
  lemma TameThinned(v: Volume, w: World, disk': Disk, p: nat)
    requires Sound(v, w) && DataSector(v, p) && p < |w.disk| == |disk'| && disk' == w.disk[p := disk'[p]]
    requires Gc.Thinned(w.disk[p], disk'[p]) && Kept(w, disk')
    ensures Tame(v, w, w.(disk := disk'))
  {
    var w' := w.(disk := disk');
    assert SaneAt(v, w.disk, p);
    forall slot: u16, q: nat | q < |w.disk|
      ensures NoneNew(w.disk[q], disk'[q], slot) && (Lookup(disk'[q], slot).Some? ==> Keeps(w.disk[q], disk'[q], slot))
    {
      if q == p {
        Gc.ThinnedSame(w.disk[p], disk'[p], slot);
      }
    }
    forall trace
      ensures TameIn(v, w, w', trace)
    {
      if trace.NewBegun? {
        Gc.ThinnedBegun(w.disk, disk', p);
      } else if trace.NewRoots? {
        forall slot: u16, q: nat | Branch(v, w, slot, q)
          ensures Branch(v, w', slot, q)
        {
          forall t | t in w.paths[slot] && t < |w.disk|
            ensures Keeps(w.disk[t], disk'[t], slot)
          {
            assert Used(w.index, w.paths, slot, t) && Needed(w, slot, t);
          }
          BranchKept(v, w, disk', slot, q);
        }
      }
    }
  }

  /** Full hints are no records. */
  lemma TameSearched(v: Volume, w: World, disk': Disk)
    requires Sound(v, w) && Searched(w.open, w.disk, disk')
    ensures Tame(v, w, w.(disk := disk'))
  {
    var w' := w.(disk := disk');
    SearchedQuiet(w.open, w.disk, disk');
    forall p: nat | p < |w.disk|
      ensures disk'[p].recs == w.disk[p].recs && disk'[p].footer.Live? == w.disk[p].footer.Live?
    {
    }
    forall trace
      ensures TameIn(v, w, w', trace)
    {
      if trace.NewRoots? {
        forall slot: u16, q: nat | Branch(v, w, slot, q)
          ensures Branch(v, w', slot, q)
        {
          BranchKept(v, w, disk', slot, q);
        }
      }
    }
  }

  /** The copy of a root is a branch. */
  lemma TamePlaced(v: Volume, w: World, disk': Disk, src: nat, dest: nat, slot: u16, r: Md, r': Md)
    requires Sound(v, w) && Twin(v, w, slot, src) && RootCopied(v, w.disk, disk', src, dest, slot, r, r')
    requires Quiet(w.disk[dest], disk'[dest]) && !Pinned(w.open, slot)
    ensures Tame(v, w, w.(disk := disk'))
  {
    var w' := w.(disk := disk');
    PlacedQuiet(w.disk, disk', dest);
    forall t: u16, q: nat | q < |w.disk| && (t != slot || q != dest)
      ensures NoneNew(w.disk[q], disk'[q], t)
    {
      if q == dest {
        PlacedNone(w.disk[q], disk'[q], r', t);
      }
    }
    forall trace
      ensures TameIn(v, w, w', trace)
    {
      if trace.NewBegun? {
        PlacedBegun(w.disk, disk', dest, r');
      } else if trace.NewRoots? {
        forall t: u16, q: nat | Branch(v, w, t, q)
          ensures Branch(v, w', t, q)
        {
          if t == slot && q == dest {
            CopyIsBranch(v, w, disk', src, dest, slot, r, r');
          } else {
            BranchKept(v, w, disk', t, q);
          }
        }
      }
    }
  }

  lemma PlacedNone(s: Sec, s': Sec, r: Md, slot: u16)
    requires s'.footer.Live? && s'.recs == (if s.footer.Live? then s.recs else []) + [r] && r.slot != slot
    ensures NoneNew(s, s', slot)
  {
    var k := FirstLive(s'.recs, slot);
    if k < |s'.recs| {
      assert k < |s'.recs| - 1 && s.footer.Live? && s'.recs[k] == s.recs[k];
      assert forall i | 0 <= i < k :: s'.recs[i] == s.recs[i];
    }
  }

  lemma PlacedBegun(disk: Disk, disk': Disk, p: nat, r: Md)
    requires p < |disk| == |disk'| && disk' == disk[p := disk'[p]] && r.Live()
    requires disk'[p].recs == (if disk[p].footer.Live? then disk[p].recs else []) + [r]
    ensures BegunKept(disk, disk')
  {
    LifecycleTorn(UNCOMMITTED, UNCOMMITTED);
    BegunOne(disk, disk', p);
  }

  lemma CopyIsBranch(v: Volume, w: World, disk': Disk, src: nat, dest: nat, slot: u16, r: Md, r': Md)
    requires Sound(v, w) && Twin(v, w, slot, src) && RootCopied(v, w.disk, disk', src, dest, slot, r, r')
    ensures Branch(v, w.(disk := disk'), slot, dest)
  {
    var path := Moved(w.paths[slot], src);
    HeadMoves(v, w.disk, disk', src, dest, slot, r, r', path);
    assert Moved(path, dest) == Moved(w.paths[slot], dest);
    assert Node(v, w.disk, slot, path, 0) && FileOf(v, w.disk, slot, path).sizes[0] == r.size;
  }

  lemma TameReheaded(v: Volume, w: World, slot: u16, dest: u16)
    requires slot in w.paths && w.paths[slot] != [] && slot in w.index
    ensures Tame(v, w, Rehead(w, slot, dest))
  {
    var w' := Rehead(w, slot, dest);
    forall trace
      ensures TameIn(v, w, w', trace)
    {
      if trace.NewRoots? {
        forall t: u16, q: nat | Branch(v, w, t, q)
          ensures Branch(v, w', t, q)
        {
          assert Moved(Moved(w.paths[slot], dest), q) == Moved(w.paths[slot], q);
        }
      }
    }
  }

  // ---------------------------------------------------------------- what compaction keeps

  /** The heads of open files stay where they are. */
  ghost predicate PinnedSame(w: World, w': World) {
    forall slot: u16 | Pinned(w.open, slot) ::
      && (slot in w'.index <==> slot in w.index) && (slot in w.index ==> w'.index[slot] == w.index[slot])
      && (slot in w'.paths <==> slot in w.paths) && (slot in w.paths ==> w'.paths[slot] == w.paths[slot])
  }

  /** Twins are still twins, besides. */
  ghost predicate Preserved(v: Volume, w: World, w': World, cuts: iset<Image>, cuts': iset<Image>) {
    SameFiles(v, w, w', cuts, cuts') && TwinsKept(v, w, w')
  }

  lemma PreservedMore(v: Volume, w: World, w1: World, w2: World, cuts: iset<Image>, cuts1: iset<Image>,
                      cuts2: iset<Image>)
    requires SameFiles(v, w, w1, cuts, cuts1) && SameFiles(v, w1, w2, cuts1, cuts2)
    ensures SameFiles(v, w, w2, cuts, cuts2)
    ensures TwinsKept(v, w, w1) && TwinsKept(v, w1, w2) ==> TwinsKept(v, w, w2)
  {
    forall slot: u16, p: nat | p < |w.disk| && Pending(w, slot, p)
      ensures Keeps(w.disk[p], w2.disk[p], slot)
    {
      assert Pending(w1, slot, p);
      KeepsTransitive(w.disk[p], w1.disk[p], w2.disk[p], slot);
    }
    forall slot: u16, p: nat | p < |w.disk| && InHand(w, slot, p)
      ensures Keeps(w.disk[p], w2.disk[p], slot)
    {
      assert InHand(w1, slot, p);
      KeepsTransitive(w.disk[p], w1.disk[p], w2.disk[p], slot);
    }
    TameMore(v, w, w1, w2);
  }

  lemma SearchPreserves(v: Volume, w: World, disk': Disk, cuts: iset<Image>, cuts': iset<Image>)
    requires Sound(v, w) && Sound(v, w.(disk := disk')) && Searched(w.open, w.disk, disk')
    requires CutsSafe(v, cuts, cuts', w.files)
    ensures Preserved(v, w, w.(disk := disk'), cuts, cuts')
  {
    TwinsSearched(v, w, disk');
    SearchedQuiet(w.open, w.disk, disk');
    TameSearched(v, w, disk');
    if NoStrays(v, w) {
      StraysSearched(v, w, disk');
    }
  }

  lemma StraysSearched(v: Volume, w: World, disk': Disk)
    requires NoStrays(v, w) && Searched(w.open, w.disk, disk')
    ensures NoStrays(v, w.(disk := disk'))
  {
    forall p: nat, k: nat | DataSector(v, p) && p < |disk'| && k < |disk'[p].recs| && disk'[p].footer.Live?
      ensures disk'[p].recs[k].Live() && disk'[p].recs[k].typ == TYPE_ROOT ==> disk'[p].recs[k].slot in w.index
    {
      assert disk'[p].recs == w.disk[p].recs;
    }
  }

  lemma StraysPlaced(v: Volume, w: World, disk': Disk, src: nat, dest: nat, slot: u16, r: Md, r': Md)
    requires NoStrays(v, w) && RootCopied(v, w.disk, disk', src, dest, slot, r, r') && slot in w.index
    ensures NoStrays(v, w.(disk := disk'))
  {
    forall p: nat, k: nat | DataSector(v, p) && p < |disk'| && k < |disk'[p].recs| && disk'[p].footer.Live?
      ensures disk'[p].recs[k].Live() && disk'[p].recs[k].typ == TYPE_ROOT ==> disk'[p].recs[k].slot in w.index
    {
      if p != dest || (k < |w.disk[p].recs| && w.disk[p].footer.Live?) {
        assert disk'[p].recs[k] == w.disk[p].recs[k];
      }
    }
  }

  lemma PlacePreserves(v: Volume, w: World, disk': Disk, src: nat, dest: nat, slot: u16, r: Md, cuts: iset<Image>,
                       cuts': iset<Image>)
    requires Sound(v, w) && Twin(v, w, slot, src) && DiskOk(v, disk') && DataSector(v, dest) && !IsOpen(w.open, dest)
    requires !Pinned(w.open, slot)
    requires exists r' :: RootCopied(v, w.disk, disk', src, dest, slot, r, r')
    requires Quiet(w.disk[dest], disk'[dest]) && QuietCuts(w.disk, w.index, dest, cuts, cuts')
    ensures Preserved(v, w, w.(disk := disk'), cuts, cuts') && Twin(v, w.(disk := disk'), slot, dest)
  {
    var r' :| RootCopied(v, w.disk, disk', src, dest, slot, r, r');
    TwinsPlaced(v, w, disk', src, dest, slot, r, r');
    TamePlaced(v, w, disk', src, dest, slot, r, r');
    KeptOne(w, dest, disk'[dest]);
    KeptSound(v, w, disk');
    QuietSurvives(v, w, dest, cuts, cuts');
    if NoStrays(v, w) {
      StraysPlaced(v, w, disk', src, dest, slot, r, r');
    }
  }

  lemma ReheadPreserves(v: Volume, w: World, slot: u16, dest: u16, c: Image, cuts: iset<Image>, cuts': iset<Image>)
    requires Sound(v, w) && Twin(v, w, slot, dest) && !Pinned(w.open, slot)
    requires c.Recording? && c.disk == w.disk && c.index == w.index && c.after == w.index[slot := dest]
    requires Genuine(v, c) && cuts' == cuts + RecordImages(c)
    ensures Preserved(v, w, Rehead(w, slot, dest), cuts, cuts')
  {
    ReheadSound(v, w, slot, dest);
    TwinsReheaded(v, w, slot, dest);
    TameReheaded(v, w, slot, dest);
    IndexCuts(v, w, Rehead(w, slot, dest), c, cuts, cuts');
  }

  /** An interrupted append to the journal leaves the namespace before or after it. */
  lemma IndexCuts(v: Volume, w: World, w': World, c: Image, cuts: iset<Image>, cuts': iset<Image>)
    requires Sound(v, w) && Sound(v, w') && w'.files == w.files && w'.disk == w.disk
    requires c.Recording? && c.disk == w.disk && c.index == w.index && c.after == w'.index && Genuine(v, c)
    requires cuts' == cuts + RecordImages(c)
    ensures CutsSafe(v, cuts, cuts', w.files)
  {
    assert Holds(v, w.disk, w.index, w.paths, w.files) && Holds(v, w.disk, w'.index, w'.paths, w.files);
  }

  /** Nothing happened to the namespace, but the cuts record that it might have. */
  lemma SamePreserves(v: Volume, w: World, c: Image, cuts: iset<Image>, cuts': iset<Image>)
    requires Sound(v, w) && c.Recording? && c.disk == w.disk && c.index == c.after == w.index && Genuine(v, c)
    requires cuts' == cuts + RecordImages(c)
    ensures Preserved(v, w, w, cuts, cuts')
  {
    TameSame(v, w);
    IndexCuts(v, w, w, c, cuts, cuts');
  }

  /** The slot's root left sector `source`, or nothing changed. */
  ghost predicate LeftSector(paths: Paths, paths': Paths, slot: u16, source: nat) {
    || paths' == paths
    || exists d: nat ::
         d != source && slot in paths && paths[slot] != [] && paths' == paths[slot := Moved(paths[slot], d)]
  }

  /** gc_copy_root_record. */
  method CopyRootRecord(fs: Volatile, source: nat, k: nat, r: Md, relaxed: bool, scratch: nat) returns (status: Status)
    requires Sound(fs.v, fs.Now()) && ReserveOk(fs.v, fs.open, fs.reserve) && source !in fs.reserve && 0 < scratch
    requires DataSector(fs.v, source) && fs.disk[source].footer.Live? && k < |fs.disk[source].recs|
    requires r == fs.disk[source].recs[k]
    requires r.Live() && r.typ == TYPE_ROOT && Twin(fs.v, fs.Now(), r.slot, source) && !Pinned(fs.open, r.slot)
    requires fs.Backed()
    modifies fs`disk, fs`cuts, fs`reserve, fs`allocMap, fs`allocCursor, fs`nextSerial, fs`index, fs`journal, fs`paths
    ensures fs.Backed()
    ensures Preserved(fs.v, old(fs.Now()), fs.Now(), old(fs.cuts), fs.cuts)
    ensures ReserveKept(old(fs.Held()), fs.Held())
    ensures NoneFreed(old(fs.Held()), fs.Held())
    ensures fs.disk[source].footer.Live? && fs.disk[source].recs == old(fs.disk)[source].recs
    ensures LeftSector(old(fs.paths), fs.paths, r.slot, source)
    ensures status.Ok? ==> r.slot in fs.paths && fs.paths[r.slot] != [] && fs.paths[r.slot][0] != source
  {
    ghost var w0, cuts0 := fs.Now(), fs.cuts;
    var found, dest := CopyRootTo(fs, source, k, r, relaxed, scratch);
    if !found {
      return ErrNoSpace;
    }
    ghost var w1, cuts1 := fs.Now(), fs.cuts;
    status := MoveHead(fs, r.slot, dest);
    PreservedMore(fs.v, w0, w1, fs.Now(), cuts0, cuts1, fs.cuts);
  }

  /** The copy itself: find a place, write data and record there. */
  method CopyRootTo(fs: Volatile, source: nat, k: nat, r: Md, relaxed: bool, scratch: nat)
    returns (found: bool, dest: nat)
    requires Sound(fs.v, fs.Now()) && ReserveOk(fs.v, fs.open, fs.reserve) && source !in fs.reserve && 0 < scratch
    requires DataSector(fs.v, source) && fs.disk[source].footer.Live? && k < |fs.disk[source].recs|
    requires r == fs.disk[source].recs[k]
    requires r.Live() && r.typ == TYPE_ROOT && Twin(fs.v, fs.Now(), r.slot, source) && !Pinned(fs.open, r.slot)
    modifies fs`disk, fs`cuts, fs`reserve, fs`allocMap, fs`allocCursor, fs`nextSerial
    ensures Preserved(fs.v, old(fs.Now()), fs.Now(), old(fs.cuts), fs.cuts)
    ensures ReserveKept(old(fs.Held()), fs.Held())
    ensures NoneFreed(old(fs.Held()), fs.Held())
    ensures fs.disk[source].footer.Live? && fs.disk[source].recs == old(fs.disk)[source].recs
    ensures found ==> dest != source && dest < 0x1_0000 && dest != 0 && Twin(fs.v, fs.Now(), r.slot, dest)
  {
    ghost var w0, cuts0, h0 := fs.Now(), fs.cuts, fs.Held();
    var w;
    dest, w := FindPlace(fs, source, k, r, relaxed);
    if w.NoWindow? {
      return false, 0;
    }
    ghost var w1, cuts1, h1 := fs.Now(), fs.cuts, fs.Held();
    PlaceTwin(fs, source, k, r, dest, w, scratch);
    PlacedNoneFreed(fs.open, h0, h1, fs.Held(), dest);
    PreservedMore(fs.v, w0, w1, fs.Now(), cuts0, cuts1, fs.cuts);
    found := true;
  }

  lemma PlacedNoneFreed(open: OpenFiles, h: Hold, h1: Hold, h2: Hold, dest: nat)
    requires Searched(open, h.disk, h1.disk) && dest < |h1.disk| == |h2.disk|
    requires h2.disk == h1.disk[dest := h2.disk[dest]] && h2.disk[dest].footer.Live? && h2.reserve == h1.reserve
    requires forall q | q in h.reserve && q != dest :: q in h1.reserve
    ensures NoneFreed(h, h2)
  {
    forall p: nat | p < |h.disk| && p !in h2.reserve && Wiped(h2.disk[p])
      ensures p !in h.reserve && Wiped(h.disk[p])
    {
      assert p != dest;
    }
  }

  /** A window for the root, outside its own sector. */
  method FindPlace(fs: Volatile, source: nat, k: nat, r: Md, relaxed: bool) returns (dest: nat, w: Window)
    requires Sound(fs.v, fs.Now()) && ReserveOk(fs.v, fs.open, fs.reserve) && source !in fs.reserve
    requires DataSector(fs.v, source) && fs.disk[source].footer.Live? && k < |fs.disk[source].recs|
    requires r == fs.disk[source].recs[k]
    requires r.Live() && r.typ == TYPE_ROOT && Twin(fs.v, fs.Now(), r.slot, source)
    modifies fs`disk, fs`cuts, fs`reserve, fs`allocMap, fs`allocCursor
    ensures Preserved(fs.v, old(fs.Now()), fs.Now(), old(fs.cuts), fs.cuts) && ReserveKept(old(fs.Held()), fs.Held())
    ensures fs.disk[source].footer.Live? && fs.disk[source].recs == old(fs.disk)[source].recs
    ensures Twin(fs.v, fs.Now(), r.slot, source)
    ensures forall q | q in old(fs.reserve) && (w.Window? ==> q != dest) :: q in fs.reserve
    ensures Searched(fs.open, old(fs.disk), fs.disk)
    ensures w.Window? ==>
              && dest != source && DataSector(fs.v, dest) && !IsOpen(fs.open, dest)
              && Granted(fs.v, fs.disk[dest], w, r.dataLen, r.slot)
  {
    ghost var w0, cuts0 := fs.Now(), fs.cuts;
    RootLength(fs.v, w0, r.slot, source, k);
    dest, w := FindCompactionRootWindow(fs, source, r.slot, r.dataLen, relaxed);
    SearchPreserves(fs.v, w0, fs.disk, cuts0, fs.cuts);
    TwinQuietHere(fs.v, w0, fs.Now(), r.slot, source);
  }

  method PlaceTwin(fs: Volatile, source: nat, k: nat, r: Md, dest: nat, w: Window, scratch: nat)
    requires Sound(fs.v, fs.Now()) && 0 < scratch
    requires DataSector(fs.v, source) && fs.disk[source].footer.Live? && k < |fs.disk[source].recs|
    requires r == fs.disk[source].recs[k]
    requires r.Live() && r.typ == TYPE_ROOT && Twin(fs.v, fs.Now(), r.slot, source) && !Pinned(fs.open, r.slot)
    requires dest != source && DataSector(fs.v, dest) && !IsOpen(fs.open, dest)
    requires Granted(fs.v, fs.disk[dest], w, r.dataLen, r.slot)
    modifies fs`disk, fs`cuts, fs`nextSerial, fs`allocMap
    ensures Preserved(fs.v, old(fs.Now()), fs.Now(), old(fs.cuts), fs.cuts) && ReserveKept(old(fs.Held()), fs.Held())
    ensures fs.disk[source] == old(fs.disk)[source] && Twin(fs.v, fs.Now(), r.slot, dest)
    ensures fs.disk == old(fs.disk)[dest := fs.disk[dest]] && fs.disk[dest].footer.Live?
  {
    ghost var w1, cuts1 := fs.Now(), fs.cuts;
    RootLength(fs.v, w1, r.slot, source, k);
    PlaceRoot(fs, source, r, dest, w, scratch, Moved(fs.paths[r.slot], source));
    PlacePreserves(fs.v, w1, fs.disk, source, dest, r.slot, r, cuts1, fs.cuts);
  }

  /** The journal record that makes the copy the slot's root. */
  method MoveHead(fs: Volatile, slot: u16, dest: u16) returns (status: Status)
    requires Sound(fs.v, fs.Now()) && Twin(fs.v, fs.Now(), slot, dest) && dest != 0 && !Pinned(fs.open, slot)
    requires fs.Backed()
    modifies fs`cuts, fs`index, fs`journal, fs`paths
    ensures fs.Backed() && Passage(fs.v, fs.g, old(StageOf(fs)), StageOf(fs), fs.disk, slot, dest, status.Ok?)
    ensures Preserved(fs.v, old(fs.Now()), fs.Now(), old(fs.cuts), fs.cuts)
    ensures fs.paths == if status.Ok? then old(fs.paths)[slot := Moved(old(fs.paths)[slot], dest)] else old(fs.paths)
  {
    ghost var w, cuts := fs.Now(), fs.cuts;
    assert Node(fs.v, fs.disk, slot, Moved(fs.paths[slot], dest), 0);
    fs.MayAppend(slot, dest);
    status := fs.AppendIndex(slot, dest);
    ghost var c := Recording(w.disk, w.index, fs.index, fs.g, old(fs.journal), slot, dest);
    if status.Ok? {
      fs.paths := fs.paths[slot := Moved(fs.paths[slot], dest)];
      ReheadPreserves(fs.v, w, slot, dest, c, cuts, fs.cuts);
    } else {
      SamePreserves(fs.v, w, c, cuts, fs.cuts);
    }
    MovePassage(fs, w, old(StageOf(fs)), c, slot, dest, status.Ok?);
  }

  lemma MovePassage(fs: Volatile, w: World, a: Stage, c: Image, slot: u16, dest: u16, written: bool)
    requires Sound(fs.v, w) && Sound(fs.v, fs.Now()) && fs.disk == w.disk && fs.files == w.files && a.index == w.index
    requires a.files == w.files
    requires JournalGrew(fs.g, a.journal, fs.journal, slot, dest, written)
    requires c.Recording? && c.disk == w.disk && c.index == w.index && c.after == fs.index && Genuine(fs.v, c)
    requires fs.cuts == a.cuts + RecordImages(c)
    ensures Passage(fs.v, fs.g, a, StageOf(fs), fs.disk, slot, dest, written)
  {
    assert Holds(fs.v, w.disk, w.index, w.paths, w.files) && Holds(fs.v, fs.disk, fs.index, fs.paths, fs.files);
    assert PassageIs(fs.v, fs.g, a, StageOf(fs), fs.disk, slot, dest, written);
  }

  /** The root that the slot finds in the sector is this record, and it starts like a root. */
  lemma RootLength(v: Volume, w: World, slot: u16, p: nat, k: nat)
    requires Sound(v, w) && Twin(v, w, slot, p) && DataSector(v, p) && w.disk[p].footer.Live?
    requires k < |w.disk[p].recs| && w.disk[p].recs[k].Live() && w.disk[p].recs[k].slot == slot
    ensures var r := w.disk[p].recs[k];
      && Lookup(w.disk[p], slot) == Some(r) && MIN_ROOT <= r.dataLen && r.DataEnd() <= |w.disk[p].bytes|
      && DataOf(w.disk[p], r)[0] != ERASED_BYTE
  {
    assert SaneAt(v, w.disk, p) && Files.Stored(v, w.disk, w.index, w.paths, slot, w.files[slot]);
    Gc.OnlyLive(v, w.disk[p], k);
    var path := Moved(w.paths[slot], p);
    assert Node(v, w.disk, slot, path, 0);
    assert Rooted(w.files[slot]);
    assert w.files[slot].pieces[0] == Piece(v, w.disk, slot, path, 0);
  }

  lemma TwinQuietHere(v: Volume, w: World, w': World, slot: u16, p: nat)
    requires Twin(v, w, slot, p) && Searched(w.open, w.disk, w'.disk) && w' == w.(disk := w'.disk)
    ensures Twin(v, w', slot, p)
  {
    SearchedQuiet(w.open, w.disk, w'.disk);
    TwinQuiet(v, w, w'.disk, slot, p);
  }

  // ---------------------------------------------------------------- the whole sector

  /** Of the first n records the live ones are roots that no open file pins and that have moved away. */
  ghost predicate Emptied(w: World, p: nat, recs: seq<Md>, n: nat) {
    forall k | 0 <= k < n && k < |recs| && recs[k].Live() ::
      recs[k].typ == TYPE_ROOT && !Pinned(w.open, recs[k].slot) && !Used(w.index, w.paths, recs[k].slot, p)
  }

  lemma NotInRest(v: Volume, w: World, slot: u16, p: nat)
    requires Twin(v, w, slot, p)
    ensures p !in w.paths[slot][1..]
  {
    var path := Moved(w.paths[slot], p);
    forall i | 0 < i < |path|
      ensures path[i] != p
    {
      NoReturn(v, w.disk, slot, path, 0, i);
    }
    assert forall i | 0 <= i < |w.paths[slot][1..]| :: w.paths[slot][1..][i] == path[i + 1];
  }

  lemma OneMoreEmptied(v: Volume, w: World, w': World, p: nat, j: nat)
    requires Sound(v, w) && Sound(v, w') && w'.files == w.files && w'.open == w.open && DataSector(v, p)
    requires w.disk[p].footer.Live?
    requires j < |w.disk[p].recs| && Emptied(w, p, w.disk[p].recs, j)
    requires var r := w.disk[p].recs[j];
      && r.Live() && r.typ == TYPE_ROOT && !Pinned(w.open, r.slot) && Twin(v, w, r.slot, p)
      && LeftSector(w.paths, w'.paths, r.slot, p) && r.slot in w'.paths && w'.paths[r.slot] != []
      && w'.paths[r.slot][0] != p
    ensures Emptied(w', p, w.disk[p].recs, j + 1)
  {
    var recs, slot := w.disk[p].recs, w.disk[p].recs[j].slot;
    NotInRest(v, w, slot, p);
    assert w'.paths[slot][1..] == w.paths[slot][1..];
    assert p !in w'.paths[slot] by {
      assert w'.paths[slot] == [w'.paths[slot][0]] + w'.paths[slot][1..];
    }
    assert SaneAt(v, w.disk, p);
    forall k | 0 <= k < j && recs[k].Live()
      ensures !Used(w'.index, w'.paths, recs[k].slot, p)
    {
      assert recs[k].slot != slot;
      assert w'.index.Keys == w.index.Keys;
    }
  }

  lemma EmptiedUseless(v: Volume, w: World, p: nat)
    requires Sound(v, w) && DataSector(v, p) && !IsOpen(w.open, p) && Emptied(w, p, w.disk[p].recs, |w.disk[p].recs|)
    ensures Gc.Useless(w, p)
  {
    forall slot: u16
      ensures !Needed(w, slot, p)
    {
      if Needed(w, slot, p) {
        Gc.NeededIsThere(v, w, slot, p);
      }
    }
  }

  lemma ErasePreserves(v: Volume, w: World, disk': Disk, p: nat, cuts: iset<Image>, cuts': iset<Image>)
    requires Sound(v, w) && Gc.Useless(w, p) && DiskOk(v, disk') && disk' == w.disk[p := disk'[p]]
    requires CutsAt(w.disk, w.index, p, cuts, cuts') && !disk'[p].footer.Live? && DataSector(v, p)
    ensures SameFiles(v, w, w.(disk := disk'), cuts, cuts')
  {
    Gc.UselessGoes(v, w, p, disk', cuts, cuts');
    KeptWriters(w, disk');
    TameThinned(v, w, disk', p);
    if NoStrays(v, w) {
      Gc.ThinnedNoStrays(v, w, disk', p);
    }
  }

  lemma KeptWriters(w: World, disk': Disk)
    requires Kept(w, disk')
    ensures WritersKept(w, disk')
  {
    forall slot: u16, p: nat | p < |w.disk| && Pending(w, slot, p)
      ensures Keeps(w.disk[p], disk'[p], slot)
    {
      assert Needed(w, slot, p);
    }
  }

  /** Burying a root that has moved away. */
  lemma BuryTwins(v: Volume, w: World, disk': Disk, p: nat, j: nat)
    requires Sound(v, w) && DataSector(v, p) && Gc.BuriedAt(w.disk, disk', p, j) && w.disk[p].recs[j].Live()
    requires w.disk[p].footer.Live?
    requires !Used(w.index, w.paths, w.disk[p].recs[j].slot, p)
    ensures TwinsKept(v, w, w.(disk := disk'))
  {
    assert SaneAt(v, w.disk, p);
    forall q: nat | AllTwins(v, w, q)
      ensures AllTwins(v, w.(disk := disk'), q)
    {
      BuryTwinsAt(v, w, disk', p, j, q);
    }
  }

  lemma BuryTwinsAt(v: Volume, w: World, disk': Disk, p: nat, j: nat, q: nat)
    requires AllTwins(v, w, q) && Gc.BuriedAt(w.disk, disk', p, j) && w.disk[p].recs[j].Live()
    requires OneLive(w.disk[p].recs)
    requires !Used(w.index, w.paths, w.disk[p].recs[j].slot, p)
    ensures AllTwins(v, w.(disk := disk'), q)
  {
    var w', buried := w.(disk := disk'), w.disk[p].recs[j].slot;
    forall k | 0 <= k < |disk'[q].recs| && disk'[q].recs[k].Live() && disk'[q].recs[k].typ == TYPE_ROOT
      ensures Twin(v, w', disk'[q].recs[k].slot, q)
    {
      var slot := disk'[q].recs[k].slot;
      assert disk'[q].recs[k] == w.disk[q].recs[k];
      assert Twin(v, w, slot, q);
      if slot == buried {
        assert q != p;
        assert p !in Moved(w.paths[slot], q) by {
          assert forall i | 0 < i < |w.paths[slot]| ::
                   Moved(w.paths[slot], q)[i] == w.paths[slot][i] && w.paths[slot][i] in w.paths[slot];
        }
      }
      ChainKept(v, w.disk, disk', slot, Moved(w.paths[slot], q));
    }
  }

  lemma BuryPreserves(v: Volume, w: World, disk': Disk, p: nat, j: nat, cuts: iset<Image>, cuts': iset<Image>)
    requires Sound(v, w) && DataSector(v, p) && !IsOpen(w.open, p) && DiskOk(v, disk') && w.disk[p].footer.Live?
    requires Gc.BuriedAt(w.disk, disk', p, j) && w.disk[p].recs[j].Live() && CutsSafe(v, cuts, cuts', w.files)
    requires !Used(w.index, w.paths, w.disk[p].recs[j].slot, p) && !Pinned(w.open, w.disk[p].recs[j].slot)
    ensures Preserved(v, w, w.(disk := disk'), cuts, cuts')
  {
    BuryTwins(v, w, disk', p, j);
    if NoStrays(v, w) {
      Gc.ThinnedNoStrays(v, w, disk', p);
    }
    Gc.NotPending(w, w.disk[p].recs[j].slot, p);
    KeptOne(w, p, disk'[p]);
    KeptSound(v, w, disk');
    KeptWriters(w, disk');
    TameThinned(v, w, disk', p);
  }

  /** gc_tombstone_copied_roots. */
  method TombstoneCopiedRoots(fs: Volatile, p: nat, copied: nat)
    requires Sound(fs.v, fs.Now()) && DataSector(fs.v, p) && !IsOpen(fs.open, p) && fs.disk[p].footer.Live?
    requires Emptied(fs.Now(), p, fs.disk[p].recs, copied)
    modifies fs`disk, fs`cuts, fs`allocMap
    ensures Preserved(fs.v, old(fs.Now()), fs.Now(), old(fs.cuts), fs.cuts)
    ensures p !in fs.reserve ==> ReserveKept(old(fs.Held()), fs.Held())
    ensures NoneFreed(old(fs.Held()), fs.Held())
  {
    var entry: nat, claimed: nat, active := 0, 0, true;
    ghost var w0 := fs.Now();
    assert fs.disk[p].recs[..0] == [];
    while active && entry < copied
      invariant Preserved(fs.v, w0, fs.Now(), old(fs.cuts), fs.cuts) && fs.disk[p].footer.Live?
      invariant fs.Now() == w0.(disk := fs.disk) && (p !in fs.reserve ==> ReserveKept(old(fs.Held()), fs.Held()))
      invariant NoneFreed(old(fs.Held()), fs.Held())
      invariant entry <= |fs.disk[p].recs| && Emptied(fs.Now(), p, fs.disk[p].recs, copied)
      invariant active ==> Resumable(fs.v, fs.disk[p].recs, entry, claimed)
      decreases active, |fs.disk[p].recs| - entry
    {
      var d: Step;
      d, claimed, active := NextRecord(fs, p, entry, claimed);
      if d.Found? {
        if d.r.Live() && d.r.typ == TYPE_ROOT {
          TombstoneCopied(fs, p, entry, d.r.slot, copied, w0, old(fs.cuts), claimed, active);
        }
        entry := entry + 1;
      }
    }
  }

  method TombstoneCopied(fs: Volatile, p: nat, j: nat, slot: u16, ghost copied: nat, ghost w0: World,
                         ghost cuts0: iset<Image>,
                         ghost claimed: nat, ghost active: bool)
    requires Sound(fs.v, fs.Now()) && DataSector(fs.v, p) && !IsOpen(fs.open, p) && fs.disk[p].footer.Live?
    requires j < copied && j < |fs.disk[p].recs| && fs.disk[p].recs[j].Live() && fs.disk[p].recs[j].slot == slot
    requires Emptied(fs.Now(), p, fs.disk[p].recs, copied)
    requires Preserved(fs.v, w0, fs.Now(), cuts0, fs.cuts)
    requires (active ==> Resumable(fs.v, fs.disk[p].recs, j + 1, claimed))
    modifies fs`disk, fs`cuts, fs`allocMap
    ensures Preserved(fs.v, w0, fs.Now(), cuts0, fs.cuts) && fs.disk[p].footer.Live?
    ensures |fs.disk[p].recs| == |old(fs.disk)[p].recs| && Emptied(fs.Now(), p, fs.disk[p].recs, copied)
    ensures active ==> Resumable(fs.v, fs.disk[p].recs, j + 1, claimed)
    ensures p !in fs.reserve ==> ReserveKept(old(fs.Held()), fs.Held())
    ensures NoneFreed(old(fs.Held()), fs.Held())
  {
    ghost var w1, cuts1 := fs.Now(), fs.cuts;
    BuryCopied(fs, p, j, slot);
    PreservedMore(fs.v, w0, w1, fs.Now(), cuts0, cuts1, fs.cuts);
    if active {
      Gc.ResumableBuried(fs.v, w1.disk[p], fs.disk[p], j, j + 1, claimed);
    }
  }

  method BuryCopied(fs: Volatile, p: nat, j: nat, slot: u16)
    requires Sound(fs.v, fs.Now()) && DataSector(fs.v, p) && !IsOpen(fs.open, p) && fs.disk[p].footer.Live?
    requires j < |fs.disk[p].recs| && fs.disk[p].recs[j].Live() && fs.disk[p].recs[j].slot == slot
    requires !Used(fs.index, fs.paths, slot, p) && !Pinned(fs.open, slot)
    modifies fs`disk, fs`cuts, fs`allocMap
    ensures Preserved(fs.v, old(fs.Now()), fs.Now(), old(fs.cuts), fs.cuts) && Gc.BuriedAt(old(fs.disk), fs.disk, p, j)
    ensures p !in fs.reserve ==> ReserveKept(old(fs.Held()), fs.Held())
    ensures NoneFreed(old(fs.Held()), fs.Held())
  {
    ghost var w1, cuts1 := fs.Now(), fs.cuts;
    var status := Gc.BuryRecord(fs, p, j, slot);
    fs.allocMap := fs.allocMap - {p};
    if p !in fs.reserve {
      ReserveElsewhere(old(fs.Held()), fs.Held(), p);
    }
    BuryPreserves(fs.v, w1, fs.disk, p, j, cuts1, fs.cuts);
  }

  /** What the copying loop keeps while it has passed the first j records of the sector. */
  ghost predicate Copying(fs: Volatile, w0: World, cuts0: iset<Image>, h0: Hold, p: nat, recs: seq<Md>, j: nat)
    reads fs
  {
    && Preserved(fs.v, w0, fs.Now(), cuts0, fs.cuts) && AllTwins(fs.v, fs.Now(), p) && fs.disk[p].recs == recs
    && ReserveKept(h0, fs.Held()) && NoneFreed(h0, fs.Held()) && Emptied(fs.Now(), p, recs, j)
  }

  /** gc_compact_root_only_sector. The same files are there afterwards, byte for byte, wherever their
      heads went and however it ends: with the sector erased, or out of space half way. */
  method CompactRootOnlySector(fs: Volatile, source: nat, relaxed: bool, scratch: nat) returns (status: Status)
    requires fs.Valid() && !fs.gcMd.active && ReserveOk(fs.v, fs.open, fs.reserve) && 0 < scratch
    requires DataSector(fs.v, source) && !IsOpen(fs.open, source) && source !in fs.reserve
    requires AllTwins(fs.v, fs.Now(), source)
    modifies fs`disk, fs`cuts, fs`reserve, fs`allocMap, fs`allocCursor, fs`nextSerial, fs`index, fs`journal, fs`paths
    ensures fs.Valid() && SameFiles(fs.v, old(fs.Now()), fs.Now(), old(fs.cuts), fs.cuts)
    ensures ReserveKept(old(fs.Held()), fs.Held())
    ensures status.Ok? ==> fs.disk[source].footer.Blank? && AllErased(fs.disk[source].bytes) && source !in fs.allocMap
    ensures !status.Ok? ==> TwinsKept(fs.v, old(fs.Now()), fs.Now()) && NoneFreed(old(fs.Held()), fs.Held())
  {
    ghost var w0, cuts0, h0 := fs.Now(), fs.cuts, fs.Held();
    var entry, copied, failed := CopyRoots(fs, source, relaxed, scratch);
    ghost var w1, cuts1 := fs.Now(), fs.cuts;
    if failed {
      if copied != 0 {
        TombstoneCopiedRoots(fs, source, copied);
        PreservedMore(fs.v, w0, w1, fs.Now(), cuts0, cuts1, fs.cuts);
      }
      return ErrNoSpace;
    }
    EmptiedUseless(fs.v, w1, source);
    Erase(fs, source);
    ErasePreserves(fs.v, w1, fs.disk, source, cuts1, fs.cuts);
    PreservedMore(fs.v, w0, w1, fs.Now(), cuts0, cuts1, fs.cuts);
    fs.allocMap := fs.allocMap - {source};
    return Ok;
  }

  /** Its copying loop: up to the end of the records, or to one that cannot be moved. */
  method CopyRoots(fs: Volatile, source: nat, relaxed: bool, scratch: nat)
    returns (entry: nat, copied: nat, failed: bool)
    requires Sound(fs.v, fs.Now()) && ReserveOk(fs.v, fs.open, fs.reserve) && 0 < scratch
    requires DataSector(fs.v, source) && source !in fs.reserve && AllTwins(fs.v, fs.Now(), source)
    requires fs.Backed()
    modifies fs`disk, fs`cuts, fs`reserve, fs`allocMap, fs`allocCursor, fs`nextSerial, fs`index, fs`journal, fs`paths
    ensures fs.Backed()
    ensures copied <= entry
    ensures Copying(fs, old(fs.Now()), old(fs.cuts), old(fs.Held()), source, old(fs.disk)[source].recs, entry)
    ensures !failed ==> entry == |fs.disk[source].recs|
  {
    entry, copied, failed := 0, 0, false;
    var claimed: nat, active := 0, true;
    ghost var w0, recs := fs.Now(), fs.disk[source].recs;
    assert recs[..0] == [];
    while active
      invariant Copying(fs, w0, old(fs.cuts), old(fs.Held()), source, recs, entry) && fs.Backed()
      invariant copied <= entry <= |recs| && !failed && (active ==> Resumable(fs.v, recs, entry, claimed))
      invariant (!active ==> entry == |recs|)
      decreases active, |recs| - entry
    {
      var d: Step;
      d, claimed, active := NextRecord(fs, source, entry, claimed);
      if !d.Found? {
        failed := d.EndInvalid? || d.Corrupt?;
        return;
      }
      if d.r.Live() {
        var moved := CopyLive(fs, source, entry, d.r, relaxed, scratch, w0, old(fs.cuts), old(fs.Held()));
        if !moved {
          failed := true;
          return;
        }
        copied := entry + 1;
      }
      entry := entry + 1;
    }
  }

  /** A live record that is no root, or whose file is open, cannot be moved. */
  method CopyLive(fs: Volatile, source: nat, j: nat, r: Md, relaxed: bool, scratch: nat,
                  ghost w0: World, ghost cuts0: iset<Image>, ghost h0: Hold) returns (moved: bool)
    requires DataSector(fs.v, source) && source < |fs.disk| && ReserveOk(fs.v, w0.open, h0.reserve)
    requires source !in h0.reserve && 0 < scratch
    requires Copying(fs, w0, cuts0, h0, source, fs.disk[source].recs, j) && j < |fs.disk[source].recs|
    requires r == fs.disk[source].recs[j] && r.Live()
    requires fs.Backed()
    modifies fs`disk, fs`cuts, fs`reserve, fs`allocMap, fs`allocCursor, fs`nextSerial, fs`index, fs`journal, fs`paths
    ensures fs.Backed()
    ensures Copying(fs, w0, cuts0, h0, source, old(fs.disk)[source].recs, if moved then j + 1 else j)
  {
    moved := false;
    if r.typ == TYPE_ROOT && !Pinned(fs.open, r.slot) {
      moved := CopyOne(fs, source, j, r, relaxed, scratch, w0, cuts0, h0);
    }
  }

  method CopyOne(fs: Volatile, source: nat, j: nat, r: Md, relaxed: bool, scratch: nat,
                 ghost w0: World, ghost cuts0: iset<Image>, ghost h0: Hold) returns (moved: bool)
    requires DataSector(fs.v, source) && source < |fs.disk| && ReserveOk(fs.v, w0.open, h0.reserve)
    requires source !in h0.reserve && 0 < scratch
    requires Copying(fs, w0, cuts0, h0, source, fs.disk[source].recs, j) && j < |fs.disk[source].recs|
    requires r == fs.disk[source].recs[j]
    requires r.Live() && r.typ == TYPE_ROOT && !Pinned(fs.open, r.slot)
    requires fs.Backed()
    modifies fs`disk, fs`cuts, fs`reserve, fs`allocMap, fs`allocCursor, fs`nextSerial, fs`index, fs`journal, fs`paths
    ensures fs.Backed()
    ensures Copying(fs, w0, cuts0, h0, source, old(fs.disk)[source].recs, if moved then j + 1 else j)
  {
    ghost var w1, cuts1 := fs.Now(), fs.cuts;
    var status := CopyRootRecord(fs, source, j, r, relaxed, scratch);
    moved := status.Ok?;
    PreservedMore(fs.v, w0, w1, fs.Now(), cuts0, cuts1, fs.cuts);
    if moved {
      OneMoreEmptied(fs.v, w1, fs.Now(), source, j);
    } else {
      SameEmptied(fs.v, w1, fs.Now(), source, j);
    }
  }

  lemma SameEmptied(v: Volume, w: World, w': World, p: nat, j: nat)
    requires Sound(v, w) && Sound(v, w') && w'.files == w.files && w'.open == w.open && DataSector(v, p)
    requires w.disk[p].footer.Live? && j < |w.disk[p].recs| && Emptied(w, p, w.disk[p].recs, j)
    requires w.disk[p].recs[j].Live()
    requires LeftSector(w.paths, w'.paths, w.disk[p].recs[j].slot, p)
    ensures Emptied(w', p, w.disk[p].recs, j)
  {
    var recs := w.disk[p].recs;
    assert SaneAt(v, w.disk, p);
    forall k | 0 <= k < j && recs[k].Live()
      ensures !Used(w'.index, w'.paths, recs[k].slot, p)
    {
      assert recs[k].slot != recs[j].slot;
      assert w'.index.Keys == w.index.Keys;
    }
  }
}
