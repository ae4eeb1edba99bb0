/** The mounted volume: its data sectors, the namespace index, the open files and the walk of the
    collector, with the two flash operations that change it (struct fffs). */
module Mounted {
  import opened Nor
  import opened SectorMd
  import opened SectorView
  import opened Files
  import Content
  import Counters
  import IndexLog
  import IndexRing
  import Journal

  datatype Status = Ok | ErrCorrupt | ErrNoSpace

  /** The stream state of an open writer. */
  datatype Output = Output(dataOff: nat, writeOff: nat, recordOff: nat, needsFooter: bool, cache: Bytes, dataLen: nat,
                           fileOff: nat, size: nat, prefix: nat, oldHead: nat, oldNext: nat)

  /** An open file: readers only pin their slot here. */
  datatype Handle = Handle(writing: bool, slot: u16, head: nat, current: nat, spanHead: nat, out: Output)
  {
    predicate Occupies(p: nat) {
      writing && (head == p || current == p || (spanHead != 0 && spanHead <= p <= current))
    }
  }

  type OpenFiles = map<nat, Handle>

  /** The sectors that a writer has reserved for itself. */
  datatype Range = Range(first: nat, count: nat) {
    predicate Has(p: nat) { first <= p < first + count }
  }

  /** fffs_sector_is_open_for_writing. */
  predicate IsOpen(open: OpenFiles, p: nat) { exists id | id in open :: open[id].Occupies(p) }

  /** fffs_slot_is_pinned. */
  predicate Pinned(open: OpenFiles, slot: u16) { exists id | id in open :: open[id].slot == slot }

  /** The collector's walk over one sector (struct fffs_md_walk): `pos` records are behind it. */
  datatype GcWalk = GcWalk(sector: nat, pos: nat, claimed: nat, liveSeen: bool, rootSeen: bool, contSeen: bool,
                           openSeen: bool, rootCount: nat, liveBytes: nat, active: bool)

  datatype Candidate = Candidate(sector: nat, trapped: nat, roots: nat)

  /** What a writer has written so far. `recs` and `pieces` are the records and the data of the finished
      extents, `flushed` is what is on flash of the current one, and the current span starts at
      position `span` of the path. */
  datatype Draft = Draft(name: Bytes, written: Bytes, recs: seq<Md>, pieces: seq<Bytes>, flushed: Bytes, span: nat)

  /** Everything the specification talks about: the disk, the index, the files with their chains, and
      the extents that each open writer has finished. */
  datatype World = World(disk: Disk, index: Index, paths: Paths, files: map<u16, File>, open: OpenFiles,
                         pend: map<nat, Path>)

  /** What a power cut leaves behind: the data sectors and the namespace. If it came in the middle of an index record,
      (slot, head) was being appended to the journal s, and `after` is the namespace with the record. */
  datatype Image = Image(disk: Disk, index: Index)
                 | Recording(disk: Disk, index: Index, after: Index, g: IndexRing.Geometry, s: Journal.State, slot: u16,
                             head: u16)

  // ---------------------------------------------------------------- invariants

  /** The sector is what its bytes read as. Callers name this where they need it. */
  ghost predicate Real(v: Volume, disk: Disk, p: nat) {
    p < |disk| ==> |disk[p].bytes| == v.size && VolumeOk(v) && disk[p] == View(v, p, disk[p].bytes)
  }

  ghost predicate AllReal(v: Volume, disk: Disk) {
    forall p: nat {:trigger Real(v, disk, p)} :: Real(v, disk, p)
  }

  /** Every record claims some data behind that of the records before it. */
  ghost predicate Claims(recs: seq<Md>) {
    forall n: nat {:trigger recs[..n]} | n <= |recs| :: n <= Claimed(recs[..n])
  }

  ghost predicate OneLive(recs: seq<Md>) {
    forall i, k | 0 <= i < k < |recs| && recs[i].Live() && recs[k].Live() :: recs[i].slot != recs[k].slot
  }

  /** Where the walk ended in erased space, either something was left in the data window or the next
      record's place is free throughout. */
  ghost predicate Tidy(v: Volume, s: Sec) {
    var n := |s.recs|;
    && s.end.EndErased? && |s.bytes| == v.size && Claimed(s.recs) <= Start(v, n)
    && ErasedRange(s.bytes, Claimed(s.recs), Start(v, n))
    ==> ErasedRange(s.bytes, Start(v, n), Cursor(v, n))
  }

  /** In a live sector records keep clear of claimed data, every record claims some more, no slot has two
      live records, the walk never runs into the front of the sector, and what looks free is. */
  ghost predicate Sane(v: Volume, s: Sec) {
    s.footer.Live? ==> Clear(s.recs) && Claims(s.recs) && OneLive(s.recs) && !s.end.Corrupt? && Tidy(v, s)
  }

  /** Callers name this, too, where they need it. */
  ghost predicate SaneAt(v: Volume, disk: Disk, p: nat) {
    DataSector(v, p) && p < |disk| ==> Sane(v, disk[p])
  }

  ghost predicate DiskOk(v: Volume, disk: Disk) {
    && |disk| == v.sectors && AllReal(v, disk)
    && forall p: nat {:trigger SaneAt(v, disk, p)} :: SaneAt(v, disk, p)
  }

  predicate DataSector(v: Volume, p: nat) { v.index <= p < v.sectors }

  /** An extent that an open writer has finished, or is still writing. */
  ghost predicate Pending(w: World, slot: u16, p: nat) {
    exists id | id in w.open && id in w.pend :: w.open[id].writing && w.open[id].slot == slot && p in w.pend[id]
  }

  /** Sector p has an extent of writer `id`. */
  ghost predicate Extends(w: World, id: nat, p: nat) {
    id in w.open && id in w.pend && w.open[id].writing && p in w.pend[id]
  }

  /** Extents of open writers are in sectors that they occupy, or have a live record. */
  ghost predicate PendingOk(v: Volume, w: World) {
    forall id: nat, p: nat | Extends(w, id, p) ::
      p < |w.disk| && DataSector(v, p) && (w.open[id].Occupies(p) || Lookup(w.disk[p], w.open[id].slot).Some?)
  }

  /** The slot's record in this sector must stay. */
  ghost predicate Needed(w: World, slot: u16, p: nat) {
    Used(w.index, w.paths, slot, p) || Pending(w, slot, p)
  }

  /** A root starts with the length of its name, so never with an erased byte. */
  ghost predicate Rooted(f: File) {
    f.pieces != [] && 3 <= |f.pieces[0]| && f.pieces[0][0] != ERASED_BYTE && Content.WellFormed(f)
  }

  ghost predicate AllRooted(files: map<u16, File>) {
    forall slot {:trigger Rooted(files[slot])} | slot in files :: Rooted(files[slot])
  }

  ghost predicate Sound(v: Volume, w: World) {
    && VolumeOk(v) && DiskOk(v, w.disk) && Holds(v, w.disk, w.index, w.paths, w.files) && AllRooted(w.files)
    && PendingOk(v, w)
  }

  /** What the walk knows about the records behind it: as long as it has seen nothing live, none of
      them is needed; as long as it has seen no open file, all live roots of stored files are in use. */
  ghost predicate WalkOk(v: Volume, w: World, g: GcWalk) {
    g.active ==>
      && DataSector(v, g.sector) && g.sector < |w.disk| && w.disk[g.sector].footer.Live?
      && Resumable(v, w.disk[g.sector].recs, g.pos, g.claimed)
      && (!g.liveSeen ==> NoneNeeded(w, g.sector, w.disk[g.sector].recs, g.pos))
      && (!g.openSeen ==> AllInUse(w, g.sector, w.disk[g.sector].recs, g.pos))
  }

  ghost predicate NoneNeeded(w: World, p: nat, recs: seq<Md>, n: nat) {
    forall slot: u16 | Needed(w, slot, p) :: n <= FirstLive(recs, slot)
  }

  ghost predicate AllInUse(w: World, p: nat, recs: seq<Md>, n: nat) {
    forall k | 0 <= k < n && k < |recs| && recs[k].Live() && recs[k].typ == TYPE_ROOT && recs[k].slot in w.index ::
      Used(w.index, w.paths, recs[k].slot, p)
  }

  /** No live root of a slot that the index does not know. */
  ghost predicate NoStrays(v: Volume, w: World) {
    forall p: nat, k: nat | DataSector(v, p) && p < |w.disk| && k < |w.disk[p].recs| && w.disk[p].footer.Live? ::
      w.disk[p].recs[k].Live() && w.disk[p].recs[k].typ == TYPE_ROOT ==> w.disk[p].recs[k].slot in w.index
  }

  // ---------------------------------------------------------------- leftovers

  /** The sector, if it is live, has no uncommitted record of the slot. */
  predicate NoneBegun(s: Sec, slot: u16) {
    s.footer.Live? ==> forall k | 0 <= k < |s.recs| :: !(s.recs[k].state == UNCOMMITTED && s.recs[k].slot == slot)
  }

  /** No live sector has an uncommitted record of the slot. */
  predicate NoBegun(disk: Disk, slot: u16) { forall p: nat | p < |disk| :: NoneBegun(disk[p], slot) }

  /** No sector has got an uncommitted record of a slot that it had none of. */
  ghost predicate BegunKept(disk: Disk, disk': Disk) {
    && |disk'| == |disk|
    && forall slot: u16, p: nat {:trigger NoneBegun(disk'[p], slot)} | p < |disk| && NoneBegun(disk[p], slot) ::
         NoneBegun(disk'[p], slot)
  }

  /** The sector has got no live record of the slot that it did not have. */
  ghost predicate NoneNew(s: Sec, s': Sec, slot: u16) {
    Lookup(s', slot).Some? ==>
      Lookup(s, slot) == Lookup(s', slot) && FirstLive(s.recs, slot) == FirstLive(s'.recs, slot)
  }

  lemma BegunOne(disk: Disk, disk': Disk, p: nat)
    requires p < |disk| == |disk'| && disk' == disk[p := disk'[p]]
    requires disk'[p].footer.Live? ==>
               forall k | 0 <= k < |disk'[p].recs| && disk'[p].recs[k].state == UNCOMMITTED ::
                 disk[p].footer.Live? && disk'[p].recs[k] in disk[p].recs
    ensures BegunKept(disk, disk')
  {
    forall slot: u16, q: nat | q < |disk| && NoneBegun(disk[q], slot)
      ensures NoneBegun(disk'[q], slot)
    {
    }
  }

  /** A walk that has not seen any open file has not come past a live record of this slot. */
  ghost predicate Wary(disk: Disk, g: GcWalk, slot: u16) {
    g.active && !g.openSeen && g.sector < |disk| ==> g.pos <= FirstLive(disk[g.sector].recs, slot)
  }

  lemma WaryKept(v: Volume, w: World, w': World, g: GcWalk, slot: u16)
    requires WalkOk(v, w', g) && Wary(w.disk, g, slot) && |w'.disk| == |w.disk|
    requires g.active && g.sector < |w.disk| ==> NoneNew(w.disk[g.sector], w'.disk[g.sector], slot)
    ensures Wary(w'.disk, g, slot)
  {
  }

  // ---------------------------------------------------------------- what a change must keep

  /** Sectors of open writers are as they were, and every needed record with its data is. */
  ghost predicate Kept(w: World, disk': Disk) {
    && |disk'| == |w.disk|
    && (forall p: nat | p < |w.disk| && IsOpen(w.open, p) :: disk'[p] == w.disk[p])
    && (forall slot: u16, p: nat | p < |w.disk| && Needed(w, slot, p) :: Keeps(w.disk[p], disk'[p], slot))
  }

  lemma KeptTransitive(w: World, disk': Disk, disk'': Disk)
    requires Kept(w, disk') && Kept(w.(disk := disk'), disk'')
    ensures Kept(w, disk'')
  {
    forall slot: u16, p: nat | p < |w.disk| && Needed(w, slot, p)
      ensures Keeps(w.disk[p], disk''[p], slot)
    {
      assert Needed(w.(disk := disk'), slot, p);
      KeepsTransitive(w.disk[p], disk'[p], disk''[p], slot);
    }
  }

  lemma KeptOne(w: World, p: nat, s': Sec)
    requires p < |w.disk| && !IsOpen(w.open, p) && forall slot: u16 | Needed(w, slot, p) :: Keeps(w.disk[p], s', slot)
    ensures Kept(w, w.disk[p := s'])
  {
  }

  /** All files, and all that open writers have, survive such a change. */
  lemma KeptSound(v: Volume, w: World, disk': Disk)
    requires Sound(v, w) && Kept(w, disk') && DiskOk(v, disk')
    ensures Sound(v, w.(disk := disk'))
  {
    var w' := w.(disk := disk');
    forall slot: u16, p: nat | Used(w.index, w.paths, slot, p) && p < |w.disk|
      ensures Keeps(w.disk[p], disk'[p], slot)
    {
      assert Needed(w, slot, p);
    }
    HoldsKept(v, w.disk, disk', w.index, w.paths, w.files);
    forall id: nat, p: nat | Extends(w', id, p)
      ensures p < |disk'| && DataSector(v, p) && (w.open[id].Occupies(p) || Lookup(disk'[p], w.open[id].slot).Some?)
    {
      assert Extends(w, id, p) && Pending(w, w.open[id].slot, p) && Needed(w, w.open[id].slot, p);
    }
  }

  lemma DiskOkOne(v: Volume, disk: Disk, p: nat, s': Sec)
    requires DiskOk(v, disk) && p < |disk| && VolumeOk(v) && |s'.bytes| == v.size && s' == View(v, p, s'.bytes)
    requires Sane(v, s')
    ensures DiskOk(v, disk[p := s'])
  {
    RealOne(v, disk, p, s');
    var disk' := disk[p := s'];
    forall q: nat
      ensures SaneAt(v, disk', q)
    {
      assert SaneAt(v, disk, q);
    }
  }

  lemma RealSize(v: Volume, disk: Disk, p: nat)
    requires AllReal(v, disk) && p < |disk|
    ensures |disk[p].bytes| == v.size
  {
    assert Real(v, disk, p);
  }

  lemma RealOne(v: Volume, disk: Disk, p: nat, s': Sec)
    requires AllReal(v, disk) && p < |disk| && VolumeOk(v) && |s'.bytes| == v.size && s' == View(v, p, s'.bytes)
    ensures AllReal(v, disk[p := s'])
  {
    var disk' := disk[p := s'];
    forall q: nat
      ensures Real(v, disk', q)
    {
      assert Real(v, disk, q);
    }
  }

  /** Sector p has been programmed, and reads as its new bytes say. */
  ghost predicate ProgrammedAt(v: Volume, disk: Disk, disk': Disk, p: nat, at: nat, data: Bytes) {
    && p < |disk| == |disk'| && disk' == disk[p := disk'[p]] && AllReal(v, disk')
    && at + |data| <= |disk[p].bytes| && disk'[p].bytes == Program(disk[p].bytes, at, data)
  }

  // ---------------------------------------------------------------- the compaction reserve

  /** Erased throughout. */
  ghost predicate Wiped(s: Sec) { s.footer.Blank? && AllErased(s.bytes) }

  predicate Distinct(ps: seq<nat>) { forall i, j | 0 <= i < j < |ps| :: ps[i] != ps[j] }

  /** The disk, the allocation map and the compaction reserve. */
  datatype Hold = Hold(disk: Disk, used: set<nat>, reserve: seq<nat>)

  /** Sectors that are still reserved have not been erased, and the map still has those that it had. */
  ghost predicate ReserveKept(h: Hold, h': Hold) {
    && |h.disk| == |h'.disk| && |h'.reserve| <= |h.reserve| && (Distinct(h.reserve) ==> Distinct(h'.reserve))
    && forall p | p in h'.reserve ::
         && p in h.reserve && (p in h.used ==> p in h'.used)
         && (p < |h.disk| && Wiped(h'.disk[p]) ==> Wiped(h.disk[p]))
  }

  /** No sector is erased and unreserved now that was not so before. */
  ghost predicate NoneFreed(h: Hold, h': Hold) {
    && |h.disk| == |h'.disk|
    && forall p: nat {:trigger Wiped(h'.disk[p])} | p < |h.disk| && p !in h'.reserve && Wiped(h'.disk[p]) ::
         p !in h.reserve && Wiped(h.disk[p])
  }

  /** Only sector p changed, and it is not reserved. */
  lemma ReserveElsewhere(h: Hold, h': Hold, p: nat)
    requires p < |h.disk| == |h'.disk| && h'.disk == h.disk[p := h'.disk[p]] && p !in h.reserve
    requires h'.reserve == h.reserve
    requires forall q | q in h.used && q != p :: q in h'.used
    ensures ReserveKept(h, h')
  {
  }

  // ---------------------------------------------------------------- power cuts

  /** These sectors, with this namespace, hold exactly these files. */
  ghost predicate HoldsAt(v: Volume, disk: Disk, index: Index, files: map<u16, File>) {
    exists paths :: Holds(v, disk, index, paths, files)
  }

  /** The image holds exactly these files, whether the record that was being written counts or not. */
  ghost predicate Survives(v: Volume, c: Image, files: map<u16, File>) {
    HoldsAt(v, c.disk, c.index, files) && (c.Recording? ==> Genuine(v, c) && HoldsAt(v, c.disk, c.after, files))
  }

  /** The record that was being written takes it from the one to the other. */
  ghost predicate Crosses(v: Volume, c: Image, files: map<u16, File>, files': map<u16, File>) {
    c.Recording? && Genuine(v, c) && HoldsAt(v, c.disk, c.index, files) && HoldsAt(v, c.disk, c.after, files')
  }

  /** What an image with an unfinished record says about the journal is true. Callers unfold this where they need
      it. */
  ghost predicate Genuine(v: Volume, c: Image)
    requires c.Recording?
  {
    forall s {:trigger GenuineIs(v, c, s)} | s == c.s :: GenuineIs(v, c, s)
  }

  ghost predicate GenuineIs(v: Volume, c: Image, s: Journal.State)
    requires c.Recording?
  {
    && JournalOf(v, c.g, s, c.index) && Journal.Appendable(c.g, c.slot, c.head) && Journal.Typed(c.g, s)
    && c.after == Journal.Append(c.g, s, c.slot, c.head).0.ram
  }

  /** The images of an index record. */
  ghost function RecordImages(c: Image): iset<Image>
    requires c.Recording?
  {
    iset{Image(c.disk, c.index), Image(c.disk, c.after), c}
  }

  /** Every image that was added to the cuts holds these files. */
  ghost predicate CutsSafe(v: Volume, before: iset<Image>, after: iset<Image>, files: map<u16, File>) {
    forall c | c in after && c !in before :: Survives(v, c, files)
  }

  /** Every image that was added to the cuts has this namespace, and holds these files. */
  ghost predicate CutsKept(v: Volume, before: iset<Image>, after: iset<Image>, index: Index, files: map<u16, File>) {
    forall c | c in after && c !in before :: c.index == index && Survives(v, c, files)
  }

  /** Every image added since holds the files before or the files after. */
  ghost predicate CutsEither(v: Volume, before: iset<Image>, after: iset<Image>, files: map<u16, File>,
                             files': map<u16, File>) {
    forall c | c in after && c !in before :: Between(v, c, files, files')
  }

  /** The image holds the files before or the files after, or the record that was being written makes the
      difference. */
  ghost predicate Between(v: Volume, c: Image, files: map<u16, File>, files': map<u16, File>) {
    Survives(v, c, files) || Survives(v, c, files') || Crosses(v, c, files, files')
  }

  /** Images that an interrupted program of one sector can leave. */
  ghost predicate ProgramCut(v: Volume, disk: Disk, index: Index, p: nat, off: nat, data: Bytes, c: Image)
    requires p < |disk| && VolumeOk(v) && |disk[p].bytes| == v.size && off + |data| <= v.size
  {
    && c.Image? && c.index == index && |c.disk| == |disk| && c.disk == disk[p := c.disk[p]]
    && |c.disk[p].bytes| == v.size && Torn(disk[p].bytes, off, data, c.disk[p].bytes)
    && c.disk[p] == View(v, p, c.disk[p].bytes)
  }

  ghost function ProgramCuts(v: Volume, disk: Disk, index: Index, p: nat, off: nat, data: Bytes): iset<Image>
    requires p < |disk| && VolumeOk(v) && |disk[p].bytes| == v.size && off + |data| <= v.size
  {
    iset c: Image | ProgramCut(v, disk, index, p, off, data, c)
  }

  /** Images that an interrupted erase of one sector can leave: the sector can hold anything. */
  ghost predicate EraseCut(disk: Disk, index: Index, p: nat, c: Image)
    requires p < |disk|
  {
    c.Image? && c.index == index && |c.disk| == |disk| && c.disk == disk[p := c.disk[p]]
  }

  ghost function EraseCuts(disk: Disk, index: Index, p: nat): iset<Image>
    requires p < |disk|
  {
    iset c: Image | EraseCut(disk, index, p, c)
  }

  lemma CutSurvives(v: Volume, w: World, p: nat, c: Image)
    requires Holds(v, w.disk, w.index, w.paths, w.files) && p < |w.disk| && EraseCut(w.disk, w.index, p, c)
    requires forall slot: u16 | Used(w.index, w.paths, slot, p) :: Keeps(w.disk[p], c.disk[p], slot)
    ensures Survives(v, c, w.files)
  {
    SectorKept(v, w.disk, p, c.disk[p], w.index, w.paths, w.files);
  }

  // ---------------------------------------------------------------- the object

  class Volatile {
    const v: Volume
    var disk: Disk
    var index: Index
    var open: OpenFiles
    var allocMap: set<nat>
    var allocCursor: nat
    var ranges: map<nat, Range>
    var reserve: seq<nat>
    var gcCursor: nat
    var gcMd: GcWalk
    var candidates: seq<Candidate>
    var nextSerial: nat
    const g: IndexRing.Geometry
    var journal: Journal.State
    /** committed_file_count and committed_data_bytes, with their valid flags. */
    var committed: Counters.Count
    ghost var paths: Paths
    ghost var files: map<u16, File>
    ghost var pend: map<nat, Path>
    ghost var drafts: map<nat, Draft>
    ghost var cuts: iset<Image>

    /** fffs_format and the first mount, on flash that is erased. */
    constructor Format(v: Volume, g: IndexRing.Geometry)
      requires VolumeOk(v) && IndexRing.GeometryOk(g)
      ensures this.v == v && this.g == g && journal == Journal.Formatted(g) && !committed.valid
      ensures |disk| == v.sectors && forall p: nat | p < v.sectors :: disk[p] == View(v, p, Padding(v.size))
      ensures Now() == World(disk, map[], map[], map[], map[], map[]) && ranges == map[] && reserve == []
      ensures drafts == map[]
      ensures !gcMd.active && gcCursor == v.index && cuts == iset{}
    {
      this.v, this.g := v, g;
      disk := seq(v.sectors, p requires 0 <= p => View(v, p, Padding(v.size)));
      index, open, allocMap, allocCursor := map[], map[], {}, v.index;
      ranges, reserve, gcCursor, candidates, nextSerial := map[], [], v.index, [], 1;
      gcMd := GcWalk(0, 0, 0, false, false, false, false, 0, FOOTER_SIZE, false);
      journal, committed := Journal.Formatted(g), Counters.Count(false, 0, 0);
      paths, files, pend, drafts, cuts := map[], map[], map[], map[], iset{};
    }

    /** The rest of fffs_mount, once the journal has been found and replayed: nothing is open or reserved, no
        walk is going on, and the counters are not valid. */
    constructor Mount(v: Volume, g: IndexRing.Geometry, disk: Disk, journal: Journal.State, ghost paths: Paths,
                      ghost files: map<u16, File>)
      ensures this.v == v && this.g == g && this.journal == journal && !committed.valid
      ensures Now() == World(disk, journal.ram, paths, files, map[], map[])
      ensures ranges == map[] && reserve == [] && drafts == map[] && !gcMd.active && gcCursor == v.index
      ensures cuts == iset{}
    {
      this.v, this.g, this.disk, this.journal := v, g, disk, journal;
      index, open, allocMap, allocCursor := journal.ram, map[], {}, v.index;
      ranges, reserve, gcCursor, candidates, nextSerial := map[], [], v.index, [], 1;
      gcMd := GcWalk(0, 0, 0, false, false, false, false, 0, FOOTER_SIZE, false);
      committed := Counters.Count(false, 0, 0);
      this.paths, this.files, pend, drafts, cuts := paths, files, map[], map[], iset{};
    }

    ghost function Now(): World
      reads this
    {
      World(disk, index, paths, files, open, pend)
    }

    ghost function Held(): Hold
      reads this
    {
      Hold(disk, allocMap, reserve)
    }

    /** The journal stands behind the index. */
    ghost predicate Backed()
      reads this
    {
      forall s {:trigger JournalOf(v, g, s, index)} | s == journal :: JournalOf(v, g, s, index)
    }

    /** The counters, if valid, count the stored files. */
    ghost predicate Counted()
      reads this
    {
      forall c {:trigger CountsFiles(c, files)} | c == committed :: CountsFiles(c, files)
    }

    ghost predicate Valid()
      reads this
    {
      Sound(v, Now()) && WalkOk(v, Now(), gcMd) && DataSector(v, gcCursor) && Backed()
    }

    /** fffs_flash_program_aligned inside one sector. */
    method ProgramSector(p: nat, off: nat, data: Bytes)
      requires VolumeOk(v) && p < |disk| && AllReal(v, disk) && |disk[p].bytes| == v.size && off + |data| <= v.size
      modifies this`disk, this`cuts
      ensures ProgrammedAt(v, old(disk), disk, p, off, data)
      ensures cuts == old(cuts) + ProgramCuts(v, old(disk), index, p, off, data)
    {
      ghost var before := disk;
      disk := disk[p := View(v, p, Program(disk[p].bytes, off, data))];
      RealOne(v, before, p, disk[p]);
      cuts := cuts + ProgramCuts(v, before, index, p, off, data);
    }

    /** backend.erase of one sector. */
    method EraseSector(p: nat)
      requires VolumeOk(v) && p < |disk|
      modifies this`disk, this`cuts
      ensures |disk| == |old(disk)| && disk == old(disk)[p := View(v, p, Padding(v.size))]
      ensures cuts == old(cuts) + EraseCuts(old(disk), index, p)
    {
      ghost var before := disk;
      disk := disk[p := View(v, p, Padding(v.size))];
      cuts := cuts + EraseCuts(before, index, p);
    }

    /** What may be appended to the journal: a proper or stored slot, and a data sector or a delete. */
    lemma MayAppend(slot: u16, head: u16)
      requires Backed() && (ProperSlot(slot) || slot in index) && (head == 0 || DataSector(v, head))
      ensures Journal.Appendable(g, slot, head)
    {
      assert JournalOf(v, g, journal, index);
      if slot in index {
        Journal.SlotsAreGood(g, journal, slot);
      }
    }

    /** fffs_fsinfo_note_committed_add. The byte total is a 32-bit word. */
    method NoteAdd(size: nat)
      modifies this`committed
      ensures committed == Counters.Added(old(committed), size)
    {
      if committed.valid {
        committed := Counters.Count(true, committed.files + 1, Counters.Wrapped(committed.bytes + size));
      }
    }

    /** fffs_fsinfo_note_committed_delete: gives up rather than let a counter go below zero. */
    method NoteDelete(size: nat)
      modifies this`committed
      ensures committed == Counters.Subtracted(old(committed), size)
    {
      if committed.valid {
        if committed.files == 0 || committed.bytes < size {
          GiveUpCounters();
        } else {
          committed := Counters.Count(true, committed.files - 1, committed.bytes - size);
        }
      }
    }

    /** fffs_fsinfo_invalidate_committed. */
    method GiveUpCounters()
      modifies this`committed
      ensures committed == old(committed).(valid := false)
    {
      committed := committed.(valid := false);
    }

    /** fffs_append_index_record. The namespace takes the record, or the journal is full. The mount after a cut
        on the way finds it before or after the record (Remount.RecordCrash). */
    method AppendIndex(slot: u16, head: u16) returns (status: Status)
      requires Backed() && Journal.Appendable(g, slot, head)
      modifies this`index, this`journal, this`cuts
      ensures Backed() && JournalGrew(g, old(journal), journal, slot, head, status.Ok?)
      ensures status.Ok? || status == ErrNoSpace
      ensures index == if status.Ok? then IndexLog.Apply(old(index), IndexLog.Record(slot, head)) else old(index)
      ensures var c := Recording(disk, old(index), index, g, old(journal), slot, head);
        Genuine(v, c) && cuts == old(cuts) + RecordImages(c)
    {
      ghost var before := index;
      assert JournalOf(v, g, journal, index);
      Journal.AppendRefinesMap(g, journal, slot, head);
      var (longer, written) := Journal.Append(g, journal, slot, head);
      journal := longer;
      status := ErrNoSpace;
      if written {
        index := IndexLog.Apply(index, IndexLog.Record(slot, head));
        status := Ok;
      }
      assert JournalOf(v, g, journal, index) && GrewTo(g, old(journal), journal, slot, head, written);
      ghost var c := Recording(disk, before, index, g, old(journal), slot, head);
      assert GenuineIs(v, c, old(journal));
      cuts := cuts + RecordImages(c);
    }
  }

  /** A whole journal of this volume, with this namespace. */
  ghost predicate JournalOf(v: Volume, g: IndexRing.Geometry, s: Journal.State, index: Index) {
    g.n == v.index && g.sectors == v.sectors && Journal.Inv(g, s) && s.ram == index
  }

  /** One journal is the other after an append. Callers unfold this where they need it. */
  ghost predicate JournalGrew(g: IndexRing.Geometry, s: Journal.State, s': Journal.State, slot: u16, head: u16,
                              written: bool) {
    forall x {:trigger GrewTo(g, s, x, slot, head, written)} | x == s' :: GrewTo(g, s, x, slot, head, written)
  }

  ghost predicate GrewTo(g: IndexRing.Geometry, s: Journal.State, s': Journal.State, slot: u16, head: u16,
                         written: bool) {
    Journal.Typed(g, s) && (s', written) == Journal.Append(g, s, slot, head)
  }

  /** The size that a file's root states. */
  function RootSize(f: File): nat { if f.sizes == [] then 0 else f.sizes[0] }

  ghost function FileSizes(files: map<u16, File>): Counters.Sizes { map slot | slot in files :: RootSize(files[slot]) }

  ghost predicate CountsFiles(c: Counters.Count, files: map<u16, File>) { Counters.Right(c, FileSizes(files)) }

  /** What the resolver hands out: neither of the two reserved words. */
  predicate ProperSlot(slot: u16) { 0 < slot < 0xffff }
}
