/** The journal under the data sectors: what a mount finds after a power cut
    (src/fffs_index_log.c over src/fffs_file_md.c). */
module Remount {
  import opened Nor
  import opened SectorMd
  import opened SectorView
  import opened Files
  import opened Mounted
  import IndexLog
  import IndexRing
  import Journal

  /** Whether fffs_read_file_root_md finds a root of the slot in this sector. */
  predicate RootAt(v: Volume, disk: Disk, head: u16, slot: u16) {
    && DataSector(v, head) && head < |disk| && Lookup(disk[head], slot).Some?
    && Lookup(disk[head], slot).value.typ == TYPE_ROOT
  }

  /** What replay asks about the tail of the journal. */
  function RootsOf(v: Volume, disk: Disk): Journal.Roots { (head: u16, slot: u16) => RootAt(v, disk, head, slot) }

  /** All that there is on flash after a power cut. */
  datatype Flash = Flash(disk: Disk, ring: IndexRing.Ring)

  /** A mount succeeds on it, and finds these files. */
  ghost predicate Boots(v: Volume, g: IndexRing.Geometry, p: Flash, files: map<u16, File>) {
    && IndexRing.GeometryOk(g) && IndexRing.RingShape(g, p.ring)
    && var after := Journal.Mounted(g, RootsOf(v, p.disk), false, p.ring);
    && after.Some? && Journal.Inv(g, after.value) && HoldsAt(v, p.disk, after.value.ram, files)
  }

  /** Every file has its root where the index says. */
  lemma RootsStand(v: Volume, disk: Disk, index: Index, files: map<u16, File>)
    requires HoldsAt(v, disk, index, files)
    ensures Journal.Rooted(RootsOf(v, disk), index)
  {
    var paths :| Holds(v, disk, index, paths, files);
    forall slot | slot in index
      ensures RootAt(v, disk, index[slot], slot)
    {
      assert Files.Stored(v, disk, index, paths, slot, files[slot]);
      assert Node(v, disk, slot, paths[slot], 0);
    }
  }

  /** A cut that spares the journal: a mount finds the journal as it was and the files that the cut left. */
  lemma QuietCrash(v: Volume, g: IndexRing.Geometry, s: Journal.State, disk: Disk, files: map<u16, File>)
    requires JournalOf(v, g, s, s.ram) && Journal.Discoverable(g, s.oldest, s.count) && HoldsAt(v, disk, s.ram, files)
    ensures Boots(v, g, Flash(disk, s.flash), files)
  {
    RootsStand(v, disk, s.ram, files);
    Journal.MountIdentity(g, RootsOf(v, disk), false, s);
  }

  /** The slot has no live root but its head and, perhaps, this one. */
  ghost predicate LoneRoots(v: Volume, disk: Disk, index: Index, slot: u16, head: u16) {
    forall h: u16 | RootAt(v, disk, h, slot) :: h == head || (slot in index && h == index[slot])
  }

  /** An index record that is interrupted anywhere, its rotation included: a mount finds the files from before
      the record or those from after it. */
  lemma RecordCrash(v: Volume, g: IndexRing.Geometry, s: Journal.State, s': Journal.State, disk: Disk, slot: u16,
                    head: u16, written: bool,
                    files: map<u16, File>, files': map<u16, File>, ring: IndexRing.Ring)
    requires JournalOf(v, g, s, s.ram) && Journal.RotationDiscoverable(g, s) && Journal.Appendable(g, slot, head)
    requires JournalGrew(g, s, s', slot, head, written) && LoneRoots(v, disk, s.ram, slot, head)
    requires Journal.AppendCut(g, s, slot, head, ring)
    requires HoldsAt(v, disk, s.ram, files) && HoldsAt(v, disk, s'.ram, files')
    ensures Boots(v, g, Flash(disk, ring), files) || Boots(v, g, Flash(disk, ring), files')
  {
    var root := RootsOf(v, disk);
    assert GrewTo(g, s, s', slot, head, written);
    RootsStand(v, disk, s.ram, files);
    Journal.AppendRefinesMap(g, s, slot, head);
    if s.next >= g.cap && Journal.RotationCut(g, s, ring) {
      Journal.RotationCrash(g, root, false, s, ring);
    } else {
      Journal.AppendCrash(g, root, s, slot, head, ring);
    }
  }

  /** Every flash image that a power cut can leave in an operation with one index record: a cut of the data
      sectors with the journal as it was before or as it is after the record, or any cut of the record itself
      over the data sectors as they were then. */
  ghost predicate CrashImage(g: IndexRing.Geometry, s: Journal.State, s': Journal.State, slot: u16, head: u16, at: Disk,
                             cuts: iset<Image>, cuts': iset<Image>, p: Flash)
    requires Journal.Typed(g, s)
  {
    || (exists c :: c in cuts' && c !in cuts && p.disk == c.disk && QuietRing(s, s', c.index, p.ring))
    || (p.disk == at && Journal.AppendCut(g, s, slot, head, p.ring))
  }

  /** The journal that goes with an index. */
  predicate QuietRing(s: Journal.State, s': Journal.State, index: Index, ring: IndexRing.Ring) {
    (index == s.ram && ring == s.flash) || (index == s'.ram && ring == s'.flash)
  }

  lemma StillDiscoverable(v: Volume, g: IndexRing.Geometry, s: Journal.State, s': Journal.State, slot: u16, head: u16,
                          written: bool)
    requires JournalOf(v, g, s, s.ram) && Journal.RotationDiscoverable(g, s) && Journal.Appendable(g, slot, head)
    requires JournalGrew(g, s, s', slot, head, written)
    ensures JournalOf(v, g, s', s'.ram) && Journal.Discoverable(g, s'.oldest, s'.count)
  {
    assert GrewTo(g, s, s', slot, head, written);
    Journal.AppendRefinesMap(g, s, slot, head);
  }

  /** Whatever the power cut leaves, a mount finds the files from before the operation or those from after it. */
  lemma CrashBoots(v: Volume, g: IndexRing.Geometry, s: Journal.State, s': Journal.State, slot: u16, head: u16,
                   written: bool, at: Disk,
                   cuts: iset<Image>, cuts': iset<Image>, files: map<u16, File>, files': map<u16, File>, p: Flash)
    requires JournalOf(v, g, s, s.ram) && Journal.RotationDiscoverable(g, s) && Journal.Appendable(g, slot, head)
    requires JournalGrew(g, s, s', slot, head, written) && LoneRoots(v, at, s.ram, slot, head)
    requires CutsEither(v, cuts, cuts', files, files') && CrashImage(g, s, s', slot, head, at, cuts, cuts', p)
    requires HoldsAt(v, at, s.ram, files) && HoldsAt(v, at, s'.ram, files')
    ensures Boots(v, g, p, files) || Boots(v, g, p, files')
  {
    StillDiscoverable(v, g, s, s', slot, head, written);
    if p.disk == at && Journal.AppendCut(g, s, slot, head, p.ring) {
      RecordCrash(v, g, s, s', at, slot, head, written, files, files', p.ring);
    } else {
      var c :| c in cuts' && c !in cuts && p.disk == c.disk && QuietRing(s, s', c.index, p.ring);
      QuietBoots(v, g, s, s', c, files, files', p.ring);
    }
  }

  lemma QuietBoots(v: Volume, g: IndexRing.Geometry, s: Journal.State, s': Journal.State, c: Image,
                   files: map<u16, File>,
                   files': map<u16, File>, ring: IndexRing.Ring)
    requires JournalOf(v, g, s, s.ram) && Journal.Discoverable(g, s.oldest, s.count)
    requires JournalOf(v, g, s', s'.ram) && Journal.Discoverable(g, s'.oldest, s'.count)
    requires Between(v, c, files, files') && QuietRing(s, s', c.index, ring)
    ensures Boots(v, g, Flash(c.disk, ring), files) || Boots(v, g, Flash(c.disk, ring), files')
  {
    var t := if c.index == s.ram && ring == s.flash then s else s';
    if HoldsAt(v, c.disk, c.index, files) {
      QuietCrash(v, g, t, c.disk, files);
    } else {
      QuietCrash(v, g, t, c.disk, files');
    }
  }

  // ---------------------------------------------------------------- operations with any number of index records

  /** What a mount may find on flash where a cut has left this image: the data sectors, with a whole journal that
      can be discovered, or, where an index record was being written, with what is left of the journal at any
      point of the record and of the rotation before it. */
  ghost predicate FlashOf(v: Volume, g: IndexRing.Geometry, c: Image, p: Flash) {
    && p.disk == c.disk
    && if c.Image? then exists s :: Underneath(v, g, s, c.index, p.ring)
       else c.g == g && Journal.Typed(g, c.s) && Journal.AppendCut(g, c.s, c.slot, c.head, p.ring)
  }

  ghost predicate Underneath(v: Volume, g: IndexRing.Geometry, s: Journal.State, index: Index, ring: IndexRing.Ring) {
    JournalOf(v, g, s, index) && Journal.Discoverable(g, s.oldest, s.count) && ring == s.flash
  }

  /** What a mount asks of an image in the middle of an index record: discovery can tell the sequence throughout
      the rotation, and the slot has no live root but its head and the new one. */
  ghost predicate Mountable(v: Volume, c: Image) {
    c.Recording? ==>
      c.s.oldest < c.g.n && Journal.RotationDiscoverable(c.g, c.s) && LoneRoots(v, c.disk, c.index, c.slot, c.head)
  }

  /** With at most nine index sectors discovery always can. */
  lemma SmallRing(v: Volume, c: Image)
    requires c.Recording? && Genuine(v, c) && c.g.n <= 9
    ensures Mountable(v, c) <==> LoneRoots(v, c.disk, c.index, c.slot, c.head)
  {
    assert GenuineIs(v, c, c.s);
  }

  /** In an operation with any number of index records, such as a compaction or a write that collects: whatever an
      image leaves on flash, a mount finds the files before or after. */
  lemma ImageBoots(v: Volume, g: IndexRing.Geometry, c: Image, p: Flash, files: map<u16, File>,
                   files': map<u16, File>)
    requires Between(v, c, files, files') && FlashOf(v, g, c, p) && Mountable(v, c)
    ensures Boots(v, g, p, files) || Boots(v, g, p, files')
  {
    if c.Image? {
      var s :| Underneath(v, g, s, c.index, p.ring);
      QuietBoots(v, g, s, s, c, files, files', s.flash);
    } else {
      assert GenuineIs(v, c, c.s);
      var (s', written) := Journal.Append(g, c.s, c.slot, c.head);
      assert GrewTo(g, c.s, s', c.slot, c.head, written);
      var a := if HoldsAt(v, c.disk, c.index, files) then files else files';
      var b := if HoldsAt(v, c.disk, c.after, files') then files' else files;
      RecordCrash(v, g, c.s, s', c.disk, c.slot, c.head, written, a, b, p.ring);
    }
  }

  lemma EveryCutBoots(v: Volume, g: IndexRing.Geometry, cuts: iset<Image>, cuts': iset<Image>, files: map<u16, File>,
                      files': map<u16, File>, c: Image, p: Flash)
    requires CutsEither(v, cuts, cuts', files, files') && c in cuts' && c !in cuts
    requires FlashOf(v, g, c, p) && Mountable(v, c)
    ensures Boots(v, g, p, files) || Boots(v, g, p, files')
  {
    ImageBoots(v, g, c, p, files, files');
  }

  // ---------------------------------------------------------------- operations with one index record

  /** What a remount after a cut depends on. */
  datatype Stage = Stage(index: Index, files: map<u16, File>, journal: Journal.State, cuts: iset<Image>)

  ghost function StageOf(fs: Volatile): Stage
    reads fs
  {
    Stage(fs.index, fs.files, fs.journal, fs.cuts)
  }

  /** From one stage to another with one index record on the way: the data sectors at the moment of the record,
      the journal before and after it, and the images on the way. Callers unfold this where they need it. */
  ghost predicate Passage(v: Volume, g: IndexRing.Geometry, a: Stage, b: Stage, at: Disk, slot: u16, head: nat,
                          written: bool) {
    forall d {:trigger PassageIs(v, g, a, b, d, slot, head, written)} | d == at ::
      PassageIs(v, g, a, b, d, slot, head, written)
  }

  ghost predicate PassageIs(v: Volume, g: IndexRing.Geometry, a: Stage, b: Stage, at: Disk, slot: u16, head: nat,
                            written: bool) {
    && head < 0x1_0000 && JournalGrew(g, a.journal, b.journal, slot, head, written)
    && HoldsAt(v, at, a.index, a.files) && HoldsAt(v, at, b.index, b.files)
    && CutsEither(v, a.cuts, b.cuts, a.files, b.files)
    && forall c | c in b.cuts && c !in a.cuts :: c.index == a.index || c.index == b.index
  }

  /** Quiet work before the record, ... */
  lemma PassageFrom(v: Volume, g: IndexRing.Geometry, a0: Stage, a: Stage, b: Stage, at: Disk, slot: u16, head: nat,
                    written: bool)
    requires Passage(v, g, a, b, at, slot, head, written) && a0 == a.(cuts := a0.cuts)
    requires CutsKept(v, a0.cuts, a.cuts, a.index, a.files)
    ensures Passage(v, g, a0, b, at, slot, head, written)
  {
    assert PassageIs(v, g, a, b, at, slot, head, written);
    assert PassageIs(v, g, a0, b, at, slot, head, written);
  }

  /** ... and quiet work behind it. */
  lemma PassageTo(v: Volume, g: IndexRing.Geometry, a: Stage, b: Stage, b': Stage, at: Disk, slot: u16, head: nat,
                  written: bool)
    requires Passage(v, g, a, b, at, slot, head, written) && b' == b.(cuts := b'.cuts)
    requires CutsKept(v, b.cuts, b'.cuts, b.index, b.files)
    ensures Passage(v, g, a, b', at, slot, head, written)
  {
    assert PassageIs(v, g, a, b, at, slot, head, written);
    assert PassageIs(v, g, a, b', at, slot, head, written);
  }

  /** After a cut anywhere on the passage a mount finds the files from before it or from after it. The slot must
      have no live root but its head and the new one when the record is written, and discovery must be able to
      tell the sequence. */
  lemma PassageBoots(v: Volume, g: IndexRing.Geometry, a: Stage, b: Stage, at: Disk, slot: u16, head: u16,
                     written: bool, p: Flash)
    requires Passage(v, g, a, b, at, slot, head, written) && JournalOf(v, g, a.journal, a.index)
    requires b.journal.ram == b.index
    requires Journal.RotationDiscoverable(g, a.journal) && Journal.Appendable(g, slot, head)
    requires LoneRoots(v, at, a.index, slot, head)
    requires CrashImage(g, a.journal, b.journal, slot, head, at, a.cuts, b.cuts, p)
    ensures Boots(v, g, p, a.files) || Boots(v, g, p, b.files)
  {
    assert PassageIs(v, g, a, b, at, slot, head, written);
    CrashBoots(v, g, a.journal, b.journal, slot, head, written, at, a.cuts, b.cuts, a.files, b.files, p);
  }
}
