/** After the power cut: the mount, and what can be done with the volume then (fffs_mount in src/fastffs.c). */
module Recovery {
  import opened Nor
  import opened SectorMd
  import opened SectorView
  import opened Files
  import opened Mounted
  import opened Content
  import opened Writer
  import opened Remount
  import Crashes
  import Compact
  import IndexRing
  import Journal
  import Reader

  /** Mounts the flash that a power cut left. All files are there. If every sector is in order, so is the volume, and
      it is ready for writers if and only if the cut left no live root that the index does not know. */
  method MountAgain(v: Volume, g: IndexRing.Geometry, p: Flash, ghost files: map<u16, File>) returns (fs: Volatile)
    requires VolumeOk(v) && g.n == v.index && g.sectors == v.sectors && Boots(v, g, p, files) && AllRooted(files)
    ensures fresh(fs) && fs.v == v && fs.g == g && fs.disk == p.disk && fs.files == files && fs.open == map[]
    ensures fs.Backed() && fs.Counted() && fs.cuts == iset{}
    ensures fs.pend == map[] && fs.ranges == map[] && fs.drafts == map[]
    ensures var after := Journal.Mounted(g, RootsOf(v, p.disk), false, p.ring);
      after.Some? && fs.index == after.value.ram
    ensures Holds(v, fs.disk, fs.index, fs.paths, files)
    ensures fs.Valid() <==> DiskOk(v, p.disk)
    ensures Ready(v, EnvOf(fs)) <==> DiskOk(v, p.disk) && NoStrays(v, fs.Now())
  {
    var after := Journal.Mounted(g, RootsOf(v, p.disk), false, p.ring);
    ghost var paths :| Holds(v, p.disk, after.value.ram, paths, files);
    fs := new Volatile.Mount(v, g, p.disk, after.value, paths, files);
    assert JournalOf(v, g, fs.journal, fs.index) && CountsFiles(fs.committed, fs.files);
    IdleReady(fs);
  }

  /** Where nothing is open, reserved or under way, only sectors and stray roots matter. */
  lemma IdleReady(fs: Volatile)
    requires VolumeOk(fs.v) && Holds(fs.v, fs.disk, fs.index, fs.paths, fs.files) && AllRooted(fs.files)
    requires fs.open == map[] && fs.pend == map[] && fs.ranges == map[] && fs.reserve == [] && !fs.gcMd.active
    requires fs.gcCursor == fs.v.index
    ensures Sound(fs.v, fs.Now()) <==> DiskOk(fs.v, fs.disk)
    ensures Ready(fs.v, EnvOf(fs)) <==> DiskOk(fs.v, fs.disk) && NoStrays(fs.v, fs.Now())
  {
    var e := EnvOf(fs);
    assert InReady(fs.v, e, TheAllocator) && InReady(fs.v, e, TheWriters) && InReady(fs.v, e, TheWalk);
    if DiskOk(fs.v, fs.disk) && NoStrays(fs.v, fs.Now()) {
      forall a
        ensures InReady(fs.v, e, a)
      {
        match a
        case TheFiles =>
        case TheWalk =>
        case TheStrays =>
        case TheAllocator =>
        case TheWriters =>
      }
    }
    if Ready(fs.v, e) {
      assert InReady(fs.v, e, TheFiles) && InReady(fs.v, e, TheStrays);
    }
  }

  /** Reads a file after the power cut, in any way: the answers are those of its bytes. It takes no order in the
      sectors, only that the files are there. */
  method ReadAfterCrash(v: Volume, g: IndexRing.Geometry, p: Flash, slot: u16, calls: seq<Reader.Call>, granule: nat,
                        ghost files: map<u16, File>)
    returns (found: bool, answers: seq<Reader.Answer>)
    requires VolumeOk(v) && Boots(v, g, p, files) && AllRooted(files) && 0 < granule
    ensures found <==> slot in files
    ensures found ==> Rooted(files[slot]) && answers == Reader.AllAnswers(Contents(files[slot]), 0, calls)
  {
    var after := Journal.Mounted(g, RootsOf(v, p.disk), false, p.ring);
    ghost var paths :| Holds(v, p.disk, after.value.ram, paths, files);
    found, answers := slot in after.value.ram, [];
    if found {
      assert Files.Stored(v, p.disk, after.value.ram, paths, slot, files[slot]) && Rooted(files[slot]);
      var disks := seq(|calls| + 1, _ => p.disk);
      answers := Reader.Session(v, disks, slot, after.value.ram[slot], calls, granule, paths[slot], files[slot]);
    }
  }
}
