/** Live roots that the index does not know, and what compaction makes of them (gc_copy_root_record in
    src/fffs_gc.c). */
module Strays {
  import opened Nor
  import opened SectorMd
  import opened SectorView
  import opened Files
  import opened Mounted
  import opened Extents
  import opened Compact

  /** Compaction copies every live root of a sector and indexes the copy. The slot has the root's file afterwards.
      So all files are as before if and only if that is the file that the slot had: a file that was deleted, or whose
      close had failed, comes back, and an older version that was left replaces the newer one. */
  lemma CopyExact(v: Volume, w: World, disk': Disk, src: nat, dest: u16, slot: u16, r: Md, r': Md, path: Path)
    requires Holds(v, w.disk, w.index, w.paths, w.files) && Chain(v, w.disk, slot, path) && path[0] == src
    requires RootCopied(v, w.disk, disk', src, dest, slot, r, r') && Quiet(w.disk[dest], disk'[dest])
    ensures var c, f := Image(disk', w.index[slot := dest]), FileOf(v, w.disk, slot, path);
      && Survives(v, c, w.files[slot := f])
      && (Survives(v, c, w.files) <==> slot in w.index && w.files[slot] == f)
  {
    var c, f := Image(disk', w.index[slot := dest]), FileOf(v, w.disk, slot, path);
    HeadMoves(v, w.disk, disk', src, dest, slot, r, r', path);
    SectorKept(v, w.disk, dest, disk'[dest], w.index, w.paths, w.files);
    HoldsSet(v, disk', w.index, w.paths, w.files, slot, Moved(path, dest));
    if slot in w.index && w.files[slot] == f {
      assert w.files[slot := f] == w.files;
    }
    if Survives(v, c, w.files) {
      var paths :| Holds(v, disk', c.index, paths, w.files);
      assert Files.Stored(v, disk', c.index, paths, slot, w.files[slot]);
      ChainUnique(v, disk', slot, paths[slot], Moved(path, dest));
    }
  }
}
