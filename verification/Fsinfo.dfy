/** The refresh of the committed counters (fffs_fsinfo in src/fastffs.c). */
module Fsinfo {
  import opened Nor
  import opened SectorMd
  import opened SectorView
  import opened Files
  import opened Mounted
  import opened SectorOps
  import opened Remount
  import Counters

  /** The size that the root of the slot states. */
  ghost function StatedSize(v: Volume, disk: Disk, index: Index, slot: u16): nat {
    if slot in index && RootAt(v, disk, index[slot], slot) then Lookup(disk[index[slot]], slot).value.size else 0
  }

  ghost function SizesOf(v: Volume, disk: Disk, index: Index): u16 -> nat {
    (slot: u16) => StatedSize(v, disk, index, slot)
  }

  /** The index iterator gives each slot once. */
  ghost predicate Iterates(index: Index, order: seq<u16>) {
    (forall i, j | 0 <= i < j < |order| :: order[i] != order[j]) && (forall slot :: slot in index <==> slot in order)
  }

  /** Every indexed slot has its root. */
  ghost predicate EachRooted(v: Volume, disk: Disk, index: Index) {
    forall slot | slot in index :: RootAt(v, disk, index[slot], slot)
  }

  lemma StoredSize(v: Volume, w: World, slot: u16)
    requires Holds(v, w.disk, w.index, w.paths, w.files) && slot in w.index
    ensures slot in w.files && RootAt(v, w.disk, w.index[slot], slot)
    ensures StatedSize(v, w.disk, w.index, slot) == RootSize(w.files[slot])
  {
    assert Files.Stored(v, w.disk, w.index, w.paths, slot, w.files[slot]);
    assert Node(v, w.disk, slot, w.paths[slot], 0);
    assert FileOf(v, w.disk, slot, w.paths[slot]).sizes[0] == RecordOf(v, w.disk, slot, w.paths[slot], 0).size;
  }

  /** The total along the iterator is that of the stored files. */
  lemma RefreshedRight(v: Volume, w: World, order: seq<u16>, c: Counters.Count)
    requires Holds(v, w.disk, w.index, w.paths, w.files) && Iterates(w.index, order) && c.files == |order|
    requires c.bytes == Counters.Wrapped(Counters.Along(order, SizesOf(v, w.disk, w.index)))
    ensures CountsFiles(c, w.files)
  {
    var sizes := FileSizes(w.files);
    forall slot | slot in sizes
      ensures StatedSize(v, w.disk, w.index, slot) == sizes[slot] && slot in w.index
    {
      StoredSize(v, w, slot);
    }
    forall slot | slot in w.index
      ensures slot in sizes
    {
      StoredSize(v, w, slot);
    }
    Counters.AlongIsTotal(sizes, order, SizesOf(v, w.disk, w.index));
  }

  ghost predicate RootedSoFar(v: Volume, disk: Disk, index: Index, order: seq<u16>, n: nat) {
    n <= |order| && forall k | 0 <= k < n :: order[k] in index && RootAt(v, disk, index[order[k]], order[k])
  }

  lemma AllAlong(v: Volume, w: World, order: seq<u16>)
    requires Iterates(w.index, order) && RootedSoFar(v, w.disk, w.index, order, |order|)
    ensures EachRooted(v, w.disk, w.index)
  {
  }

  lemma HoldsRooted(v: Volume, w: World)
    requires Holds(v, w.disk, w.index, w.paths, w.files)
    ensures EachRooted(v, w.disk, w.index)
  {
    forall slot | slot in w.index
      ensures RootAt(v, w.disk, w.index[slot], slot)
    {
      StoredSize(v, w, slot);
    }
  }

  lemma OneFurther(order: seq<u16>, i: nat, sizeOf: u16 -> nat, bytes: nat)
    requires i < |order| && bytes == Counters.Wrapped(Counters.Along(order[..i], sizeOf))
    ensures Counters.Wrapped(Counters.Along(order[..i + 1], sizeOf)) == Counters.Wrapped(bytes + sizeOf(order[i]))
  {
    assert order[..i + 1][..i] == order[..i];
    Counters.WrappedSum(Counters.Along(order[..i], sizeOf), sizeOf(order[i]));
  }

  /** fffs_read_file_root_md, as far as the size goes. */
  method ReadSize(fs: Volatile, slot: u16) returns (rooted: bool, size: nat)
    requires VolumeOk(fs.v) && |fs.disk| == fs.v.sectors && AllReal(fs.v, fs.disk) && slot in fs.index
    ensures rooted == RootAt(fs.v, fs.disk, fs.index[slot], slot)
    ensures rooted ==> size == StatedSize(fs.v, fs.disk, fs.index, slot)
  {
    var err, r := ReadMdForSlot(fs, fs.index[slot], slot);
    return err.Ok? && r.typ == TYPE_ROOT, r.size;
  }

  /** One pass over the iterator: number of files and wrapped sum of their sizes, unless a root is missing. */
  method Gather(fs: Volatile, order: seq<u16>) returns (good: bool, files: nat, bytes: nat)
    requires VolumeOk(fs.v) && |fs.disk| == fs.v.sectors && AllReal(fs.v, fs.disk) && Iterates(fs.index, order)
    ensures good <==> EachRooted(fs.v, fs.disk, fs.index)
    ensures good ==>
              files == |order| && bytes == Counters.Wrapped(Counters.Along(order, SizesOf(fs.v, fs.disk, fs.index)))
  {
    ghost var w := fs.Now();
    ghost var sizeOf := SizesOf(fs.v, w.disk, w.index);
    var i := 0;
    files, bytes := 0, 0;
    while i < |order|
      invariant 0 <= i <= |order| && files == i && bytes == Counters.Wrapped(Counters.Along(order[..i], sizeOf))
      invariant RootedSoFar(fs.v, w.disk, w.index, order, i)
    {
      var slot := order[i];
      assert slot in order;
      var rooted, size := ReadSize(fs, slot);
      if !rooted {
        return false, files, bytes;
      }
      OneFurther(order, i, sizeOf, bytes);
      files, bytes, i := files + 1, Counters.Wrapped(bytes + size), i + 1;
    }
    assert order[..i] == order;
    AllAlong(fs.v, w, order);
    good := true;
  }

  /** Succeeds exactly if every indexed slot has its root. Then the counters count the stored files, however wrong
      they were; else they are given up. */
  method Refresh(fs: Volatile, order: seq<u16>) returns (status: Status)
    requires VolumeOk(fs.v) && |fs.disk| == fs.v.sectors && AllReal(fs.v, fs.disk) && Iterates(fs.index, order)
    modifies fs`committed
    ensures status.Ok? <==> EachRooted(fs.v, fs.disk, fs.index)
    ensures fs.committed.valid == status.Ok?
    ensures Holds(fs.v, fs.disk, fs.index, fs.paths, fs.files) ==> status.Ok? && CountsFiles(fs.committed, fs.files)
    ensures !status.Ok? ==> status == ErrCorrupt && fs.committed == old(fs.committed).(valid := false)
  {
    ghost var w := fs.Now();
    ghost var whole := Holds(fs.v, w.disk, w.index, w.paths, w.files);
    if whole {
      HoldsRooted(fs.v, w);
    }
    var good, files, bytes := Gather(fs, order);
    if !good {
      fs.GiveUpCounters();
      return ErrCorrupt;
    }
    fs.committed := Counters.Count(true, files, bytes);
    if whole {
      RefreshedRight(fs.v, w, order, fs.committed);
    }
    return Ok;
  }
}
