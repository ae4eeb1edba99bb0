/** Files as chains of extents: which sectors a reader of a slot visits, what it reads there, and which
    changes of the volume it cannot see (src/fffs_file.c, src/fffs_gc.c). */
module Files {
  import opened Nor
  import opened SectorMd
  import opened SectorView

  type Disk = seq<Sec>

  type Index = map<u16, u16>

  type Path = seq<nat>

  /** What a slot stores: the bytes of each extent, root prefix included, and what its records say about
      sizes: the root has the size of the file, a continuation its offset in it. */
  datatype File = File(pieces: seq<Bytes>, sizes: seq<nat>)

  /** fffs_read_md_for_slot. */
  function RecordFor(disk: Disk, slot: u16, p: nat): Option<Md> {
    if p < |disk| then Lookup(disk[p], slot) else None
  }

  /** Where reading goes on behind a record: inside the span, or at the next extent. */
  function Succ(r: Md, p: nat): nat { if r.span > 1 then p + 1 else r.next }

  /** The sector at position k of the path; 0 behind its end. */
  function After(path: Path, k: nat): nat { if k < |path| then path[k] else 0 }

  /** A span that starts at position i: its sectors are adjacent, each of them is an extent of its own,
      and the head's link leads where the last one's does. */
  ghost predicate SpanAt(disk: Disk, slot: u16, path: Path, i: nat, r: Md) {
    && i + r.span <= |path| && r.next == After(path, i + r.span)
    && forall k | i < k < i + r.span ::
         && path[k] == path[i] + (k - i) && RecordFor(disk, slot, path[k]).Some?
         && RecordFor(disk, slot, path[k]).value.span == 1
  }

  /** Position i of a chain: a root first, continuations behind it, linked to the following one. */
  ghost predicate Node(v: Volume, disk: Disk, slot: u16, path: Path, i: nat) {
    && i < |path| && v.index <= path[i] < v.sectors && path[i] < |disk| && Lookup(disk[path[i]], slot).Some?
    && var r := Lookup(disk[path[i]], slot).value;
    && (r.typ == TYPE_ROOT <==> i == 0)
    && 0 < r.span && Succ(r, path[i]) == After(path, i + 1)
    && r.DataEnd() <= |disk[path[i]].bytes|
    && (r.span > 1 ==> SpanAt(disk, slot, path, i, r))
  }

  ghost predicate Chain(v: Volume, disk: Disk, slot: u16, path: Path) {
    && path != [] && 0 < v.index
    && forall i: nat | i < |path| :: Node(v, disk, slot, path, i)
  }

  ghost function RecordOf(v: Volume, disk: Disk, slot: u16, path: Path, i: nat): Md
    requires Node(v, disk, slot, path, i)
  {
    Lookup(disk[path[i]], slot).value
  }

  ghost function Piece(v: Volume, disk: Disk, slot: u16, path: Path, i: nat): Bytes
    requires Node(v, disk, slot, path, i)
  {
    DataOf(disk[path[i]], RecordOf(v, disk, slot, path, i))
  }

  ghost function FileOf(v: Volume, disk: Disk, slot: u16, path: Path): File
    requires Chain(v, disk, slot, path)
  {
    File(seq(|path|, (i: nat) requires i < |path| =>
           assert Node(v, disk, slot, path, i); Piece(v, disk, slot, path, i)),
         seq(|path|, (i: nat) requires i < |path| =>
           assert Node(v, disk, slot, path, i); RecordOf(v, disk, slot, path, i).size))
  }

  // ---------------------------------------------------------------- shape of a chain

  /** A chain never comes back to a sector: where it goes on is determined by where it is. */
  lemma {:induction false} NoReturn(v: Volume, disk: Disk, slot: u16, path: Path, i: nat, j: nat)
    requires Chain(v, disk, slot, path) && i < j < |path|
    ensures path[i] != path[j]
    decreases |path| - j
  {
    if path[i] == path[j] {
      assert Node(v, disk, slot, path, i) && Node(v, disk, slot, path, j);
      assert Node(v, disk, slot, path, i + 1);
      assert After(path, i + 1) == After(path, j + 1);
      if j + 1 < |path| {
        NoReturn(v, disk, slot, path, i + 1, j + 1);
      }
      assert false;
    }
  }

  /** So it is no longer than there are data sectors. */
  lemma ChainLength(v: Volume, disk: Disk, slot: u16, path: Path)
    requires Chain(v, disk, slot, path)
    ensures |path| <= v.sectors - v.index
  {
    forall i: nat, j: nat | i < j < |path|
      ensures path[i] != path[j]
    {
      NoReturn(v, disk, slot, path, i, j);
    }
    forall i: nat | i < |path|
      ensures v.index <= path[i] < v.sectors
    {
      assert Node(v, disk, slot, path, i);
    }
    assert v.index <= path[0] < v.sectors;
    Pigeonhole(path, v.index, v.sectors);
  }

  lemma {:induction false} Pigeonhole(path: Path, lo: nat, hi: nat)
    requires lo <= hi && forall i: nat, j: nat | i < j < |path| :: path[i] != path[j]
    requires forall i: nat | i < |path| :: lo <= path[i] < hi
    ensures |path| <= hi - lo
    decreases hi - lo
  {
    if path != [] {
      assert lo <= path[0] < hi;
      if k: nat :| k < |path| && path[k] == hi - 1 {
        var rest := path[..k] + path[k + 1..];
        Pigeonhole(rest, lo, hi - 1);
      } else {
        Pigeonhole(path, lo, hi - 1);
      }
    }
  }

  /** The chain from a given sector is the only one. */
  lemma {:induction false} SamePath(v: Volume, disk: Disk, slot: u16, path: Path, path': Path, k: nat)
    requires Chain(v, disk, slot, path) && Chain(v, disk, slot, path') && path[0] == path'[0]
    requires k < |path|
    ensures k < |path'| && path[k] == path'[k]
  {
    if k > 0 {
      SamePath(v, disk, slot, path, path', k - 1);
      assert Node(v, disk, slot, path, k - 1) && Node(v, disk, slot, path', k - 1);
      assert Node(v, disk, slot, path, k);
    }
  }

  lemma ChainUnique(v: Volume, disk: Disk, slot: u16, path: Path, path': Path)
    requires Chain(v, disk, slot, path) && Chain(v, disk, slot, path') && path[0] == path'[0]
    ensures path == path'
  {
    forall k: nat | k < |path|
      ensures k < |path'| && path[k] == path'[k]
    {
      SamePath(v, disk, slot, path, path', k);
    }
    SamePath(v, disk, slot, path, path', |path| - 1);
    SamePath(v, disk, slot, path', path, |path'| - 1);
  }

  // ---------------------------------------------------------------- what a reader cannot see

  ghost predicate KeepsPath(disk: Disk, disk': Disk, slot: u16, path: Path) {
    |disk| == |disk'| && forall p | p in path && p < |disk| :: Keeps(disk[p], disk'[p], slot)
  }

  lemma NodeKept(v: Volume, disk: Disk, disk': Disk, slot: u16, path: Path, i: nat)
    requires Chain(v, disk, slot, path) && KeepsPath(disk, disk', slot, path) && i < |path|
    ensures Node(v, disk, slot, path, i) && Node(v, disk', slot, path, i)
    ensures RecordOf(v, disk', slot, path, i) == RecordOf(v, disk, slot, path, i)
    ensures Piece(v, disk', slot, path, i) == Piece(v, disk, slot, path, i)
  {
    assert Node(v, disk, slot, path, i) && path[i] in path;
    assert Keeps(disk[path[i]], disk'[path[i]], slot);
    var r := RecordOf(v, disk, slot, path, i);
    if r.span > 1 {
      forall k | i < k < i + r.span
        ensures path[k] == path[i] + (k - i)
        ensures RecordFor(disk', slot, path[k]).Some? && RecordFor(disk', slot, path[k]).value.span == 1
      {
        assert path[k] in path && Node(v, disk, slot, path, k);
        assert Keeps(disk[path[k]], disk'[path[k]], slot);
      }
    }
  }

  /** A chain whose records and their data are kept is the same chain and the same file. */
  lemma ChainKept(v: Volume, disk: Disk, disk': Disk, slot: u16, path: Path)
    requires Chain(v, disk, slot, path) && KeepsPath(disk, disk', slot, path)
    ensures Chain(v, disk', slot, path)
    ensures FileOf(v, disk', slot, path) == FileOf(v, disk, slot, path)
  {
    forall i: nat | i < |path|
      ensures Node(v, disk', slot, path, i)
    {
      NodeKept(v, disk, disk', slot, path, i);
    }
    var f, f' := FileOf(v, disk, slot, path), FileOf(v, disk', slot, path);
    forall i: nat | i < |path|
      ensures f'.pieces[i] == f.pieces[i] && f'.sizes[i] == f.sizes[i]
    {
      NodeKept(v, disk, disk', slot, path, i);
    }
    assert f'.pieces == f.pieces && f'.sizes == f.sizes;
  }

  /** The record that the slot finds, and room for its data, are the same. */
  ghost predicate SameRecord(s: Sec, s': Sec, slot: u16) {
    Lookup(s', slot) == Lookup(s, slot) && |s.bytes| <= |s'.bytes|
  }

  /** The same records are the same chain. */
  lemma ChainSame(v: Volume, disk: Disk, disk': Disk, slot: u16, path: Path)
    requires Chain(v, disk, slot, path) && |disk'| == |disk|
    requires forall p | p in path && p < |disk| :: SameRecord(disk[p], disk'[p], slot)
    ensures Chain(v, disk', slot, path)
  {
    forall i: nat | i < |path|
      ensures Node(v, disk', slot, path, i)
    {
      assert Node(v, disk, slot, path, i) && path[i] in path && SameRecord(disk[path[i]], disk'[path[i]], slot);
      var r := RecordOf(v, disk, slot, path, i);
      if r.span > 1 {
        forall k | i < k < i + r.span
          ensures RecordFor(disk', slot, path[k]) == RecordFor(disk, slot, path[k])
        {
          assert Node(v, disk, slot, path, k) && path[k] in path && SameRecord(disk[path[k]], disk'[path[k]], slot);
        }
      }
    }
  }

  // ---------------------------------------------------------------- the whole volume

  type Paths = map<u16, Path>

  ghost predicate Stored(v: Volume, disk: Disk, index: Index, paths: Paths, slot: u16, f: File) {
    && slot in index && slot in paths && Chain(v, disk, slot, paths[slot]) && paths[slot][0] == index[slot]
    && FileOf(v, disk, slot, paths[slot]) == f
  }

  /** The volume stores exactly these files. */
  ghost predicate Holds(v: Volume, disk: Disk, index: Index, paths: Paths, files: map<u16, File>) {
    && |disk| == v.sectors && index.Keys == files.Keys
    && forall slot {:trigger Stored(v, disk, index, paths, slot, files[slot])} | slot in files ::
         Stored(v, disk, index, paths, slot, files[slot])
  }

  /** A sector that a stored file uses. */
  ghost predicate Used(index: Index, paths: Paths, slot: u16, p: nat) {
    slot in index && slot in paths && p in paths[slot]
  }

  ghost predicate KeepsUsed(disk: Disk, disk': Disk, index: Index, paths: Paths) {
    && |disk| == |disk'|
    && forall slot: u16, p: nat | Used(index, paths, slot, p) && p < |disk| :: Keeps(disk[p], disk'[p], slot)
  }

  lemma HoldsKept(v: Volume, disk: Disk, disk': Disk, index: Index, paths: Paths, files: map<u16, File>)
    requires Holds(v, disk, index, paths, files) && KeepsUsed(disk, disk', index, paths)
    ensures Holds(v, disk', index, paths, files)
  {
    forall slot | slot in files
      ensures Stored(v, disk', index, paths, slot, files[slot])
    {
      assert Stored(v, disk, index, paths, slot, files[slot]);
      forall p | p in paths[slot] && p < |disk|
        ensures Keeps(disk[p], disk'[p], slot)
      {
        assert Used(index, paths, slot, p);
      }
      ChainKept(v, disk, disk', slot, paths[slot]);
    }
  }

  /** One sector changed, and no file that uses it can see that. */
  lemma SectorKept(v: Volume, disk: Disk, p: nat, s': Sec, index: Index, paths: Paths, files: map<u16, File>)
    requires Holds(v, disk, index, paths, files) && p < |disk|
    requires forall slot | Used(index, paths, slot, p) :: Keeps(disk[p], s', slot)
    ensures Holds(v, disk[p := s'], index, paths, files)
  {
    forall slot: u16, q: nat | Used(index, paths, slot, q) && q < |disk|
      ensures Keeps(disk[q], disk[p := s'][q], slot)
    {
    }
    HoldsKept(v, disk, disk[p := s'], index, paths, files);
  }

  /** A file was stored, or replaced, or moved. */
  lemma HoldsSet(v: Volume, disk: Disk, index: Index, paths: Paths, files: map<u16, File>, slot: u16, path: Path)
    requires Holds(v, disk, index, paths, files) && Chain(v, disk, slot, path)
    requires path[0] < 0x1_0000
    ensures Holds(v, disk, index[slot := path[0]], paths[slot := path], files[slot := FileOf(v, disk, slot, path)])
  {
    var files' := files[slot := FileOf(v, disk, slot, path)];
    forall s | s in files'
      ensures Stored(v, disk, index[slot := path[0]], paths[slot := path], s, files'[s])
    {
      if s != slot {
        assert Stored(v, disk, index, paths, s, files[s]);
      }
    }
  }

  lemma HoldsRemove(v: Volume, disk: Disk, index: Index, paths: Paths, files: map<u16, File>, slot: u16)
    requires Holds(v, disk, index, paths, files)
    ensures Holds(v, disk, index - {slot}, paths, files - {slot})
  {
    forall s | s in files - {slot}
      ensures Stored(v, disk, index - {slot}, paths, s, files[s])
    {
      assert Stored(v, disk, index, paths, s, files[s]);
    }
  }
}
