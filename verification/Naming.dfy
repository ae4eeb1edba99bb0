/** Files by name: the names that are read from the roots, and a file stored under a name
    (fffs_open in src/fffs_file.c with fffs_index_resolve in src/fffs_hashtable_index.c). */
module Naming {
  import opened Nor
  import opened SectorMd
  import opened SectorView
  import opened Files
  import opened Mounted
  import opened Content
  import opened Writer
  import opened Remount
  import GcPass
  import NameIndex
  import Opening
  import Storing

  // ---------------------------------------------------------------- names on flash

  function Text(b: Bytes): (t: string)
    ensures |t| == |b|
  {
    seq(|b|, i requires 0 <= i < |b| => (b[i] as int) as char)
  }

  lemma TextInjective(a: Bytes, b: Bytes)
    requires Text(a) == Text(b)
    ensures a == b
  {
    assert |a| == |Text(a)| == |Text(b)| == |b|;
    forall i | 0 <= i < |a|
      ensures a[i] == b[i]
    {
      assert Text(a)[i] == (a[i] as int) as char && Text(b)[i] == (b[i] as int) as char;
      SameByte(a[i], b[i]);
    }
  }

  lemma SameByte(x: bv8, y: bv8)
    requires (x as int) as char == (y as int) as char
    ensures x == y
  {
    ByteBound(x);
    ByteBound(y);
    assert x as int == y as int;
  }

  /** The name that read_root_prefix finds in the root of the slot. */
  function NameAt(v: Volume, disk: Disk, head: u16, slot: u16): string {
    if !RootAt(v, disk, head, slot) then ""
    else
      var r := Lookup(disk[head], slot).value;
      if r.DataEnd() <= |disk[head].bytes| && Prefixed(DataOf(disk[head], r)) then
        Text(NameOf(DataOf(disk[head], r)))
      else
        ""
  }

  function NamesOnFlash(v: Volume, disk: Disk): NameIndex.Names {
    (head: u16, slot: u16) => NameAt(v, disk, head, slot)
  }

  /** The name of a stored file. */
  ghost function FileName(f: File): string
    requires Rooted(f)
  {
    Text(NameOf(f.pieces[0]))
  }

  /** What is read from flash is the name of the file. */
  lemma NameStored(v: Volume, w: World, slot: u16)
    requires Sound(v, w) && slot in w.files
    ensures slot in w.index && Rooted(w.files[slot])
    ensures NameAt(v, w.disk, w.index[slot], slot) == FileName(w.files[slot])
  {
    assert Files.Stored(v, w.disk, w.index, w.paths, slot, w.files[slot]);
    assert Rooted(w.files[slot]);
    var path := w.paths[slot];
    assert Node(v, w.disk, slot, path, 0);
    assert FileOf(v, w.disk, slot, path).pieces[0] == Piece(v, w.disk, slot, path, 0);
  }

  /** What fffs_index_resolve answers for the name, given what is pinned. */
  ghost predicate LeadsTo(hash: NameIndex.Hash, v: Volume, disk: Disk, index: Index, pinned: set<u16>, name: string,
                          r: NameIndex.Resolved) {
    NameIndex.Resolves(index, NamesOnFlash(v, disk), pinned, NameIndex.NormalizeBase(hash(name)), name, r)
  }

  // ---------------------------------------------------------------- one file per name

  ghost predicate InWindow(hash: NameIndex.Hash, name: string, slot: u16) {
    exists d: nat :: d <= NameIndex.MAX_PROBE && slot == NameIndex.Candidate(NameIndex.NormalizeBase(hash(name)), d)
  }

  /** Every file lies in the window of its name, and no two files have the same name. */
  ghost predicate NamesKept(hash: NameIndex.Hash, files: map<u16, File>) {
    && AllRooted(files)
    && (forall s | s in files && Rooted(files[s]) :: InWindow(hash, FileName(files[s]), s))
    && (forall s, t | s in files && t in files && Rooted(files[s]) && Rooted(files[t])
                && FileName(files[s]) == FileName(files[t]) ::
          s == t)
  }

  /** A stored name is found at its slot, and a name that is not stored is not found. */
  lemma Findable(hash: NameIndex.Hash, v: Volume, w: World, pinned: set<u16>, name: string, r: NameIndex.Resolved)
    requires Sound(v, w) && NamesKept(hash, w.files)
    requires LeadsTo(hash, v, w.disk, w.index, pinned, name, r)
    ensures forall s | s in w.files && Rooted(w.files[s]) && FileName(w.files[s]) == name ::
              s in w.index && r == NameIndex.Found(s, w.index[s])
    ensures r.Found? ==> r.slot in w.files && Rooted(w.files[r.slot]) && FileName(w.files[r.slot]) == name
  {
    var base, names := NameIndex.NormalizeBase(hash(name)), NamesOnFlash(v, w.disk);
    if r.Found? {
      NameStored(v, w, r.slot);
    }
    forall s | s in w.files && Rooted(w.files[s]) && FileName(w.files[s]) == name
      ensures s in w.index && r == NameIndex.Found(s, w.index[s])
    {
      NameStored(v, w, s);
      var d: nat :| d <= NameIndex.MAX_PROBE && s == NameIndex.Candidate(base, d);
      assert NameIndex.StoredAt(w.index, names, base, name, d);
    }
  }

  /** The slot that a name resolves to, and the file stored there, keep one file per name. */
  lemma StillNamed(hash: NameIndex.Hash, v: Volume, w: World, pinned: set<u16>, name: Bytes, r: NameIndex.Resolved,
                   f: File)
    requires Sound(v, w) && NamesKept(hash, w.files) && !r.NoSpace? && Rooted(f) && NameOf(f.pieces[0]) == name
    requires LeadsTo(hash, v, w.disk, w.index, pinned, Text(name), r)
    ensures NamesKept(hash, w.files[r.slot := f])
  {
    Findable(hash, v, w, pinned, Text(name), r);
    assert InWindow(hash, Text(name), r.slot);
    OneMore(hash, w.files, r.slot, f);
  }

  lemma OneMore(hash: NameIndex.Hash, files: map<u16, File>, slot: u16, f: File)
    requires NamesKept(hash, files) && Rooted(f) && InWindow(hash, FileName(f), slot)
    requires forall s | s in files && Rooted(files[s]) && FileName(files[s]) == FileName(f) :: s == slot
    ensures NamesKept(hash, files[slot := f])
  {
    var files' := files[slot := f];
    forall s | s in files'
      ensures Rooted(files'[s]) && (s != slot ==> s in files && files'[s] == files[s])
    {
      if s != slot {
        assert Rooted(files[s]);
      }
    }
  }

  // ---------------------------------------------------------------- a file under a name

  /** The slots of open files. */
  function PinnedSlots(open: OpenFiles): set<u16> { set id | id in open :: open[id].slot }

  /** No writer is open under the name, and writers that replace a file do so under its name. */
  ghost predicate NoWriterOf(fs: Volatile, name: Bytes)
    reads fs
  {
    forall a | a in fs.open && fs.open[a].writing ::
      && a in fs.drafts && fs.drafts[a].name != name
      && (fs.open[a].slot in fs.files && Rooted(fs.files[fs.open[a].slot]) ==>
            NameOf(fs.files[fs.open[a].slot].pieces[0]) == fs.drafts[a].name)
  }

  ghost predicate NamedAs(f: File, name: Bytes) { Rooted(f) && NameOf(f.pieces[0]) == name }

  /** The slot that the name resolves to has no leftovers of earlier writers. */
  ghost predicate NoLeftovers(fs: Volatile, hash: NameIndex.Hash, name: Bytes)
    reads fs
  {
    forall r | LeadsTo(hash, fs.v, fs.disk, fs.index, PinnedSlots(fs.open), Text(name), r) && !r.NoSpace? ::
      NoBegun(fs.disk, r.slot)
  }

  /** fffs_open by name, the writes, and fffs_close: afterwards the name leads to the file, whatever was pinned in
      between, every other name leads where it led, and no two files have the same name. */
  method StoreByName(fs: Volatile, id: nat, hash: NameIndex.Hash, name: Bytes, chunks: seq<Bytes>, granule: nat,
                     allowed: Candidate -> bool, scratch: nat)
    returns (status: Status, slot: u16, lost: bool)
    requires Ready(fs.v, EnvOf(fs)) && fs.Backed() && Opening.Unused(fs, id) && NamesKept(hash, fs.files)
    requires NoWriterOf(fs, name) && NoLeftovers(fs, hash, name)
    requires 1 <= |name| <= MAX_NAME && |Join(chunks)| < 0x1_0000_0000
    requires 0 < granule <= RECORD_SIZE + FOOTER_SIZE && 0 < scratch && VolumeOk(fs.v) && GcPass.DataSectors(fs.v) >= 2
    modifies fs
    ensures fs.Backed()
    ensures lost ==>
              status.Ok? && slot in old(fs.files) && Storing.FileGone(fs, old(fs.files), slot, name, Join(chunks))
    ensures !lost ==>
              && NamesKept(hash, fs.files) && CutsEither(fs.v, old(fs.cuts), fs.cuts, old(fs.files), fs.files)
              && (CountsFiles(old(fs.committed), old(fs.files)) ==> CountsFiles(fs.committed, fs.files))
    ensures status.Ok? ==> Opening.Unused(fs, id) && fs.open == old(fs.open)
    ensures status.Ok? && slot in old(fs.files) ==> NamedAs(old(fs.files)[slot], name)
    ensures !status.Ok? ==> fs.files == old(fs.files)
    ensures status.Ok? && !lost ==>
      && Storing.Written(fs.v, old(fs.files), EnvOf(fs), slot, name, Join(chunks)) && slot in fs.index
      && forall pinned: set<u16>, r | LeadsTo(hash, fs.v, fs.disk, fs.index, pinned, Text(name), r) ::
           r == NameIndex.Found(slot, fs.index[slot])
  {
    ghost var w, pins, mid := fs.Now(), PinnedSlots(fs.open), fs.Now();
    assert InReady(fs.v, EnvOf(fs), TheFiles);
    var r := NameIndex.ResolveByProbe(fs.index, NamesOnFlash(fs.v, fs.disk), PinnedSlots(fs.open), hash(Text(name)),
                                      Text(name));
    lost := false;
    if r.NoSpace? {
      return ErrNoSpace, 0, false;
    }
    slot := r.slot;
    SlotFits(fs, hash, name, r);
    OldName(hash, fs.v, w, pins, name, r);
    status, lost, mid := Storing.StoreFile(fs, id, slot, name, chunks, granule, allowed, scratch);
    if status.Ok? && !lost {
      assert InReady(fs.v, EnvOf(fs), TheFiles);
      StillNamed(hash, fs.v, w, pins, name, r, fs.files[slot]);
      NowFound(hash, fs.v, fs.Now(), name, slot);
    }
  }

  lemma SlotFits(fs: Volatile, hash: NameIndex.Hash, name: Bytes, r: NameIndex.Resolved)
    requires Sound(fs.v, fs.Now()) && NamesKept(hash, fs.files) && NoWriterOf(fs, name) && !r.NoSpace?
    requires LeadsTo(hash, fs.v, fs.disk, fs.index, PinnedSlots(fs.open), Text(name), r)
    ensures Opening.NoWriter(fs.open, r.slot) && ProperSlot(r.slot)
  {
    var base := NameIndex.NormalizeBase(hash(Text(name)));
    Findable(hash, fs.v, fs.Now(), PinnedSlots(fs.open), Text(name), r);
    var d: nat :| d <= NameIndex.MAX_PROBE && r.slot == NameIndex.Candidate(base, d) &&
      (r.Free? ==> !NameIndex.Taken(fs.index, PinnedSlots(fs.open), base, d));
    NameIndex.CandidatesDistinct(base, d, d);
    forall a | a in fs.open && fs.open[a].writing
      ensures fs.open[a].slot != r.slot
    {
      assert fs.open[a].slot in PinnedSlots(fs.open);
      if r.Found? && fs.open[a].slot == r.slot {
        TextInjective(NameOf(fs.files[r.slot].pieces[0]), name);
      }
    }
  }

  /** What is in the slot already, if anything, has the name. */
  lemma OldName(hash: NameIndex.Hash, v: Volume, w: World, pinned: set<u16>, name: Bytes, r: NameIndex.Resolved)
    requires Sound(v, w) && NamesKept(hash, w.files) && !r.NoSpace?
    requires LeadsTo(hash, v, w.disk, w.index, pinned, Text(name), r)
    ensures r.slot in w.files ==> NamedAs(w.files[r.slot], name)
  {
    Findable(hash, v, w, pinned, Text(name), r);
    if r.slot in w.files {
      assert Files.Stored(v, w.disk, w.index, w.paths, r.slot, w.files[r.slot]);
      assert r.Found?;
      TextInjective(NameOf(w.files[r.slot].pieces[0]), name);
    }
  }

  lemma NowFound(hash: NameIndex.Hash, v: Volume, w: World, name: Bytes, slot: u16)
    requires Sound(v, w) && NamesKept(hash, w.files) && slot in w.files && Rooted(w.files[slot])
    requires NameOf(w.files[slot].pieces[0]) == name
    ensures slot in w.index
    ensures forall pinned: set<u16>, r | LeadsTo(hash, v, w.disk, w.index, pinned, Text(name), r) ::
              r == NameIndex.Found(slot, w.index[slot])
  {
    NameStored(v, w, slot);
    forall pinned: set<u16>, r | LeadsTo(hash, v, w.disk, w.index, pinned, Text(name), r)
      ensures r == NameIndex.Found(slot, w.index[slot])
    {
      Findable(hash, v, w, pinned, Text(name), r);
    }
  }
}
