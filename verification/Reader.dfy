/** Reading a committed file: the read cache, the walk over extents and the seek (src/fffs_file.c). */
module Reader {
  import opened Nor
  import opened SectorMd
  import opened SectorView
  import opened Files
  import opened Content
  import Mounted

  datatype Sought = Ok | ErrCorrupt | ErrRange
  datatype Whence = FromStart | FromHere | FromEnd

  // ---------------------------------------------------------------- what is on flash

  /** The slot stores this file along this path. */
  ghost predicate FileAt(v: Volume, disk: Disk, slot: u16, path: Path, f: File) {
    && VolumeOk(v) && |disk| == v.sectors && Chain(v, disk, slot, path) && FileOf(v, disk, slot, path) == f
    && WellFormed(f)
  }

  /** The record r of sector s holds this part of the file, `prefix` behind the start of its data. */
  ghost predicate HoldsPart(s: Sec, r: Md, prefix: nat, part: Bytes) {
    && prefix <= r.dataLen && r.DataEnd() <= |s.bytes| && r.dataLen - prefix == |part|
    && s.bytes[r.dataOff + prefix..r.DataEnd()] == part
  }

  /** Extent i as a reader meets it: what it holds, where it is in the file, and where reading goes on. */
  ghost predicate ExtentView(v: Volume, disk: Disk, slot: u16, path: Path, ps: seq<Bytes>, prefix: nat, i: nat) {
    && i < |path| == |ps| && v.index <= path[i] < v.sectors && path[i] < |disk| && Lookup(disk[path[i]], slot).Some?
    && var r := Lookup(disk[path[i]], slot).value;
    && HoldsPart(disk[path[i]], r, if i == 0 then prefix else 0, ps[i])
    && (i > 0 ==> r.size == |Join(ps[..i])| && ps[i] != []) && (r.typ == TYPE_ROOT <==> i == 0)
    && Succ(r, path[i]) == After(path, i + 1) && (i + 1 < |path| ==> path[i + 1] != 0)
    && (forall k: nat | i < k < i + r.span :: k < |path| && path[k] == path[i] + (k - i))
  }

  /** The root's data starts with a prefix of this length. Callers name this where they need it. */
  ghost predicate RootView(disk: Disk, slot: u16, p: nat, prefix: nat) {
    && p < |disk| && Lookup(disk[p], slot).Some?
    && var r := Lookup(disk[p], slot).value;
    && r.DataEnd() <= |disk[p].bytes| && Prefixed(DataOf(disk[p], r)) && PrefixLen(DataOf(disk[p], r)) == prefix
  }

  /** The file as a sequence of parts. */
  ghost predicate FileView(v: Volume, disk: Disk, slot: u16, path: Path, ps: seq<Bytes>, prefix: nat) {
    && path != [] && |path| == |ps| && |path| < v.sectors
    && (forall p: nat {:trigger RootView(disk, slot, p, prefix)} | p == path[0] :: RootView(disk, slot, p, prefix))
    && forall i: nat {:trigger ExtentView(v, disk, slot, path, ps, prefix, i)} | i < |path| ::
         ExtentView(v, disk, slot, path, ps, prefix, i)
  }

  lemma FileIsView(v: Volume, disk: Disk, slot: u16, path: Path, f: File)
    requires FileAt(v, disk, slot, path, f)
    ensures FileView(v, disk, slot, path, Payloads(f), PrefixLen(f.pieces[0]))
  {
    ChainLength(v, disk, slot, path);
    assert Node(v, disk, slot, path, 0);
    assert f.pieces[0] == Piece(v, disk, slot, path, 0);
    assert RootView(disk, slot, path[0], PrefixLen(f.pieces[0]));
    forall i: nat | i < |path|
      ensures ExtentView(v, disk, slot, path, Payloads(f), PrefixLen(f.pieces[0]), i)
    {
      ExtentIsView(v, disk, slot, path, f, i);
    }
  }

  lemma ExtentIsView(v: Volume, disk: Disk, slot: u16, path: Path, f: File, i: nat)
    requires FileAt(v, disk, slot, path, f) && i < |path|
    ensures ExtentView(v, disk, slot, path, Payloads(f), PrefixLen(f.pieces[0]), i)
  {
    assert Node(v, disk, slot, path, i);
    assert i + 1 < |path| ==> Node(v, disk, slot, path, i + 1);
    assert f.pieces[i] == Piece(v, disk, slot, path, i) && f.sizes[i] == RecordOf(v, disk, slot, path, i).size;
    PartHeld(disk[path[i]], RecordOf(v, disk, slot, path, i), if i == 0 then PrefixLen(f.pieces[0]) else 0,
             f.pieces[i]);
  }

  lemma PartHeld(s: Sec, r: Md, prefix: nat, piece: Bytes)
    requires r.DataEnd() <= |s.bytes| && DataOf(s, r) == piece && prefix <= |piece|
    ensures HoldsPart(s, r, prefix, piece[prefix..])
  {
    assert s.bytes[r.dataOff..r.DataEnd()][prefix..] == s.bytes[r.dataOff + prefix..r.DataEnd()];
  }

  // ---------------------------------------------------------------- the handle

  class FileReader {
    const slot: u16
    const head: nat
    const size: nat
    var current: nat
    var dataOff: nat
    var dataLen: nat
    var span: nat
    var next: nat
    var dataPos: nat
    var fileOff: nat
    var pos: nat
    var cache: Bytes
    var cachePos: nat

    /** The cache, if it holds anything, holds bytes of the current extent. */
    ghost predicate CacheOk(part: Bytes)
      reads this
    {
      && |cache| <= CACHE_SIZE
      && (cache != [] ==> cachePos + |cache| <= |part| && cache == part[cachePos..cachePos + |cache|])
    }

    /** The handle is in extent i of the file. */
    ghost predicate In(v: Volume, disk: Disk, path: Path, ps: seq<Bytes>, prefix: nat, i: nat)
      reads this
    {
      && FileView(v, disk, slot, path, ps, prefix) && path[0] == head && i < |path| && current == path[i]
      && current < |disk|
      && Lookup(disk[current], slot).Some?
      && var r, part := Lookup(disk[current], slot).value, ps[i];
      && span == r.span && next == r.next && dataLen == |part| && dataOff == r.dataOff + (if i == 0 then prefix else 0)
      && dataOff + dataLen <= |disk[current].bytes|
      && disk[current].bytes[dataOff..dataOff + dataLen] == part
      && fileOff == |Join(ps[..i])| && size == |Join(ps)| && CacheOk(part)
    }

    /** ... and at a position of it. */
    ghost predicate At(v: Volume, disk: Disk, path: Path, ps: seq<Bytes>, prefix: nat, i: nat)
      reads this
    {
      In(v, disk, path, ps, prefix, i) && dataPos <= dataLen && pos == fileOff + dataPos
    }

    /** Between two calls. */
    ghost predicate Valid(v: Volume, disk: Disk, path: Path, ps: seq<Bytes>, prefix: nat)
      reads this
    {
      exists i: nat :: At(v, disk, path, ps, prefix, i)
    }

    /** Loads the fields of the record in sector p: its payload starts `prefix` behind its data. */
    method Load(disk: Disk, p: nat, prefix: nat, offset: nat)
      requires p < |disk| && Lookup(disk[p], slot).Some? && prefix <= Lookup(disk[p], slot).value.dataLen
      modifies this
      ensures var r := Lookup(disk[p], slot).value;
        && current == p && dataOff == r.dataOff + prefix && dataLen == r.dataLen - prefix && span == r.span
        && next == r.next
        && fileOff == offset && cache == [] && pos == old(pos)
    {
      var r := Lookup(disk[p], slot).value;
      current, dataOff, dataLen, span, next := p, r.dataOff + prefix, r.dataLen - prefix, r.span, r.next;
      fileOff := offset;
      cache := [];
    }

    /** On to the extent behind the current one. */
    method EnterNext(v: Volume, disk: Disk, ghost path: Path, ghost ps: seq<Bytes>, ghost prefix: nat, ghost i: nat)
      returns (ok: bool)
      requires In(v, disk, path, ps, prefix, i) && i + 1 < |path|
      modifies this
      ensures ok && In(v, disk, path, ps, prefix, i + 1) && dataPos == 0 && cache == [] && pos == old(pos)
      ensures dataLen > 0
      ensures fileOff == old(fileOff) + old(dataLen)
    {
      assert ExtentView(v, disk, slot, path, ps, prefix, i) && ExtentView(v, disk, slot, path, ps, prefix, i + 1);
      JoinNext(ps, i);
      var nextSector := if span > 1 then current + 1 else next;
      if nextSector == 0 {
        return false;
      }
      Load(disk, nextSector, 0, fileOff + dataLen);
      dataPos := 0;
      ok := true;
    }

    /** read_cache_has_remaining. */
    predicate CacheHasMore()
      reads this
    {
      cache != [] && cachePos <= dataPos < cachePos + |cache|
    }

    /** The bytes at the position: from the cache, through the cache, or directly. */
    method Fetch(disk: Disk, left: nat, ghost part: Bytes) returns (chunk: Bytes)
      requires 0 < left && dataPos < dataLen && current < |disk| && dataOff + dataLen <= |disk[current].bytes|
      requires CacheOk(part) && dataLen == |part| && disk[current].bytes[dataOff..dataOff + dataLen] == part
      modifies this`cache, this`cachePos
      ensures CacheOk(part) && 0 < |chunk| <= left && dataPos + |chunk| <= dataLen
      ensures chunk == part[dataPos..dataPos + |chunk|]
    {
      var room := dataLen - dataPos;
      var n := if left < room then left else room;
      if CacheHasMore() {
        chunk := FromCache(n, part);
      } else if n < CACHE_SIZE {
        var fill := if room < CACHE_SIZE then room else CACHE_SIZE;
        cache := FlashRead(disk, fill, part);
        cachePos := dataPos;
        chunk := FromCache(if left < fill then left else fill, part);
      } else {
        cache := [];
        chunk := FlashRead(disk, n, part);
      }
    }

    method FromCache(n: nat, ghost part: Bytes) returns (chunk: Bytes)
      requires CacheHasMore() && CacheOk(part) && 0 < n && dataPos + n <= |part|
      ensures 0 < |chunk| <= n && chunk == part[dataPos..dataPos + |chunk|]
    {
      var at := dataPos - cachePos;
      var m := if n > |cache| - at then |cache| - at else n;
      chunk := cache[at..at + m];
      SubSlice(part, cachePos, |cache|, at, m);
    }

    method FlashRead(disk: Disk, n: nat, ghost part: Bytes) returns (bytes: Bytes)
      requires dataPos + n <= dataLen && current < |disk| && dataOff + dataLen <= |disk[current].bytes|
      requires dataLen == |part|
      requires disk[current].bytes[dataOff..dataOff + dataLen] == part
      ensures bytes == part[dataPos..dataPos + n]
    {
      bytes := disk[current].bytes[dataOff + dataPos..dataOff + dataPos + n];
      SubSlice(disk[current].bytes, dataOff, dataLen, dataPos, n);
    }

    /** At the end of an extent reading goes on in the next one. */
    method CrossExtent(v: Volume, disk: Disk, ghost path: Path, ghost ps: seq<Bytes>, ghost prefix: nat, ghost i: nat)
      returns (ok: bool, ghost i': nat)
      requires At(v, disk, path, ps, prefix, i) && pos < size
      modifies this
      ensures ok && At(v, disk, path, ps, prefix, i') && dataPos < dataLen && pos == old(pos)
    {
      i' := i;
      ok := true;
      if dataPos >= dataLen {
        NotLast(v, disk, path, ps, prefix, i);
        ok := EnterNext(v, disk, path, ps, prefix, i);
        i' := i + 1;
      }
    }

    /** One turn of the loop of fffs_read. */
    method ReadTurn(v: Volume, disk: Disk, left: nat, ghost path: Path, ghost ps: seq<Bytes>, ghost prefix: nat,
                    ghost i: nat)
      returns (ok: bool, chunk: Bytes, ghost i': nat)
      requires At(v, disk, path, ps, prefix, i) && 0 < left && pos + left <= size
      modifies this
      ensures ok && At(v, disk, path, ps, prefix, i') && 0 < |chunk| <= left && pos == old(pos) + |chunk|
      ensures old(pos) + |chunk| <= |Join(ps)| && chunk == Join(ps)[old(pos)..old(pos) + |chunk|]
    {
      chunk := [];
      ok, i' := CrossExtent(v, disk, path, ps, prefix, i);
      if !ok {
        return;
      }
      chunk := Fetch(disk, left, ps[i']);
      SliceOfFile(ps, i', dataPos, |chunk|);
      dataPos := dataPos + |chunk|;
      pos := pos + |chunk|;
    }

    /** There is more behind an extent that ends before the file does. */
    lemma NotLast(v: Volume, disk: Disk, path: Path, ps: seq<Bytes>, prefix: nat, i: nat)
      requires In(v, disk, path, ps, prefix, i) && fileOff + dataLen < size
      ensures i + 1 < |path|
    {
      JoinNext(ps, i);
      assert ps[..|ps|] == ps;
    }

    /** fffs_read: the bytes at the position, as many as there are and as were asked for. */
    method Read(v: Volume, disk: Disk, n: nat, ghost path: Path, ghost ps: seq<Bytes>, ghost prefix: nat)
      returns (ok: bool, out: Bytes)
      requires Valid(v, disk, path, ps, prefix)
      modifies this
      ensures Valid(v, disk, path, ps, prefix) && ok
      ensures var want := if n < size - old(pos) then n else size - old(pos);
        && 0 <= want && old(pos) + want <= |Join(ps)| && out == Join(ps)[old(pos)..old(pos) + want]
        && pos == old(pos) + want
    {
      ghost var i: nat :| At(v, disk, path, ps, prefix, i);
      InsideFile(v, disk, path, ps, prefix, i);
      var left := size - pos;
      var want := if n < left then n else left;
      var start := pos;
      out := [];
      while |out| < want
        invariant At(v, disk, path, ps, prefix, i) && |out| <= want && pos == start + |out|
        invariant start + want <= size == |Join(ps)|
        invariant out == Join(ps)[start..start + |out|]
        decreases want - |out|
      {
        var chunk;
        ok, chunk, i := ReadTurn(v, disk, want - |out|, path, ps, prefix, i);
        if !ok {
          return;
        }
        out := out + chunk;
      }
      ok := true;
    }

    // -------------------------------------------------------------- seeking

    /** hunt_current_span: a search by interpolation among the extents of the current span. It finds the
        extent that holds the target if there is one, and leaves the handle alone if not. */
    method Hunt(v: Volume, disk: Disk, target: nat, granule: nat, ghost path: Path, ghost ps: seq<Bytes>,
                ghost prefix: nat, ghost i: nat)
      returns (found: bool, ghost i': nat)
      requires In(v, disk, path, ps, prefix, i) && target <= size && 0 < granule
      modifies this
      ensures found ==> i' < |path| && At(v, disk, path, ps, prefix, i') && pos == target && i < i'
      ensures !found ==> unchanged(this)
      ensures !found && span > 1 && target > fileOff + dataLen ==> NoneCovers(ps, i + 1, i + span, target)
    {
      i' := i;
      if span <= 1 || target <= fileOff + dataLen {
        return false, i;
      }
      var low: nat, high: nat := 1, span - 1;
      var rel := target - fileOff;
      var estimate := MaxFileData(v, granule);
      while low <= high
        invariant 1 <= low <= high + 1 <= span && unchanged(this)
        invariant NoneCovers(ps, i + 1, i + low, target) && NoneCovers(ps, i + high + 1, i + span, target)
        decreases high + 1 - low
      {
        var guess := Clamp(rel / estimate % 0x1_0000, low, high);
        found, low, high := Narrow(v, disk, target, guess, low, high, path, ps, prefix, i);
        if found {
          return true, i + guess;
        }
      }
      found := false;
    }

    /** One turn of the search: the target is found, or the part of the span left to search shrinks. */
    method Narrow(v: Volume, disk: Disk, target: nat, guess: nat, low: nat, high: nat,
                  ghost path: Path, ghost ps: seq<Bytes>, ghost prefix: nat, ghost i: nat)
      returns (found: bool, low': nat, high': nat)
      requires In(v, disk, path, ps, prefix, i) && 1 <= low <= guess <= high < span && target <= size
      requires NoneCovers(ps, i + 1, i + low, target) && NoneCovers(ps, i + high + 1, i + span, target)
      modifies this
      ensures found ==> At(v, disk, path, ps, prefix, i + guess) && pos == target
      ensures !found ==> unchanged(this) && low <= low' <= high' + 1 <= high + 1 && high' - low' < high - low
      ensures !found ==> NoneCovers(ps, i + 1, i + low', target) && NoneCovers(ps, i + high' + 1, i + span, target)
    {
      var verdict := Probe(v, disk, target, guess, path, ps, prefix, i);
      if verdict == 0 {
        return true, low, high;
      } else if verdict < 0 {
        AboveToo(ps, i + guess, target);
        return false, low, guess - 1;
      } else {
        BelowToo(ps, i + guess, target);
        return false, guess + 1, high;
      }
    }

    /** Looks at extent `guess` of the span: before it, in it (and then the handle goes there), behind it. */
    method Probe(v: Volume, disk: Disk, target: nat, guess: nat, ghost path: Path, ghost ps: seq<Bytes>,
                 ghost prefix: nat, ghost i: nat)
      returns (verdict: int)
      requires In(v, disk, path, ps, prefix, i) && 0 < guess < span && target <= size
      modifies this
      ensures i + guess < |ps| && (verdict < 0 <==> target < |Join(ps[..i + guess])|)
      ensures (verdict == 0 <==> Covers(ps, i + guess, target))
      ensures verdict == 0 ==> At(v, disk, path, ps, prefix, i + guess) && pos == target
      ensures verdict != 0 ==> unchanged(this)
    {
      assert ExtentView(v, disk, slot, path, ps, prefix, i) && ExtentView(v, disk, slot, path, ps, prefix, i + guess);
      var sector := current + guess;
      var r := Lookup(disk[sector], slot).value;
      var offset := if r.typ == TYPE_ROOT then 0 else r.size;
      if target < offset {
        return -1;
      }
      if target > offset + r.dataLen {
        return 1;
      }
      Load(disk, sector, 0, offset);
      dataPos := target - offset;
      pos := target;
      return 0;
    }

    /** seek_from_current_position: hunts through the current span, else goes on extent by extent. */
    method SeekForward(v: Volume, disk: Disk, target: nat, granule: nat, ghost path: Path, ghost ps: seq<Bytes>,
                       ghost prefix: nat, ghost i0: nat)
      returns (status: Sought)
      requires In(v, disk, path, ps, prefix, i0) && fileOff <= target <= size && 0 < granule
      modifies this
      ensures status.Ok? && Valid(v, disk, path, ps, prefix) && pos == target
    {
      ghost var i := i0;
      var depth: nat := 0;
      while target > fileOff + dataLen
        invariant In(v, disk, path, ps, prefix, i) && fileOff <= target <= size && depth == i - i0
        decreases |path| - i
      {
        var found;
        ghost var j;
        found, j := Hunt(v, disk, target, granule, path, ps, prefix, i);
        if found {
          return Ok;
        }
        NotLast(v, disk, path, ps, prefix, i);
        depth := depth + 1;
        if depth >= v.sectors {
          return ErrCorrupt;
        }
        var ok := EnterNext(v, disk, path, ps, prefix, i);
        i := i + 1;
      }
      dataPos := target - fileOff;
      pos := target;
      assert At(v, disk, path, ps, prefix, i);
      status := Ok;
    }

    /** reset_read_position_to_root. */
    method Reset(v: Volume, disk: Disk, ghost path: Path, ghost ps: seq<Bytes>, ghost prefix: nat)
      returns (status: Sought)
      requires FileView(v, disk, slot, path, ps, prefix) && path[0] == head && size == |Join(ps)|
      modifies this
      ensures status.Ok? && In(v, disk, path, ps, prefix, 0) && fileOff == 0 && dataPos == 0 && cache == []
      ensures pos == old(pos)
    {
      assert RootView(disk, slot, path[0], prefix) && ExtentView(v, disk, slot, path, ps, prefix, 0);
      var root := DataOf(disk[head], Lookup(disk[head], slot).value);
      if !Prefixed(root) {
        return ErrCorrupt;
      }
      Load(disk, head, PrefixLen(root), 0);
      dataPos := 0;
      assert ps[..0] == [];
      status := Ok;
    }

    /** fffs_seek: to any position of the file, its end included, and nowhere else. */
    method Seek(v: Volume, disk: Disk, offset: int, whence: Whence, granule: nat, ghost path: Path,
                ghost ps: seq<Bytes>, ghost prefix: nat)
      returns (status: Sought)
      requires Valid(v, disk, path, ps, prefix) && 0 < granule
      modifies this
      ensures Valid(v, disk, path, ps, prefix)
      ensures status == SeekStatus(|Join(ps)|, old(pos), offset, whence)
      ensures pos == SeekPos(|Join(ps)|, old(pos), offset, whence)
    {
      ghost var i: nat :| At(v, disk, path, ps, prefix, i);
      var base := match whence case FromStart => 0 case FromHere => pos case FromEnd => size;
      var target := base + offset;
      if target < 0 || target > size {
        return ErrRange;
      }
      if target < fileOff {
        status := Reset(v, disk, path, ps, prefix);
        if !status.Ok? {
          return;
        }
        i := 0;
      }
      status := SeekForward(v, disk, target, granule, path, ps, prefix, i);
    }

    /** fffs_open for reading: the handle starts at the root, with what was read along with the root's
        prefix in its cache. */
    constructor (v: Volume, disk: Disk, slot: u16, head: nat, ghost path: Path, ghost ps: seq<Bytes>, ghost prefix: nat)
      requires FileView(v, disk, slot, path, ps, prefix) && RootIs(disk, slot, head, ps, prefix) && path[0] == head
      ensures Valid(v, disk, path, ps, prefix) && pos == 0 && this.slot == slot && this.head == head
    {
      var r := Lookup(disk[head], slot).value;
      var root := DataOf(disk[head], r);
      var payload := PrefixLen(root);
      this.slot, this.head, size := slot, head, r.size;
      current, span, next := head, r.span, r.next;
      dataOff, dataLen, dataPos, fileOff, pos := r.dataOff + payload, r.dataLen - payload, 0, 0, 0;
      cache, cachePos := Preload(root, payload), 0;
      new;
      assert ExtentView(v, disk, slot, path, ps, prefix, 0);
      assert ps[..0] == [];
      assert At(v, disk, path, ps, prefix, 0);
    }

    /** A reader does not notice changes that keep the records of its file and their data. */
    lemma StillValid(v: Volume, disk: Disk, disk': Disk, path: Path, ps: seq<Bytes>, prefix: nat)
      requires Valid(v, disk, path, ps, prefix) && FileView(v, disk', slot, path, ps, prefix)
      requires KeepsPath(disk, disk', slot, path)
      ensures Valid(v, disk', path, ps, prefix)
    {
      var i: nat :| At(v, disk, path, ps, prefix, i);
      StillAt(v, disk, disk', path, ps, prefix, i);
    }

    lemma StillAt(v: Volume, disk: Disk, disk': Disk, path: Path, ps: seq<Bytes>, prefix: nat, i: nat)
      requires At(v, disk, path, ps, prefix, i) && FileView(v, disk', slot, path, ps, prefix)
      requires KeepsPath(disk, disk', slot, path)
      ensures At(v, disk', path, ps, prefix, i)
    {
      assert ExtentView(v, disk', slot, path, ps, prefix, i);
      assert path[i] in path && Keeps(disk[path[i]], disk'[path[i]], slot);
    }

    lemma InsideFile(v: Volume, disk: Disk, path: Path, ps: seq<Bytes>, prefix: nat, i: nat)
      requires At(v, disk, path, ps, prefix, i)
      ensures pos <= size == |Join(ps)|
    {
      ExtentSlice(ps, i);
    }
  }

  // ---------------------------------------------------------------- what seeks and reads mean

  function SeekTarget(size: nat, pos: nat, offset: int, whence: Whence): int {
    match whence
    case FromStart => offset
    case FromHere => pos + offset
    case FromEnd => size + offset
  }

  function SeekStatus(size: nat, pos: nat, offset: int, whence: Whence): Sought {
    if 0 <= SeekTarget(size, pos, offset, whence) <= size then Ok else ErrRange
  }

  function SeekPos(size: nat, pos: nat, offset: int, whence: Whence): nat {
    if 0 <= SeekTarget(size, pos, offset, whence) <= size then SeekTarget(size, pos, offset, whence) else pos
  }

  /** One call of a reader, and what it answers. */
  datatype Call = CallRead(n: nat) | CallSeek(offset: int, whence: Whence)
  datatype Answer = Got(bytes: Bytes) | Moved(status: Sought)

  function Least(a: nat, b: nat): nat { if a < b then a else b }

  /** What one call answers about plain bytes at a position, and where it leaves the position. */
  function Answers(whole: Bytes, pos: nat, call: Call): (Answer, nat)
    requires pos <= |whole|
    ensures Answers(whole, pos, call).1 <= |whole|
  {
    match call
    case CallRead(n) => var n := Least(n, |whole| - pos); (Got(whole[pos..pos + n]), pos + n)
    case CallSeek(offset, whence) =>
      (Moved(SeekStatus(|whole|, pos, offset, whence)), SeekPos(|whole|, pos, offset, whence))
  }

  function AllAnswers(whole: Bytes, pos: nat, calls: seq<Call>): (answers: seq<Answer>)
    requires pos <= |whole|
    ensures |answers| == |calls|
    decreases |calls|
  {
    if calls == [] then []
    else
      var (answer, pos') := Answers(whole, pos, calls[0]);
      [answer] + AllAnswers(whole, pos', calls[1..])
  }

  /** The file may be read at these states of the flash, one after the other. */
  ghost predicate Readable(disks: seq<Disk>, slot: u16, path: Path) {
    forall k: nat {:trigger StepKeeps(disks, slot, path, k)} | k + 1 < |disks| :: StepKeeps(disks, slot, path, k)
  }

  ghost predicate StepKeeps(disks: seq<Disk>, slot: u16, path: Path, k: nat)
    requires k + 1 < |disks|
  {
    KeepsPath(disks[k], disks[k + 1], slot, path)
  }

  /** The target lies in extent k, or at its end. */
  ghost predicate Covers(ps: seq<Bytes>, k: nat, target: nat) {
    k < |ps| && |Join(ps[..k])| <= target <= |Join(ps[..k])| + |ps[k]|
  }

  /** No extent from lo up to hi holds the target. */
  ghost predicate NoneCovers(ps: seq<Bytes>, lo: nat, hi: nat, target: nat) {
    forall k: nat | lo <= k < hi :: !Covers(ps, k, target)
  }

  lemma {:induction false} OffsetsGrow(ps: seq<Bytes>, j: nat, k: nat)
    requires j <= k <= |ps|
    ensures |Join(ps[..j])| <= |Join(ps[..k])|
    decreases k - j
  {
    if j < k {
      OffsetsGrow(ps, j, k - 1);
      JoinNext(ps, k - 1);
    }
  }

  lemma AboveToo(ps: seq<Bytes>, g: nat, target: nat)
    requires g < |ps| && target < |Join(ps[..g])|
    ensures forall k: nat | g <= k :: !Covers(ps, k, target)
  {
    forall k: nat | g <= k < |ps|
      ensures !Covers(ps, k, target)
    {
      OffsetsGrow(ps, g, k);
    }
  }

  lemma BelowToo(ps: seq<Bytes>, g: nat, target: nat)
    requires g < |ps| && target > |Join(ps[..g])| + |ps[g]|
    ensures forall k: nat | k <= g :: !Covers(ps, k, target)
  {
    forall k: nat | k <= g
      ensures !Covers(ps, k, target)
    {
      JoinNext(ps, k);
      JoinNext(ps, g);
      OffsetsGrow(ps, k + 1, g + 1);
    }
  }

  function Clamp(x: int, lo: int, hi: int): int
    requires lo <= hi
    ensures lo <= Clamp(x, lo, hi) <= hi
  {
    if x < lo then lo else if x > hi then hi else x
  }

  /** fffs_max_file_data_size, but at least 1. */
  function MaxFileData(v: Volume, granule: nat): (n: nat)
    requires 0 < granule
    ensures n > 0
  {
    var raw := v.size - FOOTER_SIZE - RECORD_SIZE;
    var capped := if raw > 0xffff then 0xffff else raw;
    if capped <= 0 || capped - capped % granule == 0 then 1 else capped - capped % granule
  }

  /** A slice of an extent is a slice of the file. */
  lemma SliceOfFile(ps: seq<Bytes>, i: nat, at: nat, n: nat)
    requires i < |ps| && at + n <= |ps[i]|
    ensures var lo := |Join(ps[..i])|; lo + at + n <= |Join(ps)| && Join(ps)[lo + at..lo + at + n] == ps[i][at..at + n]
  {
    ExtentSlice(ps, i);
    var lo := |Join(ps[..i])|;
    SubSlice(Join(ps), lo, |ps[i]|, at, n);
  }

  lemma SubSlice(whole: Bytes, lo: nat, m: nat, at: nat, n: nat)
    requires lo + m <= |whole| && at + n <= m
    ensures whole[lo..lo + m][at..at + n] == whole[lo + at..lo + at + n]
  {
    var a, b := whole[lo..lo + m][at..at + n], whole[lo + at..lo + at + n];
    assert |a| == |b| == n;
    forall k | 0 <= k < |a|
      ensures a[k] == b[k]
    {
      assert a[k] == whole[lo..lo + m][at + k] == whole[lo + (at + k)];
      assert b[k] == whole[(lo + at) + k];
    }
  }

  /** The payload among the bytes that are read with the prefix. */
  function Preload(root: Bytes, payload: nat): (cache: Bytes)
    requires payload <= |root|
    ensures |cache| <= CACHE_SIZE && |cache| <= |root| - payload && cache == root[payload..][..|cache|]
  {
    var nread := if |root| < CACHE_SIZE then |root| else CACHE_SIZE;
    if payload < nread then root[payload..nread] else []
  }

  /** The root of the file, before anything is read. */
  ghost predicate RootIs(disk: Disk, slot: u16, p: nat, ps: seq<Bytes>, prefix: nat) {
    && ps != [] && RootView(disk, slot, p, prefix)
    && var r := Lookup(disk[p], slot).value;
    && r.size == |Join(ps)| && DataOf(disk[p], r)[prefix..] == ps[0]
  }

  lemma AtRoot(v: Volume, disk: Disk, slot: u16, path: Path, f: File)
    requires FileAt(v, disk, slot, path, f)
    ensures RootIs(disk, slot, path[0], Payloads(f), PrefixLen(f.pieces[0]))
  {
    assert Node(v, disk, slot, path, 0);
    assert f.sizes[0] == RecordOf(v, disk, slot, path, 0).size && f.pieces[0] == Piece(v, disk, slot, path, 0);
  }

  /** At the k-th state the file is there. Callers name this where they need it. */
  ghost predicate ViewAt(v: Volume, disks: seq<Disk>, slot: u16, path: Path, ps: seq<Bytes>, prefix: nat, k: nat) {
    k < |disks| && FileView(v, disks[k], slot, path, ps, prefix)
  }

  lemma {:induction false} AlwaysThere(v: Volume, disks: seq<Disk>, slot: u16, path: Path, f: File, k: nat)
    requires disks != [] && FileAt(v, disks[0], slot, path, f) && Readable(disks, slot, path) && k < |disks|
    ensures FileAt(v, disks[k], slot, path, f)
    ensures ViewAt(v, disks, slot, path, Payloads(f), PrefixLen(f.pieces[0]), k)
  {
    if k > 0 {
      AlwaysThere(v, disks, slot, path, f, k - 1);
      assert StepKeeps(disks, slot, path, k - 1);
      ChainKept(v, disks[k - 1], disks[k], slot, path);
    }
    FileIsView(v, disks[k], slot, path, f);
  }

  /** Any calls on a reader, while other work goes on that keeps the file: the answers are those that the
      plain bytes of the file would give. */
  method Session(v: Volume, disks: seq<Disk>, slot: u16, head: nat, calls: seq<Call>, granule: nat, ghost path: Path,
                 ghost f: File)
    returns (answers: seq<Answer>)
    requires |disks| == |calls| + 1 && FileAt(v, disks[0], slot, path, f) && path[0] == head
    requires Readable(disks, slot, path) && 0 < granule
    ensures answers == AllAnswers(Contents(f), 0, calls)
  {
    AtRoot(v, disks[0], slot, path, f);
    forall k: nat | k < |disks|
      ensures ViewAt(v, disks, slot, path, Payloads(f), PrefixLen(f.pieces[0]), k)
    {
      AlwaysThere(v, disks, slot, path, f, k);
    }
    answers := AnswerAll(v, disks, slot, head, calls, granule, path, Payloads(f), PrefixLen(f.pieces[0]));
  }

  method AnswerAll(v: Volume, disks: seq<Disk>, slot: u16, head: nat, calls: seq<Call>, granule: nat, ghost path: Path,
                   ghost ps: seq<Bytes>, ghost prefix: nat)
    returns (answers: seq<Answer>)
    requires |disks| == |calls| + 1 && path != [] && path[0] == head && Readable(disks, slot, path) && 0 < granule
    requires forall k: nat {:trigger ViewAt(v, disks, slot, path, ps, prefix, k)} | k < |disks| ::
               ViewAt(v, disks, slot, path, ps, prefix, k)
    requires RootIs(disks[0], slot, head, ps, prefix)
    ensures answers == AllAnswers(Join(ps), 0, calls)
  {
    assert ViewAt(v, disks, slot, path, ps, prefix, 0);
    var file := new FileReader(v, disks[0], slot, head, path, ps, prefix);
    var k: nat := 0;
    answers := [];
    assert calls[0..] == calls;
    while k < |calls|
      invariant k <= |calls| && file.slot == slot && file.Valid(v, disks[k], path, ps, prefix) && file.pos <= |Join(ps)|
      invariant answers + AllAnswers(Join(ps), file.pos, calls[k..]) == AllAnswers(Join(ps), 0, calls)
    {
      ghost var pos := file.pos;
      var answer := Turn(file, v, disks[k], calls[k], granule, path, ps, prefix);
      AnswersMore(Join(ps), pos, calls, k, answers, answer, file.pos);
      answers := answers + [answer];
      assert StepKeeps(disks, slot, path, k) && ViewAt(v, disks, slot, path, ps, prefix, k + 1);
      file.StillValid(v, disks[k], disks[k + 1], path, ps, prefix);
      k := k + 1;
    }
    assert calls[k..] == [];
  }

  method Turn(file: FileReader, v: Volume, disk: Disk, call: Call, granule: nat, ghost path: Path, ghost ps: seq<Bytes>,
              ghost prefix: nat)
    returns (answer: Answer)
    requires file.Valid(v, disk, path, ps, prefix) && file.pos <= |Join(ps)| && 0 < granule
    modifies file
    ensures file.Valid(v, disk, path, ps, prefix) && file.pos <= |Join(ps)|
    ensures (answer, file.pos) == Answers(Join(ps), old(file.pos), call)
  {
    ghost var i: nat :| file.At(v, disk, path, ps, prefix, i);
    match call
    case CallRead(n) =>
      var ok, bytes := file.Read(v, disk, n, path, ps, prefix);
      answer := Got(bytes);
    case CallSeek(offset, whence) =>
      var status := file.Seek(v, disk, offset, whence, granule, path, ps, prefix);
      answer := Moved(status);
  }

  lemma AnswersMore(whole: Bytes, pos: nat, calls: seq<Call>, k: nat, answers: seq<Answer>, answer: Answer, pos': nat)
    requires pos <= |whole| && k < |calls| && Answers(whole, pos, calls[k]) == (answer, pos')
    requires answers + AllAnswers(whole, pos, calls[k..]) == AllAnswers(whole, 0, calls)
    ensures pos' <= |whole|
    ensures answers + [answer] + AllAnswers(whole, pos', calls[k + 1..]) == AllAnswers(whole, 0, calls)
  {
    assert calls[k..][1..] == calls[k + 1..];
    assert AllAnswers(whole, pos, calls[k..]) == [answer] + AllAnswers(whole, pos', calls[k + 1..]);
  }

  /** After a close the bytes to be read are those that were written. */
  lemma ReadableAfterClose(v: Volume, w: Mounted.World, slot: u16)
    requires Mounted.Sound(v, w) && slot in w.files
    ensures slot in w.paths && FileAt(v, w.disk, slot, w.paths[slot], w.files[slot]) && slot in w.index
    ensures w.paths[slot][0] == w.index[slot]
  {
    assert Stored(v, w.disk, w.index, w.paths, slot, w.files[slot]);
    assert Mounted.Rooted(w.files[slot]);
  }
}
