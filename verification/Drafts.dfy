/** A file in the making: the extents an open writer has finished, the window it is filling, and how
    they become a chain (src/fffs_file.c). */
module Drafts {
  import opened Nor
  import opened SectorMd
  import opened SectorView
  import opened Files
  import opened Mounted
  import opened Extents
  import opened Finish
  import opened Content

  const NO_LINK: u16 := 0xffff
  const NO_SIZE: nat := 0xffff_ffff

  // ---------------------------------------------------------------- extents on flash

  /** The root stays uncommitted until the file is closed, and so does the head of the current span. */
  predicate Uncommitted(d: Draft, i: nat) { i == 0 || i == d.span }

  /** Finished extent i, in sector p. */
  ghost predicate ExtentOk(v: Volume, disk: Disk, slot: u16, p: nat, d: Draft, i: nat) {
    && i < |d.recs| == |d.pieces| && p < |disk| && DataSector(v, p)
    && var r, s := d.recs[i], disk[p];
    && r.slot == slot && (r.typ == if i == 0 then TYPE_ROOT else TYPE_CONT)
    && r.DataEnd() <= |s.bytes| && DataOf(s, r) == d.pieces[i]
    && (if Uncommitted(d, i) then
          Begun(s, r) && NoLeftover(s, slot) && Lookup(s, slot).None?
        else
          Lookup(s, slot) == Some(r))
  }

  ghost predicate ExtentsOk(v: Volume, disk: Disk, slot: u16, pend: Path, d: Draft) {
    && |pend| == |d.recs| == |d.pieces|
    && forall i: nat | i < |pend| :: ExtentOk(v, disk, slot, pend[i], d, i)
  }

  /** Sector p has no extent whose record is still to be finished. */
  predicate Resting(pend: Path, d: Draft, p: nat) {
    forall i: nat | i < |pend| && Uncommitted(d, i) :: pend[i] != p
  }

  /** The slot has no uncommitted records but those of the draft. */
  ghost predicate RestOk(disk: Disk, slot: u16, pend: Path, d: Draft) {
    forall p: nat {:trigger NoneBegun(disk[p], slot)} | p < |disk| && Resting(pend, d, p) :: NoneBegun(disk[p], slot)
  }

  lemma RestKept(disk: Disk, disk': Disk, slot: u16, pend: Path, d: Draft, d': Draft)
    requires RestOk(disk, slot, pend, d) && |disk'| == |disk| && d'.span == d.span
    requires forall p: nat | p < |disk| && NoneBegun(disk[p], slot) :: NoneBegun(disk'[p], slot)
    ensures RestOk(disk', slot, pend, d')
  {
    forall p: nat | p < |disk'| && Resting(pend, d', p)
      ensures NoneBegun(disk'[p], slot)
    {
      assert Resting(pend, d, p) && NoneBegun(disk[p], slot);
    }
  }

  // ---------------------------------------------------------------- links

  /** Record i of a path links as a chain wants it: to the next sector, and past its span. */
  ghost predicate Linked(path: Path, recs: seq<Md>, i: nat, hi: nat) {
    && i < |recs| && i + 1 < |path| && i < hi <= |recs| && hi < |path|
    && var r := recs[i];
    && 0 < r.span && Succ(r, path[i]) == path[i + 1]
    && (r.span > 1 ==>
          && i + r.span <= hi && r.next == path[i + r.span]
          && forall k | i < k < i + r.span :: path[k] == path[i] + (k - i) && recs[k].span == 1)
  }

  /** Link of record i. Before the current span everything is linked, the head of the current span is
      not, and inside it each record links to the next. */
  ghost predicate LinkOk(path: Path, d: Draft, i: nat) {
    && i < |d.recs| && i + 1 < |path| && d.span <= |d.recs|
    && var r := d.recs[i];
    && (i == 0 ==> r.size == NO_SIZE)
    && (if i < d.span then Linked(path, d.recs, i, d.span)
        else if i == d.span then r.next == NO_LINK && r.span == NO_LINK
        else r.span == 1 && r.next == path[i + 1])
  }

  /** `path` is the finished extents and then the one being written, or 0 when the file is complete. */
  ghost predicate LinksOk(path: Path, d: Draft) {
    && |path| == |d.recs| + 1 && d.span <= |d.recs|
    && (forall i: nat | i < |d.recs| :: LinkOk(path, d, i))
    && (forall k | d.span <= k < |d.recs| :: path[k] == path[d.span] + (k - d.span))
  }

  /** One more extent, unlinked as the head of a span or linked inside one. */
  lemma LinksMore(path: Path, d: Draft, r: Md, piece: Bytes, next: nat)
    requires LinksOk(path, d) && (d.span < |d.recs| ==> path[|d.recs|] == path[d.span] + (|d.recs| - d.span))
    requires if d.span == |d.recs| then r.next == NO_LINK && r.span == NO_LINK else r.span == 1 && r.next == next
    requires d.recs == [] ==> r.size == NO_SIZE
    ensures LinksOk(path + [next], d.(recs := d.recs + [r], pieces := d.pieces + [piece]))
  {
    var path', d' := path + [next], d.(recs := d.recs + [r], pieces := d.pieces + [piece]);
    forall i: nat | i < |d'.recs|
      ensures LinkOk(path', d', i)
    {
      if i < |d.recs| {
        assert LinkOk(path, d, i);
        if i < d.span {
          LinkedMore(path, d.recs, i, d.span, path', d'.recs);
        }
      }
    }
  }

  lemma LinkedMore(path: Path, recs: seq<Md>, i: nat, hi: nat, path': Path, recs': seq<Md>)
    requires Linked(path, recs, i, hi) && path <= path' && recs[..hi] <= recs' && hi < |path'|
    ensures Linked(path', recs', i, hi)
  {
    assert forall k | 0 <= k < hi :: recs'[k] == recs[..hi][k] == recs[k];
  }

  /** The head of the current span gets its link; the next span starts behind it. */
  lemma SpanLinks(path: Path, d: Draft, r: Md)
    requires LinksOk(path, d) && d.span < |d.recs| && (d.span == 0 ==> r.size == NO_SIZE)
    requires r.next == path[|d.recs|] && r.span == |d.recs| - d.span
    ensures LinksOk(path, d.(recs := d.recs[d.span := r], span := |d.recs|))
  {
    var d' := d.(recs := d.recs[d.span := r], span := |d.recs|);
    forall i: nat | i < |d'.recs|
      ensures LinkOk(path, d', i)
    {
      SpanLink(path, d, r, i);
    }
  }

  lemma SpanLink(path: Path, d: Draft, r: Md, i: nat)
    requires LinksOk(path, d) && d.span < |d.recs| && i < |d.recs| && (d.span == 0 ==> r.size == NO_SIZE)
    requires r.next == path[|d.recs|] && r.span == |d.recs| - d.span
    ensures LinkOk(path, d.(recs := d.recs[d.span := r], span := |d.recs|), i)
  {
    var recs' := d.recs[d.span := r];
    assert LinkOk(path, d, i);
    if i < d.span {
      assert recs'[..d.span] == d.recs[..d.span];
      LinkedMore(path, d.recs, i, d.span, path, recs');
      LinkedWider(path, recs', i, d.span, |recs'|);
    } else if i == d.span {
      forall k | i < k < i + r.span
        ensures path[k] == path[i] + (k - i) && recs'[k].span == 1
      {
        assert LinkOk(path, d, k);
      }
    } else {
      assert path[i] == path[d.span] + (i - d.span);
    }
  }

  lemma LinkedWider(path: Path, recs: seq<Md>, i: nat, hi: nat, hi': nat)
    requires Linked(path, recs, i, hi) && hi <= hi' <= |recs| && hi' < |path|
    ensures Linked(path, recs, i, hi')
  {
  }

  // ---------------------------------------------------------------- the finished chain

  ghost predicate AllLinked(path: Path, recs: seq<Md>) {
    |path| == |recs| + 1 && forall i: nat | i < |recs| :: Linked(path, recs, i, |recs|)
  }

  lemma LinksDone(path: Path, d: Draft)
    requires LinksOk(path, d) && d.span == |d.recs|
    ensures AllLinked(path, d.recs)
  {
    forall i: nat | i < |d.recs|
      ensures Linked(path, d.recs, i, |d.recs|)
    {
      assert LinkOk(path, d, i);
    }
  }

  /** State and size do not matter for the links. */
  lemma RootLinks(path: Path, recs: seq<Md>, r: Md)
    requires AllLinked(path, recs) && recs != [] && r.next == recs[0].next && r.span == recs[0].span
    ensures AllLinked(path, recs[0 := r])
  {
    var recs' := recs[0 := r];
    forall i: nat | i < |recs'|
      ensures Linked(path, recs', i, |recs'|)
    {
      assert Linked(path, recs, i, |recs|);
    }
  }

  /** Extent i is live in its sector. */
  ghost predicate LiveExtent(v: Volume, disk: Disk, slot: u16, p: nat, r: Md, piece: Bytes, i: nat) {
    && p < |disk| && DataSector(v, p) && Lookup(disk[p], slot) == Some(r)
    && (r.typ == if i == 0 then TYPE_ROOT else TYPE_CONT)
    && r.DataEnd() <= |disk[p].bytes| && DataOf(disk[p], r) == piece
  }

  ghost predicate AllLive(v: Volume, disk: Disk, slot: u16, pend: Path, recs: seq<Md>, pieces: seq<Bytes>) {
    && |pend| == |recs| == |pieces|
    && forall i: nat | i < |pend| :: LiveExtent(v, disk, slot, pend[i], recs[i], pieces[i], i)
  }

  function SizesOf(recs: seq<Md>): (sizes: seq<nat>)
    ensures |sizes| == |recs| && forall i | 0 <= i < |recs| :: sizes[i] == recs[i].size
  {
    seq(|recs|, i requires 0 <= i < |recs| => recs[i].size)
  }

  /** Live and linked extents are a chain, and the file it stores is what they hold. */
  lemma ChainBuilt(v: Volume, disk: Disk, slot: u16, pend: Path, recs: seq<Md>, pieces: seq<Bytes>)
    requires 0 < v.index && pend != [] && AllLive(v, disk, slot, pend, recs, pieces) && AllLinked(pend + [0], recs)
    ensures Chain(v, disk, slot, pend) && FileOf(v, disk, slot, pend) == File(pieces, SizesOf(recs))
  {
    forall i: nat | i < |pend|
      ensures Node(v, disk, slot, pend, i) && Piece(v, disk, slot, pend, i) == pieces[i]
      ensures RecordOf(v, disk, slot, pend, i) == recs[i]
    {
      NodeBuilt(v, disk, slot, pend, recs, pieces, i);
    }
    var f := FileOf(v, disk, slot, pend);
    assert f.pieces == pieces && f.sizes == SizesOf(recs);
  }

  lemma NodeBuilt(v: Volume, disk: Disk, slot: u16, pend: Path, recs: seq<Md>, pieces: seq<Bytes>, i: nat)
    requires 0 < v.index && AllLive(v, disk, slot, pend, recs, pieces) && AllLinked(pend + [0], recs) && i < |pend|
    ensures Node(v, disk, slot, pend, i) && Piece(v, disk, slot, pend, i) == pieces[i]
    ensures RecordOf(v, disk, slot, pend, i) == recs[i]
  {
    var path, r := pend + [0], recs[i];
    assert LiveExtent(v, disk, slot, pend[i], r, pieces[i], i) && Linked(path, recs, i, |recs|);
    assert forall k: nat | k <= |pend| :: After(pend, k) == path[k];
    if r.span > 1 {
      forall k | i < k < i + r.span
        ensures pend[k] == pend[i] + (k - i)
        ensures RecordFor(disk, slot, pend[k]).Some? && RecordFor(disk, slot, pend[k]).value.span == 1
      {
        assert path[k] == pend[k] && LiveExtent(v, disk, slot, pend[k], recs[k], pieces[k], k);
      }
    }
  }

  // ---------------------------------------------------------------- the bytes

  /** The extents without the prefix of the root. */
  function Stripped(prefix: nat, all: seq<Bytes>): (ps: seq<Bytes>)
    requires all != [] && prefix <= |all[0]|
    ensures |ps| == |all|
  {
    all[0 := all[0][prefix..]]
  }

  /** The stream so far: finished extents, then what is on flash and in the cache of the current one. */
  ghost predicate StreamOk(o: Output, d: Draft) {
    var n, piece := |d.pieces|, d.flushed + o.cache;
    var all := d.pieces + [piece];
    && |o.cache| <= CACHE_SIZE && o.dataOff + |piece| <= o.recordOff
    && 1 <= |d.name| <= MAX_NAME && o.prefix == |Prefix(d.name)| && Prefix(d.name) <= all[0]
    && o.dataLen + (if n == 0 then o.prefix else 0) == |piece|
    && (forall i | 0 < i < n :: d.pieces[i] != [])
    && d.written == Join(Stripped(o.prefix, all)) && o.size == |d.written| < 0x1_0000_0000
    && o.fileOff == |Join(Stripped(o.prefix, all)[..n])|
  }

  /** Continuations know their offset. */
  ghost predicate OffsetsOk(o: Output, d: Draft) {
    && |d.recs| == |d.pieces| && (d.pieces != [] ==> o.prefix <= |d.pieces[0]|)
    && forall i | 0 < i < |d.recs| :: d.recs[i].size == |Join(Stripped(o.prefix, d.pieces)[..i])|
  }

  lemma JoinLast(init: seq<Bytes>, a: Bytes, b: Bytes)
    ensures Join(init + [a + b]) == Join(init + [a]) + b
  {
    assert (init + [a + b])[..|init|] == init && (init + [a])[..|init|] == init;
  }

  /** More bytes into the cache. */
  lemma StreamMore(o: Output, d: Draft, x: Bytes)
    requires StreamOk(o, d) && |o.cache| + |x| <= CACHE_SIZE && o.size + |x| < 0x1_0000_0000
    requires o.dataOff + |d.flushed + o.cache| + |x| <= o.recordOff
    ensures StreamOk(o.(cache := o.cache + x, dataLen := o.dataLen + |x|, size := o.size + |x|),
                     d.(written := d.written + x))
  {
    var piece, piece' := d.flushed + o.cache, d.flushed + (o.cache + x);
    assert piece' == piece + x;
    var all, all' := d.pieces + [piece], d.pieces + [piece'];
    if d.pieces == [] {
      assert piece'[o.prefix..] == piece[o.prefix..] + x;
      assert Stripped(o.prefix, all) == [] + [piece[o.prefix..]]
             && Stripped(o.prefix, all') == [] + [piece[o.prefix..] + x];
      JoinLast([], piece[o.prefix..], x);
    } else {
      var init := Stripped(o.prefix, d.pieces);
      assert Stripped(o.prefix, all) == init + [piece] && Stripped(o.prefix, all') == init + [piece + x];
      JoinLast(init, piece, x);
    }
    assert Stripped(o.prefix, all')[..|d.pieces|] == Stripped(o.prefix, all)[..|d.pieces|];
  }

  /** Some of the cache onto flash. */
  lemma StreamFlushed(o: Output, d: Draft, n: nat, writeOff: nat)
    requires StreamOk(o, d) && n <= |o.cache|
    ensures StreamOk(o.(cache := o.cache[n..], writeOff := writeOff), d.(flushed := d.flushed + o.cache[..n]))
  {
    assert d.flushed + o.cache[..n] + o.cache[n..] == d.flushed + o.cache;
  }

  /** The current extent is finished, and the next one starts empty. */
  lemma StreamNext(o: Output, d: Draft, r: Md, o': Output)
    requires StreamOk(o, d) && OffsetsOk(o, d) && o.cache == [] && d.flushed != [] && |d.recs| == |d.pieces|
    requires d.recs != [] ==> r.size == o.fileOff
    requires o' == o.(dataOff := o'.dataOff, writeOff := o'.writeOff, recordOff := o'.recordOff,
                      needsFooter := o'.needsFooter, dataLen := 0, fileOff := o.fileOff + o.dataLen)
    requires o'.dataOff <= o'.recordOff
    ensures var d' := d.(recs := d.recs + [r], pieces := d.pieces + [d.flushed], flushed := []);
      StreamOk(o', d') && OffsetsOk(o', d')
  {
    var n, d' := |d.pieces|, d.(recs := d.recs + [r], pieces := d.pieces + [d.flushed], flushed := []);
    assert d.flushed + o.cache == d.flushed && [] + o'.cache == [];
    StreamOffset(o, d, Stripped(o.prefix, d'.pieces));
    StrippedMore(o.prefix, d'.pieces);
    OffsetsMore(o, d, r);
  }

  /** An empty extent adds nothing. */
  lemma StrippedMore(prefix: nat, pieces: seq<Bytes>)
    requires pieces != [] && prefix <= |pieces[0]|
    ensures var all := pieces + [[]];
      && all[0] == pieces[0] && Stripped(prefix, all)[..|pieces|] == Stripped(prefix, pieces)
      && Join(Stripped(prefix, all)) == Join(Stripped(prefix, pieces))
  {
    var ps := Stripped(prefix, pieces);
    assert Stripped(prefix, pieces + [[]]) == ps + [[]];
    assert (ps + [[]])[..|ps|] == ps;
  }

  lemma StreamOffset(o: Output, d: Draft, ps: seq<Bytes>)
    requires StreamOk(o, d) && o.cache == [] && ps == Stripped(o.prefix, d.pieces + [d.flushed])
    ensures |Join(ps)| == o.fileOff + o.dataLen
  {
    assert d.flushed + o.cache == d.flushed;
    assert ps[..|d.pieces|] + [ps[|d.pieces|]] == ps;
    JoinNext(ps, |d.pieces|);
    assert ps[..|d.pieces| + 1] == ps;
  }

  lemma OffsetsMore(o: Output, d: Draft, r: Md)
    requires StreamOk(o, d) && OffsetsOk(o, d) && o.cache == [] && (d.recs != [] ==> r.size == o.fileOff)
    ensures OffsetsOk(o, d.(recs := d.recs + [r], pieces := d.pieces + [d.flushed]))
  {
    var pieces' := d.pieces + [d.flushed];
    assert d.flushed + o.cache == d.flushed;
    if d.pieces != [] {
      var ps, ps' := Stripped(o.prefix, d.pieces), Stripped(o.prefix, pieces');
      assert ps' == ps + [d.flushed];
      forall i | 0 < i < |pieces'|
        ensures (d.recs + [r])[i].size == |Join(ps'[..i])|
      {
        if i < |d.pieces| {
          assert ps'[..i] == ps[..i];
        }
      }
    }
  }

  /** When the last extent is finished the file says what was written. */
  lemma FileSays(o: Output, d: Draft, recs: seq<Md>)
    requires d.pieces != [] && 1 <= |d.name| <= MAX_NAME && o.prefix == |Prefix(d.name)|
    requires Prefix(d.name) <= d.pieces[0]
    requires d.written == Join(Stripped(o.prefix, d.pieces)) && o.size == |d.written| && OffsetsOk(o, d)
    requires forall i | 0 < i < |d.pieces| :: d.pieces[i] != []
    requires |recs| == |d.recs| && recs[0].size == o.size && forall i | 0 < i < |recs| :: recs[i] == d.recs[i]
    ensures var f := File(d.pieces, SizesOf(recs));
      && WellFormed(f) && Contents(f) == d.written && NameOf(f.pieces[0]) == d.name && 3 <= |f.pieces[0]|
      && f.pieces[0][0] != ERASED_BYTE
  {
    var root := d.pieces[0];
    var payload := root[o.prefix..];
    assert root == Prefix(d.name) + payload;
    PrefixRoundTrip(d.name, payload);
    var f := File(d.pieces, SizesOf(recs));
    assert Payloads(f) == Stripped(o.prefix, d.pieces);
  }
}
