/** Finishing a record that was begun: the link, the size and the state are programmed into its erased
    fields one after the other (fffs_finish_extent_metadata). */
module Finish {
  import opened Nor
  import opened SectorMd
  import opened SectorView
  import opened Files
  import opened Mounted
  import opened SectorOps
  import opened Extents
  import IndexLog

  // ---------------------------------------------------------------- programming a field

  /** A field takes a value if it is erased or has that value already. */
  predicate Takes(field: u16, value: u16) { field == 0xffff || field == value }

  lemma LowByte(lo: bv8, hi: bv8)
    ensures Lo(Le16(lo, hi)) == lo && Hi(Le16(lo, hi)) == hi
  {
    ByteBound(lo);
    ByteBound(hi);
    var n := Le16(lo, hi);
    assert n % 256 == lo as int by {
      Digits(lo as int, hi as int);
    }
    assert n / 256 == hi as int by {
      Digits(lo as int, hi as int);
    }
    LowIs(n, lo);
    HighIs(n, hi);
  }

  lemma Digits(a: int, b: int)
    requires 0 <= a < 256 && 0 <= b < 256
    ensures (a + 256 * b) % 256 == a && (a + 256 * b) / 256 == b
  {
  }

  lemma LowIs(n: u16, lo: bv8)
    requires n % 256 == lo as int
    ensures Lo(n) == lo
  {
    ByteBack(lo);
  }

  lemma HighIs(n: u16, hi: bv8)
    requires n / 256 == hi as int
    ensures Hi(n) == hi
  {
    ByteBack(hi);
  }

  lemma FieldTakes(lo: bv8, hi: bv8, value: u16)
    requires Takes(Le16(lo, hi), value)
    ensures Le16(lo & Lo(value), hi & Hi(value)) == value
  {
    LowByte(lo, hi);
    Le16RoundTrip(value);
    if Le16(lo, hi) == 0xffff {
      assert Lo(0xffff) == 0xff && Hi(0xffff) == 0xff;
      ErasedAnd(Lo(value));
      ErasedAnd(Hi(value));
    } else {
      SelfAnd(lo);
      SelfAnd(hi);
    }
  }

  lemma SelfAnd(b: bv8)
    ensures b & b == b
  {
  }

  /** The word at i of the bytes, after `value` was programmed there. */
  ghost predicate WordSet(e: Bytes, e': Bytes, i: nat, value: u16) {
    && i + 2 <= |e| == |e'| && Takes(Load16(e, i), value)
    && e'[i] == e[i] & Lo(value) && e'[i + 1] == e[i + 1] & Hi(value)
  }

  lemma WordLoads(e: Bytes, e': Bytes, i: nat, value: u16)
    requires WordSet(e, e', i, value)
    ensures Load16(e', i) == value
  {
    FieldTakes(e[i], e[i + 1], value);
  }

  lemma LinkFields(e: Bytes, e': Bytes, start: nat, next: u16, span: u16)
    requires |e| == |e'| == RECORD_SIZE && WordSet(e, e', 3, next) && WordSet(e, e', 5, span)
    requires forall i | 0 <= i < RECORD_SIZE && !(3 <= i < 7) :: e'[i] == e[i]
    ensures Fields(e', start) == Fields(e, start).(next := next, span := span)
  {
    WordLoads(e, e', 3, next);
    WordLoads(e, e', 5, span);
    SameWords(e, e', start);
  }

  /** The fields outside the link. */
  lemma SameWords(e: Bytes, e': Bytes, start: nat)
    requires |e| == |e'| == RECORD_SIZE && forall i | 0 <= i < RECORD_SIZE && !(3 <= i < 7) :: e'[i] == e[i]
    ensures var r, r' := Fields(e, start), Fields(e', start);
      r' == r.(next := r'.next, span := r'.span)
  {
    assert e'[0] == e[0] && e'[1] == e[1] && e'[2] == e[2] && e'[7] == e[7] && e'[8] == e[8] && e'[9] == e[9];
    assert e'[10] == e[10] && e'[11] == e[11] && e'[12] == e[12] && e'[13] == e[13] && e'[14] == e[14]
           && e'[15] == e[15];
  }

  lemma SizeFields(e: Bytes, e': Bytes, start: nat, size: nat)
    requires size < 0x1_0000_0000 && |e| == |e'| == RECORD_SIZE
    requires WordSet(e, e', 11, size % 0x1_0000) && WordSet(e, e', 13, size / 0x1_0000)
    requires forall i | 0 <= i < RECORD_SIZE && !(11 <= i < 15) :: e'[i] == e[i]
    ensures Fields(e', start) == Fields(e, start).(size := size)
  {
    WordLoads(e, e', 11, size % 0x1_0000);
    WordLoads(e, e', 13, size / 0x1_0000);
  }

  // ---------------------------------------------------------------- the last record of a sector

  /** The last record is one that was begun and is not committed. */
  ghost predicate Begun(s: Sec, r: Md) {
    s.footer.Live? && s.recs != [] && s.recs[|s.recs| - 1] == r && r.state == UNCOMMITTED
  }

  /** The last record was replaced, and nothing outside its 16 bytes was touched. */
  ghost predicate Replaced(s: Sec, s': Sec, r: Md) {
    && s.recs != [] && s'.footer == s.footer && s'.end == s.end && s'.recs == s.recs[|s.recs| - 1 := r]
    && Inside(s.bytes, s'.bytes, s.recs[|s.recs| - 1].start, RECORD_SIZE)
  }

  lemma OtherDecodes(v: Volume, p: nat, b: Bytes, b': Bytes, k: nat, i: nat)
    requires OnlyRecord(v, b, b', k) && 0 <= Start(v, k) && i != k
    ensures Decode(v, p, b', i) == Decode(v, p, b, i)
  {
    if Cursor(v, i) > FOOTER_SIZE {
      assert b'[Cursor(v, i) - 1] == b[Cursor(v, i) - 1];
    }
    if Cursor(v, i) >= FOOTER_SIZE + RECORD_SIZE {
      assert b'[Start(v, i)..Cursor(v, i)] == b[Start(v, i)..Cursor(v, i)];
    }
  }

  lemma ReplaceWalk(v: Volume, p: nat, b: Bytes, b': Bytes, k: nat, r: Md)
    requires |b| == v.size && k < |Records(v, p, b)| && OnlyRecord(v, b, b', k) && FOOTER_SIZE <= Start(v, k)
    requires Decode(v, p, b', k) == Found(r) && r.DataEnd() == Records(v, p, b)[k].DataEnd()
    ensures var w := WalkOf(v, p, b); WalkOf(v, p, b') == w.(recs := w.recs[k := r])
  {
    forall i: nat | i != k
      ensures DecoderOf(v, p, b')(i) == DecoderOf(v, p, b)(i)
    {
      OtherDecodes(v, p, b, b', k, i);
    }
    WalkReplace(v, DecoderOf(v, p, b), DecoderOf(v, p, b'), 0, 0, k, r);
  }

  lemma NewFieldsDecode(v: Volume, p: nat, b': Bytes, k: nat, r: Md)
    requires RecordIs(v, b', k, r) && Decodes(v, p, r)
    ensures Decode(v, p, b', k) == Found(r)
  {
    assert b'[Start(v, k)..Cursor(v, k)][15] == b'[Cursor(v, k) - 1];
  }

  /** The walk over the new bytes differs in record k only. */
  ghost predicate WalkWith(v: Volume, p: nat, b: Bytes, b': Bytes, k: nat, r: Md) {
    && |b| == |b'| == v.size && k < |Records(v, p, b)|
    && WalkOf(v, p, b') == Walk(Records(v, p, b)[k := r], WalkOf(v, p, b).end)
  }

  lemma ReplaceSec(v: Volume, p: nat, s: Sec, b': Bytes, r: Md)
    requires VolumeOk(v) && |s.bytes| == v.size && s == View(v, p, s.bytes) && s.recs != []
    requires OnlyRecord(v, s.bytes, b', |s.recs| - 1) && WalkWith(v, p, s.bytes, b', |s.recs| - 1, r)
    ensures Replaced(s, View(v, p, b'), r)
  {
    var k := |s.recs| - 1;
    RecordPlace(v, p, s, k);
    ReplaceFooter(v, s.bytes, b', k);
  }

  lemma DecodedWalk(v: Volume, p: nat, b: Bytes, b': Bytes, k: nat, r: Md)
    requires |b| == v.size && k < |Records(v, p, b)| && OnlyRecord(v, b, b', k) && RecordIs(v, b', k, r)
    requires Decodes(v, p, r)
    requires r.DataEnd() == Records(v, p, b)[k].DataEnd()
    ensures WalkWith(v, p, b, b', k, r)
  {
    NewFieldsDecode(v, p, b', k, r);
    ReplaceWalk(v, p, b, b', k, r);
  }

  lemma ReplaceFooter(v: Volume, b: Bytes, b': Bytes, k: nat)
    requires VolumeOk(v) && OnlyRecord(v, b, b', k)
    ensures FooterOf(v, b') == FooterOf(v, b)
  {
    SameFooter(v, b, b');
  }

  lemma ReplacedSane(v: Volume, s: Sec, s': Sec, r: Md)
    requires VolumeOk(v) && Sane(v, s) && s.recs != [] && Replaced(s, s', r)
    requires s.recs[|s.recs| - 1].start == Start(v, |s.recs| - 1)
    requires r.DataEnd() == s.recs[|s.recs| - 1].DataEnd() && r.start == s.recs[|s.recs| - 1].start
    requires r.Live() ==> forall k | 0 <= k < |s.recs| :: !(s.recs[k].Live() && s.recs[k].slot == r.slot)
    ensures Sane(v, s')
  {
    if s.footer.Live? {
      ClaimsSame(s.recs, s'.recs);
      ReplacedClear(s, s', r);
    }
  }

  lemma ReplacedClear(s: Sec, s': Sec, r: Md)
    requires Clear(s.recs) && s.recs != [] && s'.recs == s.recs[|s.recs| - 1 := r]
    requires r.DataEnd() == s.recs[|s.recs| - 1].DataEnd() && r.start == s.recs[|s.recs| - 1].start
    ensures Clear(s'.recs)
  {
    forall i, k | 0 <= i < |s'.recs| && 0 <= k < |s'.recs|
      ensures s'.recs[i].DataEnd() <= s'.recs[k].start
    {
      assert s.recs[i].DataEnd() <= s.recs[k].start;
    }
  }

  /** Whatever is left of an uncommitted last record, nobody can see it. */
  lemma ReplaceQuiet(v: Volume, p: nat, s: Sec, c: Bytes)
    requires VolumeOk(v) && |s.bytes| == v.size && s == View(v, p, s.bytes) && Clear(s.recs)
    requires s.recs != [] && s.recs[|s.recs| - 1].state == UNCOMMITTED && OnlyRecord(v, s.bytes, c, |s.recs| - 1)
    ensures |c| == v.size && Quiet(s, View(v, p, c))
  {
    FinishWrite(v, p, s.bytes, c);
    forall slot: u16
      ensures Keeps(s, View(v, p, c), slot)
    {
      FinishedKeeps(s, View(v, p, c), slot);
    }
  }

  // ---------------------------------------------------------------- one program inside the record

  function LinkBytes(next: u16, span: u16): Bytes { [Lo(next), Hi(next), Lo(span), Hi(span)] }

  function SizeBytes(size: nat): Bytes
    requires size < 0x1_0000_0000
  {
    [Lo(size % 0x1_0000), Hi(size % 0x1_0000), Lo(size / 0x1_0000), Hi(size / 0x1_0000)]
  }

  /** `data` was programmed at `off` into the bytes e. */
  ghost predicate Anded(e: Bytes, e': Bytes, off: nat, data: Bytes) {
    && off + |data| <= |e| == |e'|
    && (forall i | 0 <= i < |e| && !(off <= i < off + |data|) :: e'[i] == e[i])
    && (forall i | 0 <= i < |data| :: e'[off + i] == e[off + i] & data[i])
  }

  function RecordBytesAt(v: Volume, b: Bytes, k: nat): (e: Bytes)
    requires |b| == v.size && FOOTER_SIZE <= Start(v, k)
    ensures |e| == RECORD_SIZE
  {
    b[Start(v, k)..Cursor(v, k)]
  }

  /** The bytes of record k, after `data` was programmed at `off` inside it. */
  lemma RecordProgrammed(v: Volume, b: Bytes, k: nat, off: nat, data: Bytes)
    requires |b| == v.size && FOOTER_SIZE <= Start(v, k) && off + |data| <= RECORD_SIZE
    ensures Start(v, k) + off + |data| <= |b|
    ensures var b' := Program(b, Start(v, k) + off, data);
      Anded(RecordBytesAt(v, b, k), RecordBytesAt(v, b', k), off, data)
  {
    SliceAnded(b, Program(b, Start(v, k) + off, data), Start(v, k), off, data);
  }

  lemma SliceAnded(b: Bytes, b': Bytes, lo: nat, off: nat, data: Bytes)
    requires off + |data| <= RECORD_SIZE && lo + RECORD_SIZE <= |b| && b' == Program(b, lo + off, data)
    ensures Anded(b[lo..lo + RECORD_SIZE], b'[lo..lo + RECORD_SIZE], off, data)
  {
    var e, e' := b[lo..lo + RECORD_SIZE], b'[lo..lo + RECORD_SIZE];
    forall i | 0 <= i < RECORD_SIZE && !(off <= i < off + |data|)
      ensures e'[i] == e[i]
    {
      ProgramAt(b, lo + off, data, lo + i);
    }
    forall i | 0 <= i < |data|
      ensures e'[off + i] == e[off + i] & data[i]
    {
      ProgramAt(b, lo + off, data, lo + off + i);
    }
  }

  /** The fields of record k. Callers name this where they need it. */
  ghost predicate RecordIs(v: Volume, b: Bytes, k: nat, r: Md) {
    |b| == v.size && FOOTER_SIZE <= Start(v, k) && Fields(RecordBytesAt(v, b, k), Start(v, k)) == r
  }

  lemma WordOf(e: Bytes, e': Bytes, off: nat, data: Bytes, i: nat, value: u16)
    requires Anded(e, e', off, data) && i + 2 <= |data| && data[i] == Lo(value) && data[i + 1] == Hi(value)
    requires Takes(Load16(e, off + i), value)
    ensures WordSet(e, e', off + i, value)
  {
    var j := i + 1;
    assert e'[off + j] == e[off + j] & data[j];
  }

  lemma LinkAnded(e: Bytes, e': Bytes, start: nat, next: u16, span: u16, data: Bytes)
    requires |e| == RECORD_SIZE && data == LinkBytes(next, span) && Anded(e, e', 3, data)
    requires Takes(Load16(e, 3), next) && Takes(Load16(e, 5), span)
    ensures Fields(e', start) == Fields(e, start).(next := next, span := span)
  {
    WordOf(e, e', 3, data, 0, next);
    WordOf(e, e', 3, data, 2, span);
    LinkFields(e, e', start, next, span);
  }

  lemma SizeAnded(e: Bytes, e': Bytes, start: nat, size: nat, data: Bytes)
    requires |e| == RECORD_SIZE && size < 0x1_0000_0000 && data == SizeBytes(size) && Anded(e, e', 11, data)
    requires Load32(e, 11) == 0xffff_ffff
    ensures Fields(e', start) == Fields(e, start).(size := size)
  {
    ErasedSize(Load16(e, 11), Load16(e, 13));
    WordOf(e, e', 11, data, 0, size % 0x1_0000);
    WordOf(e, e', 11, data, 2, size / 0x1_0000);
    SizeFields(e, e', start, size);
  }

  lemma ErasedSize(lo: u16, hi: u16)
    requires lo + 0x1_0000 * hi == 0xffff_ffff
    ensures lo == 0xffff && hi == 0xffff
  {
  }

  lemma StateAnded(e: Bytes, e': Bytes, start: nat)
    requires |e| == RECORD_SIZE && Anded(e, e', 0, [STATE_VALID]) && e[0] == UNCOMMITTED
    ensures Fields(e', start) == Fields(e, start).(state := STATE_VALID)
  {
    var data := [STATE_VALID];
    assert e'[0 + 0] == e[0 + 0] & data[0];
    ErasedAnd(STATE_VALID);
    assert e' == e[0 := STATE_VALID];
  }

  /** Record k of the bytes becomes r when `data` is programmed at `off` inside it. */
  ghost predicate Yields(v: Volume, b: Bytes, k: nat, off: nat, data: Bytes, r: Md) {
    && |b| == v.size && FOOTER_SIZE <= Start(v, k) && off + |data| <= RECORD_SIZE
    && forall b' {:trigger RecordIs(v, b', k, r)} | b' == Program(b, Start(v, k) + off, data) :: RecordIs(v, b', k, r)
  }

  /** The last record, which is uncommitted, may be replaced by r. */
  ghost predicate CanBecome(v: Volume, p: nat, s: Sec, r: Md) {
    && |s.bytes| == v.size && s.recs != [] && Decodes(v, p, r)
    && var last := s.recs[|s.recs| - 1];
    && r.DataEnd() == last.DataEnd() && r.start == last.start && Begun(s, last)
    && (r.Live() ==> forall k | 0 <= k < |s.recs| :: !(s.recs[k].Live() && s.recs[k].slot == r.slot))
  }

  lemma ReplacedIs(v: Volume, p: nat, s: Sec, s': Sec, r: Md)
    requires VolumeOk(v) && |s.bytes| == v.size == |s'.bytes| && s == View(v, p, s.bytes) && s' == View(v, p, s'.bytes)
    requires Sane(v, s) && CanBecome(v, p, s, r)
    requires OnlyRecord(v, s.bytes, s'.bytes, |s.recs| - 1) && WalkWith(v, p, s.bytes, s'.bytes, |s.recs| - 1, r)
    ensures Replaced(s, s', r) && Sane(v, s')
  {
    RecordPlace(v, p, s, |s.recs| - 1);
    ReplaceSec(v, p, s, s'.bytes, r);
    ReplacedSaneIf(v, p, s, s', r);
  }

  lemma ReplacedSaneIf(v: Volume, p: nat, s: Sec, s': Sec, r: Md)
    requires VolumeOk(v) && Sane(v, s) && CanBecome(v, p, s, r) && Replaced(s, s', r)
    requires s.recs[|s.recs| - 1].start == Start(v, |s.recs| - 1)
    ensures Sane(v, s')
  {
    ReplacedSane(v, s, s', r);
  }

  lemma TornRecord(v: Volume, b: Bytes, k: nat, off: nat, data: Bytes, c: Bytes)
    requires |b| == v.size && FOOTER_SIZE <= Start(v, k) && off + |data| <= RECORD_SIZE
    requires Start(v, k) + off + |data| <= |b|
    requires Torn(b, Start(v, k) + off, data, c)
    ensures OnlyRecord(v, b, c, k)
  {
  }

  /** Programs `data` at `off` of the last, uncommitted record of sector p. */
  method ProgramField(fs: Volatile, p: nat, off: nat, data: Bytes, ghost r: Md)
    requires VolumeOk(fs.v) && DiskOk(fs.v, fs.disk) && DataSector(fs.v, p) && CanBecome(fs.v, p, fs.disk[p], r)
    requires Yields(fs.v, fs.disk[p].bytes, |fs.disk[p].recs| - 1, off, data, r)
    modifies fs`disk, fs`cuts
    ensures DiskOk(fs.v, fs.disk) && fs.disk == old(fs.disk)[p := fs.disk[p]]
    ensures Replaced(old(fs.disk)[p], fs.disk[p], r)
    ensures Quiet(old(fs.disk)[p], fs.disk[p]) && QuietCuts(old(fs.disk), fs.index, p, old(fs.cuts), fs.cuts)
  {
    var at := Start(fs.v, |fs.disk[p].recs| - 1) + off;
    FieldPlace(fs.v, fs.disk, p, off, data, r);
    fs.ProgramSector(p, at, data);
    FieldAll(fs.v, old(fs.disk), fs.index, p, off, at, data, r, fs.disk, old(fs.cuts), fs.cuts);
  }

  lemma FieldPlace(v: Volume, disk: Disk, p: nat, off: nat, data: Bytes, r: Md)
    requires VolumeOk(v) && DiskOk(v, disk) && DataSector(v, p) && CanBecome(v, p, disk[p], r)
    requires Yields(v, disk[p].bytes, |disk[p].recs| - 1, off, data, r)
    ensures AllReal(v, disk) && |disk[p].bytes| == v.size && Start(v, |disk[p].recs| - 1) + off + |data| <= v.size
  {
  }

  lemma FieldAll(v: Volume, disk: Disk, index: Index, p: nat, off: nat, at: nat, data: Bytes, r: Md, disk': Disk,
                 cuts: iset<Image>, cuts': iset<Image>)
    requires VolumeOk(v) && DiskOk(v, disk) && DataSector(v, p) && CanBecome(v, p, disk[p], r) && |disk'| == |disk|
    requires Yields(v, disk[p].bytes, |disk[p].recs| - 1, off, data, r) && at == Start(v, |disk[p].recs| - 1) + off
    requires ProgrammedAt(v, disk, disk', p, at, data) && cuts' == cuts + ProgramCuts(v, disk, index, p, at, data)
    ensures DiskOk(v, disk') && Replaced(disk[p], disk'[p], r) && Quiet(disk[p], disk'[p])
    ensures QuietCuts(disk, index, p, cuts, cuts')
  {
    FieldEffect(v, disk, p, off, at, data, r, disk');
    FieldCutsOf(v, disk, index, p, off, at, data, cuts, cuts');
  }

  lemma FieldEffect(v: Volume, disk: Disk, p: nat, off: nat, at: nat, data: Bytes, r: Md, disk': Disk)
    requires VolumeOk(v) && DiskOk(v, disk) && DataSector(v, p) && CanBecome(v, p, disk[p], r) && |disk'| == |disk|
    requires Yields(v, disk[p].bytes, |disk[p].recs| - 1, off, data, r) && at == Start(v, |disk[p].recs| - 1) + off
    requires ProgrammedAt(v, disk, disk', p, at, data)
    ensures DiskOk(v, disk') && Replaced(disk[p], disk'[p], r) && Quiet(disk[p], disk'[p])
  {
    FieldDone(v, disk, p, off, at, data, r, disk');
    FieldReplaced(v, disk, p, r, disk');
  }

  /** The sector differs in its last record only, and there the walk finds r. */
  ghost predicate LastBecame(v: Volume, p: nat, s: Sec, s': Sec, r: Md) {
    && s.recs != [] && OnlyRecord(v, s.bytes, s'.bytes, |s.recs| - 1)
    && forall k: nat {:trigger WalkWith(v, p, s.bytes, s'.bytes, k, r)} | k == |s.recs| - 1 ::
         WalkWith(v, p, s.bytes, s'.bytes, k, r)
  }

  lemma FieldDone(v: Volume, disk: Disk, p: nat, off: nat, at: nat, data: Bytes, r: Md, disk': Disk)
    requires AllReal(v, disk) && p < |disk| == |disk'| && disk[p].recs != [] && Decodes(v, p, r)
    requires Yields(v, disk[p].bytes, |disk[p].recs| - 1, off, data, r) && at == Start(v, |disk[p].recs| - 1) + off
    requires r.DataEnd() == disk[p].recs[|disk[p].recs| - 1].DataEnd() && at + |data| <= |disk[p].bytes|
    requires disk'[p].bytes == Program(disk[p].bytes, at, data)
    ensures LastBecame(v, p, disk[p], disk'[p], r)
  {
    RealRecords(v, disk, p);
    BytesBecame(v, p, disk[p].bytes, disk[p].recs, |disk[p].recs| - 1, off, at, data, r, disk'[p].bytes);
  }

  lemma BytesBecame(v: Volume, p: nat, b: Bytes, recs: seq<Md>, k: nat, off: nat, at: nat, data: Bytes, r: Md,
                    b': Bytes)
    requires |b| == v.size && recs == Records(v, p, b) && k < |recs| && Yields(v, b, k, off, data, r)
    requires Decodes(v, p, r)
    requires at == Start(v, k) + off && at + |data| <= |b| && b' == Program(b, at, data)
    requires r.DataEnd() == recs[k].DataEnd()
    ensures OnlyRecord(v, b, b', k) && WalkWith(v, p, b, b', k, r)
  {
    OutsideRecord(v, b, k, off, data);
    FieldWalk(v, p, b, k, off, data, r, b');
  }

  lemma OutsideRecord(v: Volume, b: Bytes, k: nat, off: nat, data: Bytes)
    requires |b| == v.size && FOOTER_SIZE <= Start(v, k) && off + |data| <= RECORD_SIZE
    ensures Start(v, k) + off + |data| <= |b| && OnlyRecord(v, b, Program(b, Start(v, k) + off, data), k)
  {
    var at := Start(v, k) + off;
    var b' := Program(b, at, data);
    forall i | 0 <= i < v.size && !(Start(v, k) <= i < Cursor(v, k))
      ensures b'[i] == b[i]
    {
      ProgramAt(b, at, data, i);
    }
  }

  lemma RealRecords(v: Volume, disk: Disk, p: nat)
    requires AllReal(v, disk) && p < |disk|
    ensures |disk[p].bytes| == v.size && disk[p].recs == Records(v, p, disk[p].bytes)
  {
    assert Real(v, disk, p);
  }

  lemma FieldCutsOf(v: Volume, disk: Disk, index: Index, p: nat, off: nat, at: nat, data: Bytes, cuts: iset<Image>,
                    cuts': iset<Image>)
    requires VolumeOk(v) && DiskOk(v, disk) && DataSector(v, p) && |disk[p].bytes| == v.size
    requires off + |data| <= RECORD_SIZE
    requires disk[p].recs != [] && Begun(disk[p], disk[p].recs[|disk[p].recs| - 1])
    requires FOOTER_SIZE <= Start(v, |disk[p].recs| - 1)
    requires at == Start(v, |disk[p].recs| - 1) + off && cuts' == cuts + ProgramCuts(v, disk, index, p, at, data)
    ensures QuietCuts(disk, index, p, cuts, cuts')
  {
    FieldTears(v, disk[p].bytes, |disk[p].recs| - 1, off, data);
    FieldCuts(v, disk, index, p, at, data, cuts, cuts');
  }

  /** What the program makes of the record is what the walk finds. */
  lemma FieldWalk(v: Volume, p: nat, b: Bytes, k: nat, off: nat, data: Bytes, r: Md, b': Bytes)
    requires |b| == v.size && k < |Records(v, p, b)| && Yields(v, b, k, off, data, r) && Decodes(v, p, r)
    requires b' == Program(b, Start(v, k) + off, data) && OnlyRecord(v, b, b', k)
    requires r.DataEnd() == Records(v, p, b)[k].DataEnd()
    ensures WalkWith(v, p, b, b', k, r)
  {
    assert RecordIs(v, b', k, r);
    DecodedWalk(v, p, b, b', k, r);
  }

  lemma FieldReplaced(v: Volume, disk: Disk, p: nat, r: Md, disk': Disk)
    requires VolumeOk(v) && DiskOk(v, disk) && DataSector(v, p) && CanBecome(v, p, disk[p], r) && |disk'| == |disk|
    requires AllReal(v, disk') && disk' == disk[p := disk'[p]] && LastBecame(v, p, disk[p], disk'[p], r)
    ensures DiskOk(v, disk') && Replaced(disk[p], disk'[p], r) && Quiet(disk[p], disk'[p])
  {
    assert Real(v, disk, p) && Real(v, disk', p) && SaneAt(v, disk, p);
    assert WalkWith(v, p, disk[p].bytes, disk'[p].bytes, |disk[p].recs| - 1, r);
    ReplacedIs(v, p, disk[p], disk'[p], r);
    DiskOkOne(v, disk, p, disk'[p]);
    ReplaceQuiet(v, p, disk[p], disk'[p].bytes);
  }

  /** An interrupted program inside record k leaves everything else alone. */
  ghost predicate TearsRecord(v: Volume, b: Bytes, k: nat, at: nat, data: Bytes) {
    at + |data| <= |b| && forall c | Torn(b, at, data, c) :: OnlyRecord(v, b, c, k)
  }

  lemma FieldTears(v: Volume, b: Bytes, k: nat, off: nat, data: Bytes)
    requires |b| == v.size && FOOTER_SIZE <= Start(v, k) && off + |data| <= RECORD_SIZE
    ensures TearsRecord(v, b, k, Start(v, k) + off, data)
  {
    forall c | Torn(b, Start(v, k) + off, data, c)
      ensures OnlyRecord(v, b, c, k)
    {
      TornRecord(v, b, k, off, data, c);
    }
  }

  lemma FieldCuts(v: Volume, disk: Disk, index: Index, p: nat, at: nat, data: Bytes, cuts: iset<Image>,
                  cuts': iset<Image>)
    requires VolumeOk(v) && DiskOk(v, disk) && DataSector(v, p) && |disk[p].bytes| == v.size
    requires disk[p].recs != [] && Begun(disk[p], disk[p].recs[|disk[p].recs| - 1])
    requires TearsRecord(v, disk[p].bytes, |disk[p].recs| - 1, at, data)
    requires cuts' == cuts + ProgramCuts(v, disk, index, p, at, data)
    ensures QuietCuts(disk, index, p, cuts, cuts')
  {
    forall c | c in cuts' && c !in cuts
      ensures EraseCut(disk, index, p, c) && Quiet(disk[p], c.disk[p])
    {
      assert OnlyRecord(v, disk[p].bytes, c.disk[p].bytes, |disk[p].recs| - 1);
      FieldQuiet(v, disk, p, c.disk[p].bytes);
    }
  }

  lemma FieldQuiet(v: Volume, disk: Disk, p: nat, c: Bytes)
    requires VolumeOk(v) && DiskOk(v, disk) && DataSector(v, p)
    requires disk[p].recs != [] && Begun(disk[p], disk[p].recs[|disk[p].recs| - 1])
    requires OnlyRecord(v, disk[p].bytes, c, |disk[p].recs| - 1)
    ensures |c| == v.size && Quiet(disk[p], View(v, p, c))
  {
    assert Real(v, disk, p) && SaneAt(v, disk, p);
    ReplaceQuiet(v, p, disk[p], c);
  }

  // ---------------------------------------------------------------- the three programs

  lemma LastIs(v: Volume, disk: Disk, p: nat)
    requires VolumeOk(v) && AllReal(v, disk) && p < |disk| && disk[p].recs != []
    ensures RecordIs(v, disk[p].bytes, |disk[p].recs| - 1, disk[p].recs[|disk[p].recs| - 1])
    ensures disk[p].recs[|disk[p].recs| - 1].start == Start(v, |disk[p].recs| - 1)
  {
    assert Real(v, disk, p);
    RecordAt(v, p, disk[p].bytes, |disk[p].recs| - 1);
  }

  /** Whatever `data` programmed at `off` makes of the bytes e has the fields of r. */
  ghost predicate FieldsAfter(e: Bytes, off: nat, data: Bytes, start: nat, r: Md) {
    |e| == RECORD_SIZE && forall e' | Anded(e, e', off, data) :: Fields(e', start) == r
  }

  lemma AfterYields(v: Volume, b: Bytes, k: nat, off: nat, data: Bytes, r: Md)
    requires |b| == v.size && FOOTER_SIZE <= Start(v, k) && off + |data| <= RECORD_SIZE
    requires FieldsAfter(RecordBytesAt(v, b, k), off, data, Start(v, k), r)
    ensures Yields(v, b, k, off, data, r)
  {
    RecordProgrammed(v, b, k, off, data);
    var b' := Program(b, Start(v, k) + off, data);
    assert RecordIs(v, b', k, r);
  }

  lemma LinkYields(v: Volume, b: Bytes, k: nat, r: Md, next: u16, span: u16)
    requires RecordIs(v, b, k, r) && Takes(r.next, next) && Takes(r.span, span)
    ensures Yields(v, b, k, 3, LinkBytes(next, span), r.(next := next, span := span))
  {
    LinkAfter(RecordBytesAt(v, b, k), Start(v, k), r, next, span, LinkBytes(next, span));
    AfterYields(v, b, k, 3, LinkBytes(next, span), r.(next := next, span := span));
  }

  lemma LinkAfter(e: Bytes, start: nat, r: Md, next: u16, span: u16, data: Bytes)
    requires |e| == RECORD_SIZE && Fields(e, start) == r && Takes(r.next, next) && Takes(r.span, span)
    requires data == LinkBytes(next, span)
    ensures FieldsAfter(e, 3, data, start, r.(next := next, span := span))
  {
    forall e' | Anded(e, e', 3, data)
      ensures Fields(e', start) == r.(next := next, span := span)
    {
      LinkAnded(e, e', start, next, span, data);
    }
  }

  lemma SizeYields(v: Volume, b: Bytes, k: nat, r: Md, size: nat)
    requires RecordIs(v, b, k, r) && size < 0x1_0000_0000 && r.size == 0xffff_ffff
    ensures Yields(v, b, k, 11, SizeBytes(size), r.(size := size))
  {
    SizeAfter(RecordBytesAt(v, b, k), Start(v, k), r, size, SizeBytes(size));
    AfterYields(v, b, k, 11, SizeBytes(size), r.(size := size));
  }

  lemma SizeAfter(e: Bytes, start: nat, r: Md, size: nat, data: Bytes)
    requires |e| == RECORD_SIZE && Fields(e, start) == r && size < 0x1_0000_0000 && r.size == 0xffff_ffff
    requires data == SizeBytes(size)
    ensures FieldsAfter(e, 11, data, start, r.(size := size))
  {
    forall e' | Anded(e, e', 11, data)
      ensures Fields(e', start) == r.(size := size)
    {
      SizeAnded(e, e', start, size, data);
    }
  }

  lemma StateYields(v: Volume, b: Bytes, k: nat, r: Md)
    requires RecordIs(v, b, k, r) && r.state == UNCOMMITTED
    ensures Yields(v, b, k, 0, [STATE_VALID], r.(state := STATE_VALID))
  {
    StateAfter(RecordBytesAt(v, b, k), Start(v, k), r);
    AfterYields(v, b, k, 0, [STATE_VALID], r.(state := STATE_VALID));
  }

  lemma StateAfter(e: Bytes, start: nat, r: Md)
    requires |e| == RECORD_SIZE && Fields(e, start) == r && r.state == UNCOMMITTED
    ensures FieldsAfter(e, 0, [STATE_VALID], start, r.(state := STATE_VALID))
  {
    forall e' | Anded(e, e', 0, [STATE_VALID])
      ensures Fields(e', start) == r.(state := STATE_VALID)
    {
      StateAnded(e, e', start);
    }
  }

  method ProgramLink(fs: Volatile, p: nat, next: u16, span: u16, ghost r: Md)
    requires VolumeOk(fs.v) && DiskOk(fs.v, fs.disk) && DataSector(fs.v, p) && Begun(fs.disk[p], r)
    requires CanBecome(fs.v, p, fs.disk[p], r)
    requires Takes(r.next, next) && Takes(r.span, span)
    modifies fs`disk, fs`cuts
    ensures DiskOk(fs.v, fs.disk) && fs.disk == old(fs.disk)[p := fs.disk[p]]
    ensures Replaced(old(fs.disk)[p], fs.disk[p], r.(next := next, span := span))
    ensures Quiet(old(fs.disk)[p], fs.disk[p]) && QuietCuts(old(fs.disk), fs.index, p, old(fs.cuts), fs.cuts)
  {
    LinkReady(fs.v, fs.disk, p, r, next, span);
    ProgramField(fs, p, 3, LinkBytes(next, span), r.(next := next, span := span));
  }

  lemma LinkReady(v: Volume, disk: Disk, p: nat, r: Md, next: u16, span: u16)
    requires VolumeOk(v) && DiskOk(v, disk) && DataSector(v, p) && Begun(disk[p], r) && CanBecome(v, p, disk[p], r)
    requires Takes(r.next, next) && Takes(r.span, span)
    ensures var r' := r.(next := next, span := span);
      CanBecome(v, p, disk[p], r') && Yields(v, disk[p].bytes, |disk[p].recs| - 1, 3, LinkBytes(next, span), r')
  {
    LastIs(v, disk, p);
    LinkYields(v, disk[p].bytes, |disk[p].recs| - 1, r, next, span);
  }

  method ProgramSize(fs: Volatile, p: nat, size: nat, ghost r: Md)
    requires VolumeOk(fs.v) && DiskOk(fs.v, fs.disk) && DataSector(fs.v, p) && Begun(fs.disk[p], r)
    requires CanBecome(fs.v, p, fs.disk[p], r)
    requires size < 0x1_0000_0000 && r.size == 0xffff_ffff
    modifies fs`disk, fs`cuts
    ensures DiskOk(fs.v, fs.disk) && fs.disk == old(fs.disk)[p := fs.disk[p]]
    ensures Replaced(old(fs.disk)[p], fs.disk[p], r.(size := size))
    ensures Quiet(old(fs.disk)[p], fs.disk[p]) && QuietCuts(old(fs.disk), fs.index, p, old(fs.cuts), fs.cuts)
  {
    SizeReady(fs.v, fs.disk, p, r, size);
    ProgramField(fs, p, 11, SizeBytes(size), r.(size := size));
  }

  lemma SizeReady(v: Volume, disk: Disk, p: nat, r: Md, size: nat)
    requires VolumeOk(v) && DiskOk(v, disk) && DataSector(v, p) && Begun(disk[p], r) && CanBecome(v, p, disk[p], r)
    requires size < 0x1_0000_0000 && r.size == 0xffff_ffff
    ensures var r' := r.(size := size);
      CanBecome(v, p, disk[p], r') && Yields(v, disk[p].bytes, |disk[p].recs| - 1, 11, SizeBytes(size), r')
  {
    LastIs(v, disk, p);
    SizeYields(v, disk[p].bytes, |disk[p].recs| - 1, r, size);
  }

  method ProgramState(fs: Volatile, p: nat, ghost r: Md)
    requires VolumeOk(fs.v) && DiskOk(fs.v, fs.disk) && DataSector(fs.v, p) && Begun(fs.disk[p], r)
    requires CanBecome(fs.v, p, fs.disk[p], r.(state := STATE_VALID))
    modifies fs`disk, fs`cuts
    ensures DiskOk(fs.v, fs.disk) && fs.disk == old(fs.disk)[p := fs.disk[p]]
    ensures Replaced(old(fs.disk)[p], fs.disk[p], r.(state := STATE_VALID))
    ensures Quiet(old(fs.disk)[p], fs.disk[p]) && QuietCuts(old(fs.disk), fs.index, p, old(fs.cuts), fs.cuts)
  {
    StateReady(fs.v, fs.disk, p, r);
    ProgramField(fs, p, 0, [STATE_VALID], r.(state := STATE_VALID));
  }

  lemma StateReady(v: Volume, disk: Disk, p: nat, r: Md)
    requires VolumeOk(v) && AllReal(v, disk) && p < |disk| && Begun(disk[p], r)
    ensures Yields(v, disk[p].bytes, |disk[p].recs| - 1, 0, [STATE_VALID], r.(state := STATE_VALID))
  {
    LastIs(v, disk, p);
    StateYields(v, disk[p].bytes, |disk[p].recs| - 1, r);
  }

  // ---------------------------------------------------------------- fffs_finish_extent_metadata

  /** First uncommitted record of a slot (read_uncommitted_metadata_for_slot). */
  function FirstBegun(recs: seq<Md>, slot: u16): (k: nat)
    ensures k <= |recs| && (k < |recs| ==> recs[k].state == UNCOMMITTED && recs[k].slot == slot)
    ensures forall i | 0 <= i < k :: !(recs[i].state == UNCOMMITTED && recs[i].slot == slot)
  {
    if recs == [] || (recs[0].state == UNCOMMITTED && recs[0].slot == slot) then 0 else 1 + FirstBegun(recs[1..], slot)
  }

  /** The last record is the only uncommitted one of its slot. */
  ghost predicate NoLeftover(s: Sec, slot: u16) {
    forall k | 0 <= k < |s.recs| - 1 :: !(s.recs[k].state == UNCOMMITTED && s.recs[k].slot == slot)
  }

  method FindBegun(v: Volume, dec: Decoder, ghost recs: seq<Md>, ghost end: Step, slot: u16) returns (k: nat)
    requires WalkFrom(v, dec, 0, 0) == Walk(recs, end)
    requires forall j: nat | dec(j).Found? :: Cursor(v, j) >= FOOTER_SIZE + RECORD_SIZE
    ensures k == FirstBegun(recs, slot)
  {
    var j: nat, claimed: nat, active := 0, 0, true;
    assert recs[..0] == [];
    while active
      invariant j <= |recs| && (active ==> Resumable(v, recs, j, claimed)) && (!active ==> j == |recs|)
      invariant forall i | 0 <= i < j :: !(recs[i].state == UNCOMMITTED && recs[i].slot == slot)
      decreases active, |recs| - j
    {
      var d: Step;
      d, claimed, active := WalkStep(v, dec, recs, end, j, claimed);
      if d.Found? {
        if d.r.state == UNCOMMITTED && d.r.slot == slot {
          return j;
        }
        j := j + 1;
      }
    }
    return j;
  }

  method ReadUncommitted(fs: Volatile, p: nat, slot: u16) returns (k: nat)
    requires VolumeOk(fs.v) && AllReal(fs.v, fs.disk) && p < |fs.disk|
    ensures k == FirstBegun(fs.disk[p].recs, slot)
  {
    assert Real(fs.v, fs.disk, p);
    var s := fs.disk[p];
    k := FindBegun(fs.v, DecoderOf(fs.v, p, s.bytes), s.recs, s.end, slot);
  }

  lemma BegunCan(v: Volume, disk: Disk, p: nat, r: Md)
    requires VolumeOk(v) && AllReal(v, disk) && p < |disk| && Begun(disk[p], r)
    ensures CanBecome(v, p, disk[p], r)
  {
    assert Real(v, disk, p);
    RecordAt(v, p, disk[p].bytes, |disk[p].recs| - 1);
    LifecycleTorn(UNCOMMITTED, UNCOMMITTED);
  }

  lemma CanBecomeStill(v: Volume, p: nat, s: Sec, s1: Sec, r1: Md, r: Md)
    requires CanBecome(v, p, s, r) && Replaced(s, s1, r1) && r1.state == UNCOMMITTED
    requires r1.DataEnd() == s.recs[|s.recs| - 1].DataEnd() && r1.start == s.recs[|s.recs| - 1].start
    ensures CanBecome(v, p, s1, r)
  {
    LifecycleTorn(UNCOMMITTED, UNCOMMITTED);
  }

  lemma ReplacedTwice(s: Sec, s1: Sec, s2: Sec, r1: Md, r2: Md)
    requires Replaced(s, s1, r1) && Replaced(s1, s2, r2) && r1.start == s.recs[|s.recs| - 1].start
    ensures Replaced(s, s2, r2)
  {
  }

  /** The record as finished: linked, with its size if that is due, live if that is due. */
  function FinishedRecord(r: Md, next: u16, span: u16, size: Option<nat>, live: bool): Md {
    var r1 := r.(next := next, span := span);
    var r2 := if size.Some? then r1.(size := size.value) else r1;
    if live then r2.(state := STATE_VALID) else r2
  }

  /** The record that was begun is found and finished; the sector shows nothing of it before the last
      step, whenever the power goes. */
  method FinishExtent(fs: Volatile, p: nat, slot: u16, next: u16, span: u16, size: Option<nat>, live: bool, ghost r: Md)
    returns (status: Status)
    requires VolumeOk(fs.v) && DiskOk(fs.v, fs.disk) && DataSector(fs.v, p) && Begun(fs.disk[p], r) && r.slot == slot
    requires NoLeftover(fs.disk[p], slot) && Takes(r.next, next) && Takes(r.span, span)
    requires size.Some? ==> size.value < 0x1_0000_0000 && r.size == 0xffff_ffff
    requires live ==> CanBecome(fs.v, p, fs.disk[p], FinishedRecord(r, next, span, size, live))
    modifies fs`disk, fs`cuts
    ensures status.Ok? && DiskOk(fs.v, fs.disk) && fs.disk == old(fs.disk)[p := fs.disk[p]]
    ensures Replaced(old(fs.disk)[p], fs.disk[p], FinishedRecord(r, next, span, size, live))
    ensures Quiet(old(fs.disk)[p], fs.disk[p]) && QuietCuts(old(fs.disk), fs.index, p, old(fs.cuts), fs.cuts)
  {
    var k := ReadUncommitted(fs, p, slot);
    if k == |fs.disk[p].recs| {
      return ErrCorrupt;
    }
    assert k == |fs.disk[p].recs| - 1;
    FinishFields(fs, p, next, span, size, live, r);
    status := Ok;
  }

  method FinishFields(fs: Volatile, p: nat, next: u16, span: u16, size: Option<nat>, live: bool, ghost r: Md)
    requires VolumeOk(fs.v) && DiskOk(fs.v, fs.disk) && DataSector(fs.v, p) && Begun(fs.disk[p], r)
    requires Takes(r.next, next) && Takes(r.span, span)
    requires size.Some? ==> size.value < 0x1_0000_0000 && r.size == 0xffff_ffff
    requires live ==> CanBecome(fs.v, p, fs.disk[p], FinishedRecord(r, next, span, size, live))
    modifies fs`disk, fs`cuts
    ensures DiskOk(fs.v, fs.disk) && fs.disk == old(fs.disk)[p := fs.disk[p]]
    ensures Replaced(old(fs.disk)[p], fs.disk[p], FinishedRecord(r, next, span, size, live))
    ensures Quiet(old(fs.disk)[p], fs.disk[p]) && QuietCuts(old(fs.disk), fs.index, p, old(fs.cuts), fs.cuts)
  {
    ghost var disk0, cuts0 := fs.disk, fs.cuts;
    BegunCan(fs.v, fs.disk, p, r);
    ProgramLink(fs, p, next, span, r);
    ghost var r1 := r.(next := next, span := span);
    if size.Some? {
      ghost var disk1, cuts1 := fs.disk, fs.cuts;
      BegunCan(fs.v, fs.disk, p, r1);
      ProgramSize(fs, p, size.value, r1);
      FieldMore(disk0, disk1, fs.disk, fs.index, p, r1, r1.(size := size.value), cuts0, cuts1, fs.cuts);
      r1 := r1.(size := size.value);
    }
    if live {
      ghost var disk1, cuts1 := fs.disk, fs.cuts;
      CanBecomeStill(fs.v, p, disk0[p], fs.disk[p], r1, r1.(state := STATE_VALID));
      ProgramState(fs, p, r1);
      FieldMore(disk0, disk1, fs.disk, fs.index, p, r1, r1.(state := STATE_VALID), cuts0, cuts1, fs.cuts);
    }
  }

  lemma FieldMore(disk: Disk, disk1: Disk, disk2: Disk, index: Index, p: nat, r1: Md, r2: Md,
                  cuts: iset<Image>, cuts1: iset<Image>, cuts2: iset<Image>)
    requires p < |disk| == |disk1| == |disk2| && disk1 == disk[p := disk1[p]] && disk2 == disk1[p := disk2[p]]
    requires Quiet(disk[p], disk1[p]) && QuietCuts(disk, index, p, cuts, cuts1)
    requires Quiet(disk1[p], disk2[p]) && QuietCuts(disk1, index, p, cuts1, cuts2)
    requires Replaced(disk[p], disk1[p], r1) && Replaced(disk1[p], disk2[p], r2)
    requires r1.start == disk[p].recs[|disk[p].recs| - 1].start
    ensures disk2 == disk[p := disk2[p]] && Quiet(disk[p], disk2[p]) && QuietCuts(disk, index, p, cuts, cuts2)
    ensures Replaced(disk[p], disk2[p], r2)
  {
    QuietMore(disk, disk1, disk2, index, p, cuts, cuts1, cuts2);
    ReplacedTwice(disk[p], disk1[p], disk2[p], r1, r2);
  }
}
