/** Metadata inside a data sector, on bytes: records grow down from the footer, data grows up
    (src/fffs_file_md.c, src/fffs_sector.c, src/fffs_internal.h). */
module SectorMd {
  import opened Nor

  /** Sector size, number of sectors, number of index sectors. */
  datatype Volume = Volume(size: nat, sectors: nat, index: nat)

  predicate VolumeOk(v: Volume) {
    256 <= v.size <= 0x1_0000 && v.size % 256 == 0 && 2 <= v.index <= 15 && v.index < v.sectors <= 0xffff
  }

  type Bytes = seq<bv8>

  const RECORD_SIZE: nat := 16
  const FOOTER_SIZE: nat := 10
  const TYPE_ROOT: bv8 := 0x11
  const TYPE_CONT: bv8 := 0x12
  const UNCOMMITTED: bv8 := 0xff
  const STATE_VALID: bv8 := 0x7e
  const STATE_TOMBSTONED: bv8 := 0x3c
  const STATE_FULL: bv8 := 0x5a

  /** The mirrored bit pairs of a lifecycle byte: both cleared, both set. */
  predicate ValidPairCleared(state: bv8) { state & 0x81 == 0 }

  predicate TombstonePairSet(state: bv8) { state & 0x42 == 0x42 }

  predicate TombstonePairCleared(state: bv8) { state & 0x42 == 0 }

  predicate FullPairCleared(state: bv8) { state & 0x24 == 0 }

  predicate IsLive(state: bv8) { ValidPairCleared(state) && TombstonePairSet(state) }

  /** Lifecycle transitions only clear bits, in this order, and torn ones are recognised: a record
      becomes live only when both valid bits are down, a tombstone in progress keeps the record
      decodable, and the full hint never touches liveness. */
  lemma LifecycleTorn(before: bv8, after: bv8)
    ensures TornByte(UNCOMMITTED, STATE_VALID, after) ==>
              after == UNCOMMITTED || IsLive(after) || !ValidPairCleared(after)
    ensures IsLive(before) && TornByte(before, STATE_TOMBSTONED, after) ==> ValidPairCleared(after)
    ensures IsLive(before) ==> !IsLive(before & STATE_TOMBSTONED) && ValidPairCleared(before & STATE_TOMBSTONED)
    ensures IsLive(before) && TornByte(before, STATE_FULL, after) ==> IsLive(after)
    ensures IsLive(before) ==> FullPairCleared(before & STATE_FULL)
    ensures IsLive(STATE_VALID) && !IsLive(UNCOMMITTED)
  {
  }

  datatype Md = Md(typ: bv8, state: bv8, slot: u16, next: u16, span: u16, dataOff: u16, dataLen: u16, size: nat,
                   start: nat)
  {
    predicate Live() { IsLive(state) }

    function DataEnd(): nat { dataOff + dataLen }
  }

  function Load16(b: Bytes, i: nat): u16
    requires i + 2 <= |b|
  {
    Le16(b[i], b[i + 1])
  }

  function Load32(b: Bytes, i: nat): nat
    requires i + 4 <= |b|
  {
    Load16(b, i) + 0x1_0000 * Load16(b, i + 2)
  }

  function Store16(v: u16): (b: Bytes)
    ensures |b| == 2
  {
    [Lo(v), Hi(v)]
  }

  function Store32(v: nat): (b: Bytes)
    requires v < 0x1_0000_0000
    ensures |b| == 4
  {
    Store16(v % 0x1_0000) + Store16(v / 0x1_0000)
  }

  /** The fields of the record stored in 16 bytes. */
  function Fields(rec: Bytes, start: nat): Md
    requires |rec| == RECORD_SIZE
  {
    Md(rec[15], rec[0], Load16(rec, 1), Load16(rec, 3), Load16(rec, 5), Load16(rec, 7), Load16(rec, 9),
       Load32(rec, 11), start)
  }

  /** Where record j starts: they are stacked downwards below the footer. */
  function Start(v: Volume, j: nat): int { v.size - FOOTER_SIZE - RECORD_SIZE * (j + 1) }

  function Cursor(v: Volume, j: nat): int { v.size - FOOTER_SIZE - RECORD_SIZE * j }

  function MdAt(v: Volume, b: Bytes, j: nat): Md
    requires |b| == v.size && 0 <= Start(v, j)
  {
    Fields(b[Start(v, j)..Cursor(v, j)], Start(v, j))
  }

  /** What decode_file_md_record accepts as a record of sector `p`. */
  predicate Decodes(v: Volume, p: nat, r: Md) {
    && (r.typ == TYPE_ROOT || r.typ == TYPE_CONT)
    && (r.state == UNCOMMITTED || ValidPairCleared(r.state))
    && r.DataEnd() <= r.start
    && (r.state == UNCOMMITTED ||
        (r.span != 0 && p + r.span <= v.sectors && (r.next == 0 || v.index <= r.next < v.sectors)))
  }

  datatype Step = EndErased | EndInvalid | EndClaimed | Corrupt | Found(r: Md)

  /** decode_file_md_record for record j of the bytes `b` of sector `p`. */
  function Decode(v: Volume, p: nat, b: Bytes, j: nat): Step
    requires |b| == v.size
  {
    if Cursor(v, j) <= FOOTER_SIZE then EndClaimed
    else if b[Cursor(v, j) - 1] == ERASED_BYTE then EndErased
    else if Cursor(v, j) < FOOTER_SIZE + RECORD_SIZE then Corrupt
    else if Decodes(v, p, MdAt(v, b, j)) then Found(MdAt(v, b, j))
    else EndInvalid
  }

  /** Record positions to decoded records, as the walk sees them. */
  type Decoder = nat -> Step

  function DecoderOf(v: Volume, p: nat, b: Bytes): Decoder
    requires |b| == v.size
  {
    (j: nat) => Decode(v, p, b, j)
  }

  datatype Walk = Walk(recs: seq<Md>, end: Step)

  function Larger(a: nat, b: nat): nat { if a > b then a else b }

  /** fffs_md_walk_next from record j on, with data claimed up to `claimed` so far: it ends where no
      record decodes, or where the records have met the data. */
  function WalkFrom(v: Volume, dec: Decoder, j: nat, claimed: nat): (w: Walk)
    ensures !w.end.Found?
    decreases v.size - RECORD_SIZE * j
  {
    var d := dec(j);
    if !d.Found? then Walk([], d)
    else if Cursor(v, j) < FOOTER_SIZE + RECORD_SIZE then Walk([], Corrupt)
    else
      var claimed' := Larger(d.r.DataEnd(), claimed);
      if Start(v, j) <= claimed' then Walk([d.r], EndClaimed)
      else
        var rest := WalkFrom(v, dec, j + 1, claimed');
        Walk([d.r] + rest.recs, rest.end)
  }

  function WalkOf(v: Volume, p: nat, b: Bytes): Walk
    requires |b| == v.size
  {
    WalkFrom(v, DecoderOf(v, p, b), 0, 0)
  }

  function Records(v: Volume, p: nat, b: Bytes): seq<Md>
    requires |b| == v.size
  {
    WalkOf(v, p, b).recs
  }

  /** All data that the records claim ends here. */
  function Claimed(recs: seq<Md>): nat {
    if recs == [] then 0
    else
      var c := Claimed(recs[..|recs| - 1]);
      if recs[|recs| - 1].DataEnd() > c then recs[|recs| - 1].DataEnd() else c
  }

  /** Footer: serial, type, state, magic. */
  predicate FooterErased(v: Volume, b: Bytes)
    requires VolumeOk(v) && |b| == v.size
  {
    ErasedRange(b, v.size - FOOTER_SIZE, v.size)
  }

  predicate FooterOwned(v: Volume, b: Bytes)
    requires VolumeOk(v) && |b| == v.size
  {
    var f := v.size - FOOTER_SIZE;
    b[f + 4] == 0x01 && b[f + 6] == 0x46 && b[f + 7] == 0x46 && b[f + 8] == 0x53 && b[f + 9] == 0x44
  }

  function FooterState(v: Volume, b: Bytes): bv8
    requires VolumeOk(v) && |b| == v.size
  {
    b[v.size - FOOTER_SIZE + 5]
  }

  predicate FooterLive(v: Volume, b: Bytes)
    requires VolumeOk(v) && |b| == v.size
  {
    FooterOwned(v, b) && IsLive(FooterState(v, b))
  }

  // ---------------------------------------------------------------- what the walk depends on

  ghost predicate SameFrom(b: Bytes, b': Bytes, lo: int) {
    |b| == |b'| && forall i | 0 <= i < |b| && lo <= i :: b[i] == b'[i]
  }

  /** A record depends on its own 16 bytes only. */
  lemma DecodeLocal(v: Volume, p: nat, b: Bytes, b': Bytes, j: nat)
    requires |b| == v.size && SameFrom(b, b', Start(v, j)) && Decode(v, p, b, j).Found?
    ensures Decode(v, p, b', j) == Decode(v, p, b, j)
  {
    assert b[Start(v, j)..Cursor(v, j)] == b'[Start(v, j)..Cursor(v, j)];
  }

  /** The first k records of a walk depend on the first k decodings. */
  lemma {:induction false} WalkPrefix(v: Volume, dec: Decoder, dec': Decoder, j: nat, claimed: nat, k: nat)
    requires k <= |WalkFrom(v, dec, j, claimed).recs|
    requires forall i: nat | j <= i < j + k :: dec'(i) == dec(i)
    ensures k <= |WalkFrom(v, dec', j, claimed).recs|
    ensures WalkFrom(v, dec', j, claimed).recs[..k] == WalkFrom(v, dec, j, claimed).recs[..k]
    decreases k
  {
    if k > 0 {
      var claimed' := Larger(dec(j).r.DataEnd(), claimed);
      if Start(v, j) > claimed' {
        WalkPrefix(v, dec, dec', j + 1, claimed', k - 1);
      }
    }
  }

  /** The i-th record of a walk is decoded at position j + i. */
  lemma {:induction false} WalkPositions(v: Volume, dec: Decoder, j: nat, claimed: nat, i: nat)
    requires i < |WalkFrom(v, dec, j, claimed).recs|
    ensures FOOTER_SIZE <= Start(v, j + i) && dec(j + i) == Found(WalkFrom(v, dec, j, claimed).recs[i])
    decreases i
  {
    if i > 0 {
      WalkPositions(v, dec, j + 1, Larger(dec(j).r.DataEnd(), claimed), i - 1);
    }
  }

  /** The i-th record of a sector: where it is and that it decodes. */
  lemma RecordAt(v: Volume, p: nat, b: Bytes, i: nat)
    requires |b| == v.size && i < |Records(v, p, b)|
    ensures FOOTER_SIZE <= Start(v, i) && Decode(v, p, b, i) == Found(Records(v, p, b)[i])
    ensures Records(v, p, b)[i].start == Start(v, i)
  {
    WalkPositions(v, DecoderOf(v, p, b), 0, 0, i);
  }

  /** Records stay what they are as long as the bytes from the lowest of them up do. */
  lemma RecordsPrefix(v: Volume, p: nat, b: Bytes, b': Bytes, k: nat)
    requires |b| == v.size == |b'| && k <= |Records(v, p, b)|
    requires k > 0 ==> SameFrom(b, b', Start(v, k - 1))
    ensures k <= |Records(v, p, b')| && Records(v, p, b')[..k] == Records(v, p, b)[..k]
  {
    forall i: nat | i < k
      ensures DecoderOf(v, p, b')(i) == DecoderOf(v, p, b)(i)
    {
      RecordAt(v, p, b, i);
      DecodeLocal(v, p, b, b', i);
    }
    WalkPrefix(v, DecoderOf(v, p, b), DecoderOf(v, p, b'), 0, 0, k);
  }

  /** Each record of a walk claims no more than `Claimed` of the walk. */
  lemma {:induction false} ClaimedCovers(recs: seq<Md>, i: nat)
    requires i < |recs|
    ensures recs[i].DataEnd() <= Claimed(recs)
  {
    if i < |recs| - 1 {
      ClaimedCovers(recs[..|recs| - 1], i);
    }
  }

  /** Where the free space of the sector begins, from above. */
  function LowestRecord(v: Volume, p: nat, b: Bytes): int
    requires |b| == v.size
  {
    Cursor(v, |Records(v, p, b)|)
  }

  /** Writing, completely or torn, below the records and above the data they claim leaves every
      record, in its place in the walk, and all claimed data as they are. New records can only
      appear behind the old ones. */
  lemma WindowWrite(v: Volume, p: nat, b: Bytes, b': Bytes, lo: nat, hi: nat)
    requires VolumeOk(v) && |b| == v.size == |b'| && Claimed(Records(v, p, b)) <= lo <= hi <= LowestRecord(v, p, b)
    requires forall i | 0 <= i < v.size && !(lo <= i < hi) :: b'[i] == b[i]
    ensures Records(v, p, b) <= Records(v, p, b')
    ensures FooterLive(v, b') == FooterLive(v, b)
    ensures forall k | 0 <= k < |Records(v, p, b)| :: ClaimKept(b, b', Records(v, p, b)[k])
  {
    var recs := Records(v, p, b);
    RecordsPrefix(v, p, b, b', |recs|);
    assert recs[..|recs|] == recs;
    forall k | 0 <= k < |recs|
      ensures ClaimKept(b, b', recs[k])
    {
      ClaimedCovers(recs, k);
    }
  }

  /** The data that a record claims is the same in both images. */
  ghost predicate ClaimKept(b: Bytes, b': Bytes, r: Md) {
    r.DataEnd() <= |b| == |b'| && b'[r.dataOff..r.DataEnd()] == b[r.dataOff..r.DataEnd()]
  }

  /** Walks of decoders that differ only in the record at position j + k, which keeps its data. */
  lemma {:induction false} WalkReplace(v: Volume, dec: Decoder, dec': Decoder, j: nat, claimed: nat, k: nat, r: Md)
    requires k < |WalkFrom(v, dec, j, claimed).recs|
    requires r.DataEnd() == WalkFrom(v, dec, j, claimed).recs[k].DataEnd()
    requires dec'(j + k) == Found(r) && forall i: nat | i >= j && i != j + k :: dec'(i) == dec(i)
    ensures var w := WalkFrom(v, dec, j, claimed); WalkFrom(v, dec', j, claimed) == w.(recs := w.recs[k := r])
    decreases k
  {
    var claimed' := Larger(dec(j).r.DataEnd(), claimed);
    if Start(v, j) > claimed' {
      if k == 0 {
        WalkSame(v, dec, dec', j + 1, claimed');
      } else {
        WalkReplace(v, dec, dec', j + 1, claimed', k - 1, r);
      }
    }
  }

  lemma {:induction false} WalkSame(v: Volume, dec: Decoder, dec': Decoder, j: nat, claimed: nat)
    requires forall i: nat | i >= j :: dec'(i) == dec(i)
    ensures WalkFrom(v, dec', j, claimed) == WalkFrom(v, dec, j, claimed)
    decreases v.size - RECORD_SIZE * j
  {
    if dec(j).Found? && Cursor(v, j) >= FOOTER_SIZE + RECORD_SIZE {
      WalkSame(v, dec, dec', j + 1, Larger(dec(j).r.DataEnd(), claimed));
    }
  }

  /** Tombstoning record k, completely or torn, changes that record's state and nothing else. */
  lemma TombstoneWrite(v: Volume, p: nat, b: Bytes, k: nat, after: bv8)
    requires VolumeOk(v) && |b| == v.size && k < |Records(v, p, b)| && 0 <= Start(v, k)
    requires Records(v, p, b)[k].Live() && TornByte(Records(v, p, b)[k].state, STATE_TOMBSTONED, after)
    ensures var b', recs := b[Start(v, k) := after], Records(v, p, b);
      && Records(v, p, b') == recs[k := recs[k].(state := after)] && FooterLive(v, b') == FooterLive(v, b)
      && WalkOf(v, p, b').end == WalkOf(v, p, b).end
  {
    var b', r := b[Start(v, k) := after], Records(v, p, b)[k];
    TombstoneDecoder(v, p, b, k, after);
    WalkReplace(v, DecoderOf(v, p, b), DecoderOf(v, p, b'), 0, 0, k, r.(state := after));
    FooterLocal(v, b, b');
  }

  lemma TombstoneDecoder(v: Volume, p: nat, b: Bytes, k: nat, after: bv8)
    requires |b| == v.size && k < |Records(v, p, b)| && 0 <= Start(v, k)
    requires Records(v, p, b)[k].Live() && TornByte(Records(v, p, b)[k].state, STATE_TOMBSTONED, after)
    ensures var dec, dec' := DecoderOf(v, p, b), DecoderOf(v, p, b[Start(v, k) := after]);
      && dec'(k) == Found(Records(v, p, b)[k].(state := after))
      && forall i: nat | i != k :: dec'(i) == dec(i)
  {
    var b', r := b[Start(v, k) := after], Records(v, p, b)[k];
    RecordAt(v, p, b, k);
    LifecycleTorn(r.state, after);
    StateDecodes(v, p, b, k, after);
    forall i: nat | i != k
      ensures Decode(v, p, b', i) == Decode(v, p, b, i)
    {
      OtherRecord(v, p, b, k, after, i);
    }
  }

  lemma FooterLocal(v: Volume, b: Bytes, b': Bytes)
    requires VolumeOk(v) && |b| == v.size && SameFrom(b, b', v.size - FOOTER_SIZE)
    ensures FooterLive(v, b') == FooterLive(v, b) && FooterState(v, b') == FooterState(v, b)
    ensures FooterErased(v, b') == FooterErased(v, b)
  {
    assert b[v.size - FOOTER_SIZE..] == b'[v.size - FOOTER_SIZE..];
  }

  lemma StateByte(v: Volume, b: Bytes, j: nat, after: bv8)
    requires |b| == v.size && 0 <= Start(v, j)
    ensures MdAt(v, b[Start(v, j) := after], j) == MdAt(v, b, j).(state := after)
  {
    var lo, hi := Start(v, j), Cursor(v, j);
    assert b[lo := after][lo..hi] == b[lo..hi][0 := after];
  }

  lemma StateDecodes(v: Volume, p: nat, b: Bytes, k: nat, after: bv8)
    requires |b| == v.size && FOOTER_SIZE <= Start(v, k) && Decode(v, p, b, k).Found?
    requires Decode(v, p, b, k).r.state != UNCOMMITTED && after != UNCOMMITTED && ValidPairCleared(after)
    ensures Decode(v, p, b[Start(v, k) := after], k) == Found(Decode(v, p, b, k).r.(state := after))
  {
    StateByte(v, b, k, after);
    assert b[Start(v, k) := after][Cursor(v, k) - 1] == b[Cursor(v, k) - 1];
  }

  lemma OtherRecord(v: Volume, p: nat, b: Bytes, k: nat, after: bv8, i: nat)
    requires |b| == v.size && 0 <= Start(v, k) && i != k
    ensures Decode(v, p, b[Start(v, k) := after], i) == Decode(v, p, b, i)
  {
    var b' := b[Start(v, k) := after];
    if Cursor(v, i) > FOOTER_SIZE {
      assert b'[Cursor(v, i) - 1] == b[Cursor(v, i) - 1];
    }
    if Cursor(v, i) >= FOOTER_SIZE + RECORD_SIZE {
      assert b'[Start(v, i)..Cursor(v, i)] == b[Start(v, i)..Cursor(v, i)];
    }
  }

  /** The full hint, completely or torn, leaves records and liveness alone. */
  lemma FullHintWrite(v: Volume, p: nat, b: Bytes, after: bv8)
    requires VolumeOk(v) && |b| == v.size && FooterLive(v, b) && TornByte(FooterState(v, b), STATE_FULL, after)
    ensures var b' := b[v.size - FOOTER_SIZE + 5 := after]; WalkOf(v, p, b') == WalkOf(v, p, b) && FooterLive(v, b')
  {
    var b' := b[v.size - FOOTER_SIZE + 5 := after];
    LifecycleTorn(FooterState(v, b), after);
    forall i: nat
      ensures Decode(v, p, b', i) == Decode(v, p, b, i)
    {
      BelowFooter(v, p, b, b', i);
    }
    WalkSame(v, DecoderOf(v, p, b), DecoderOf(v, p, b'), 0, 0);
  }

  lemma BelowFooter(v: Volume, p: nat, b: Bytes, b': Bytes, i: nat)
    requires |b| == v.size == |b'| && forall k | 0 <= k < v.size - FOOTER_SIZE :: b[k] == b'[k]
    ensures Decode(v, p, b', i) == Decode(v, p, b, i)
  {
    if Cursor(v, i) >= FOOTER_SIZE + RECORD_SIZE {
      assert b'[Start(v, i)..Cursor(v, i)] == b[Start(v, i)..Cursor(v, i)];
    }
  }

  // ---------------------------------------------------------------- appending a record

  /** The 16 bytes of a record. */
  function Encode(r: Md): (b: Bytes)
    requires r.size < 0x1_0000_0000
    ensures |b| == RECORD_SIZE
  {
    var lo, hi := r.size % 0x1_0000, r.size / 0x1_0000;
    [r.state, Lo(r.slot), Hi(r.slot), Lo(r.next), Hi(r.next), Lo(r.span), Hi(r.span), Lo(r.dataOff), Hi(r.dataOff),
     Lo(r.dataLen), Hi(r.dataLen), Lo(lo), Hi(lo), Lo(hi), Hi(hi), r.typ]
  }

  lemma EncodedSlot(r: Md)
    requires r.size < 0x1_0000_0000
    ensures Load16(Encode(r), 1) == r.slot
  {
    Le16RoundTrip(r.slot);
  }

  lemma EncodedNext(r: Md)
    requires r.size < 0x1_0000_0000
    ensures Load16(Encode(r), 3) == r.next
  {
    Le16RoundTrip(r.next);
  }

  lemma EncodedSpan(r: Md)
    requires r.size < 0x1_0000_0000
    ensures Load16(Encode(r), 5) == r.span
  {
    Le16RoundTrip(r.span);
  }

  lemma EncodedDataOff(r: Md)
    requires r.size < 0x1_0000_0000
    ensures Load16(Encode(r), 7) == r.dataOff
  {
    Le16RoundTrip(r.dataOff);
  }

  lemma EncodedDataLen(r: Md)
    requires r.size < 0x1_0000_0000
    ensures Load16(Encode(r), 9) == r.dataLen
  {
    Le16RoundTrip(r.dataLen);
  }

  lemma EncodedSize(r: Md)
    requires r.size < 0x1_0000_0000
    ensures Load32(Encode(r), 11) == r.size
  {
    Le16RoundTrip(r.size % 0x1_0000);
    Le16RoundTrip(r.size / 0x1_0000);
  }

  lemma FieldsAre(rec: Bytes, r: Md)
    requires |rec| == RECORD_SIZE && rec[0] == r.state && rec[15] == r.typ
    requires Load16(rec, 1) == r.slot && Load16(rec, 3) == r.next && Load16(rec, 5) == r.span
    requires Load16(rec, 7) == r.dataOff && Load16(rec, 9) == r.dataLen && Load32(rec, 11) == r.size
    ensures Fields(rec, r.start) == r
  {
  }

  /** Decoding what was encoded gives the record back. */
  lemma EncodeRoundTrip(r: Md)
    requires r.size < 0x1_0000_0000
    ensures Fields(Encode(r), r.start) == r
  {
    EncodedSlot(r);
    EncodedNext(r);
    EncodedSpan(r);
    EncodedDataOff(r);
    EncodedDataLen(r);
    EncodedSize(r);
    FieldsAre(Encode(r), r);
  }

  /** The walk meets records[i] at position i and finds room behind it. */
  ghost predicate Fits(v: Volume, dec: Decoder, recs: seq<Md>, i: nat) {
    i < |recs| && dec(i) == Found(recs[i]) && FOOTER_SIZE <= Start(v, i) && Start(v, i) > Claimed(recs[..i + 1])
  }

  /** A walk that fits all of `recs` goes on behind them. */
  lemma {:induction false} WalkSkip(v: Volume, dec: Decoder, recs: seq<Md>)
    requires forall i: nat | i < |recs| :: Fits(v, dec, recs, i)
    ensures var w' := WalkFrom(v, dec, |recs|, Claimed(recs));
      WalkFrom(v, dec, 0, 0) == Walk(recs + w'.recs, w'.end)
    decreases |recs|
  {
    if recs == [] {
      var w' := WalkFrom(v, dec, 0, 0);
      assert [] + w'.recs == w'.recs;
    } else {
      var n := |recs| - 1;
      FitsInit(v, dec, recs, recs[..n]);
      WalkSkip(v, dec, recs[..n]);
      assert Fits(v, dec, recs, n) && recs[..n + 1] == recs;
      SkipOne(v, dec, n, Claimed(recs[..n]), recs[n]);
      SkipJoin(recs[..n], recs[n], recs, WalkFrom(v, dec, n + 1, Claimed(recs)).recs);
    }
  }

  lemma FitsInit(v: Volume, dec: Decoder, recs: seq<Md>, init: seq<Md>)
    requires init <= recs && forall i: nat | i < |recs| :: Fits(v, dec, recs, i)
    ensures forall i: nat | i < |init| :: Fits(v, dec, init, i)
  {
    forall i: nat | i < |init|
      ensures Fits(v, dec, init, i)
    {
      assert Fits(v, dec, recs, i);
      assert init[..i + 1] == recs[..i + 1];
    }
  }

  lemma SkipJoin(init: seq<Md>, last: Md, recs: seq<Md>, rest: seq<Md>)
    requires recs == init + [last]
    ensures init + ([last] + rest) == recs + rest
  {
  }

  lemma SkipOne(v: Volume, dec: Decoder, j: nat, claimed: nat, r: Md)
    requires dec(j) == Found(r) && FOOTER_SIZE <= Start(v, j) && Start(v, j) > Larger(r.DataEnd(), claimed)
    ensures var w' := WalkFrom(v, dec, j + 1, Larger(r.DataEnd(), claimed));
      WalkFrom(v, dec, j, claimed) == Walk([r] + w'.recs, w'.end)
  {
  }

  /** In a walk that ended in erased space every record left room. */
  lemma {:induction false} WalkRoom(v: Volume, dec: Decoder, j: nat, claimed: nat, i: nat)
    requires WalkFrom(v, dec, j, claimed).end.EndErased? && i < |WalkFrom(v, dec, j, claimed).recs|
    ensures Start(v, j + i) > Larger(Claimed(WalkFrom(v, dec, j, claimed).recs[..i + 1]), claimed)
    decreases i
  {
    var r, recs := dec(j).r, WalkFrom(v, dec, j, claimed).recs;
    var rest := WalkFrom(v, dec, j + 1, Larger(r.DataEnd(), claimed)).recs;
    assert recs == [r] + rest;
    assert recs[..i + 1] == [r] + rest[..i];
    ClaimedFront(r, rest[..i]);
    if i > 0 {
      WalkRoom(v, dec, j + 1, Larger(r.DataEnd(), claimed), i - 1);
    }
  }

  /** A walk that agrees with one that ended in erased space, up to there, goes on from there. */
  lemma WalkExtend(v: Volume, dec: Decoder, dec': Decoder)
    requires WalkFrom(v, dec, 0, 0).end.EndErased?
    requires forall i: nat | i < |WalkFrom(v, dec, 0, 0).recs| :: dec'(i) == dec(i)
    ensures var recs := WalkFrom(v, dec, 0, 0).recs;
      var w' := WalkFrom(v, dec', |recs|, Claimed(recs)); WalkFrom(v, dec', 0, 0) == Walk(recs + w'.recs, w'.end)
  {
    var recs := WalkFrom(v, dec, 0, 0).recs;
    forall i: nat | i < |recs|
      ensures Fits(v, dec', recs, i)
    {
      WalkPositions(v, dec, 0, 0, i);
      WalkRoom(v, dec, 0, 0, i);
    }
    WalkSkip(v, dec', recs);
  }

  lemma {:induction false} ClaimedFront(r: Md, rest: seq<Md>)
    ensures Claimed([r] + rest) == Larger(r.DataEnd(), Claimed(rest))
  {
    var recs := [r] + rest;
    if rest == [] {
      assert recs[..0] == [];
    } else {
      ClaimedFront(r, rest[..|rest| - 1]);
      assert recs[..|recs| - 1] == [r] + rest[..|rest| - 1];
    }
  }

  /** The record behind the last one, its 16 bytes and what follows it, are as the free window has
      them: the walk ended in erased space there. */
  predicate RoomForRecord(v: Volume, p: nat, b: Bytes)
    requires |b| == v.size
  {
    var w := WalkOf(v, p, b);
    var n := |w.recs|;
    && w.end.EndErased? && FOOTER_SIZE <= Start(v, n)
    && ErasedRange(b, Start(v, n), Cursor(v, n))
  }

  /** Packed metadata append: after the record has been programmed the walk yields the old records
      followed by the new one. */
  lemma AppendRecord(v: Volume, p: nat, b: Bytes, b': Bytes, r: Md)
    requires VolumeOk(v) && |b| == v.size == |b'| && RoomForRecord(v, p, b)
    requires var n := |Records(v, p, b)|;
      && r.start == Start(v, n) && r.size < 0x1_0000_0000 && Decodes(v, p, r)
      && Claimed(Records(v, p, b)) <= r.DataEnd()
      && (r.DataEnd() < r.start ==> b[r.start - 1] == ERASED_BYTE)
      && b' == Program(b, r.start, Encode(r))
    ensures Records(v, p, b') == Records(v, p, b) + [r]
    ensures (WalkOf(v, p, b').end.EndErased? || WalkOf(v, p, b').end.EndClaimed?)
    ensures FooterLive(v, b') == FooterLive(v, b)
  {
    var n, w := |Records(v, p, b)|, WalkOf(v, p, b);
    NewRecordDecodes(v, p, b, b', n, r);
    AppendDecoder(v, p, b, b', n);
    WalkExtend(v, DecoderOf(v, p, b), DecoderOf(v, p, b'));
    OneMoreRecord(v, p, b', n, Claimed(w.recs), r);
    FooterLocal(v, b, b');
  }

  lemma NewRecordDecodes(v: Volume, p: nat, b: Bytes, b': Bytes, n: nat, r: Md)
    requires VolumeOk(v) && |b| == v.size && FOOTER_SIZE <= Start(v, n) && ErasedRange(b, Start(v, n), Cursor(v, n))
    requires r.start == Start(v, n) && r.size < 0x1_0000_0000 && Decodes(v, p, r)
    requires b' == Program(b, r.start, Encode(r))
    ensures Decode(v, p, b', n) == Found(r)
    ensures forall i | 0 <= i < v.size && !(Start(v, n) <= i < Cursor(v, n)) :: b'[i] == b[i]
  {
    ProgramErased(b, r.start, Encode(r));
    EncodeRoundTrip(r);
    assert b'[Start(v, n)..Cursor(v, n)] == Encode(r);
    assert b'[Cursor(v, n) - 1] == b'[Start(v, n)..Cursor(v, n)][15];
  }

  lemma AppendDecoder(v: Volume, p: nat, b: Bytes, b': Bytes, n: nat)
    requires |b| == v.size == |b'| && n == |Records(v, p, b)| && SameFrom(b, b', Cursor(v, n))
    ensures forall i: nat | i < n :: DecoderOf(v, p, b')(i) == DecoderOf(v, p, b)(i)
  {
    forall i: nat | i < n
      ensures DecoderOf(v, p, b')(i) == DecoderOf(v, p, b)(i)
    {
      RecordAt(v, p, b, i);
      DecodeLocal(v, p, b, b', i);
    }
  }

  lemma ProgramErased(b: Bytes, off: nat, data: Bytes)
    requires off + |data| <= |b| && ErasedRange(b, off, off + |data|)
    ensures Program(b, off, data)[off..off + |data|] == data
    ensures forall i | 0 <= i < |b| && !(off <= i < off + |data|) :: Program(b, off, data)[i] == b[i]
  {
    forall i | 0 <= i < |data|
      ensures Program(b, off, data)[off + i] == data[i]
    {
      assert b[off + i] == ERASED_BYTE;
      ErasedAnd(data[i]);
    }
  }

  lemma ErasedAnd(x: bv8)
    ensures ERASED_BYTE & x == x
  {
  }

  /** A walk that starts at a fresh last record yields that record and ends. */
  lemma OneMoreRecord(v: Volume, p: nat, b: Bytes, n: nat, claimed: nat, r: Md)
    requires |b| == v.size && FOOTER_SIZE <= Start(v, n) && Decode(v, p, b, n) == Found(r)
    requires r.start == Start(v, n) && claimed <= r.DataEnd()
    requires r.DataEnd() < r.start ==> b[r.start - 1] == ERASED_BYTE
    ensures var w := WalkFrom(v, DecoderOf(v, p, b), n, claimed);
              w.recs == [r] && (w.end.EndErased? || w.end.EndClaimed?)
  {
    var dec := DecoderOf(v, p, b);
    if Start(v, n) > r.DataEnd() {
      assert !Decode(v, p, b, n + 1).Found?;
      assert WalkFrom(v, dec, n + 1, r.DataEnd()).recs == [];
    }
  }

  // ---------------------------------------------------------------- the free window

  const MAX_RECORDS: nat := 32
  const MIN_USABLE: nat := 128

  /** What the free-window search answers; `full` asks for the sector to be marked full. */
  datatype Window = NoWindow(full: bool) | Window(dataOff: nat, recordOff: nat, needsFooter: bool, records: nat)

  /** A record that ends the search: a continuation in normal allocation, or a live record of the
      slot that is to be stored. */
  predicate Rejects(r: Md, slot: u16, normal: bool) {
    (normal && r.typ == TYPE_CONT) || (r.Live() && r.slot == slot)
  }

  /** fffs_find_sector_free_window. */
  function FreeWindow(v: Volume, p: nat, b: Bytes, min: nat, slot: u16, normal: bool): Window
    requires VolumeOk(v) && |b| == v.size
  {
    if FooterErased(v, b) then
      if AllErased(b) && min <= v.size - FOOTER_SIZE - RECORD_SIZE
      then Window(0, v.size - FOOTER_SIZE - RECORD_SIZE, true, 0) else NoWindow(false)
    else if !FooterLive(v, b) || (normal && FullPairCleared(FooterState(v, b))) then NoWindow(false)
    else WindowBehind(v, b, WalkOf(v, p, b), min, slot, normal)
  }

  function WindowBehind(v: Volume, b: Bytes, w: Walk, min: nat, slot: u16, normal: bool): Window
    requires |b| == v.size
  {
    var stop := FirstReject(w.recs, slot, normal);
    var n, data := |w.recs|, Claimed(w.recs);
    if stop < n then NoWindow(normal && w.recs[stop].typ == TYPE_CONT)
    else if w.end.EndInvalid? || w.end.Corrupt? then NoWindow(false)
    else if n >= MAX_RECORDS then NoWindow(true)
    else if Start(v, n) < data || Start(v, n) - data < min then NoWindow(normal)
    else if ErasedRange(b, data, Start(v, n)) then Window(data, Start(v, n), false, n)
    else NoWindow(false)
  }

  function FirstReject(recs: seq<Md>, slot: u16, normal: bool): (k: nat)
    ensures k <= |recs| && (forall i | 0 <= i < k :: !Rejects(recs[i], slot, normal))
    ensures k < |recs| ==> Rejects(recs[k], slot, normal)
  {
    if recs == [] || Rejects(recs[0], slot, normal) then 0
    else 1 + FirstReject(recs[1..], slot, normal)
  }

  /** A window is erased, lies between all claimed data and all records, is large enough, and its
      sector holds no live record of the slot. */
  lemma WindowIsFree(v: Volume, p: nat, b: Bytes, min: nat, slot: u16, normal: bool)
    requires VolumeOk(v) && |b| == v.size && FreeWindow(v, p, b, min, slot, normal).Window?
    ensures var w := FreeWindow(v, p, b, min, slot, normal);
      && w.dataOff + min <= w.recordOff && ErasedRange(b, w.dataOff, w.recordOff)
      && (w.needsFooter ==> AllErased(b))
      && (!w.needsFooter ==>
            && FooterLive(v, b) && w.recordOff == Start(v, w.records) && w.records == |Records(v, p, b)| < MAX_RECORDS
            && (forall k | 0 <= k < |Records(v, p, b)| ::
                  var r := Records(v, p, b)[k];
                  && r.DataEnd() <= w.dataOff && w.recordOff + RECORD_SIZE <= r.start
                  && !(r.Live() && r.slot == slot)))
  {
    var recs := Records(v, p, b);
    if !FooterErased(v, b) {
      forall k | 0 <= k < |recs|
        ensures recs[k].DataEnd() <= Claimed(recs) && recs[k].start == Start(v, k)
      {
        ClaimedCovers(recs, k);
        RecordAt(v, p, b, k);
      }
    }
  }

  /** The search as the code runs it: one record at a time, with the highest data end so far. */
  method FindSectorFreeWindow(v: Volume, p: nat, b: Bytes, min: nat, slot: u16, normal: bool) returns (w: Window)
    requires VolumeOk(v) && |b| == v.size
    ensures w == FreeWindow(v, p, b, min, slot, normal)
  {
    if FooterErased(v, b) {
      if !AllErased(b) || v.size - FOOTER_SIZE - RECORD_SIZE < min {
        return NoWindow(false);
      }
      return Window(0, v.size - FOOTER_SIZE - RECORD_SIZE, true, 0);
    }
    if !FooterLive(v, b) || (normal && FullPairCleared(FooterState(v, b))) {
      return NoWindow(false);
    }
    w := WindowByWalk(v, b, DecoderOf(v, p, b), min, slot, normal);
  }

  method WindowByWalk(v: Volume, b: Bytes, dec: Decoder, min: nat, slot: u16, normal: bool) returns (w: Window)
    requires VolumeOk(v) && |b| == v.size
    ensures w == WindowBehind(v, b, WalkFrom(v, dec, 0, 0), min, slot, normal)
  {
    var j: nat, maxDataEnd: nat, active := 0, 0, true;
    ghost var done: seq<Md> := [];
    assert [] + WalkFrom(v, dec, 0, 0).recs == WalkFrom(v, dec, 0, 0).recs;
    while active
      invariant |done| == j && maxDataEnd == Claimed(done)
      invariant Searching(v, dec, done, active, slot, normal)
      decreases active, v.size - RECORD_SIZE * j
    {
      var d := dec(j);
      if !d.Found? || Cursor(v, j) < FOOTER_SIZE + RECORD_SIZE {
        SearchEnd(v, dec, done, slot, normal);
        if d.EndInvalid? || d.Corrupt? || d.Found? {
          return NoWindow(false);
        }
        active := false;
      } else {
        SearchTurn(v, dec, done, slot, normal);
        if normal && d.r.typ == TYPE_CONT {
          return NoWindow(true);
        }
        if d.r.Live() && d.r.slot == slot {
          return NoWindow(false);
        }
        maxDataEnd := Larger(d.r.DataEnd(), maxDataEnd);
        done := done + [d.r];
        active := Start(v, j) > maxDataEnd;
        j := j + 1;
      }
    }
    if j >= MAX_RECORDS {
      return NoWindow(true);
    }
    var newRecordOff := Start(v, j);
    if newRecordOff < maxDataEnd || newRecordOff - maxDataEnd < min {
      return NoWindow(normal);
    }
    if !ErasedRange(b, maxDataEnd, newRecordOff) {
      return NoWindow(false);
    }
    return Window(maxDataEnd, newRecordOff, false, j);
  }

  /** The search has passed `done`; if it is active the walk goes on behind, else that was all. */
  ghost predicate Searching(v: Volume, dec: Decoder, done: seq<Md>, active: bool, slot: u16, normal: bool) {
    var whole := WalkFrom(v, dec, 0, 0);
    && FirstReject(done, slot, normal) == |done|
    && (if active then
          var rest := WalkFrom(v, dec, |done|, Claimed(done)); whole == Walk(done + rest.recs, rest.end)
        else done == whole.recs && !whole.end.EndInvalid? && !whole.end.Corrupt?)
  }

  /** The walk ends at this position: the search has seen every record. */
  lemma SearchEnd(v: Volume, dec: Decoder, done: seq<Md>, slot: u16, normal: bool)
    requires Searching(v, dec, done, true, slot, normal)
    requires !dec(|done|).Found? || Cursor(v, |done|) < FOOTER_SIZE + RECORD_SIZE
    ensures var whole, d := WalkFrom(v, dec, 0, 0), dec(|done|);
      && done == whole.recs
      && (whole.end.EndInvalid? || whole.end.Corrupt? <==> d.EndInvalid? || d.Corrupt? || d.Found?)
  {
    assert WalkFrom(v, dec, |done|, Claimed(done)).recs == [];
  }

  /** The walk yields record r here: it is the next one, and the walk goes on behind it or ends. */
  lemma SearchFound(v: Volume, dec: Decoder, done: seq<Md>, slot: u16, normal: bool)
    requires Searching(v, dec, done, true, slot, normal)
    requires dec(|done|).Found? && Cursor(v, |done|) >= FOOTER_SIZE + RECORD_SIZE
    ensures var whole, r := WalkFrom(v, dec, 0, 0), dec(|done|).r;
      && Claimed(done + [r]) == Larger(r.DataEnd(), Claimed(done))
      && done + [r] <= whole.recs
      && (if Start(v, |done|) > Claimed(done + [r]) then
            var rest := WalkFrom(v, dec, |done| + 1, Claimed(done + [r]));
            whole == Walk((done + [r]) + rest.recs, rest.end)
          else whole == Walk(done + [r], EndClaimed))
  {
    var r := dec(|done|).r;
    assert (done + [r])[..|done|] == done;
    if Start(v, |done|) > Claimed(done + [r]) {
      SkipOne(v, dec, |done|, Claimed(done), r);
      SkipJoin(done, r, done + [r], WalkFrom(v, dec, |done| + 1, Claimed(done + [r])).recs);
    }
  }

  lemma SearchTurn(v: Volume, dec: Decoder, done: seq<Md>, slot: u16, normal: bool)
    requires Searching(v, dec, done, true, slot, normal)
    requires dec(|done|).Found? && Cursor(v, |done|) >= FOOTER_SIZE + RECORD_SIZE
    ensures var whole, r := WalkFrom(v, dec, 0, 0), dec(|done|).r;
      && Claimed(done + [r]) == Larger(r.DataEnd(), Claimed(done))
      && (Rejects(r, slot, normal) ==>
            FirstReject(whole.recs, slot, normal) == |done| < |whole.recs| && whole.recs[|done|] == r)
      && (!Rejects(r, slot, normal) ==>
            Searching(v, dec, done + [r], Start(v, |done|) > Claimed(done + [r]), slot, normal))
  {
    SearchFound(v, dec, done, slot, normal);
    RejectStep(done, dec(|done|).r, WalkFrom(v, dec, 0, 0).recs, slot, normal);
  }

  lemma {:induction false} RejectStep(done: seq<Md>, r: Md, recs: seq<Md>, slot: u16, normal: bool)
    requires FirstReject(done, slot, normal) == |done| && done + [r] <= recs
    ensures Rejects(r, slot, normal) ==> FirstReject(recs, slot, normal) == |done|
    ensures !Rejects(r, slot, normal) ==> FirstReject(done + [r], slot, normal) == |done| + 1
  {
    assert (done + [r])[|done|] == r && recs[|done|] == r;
    assert forall i | 0 <= i < |done| :: done[i] == recs[i];
  }

  // ---------------------------------------------------------------- a torn record in a shared sector

  /** The root's data has been programmed into a free window of a shared sector, its record not yet. */
  ghost predicate DataWritten(v: Volume, p: nat, b: Bytes, b1: Bytes, data: Bytes) {
    && VolumeOk(v) && |b| == v.size == |b1| && FooterLive(v, b) && RoomForRecord(v, p, b)
    && var n, off := |Records(v, p, b)|, Claimed(Records(v, p, b));
    && data != [] && data[0] != ERASED_BYTE && off + |data| <= Start(v, n)
    && ErasedRange(b, off, Start(v, n))
    && b1 == Program(b, off, data)
  }

  /** Bytes of the window before and after the data. */
  lemma DataBytes(v: Volume, p: nat, b: Bytes, b1: Bytes, data: Bytes)
    requires DataWritten(v, p, b, b1, data)
    ensures var n, off := |Records(v, p, b)|, Claimed(Records(v, p, b));
      && b1[off] == data[0] && ErasedRange(b1, off + |data|, Cursor(v, n))
      && (forall i | 0 <= i < v.size && !(off <= i < off + |data|) :: b1[i] == b[i])
  {
    var n, off := |Records(v, p, b)|, Claimed(Records(v, p, b));
    ProgramErased(b, off, data);
    assert b1[off] == b1[off..off + |data|][0];
  }

  /** The image after the record program was interrupted. */
  ghost predicate RecordTorn(v: Volume, p: nat, b: Bytes, b1: Bytes, data: Bytes, r: Md, c: Bytes) {
    && DataWritten(v, p, b, b1, data)
    && var n, off := |Records(v, p, b)|, Claimed(Records(v, p, b));
    && r.start == Start(v, n) && r.dataOff == off && r.dataLen == |data| && r.size < 0x1_0000_0000
    && Torn(b1, r.start, Encode(r), c)
  }

  /** Whatever such an image decodes at the torn record claims at least the data that was written. */
  lemma TornRecordClaims(v: Volume, p: nat, b: Bytes, b1: Bytes, data: Bytes, r: Md, c: Bytes)
    requires RecordTorn(v, p, b, b1, data, r, c) && Decode(v, p, c, |Records(v, p, b)|).Found?
    ensures r.DataEnd() <= Decode(v, p, c, |Records(v, p, b)|).r.DataEnd()
    ensures Decode(v, p, c, |Records(v, p, b)|).r.start == r.start
  {
    var n := |Records(v, p, b)|;
    DataBytes(v, p, b, b1, data);
    TornWords(b1, r.start, Encode(r), c);
    ClaimsMore(v, n, r, c);
  }

  /** Every word of the torn bytes is at least as large as the word that was meant. */
  ghost predicate WordsLarger(c: Bytes, at: nat, e: Bytes) {
    at + |e| <= |c| && forall k: nat | k + 2 <= |e| :: Load16(e, k) <= Load16(c, at + k)
  }

  lemma TornWords(b1: Bytes, at: nat, e: Bytes, c: Bytes)
    requires at + |e| <= |b1| && ErasedRange(b1, at, at + |e|) && Torn(b1, at, e, c)
    ensures WordsLarger(c, at, e)
  {
    forall k: nat | k + 2 <= |e|
      ensures Load16(e, k) <= Load16(c, at + k)
    {
      TornWord(b1, at, e, c, k);
    }
  }

  lemma ClaimsMore(v: Volume, n: nat, r: Md, c: Bytes)
    requires |c| == v.size && FOOTER_SIZE <= Start(v, n) == r.start && r.size < 0x1_0000_0000
    requires WordsLarger(c, r.start, Encode(r))
    ensures r.DataEnd() <= MdAt(v, c, n).DataEnd()
  {
    EncodedDataOff(r);
    EncodedDataLen(r);
    RecordWord(v, c, n, 7);
    RecordWord(v, c, n, 9);
  }

  lemma RecordWord(v: Volume, c: Bytes, n: nat, k: nat)
    requires |c| == v.size && FOOTER_SIZE <= Start(v, n) && k + 2 <= RECORD_SIZE
    ensures Load16(c[Start(v, n)..Cursor(v, n)], k) == Load16(c, Start(v, n) + k)
  {
  }

  lemma TornWord(b1: Bytes, at: nat, e: Bytes, c: Bytes, k: nat)
    requires k + 2 <= |e| && at + |e| <= |b1| && ErasedRange(b1, at, at + |e|) && Torn(b1, at, e, c)
    ensures Load16(e, k) <= Load16(c, at + k)
  {
    var i, j := at + k, at + k + 1;
    assert TornByte(b1[i], e[i - at], c[i]) && TornByte(b1[j], e[j - at], c[j]);
    TornIsLarger(e[k], c[i]);
    TornIsLarger(e[k + 1], c[j]);
  }

  /** How the walk over a torn image ends: in the old records without a usable window, or with one
      record more that claims the written data. */
  lemma TornWalk(v: Volume, p: nat, b: Bytes, b1: Bytes, data: Bytes, r: Md, c: Bytes)
    requires RecordTorn(v, p, b, b1, data, r, c)
    ensures |c| == v.size && FooterLive(v, c)
    ensures var recs, w := Records(v, p, b), WalkOf(v, p, c);
      && (w.recs == recs ==> w.end == Decode(v, p, c, |recs|))
      && (w.recs != recs ==>
            && |w.recs| == |recs| + 1 && recs <= w.recs && r.DataEnd() <= Claimed(w.recs)
            && (w.end.EndErased? || Start(v, |recs| + 1) < Claimed(w.recs)))
  {
    var n, recs := |Records(v, p, b)|, Records(v, p, b);
    DataBytes(v, p, b, b1, data);
    assert SameFrom(b, c, Cursor(v, n));
    AppendDecoder(v, p, b, c, n);
    WalkExtend(v, DecoderOf(v, p, b), DecoderOf(v, p, c));
    FooterLocal(v, b, c);
    var d := Decode(v, p, c, n);
    if d.Found? {
      TornRecordClaims(v, p, b, b1, data, r, c);
      TornEnd(v, p, c, n, Claimed(recs), r.DataEnd());
    }
  }

  /** Behind the torn record there is erased space, or its claim has met the records. */
  lemma TornEnd(v: Volume, p: nat, c: Bytes, n: nat, claimed: nat, dataEnd: nat)
    requires |c| == v.size && FOOTER_SIZE <= Start(v, n) && Decode(v, p, c, n).Found?
    requires claimed <= dataEnd <= Decode(v, p, c, n).r.DataEnd() && dataEnd <= Start(v, n)
    requires ErasedRange(c, dataEnd, Start(v, n))
    ensures var w := WalkFrom(v, DecoderOf(v, p, c), n, claimed);
      && w.recs == [Decode(v, p, c, n).r]
      && (w.end.EndErased? || (w.end.EndClaimed? && Start(v, n) - RECORD_SIZE < Decode(v, p, c, n).r.DataEnd()))
  {
    var r, dec := Decode(v, p, c, n).r, DecoderOf(v, p, c);
    if Start(v, n) > r.DataEnd() {
      assert c[Start(v, n) - 1] == ERASED_BYTE;
      assert !dec(n + 1).Found?;
    }
  }

  /** A torn packed-root record is never overwritten: its data was programmed first and starts with
      a byte other than 0xff, so the search either refuses the sector or hands out a window that
      is erased throughout, record included, behind everything that was written. */
  lemma TornRootNeverOverwritten(v: Volume, p: nat, b: Bytes, b1: Bytes, data: Bytes, r: Md, c: Bytes,
                                 min: nat, slot: u16, normal: bool)
    requires RecordTorn(v, p, b, b1, data, r, c)
    ensures |c| == v.size
    ensures var w := FreeWindow(v, p, c, min, slot, normal);
      w.Window? ==> BehindData(v, c, w, r.DataEnd(), r.start)
  {
    var n, off := |Records(v, p, b)|, Claimed(Records(v, p, b));
    TornWalk(v, p, b, b1, data, r, c);
    DataBytes(v, p, b, b1, data);
    NotErased(v, c);
    assert c[off] == data[0];
    assert ErasedRange(c, r.DataEnd(), r.start);
    WindowAfterTear(v, c, WalkOf(v, p, c), Records(v, p, b), r, min, slot, normal);
  }

  /** The window, record included, is erased and lies between the written data and the torn record. */
  ghost predicate BehindData(v: Volume, c: Bytes, w: Window, dataEnd: nat, start: nat) {
    && w.Window? && dataEnd <= w.dataOff <= w.recordOff && w.recordOff + RECORD_SIZE <= start <= |c|
    && ErasedRange(c, w.dataOff, w.recordOff + RECORD_SIZE)
  }

  lemma NotErased(v: Volume, c: Bytes)
    requires VolumeOk(v) && |c| == v.size && FooterLive(v, c)
    ensures !FooterErased(v, c)
  {
    assert c[v.size - FOOTER_SIZE + 4] == 0x01;
  }

  lemma WindowAfterTear(v: Volume, c: Bytes, w: Walk, recs: seq<Md>, r: Md, min: nat, slot: u16, normal: bool)
    requires |c| == v.size && r.start == Start(v, |recs|) && r.DataEnd() <= r.start && r.dataLen > 0
    requires r.dataOff == Claimed(recs) && c[r.dataOff] != ERASED_BYTE && ErasedRange(c, r.DataEnd(), r.start)
    requires w.recs != recs ==>
               && |w.recs| == |recs| + 1 && r.DataEnd() <= Claimed(w.recs)
               && (w.end.EndErased? || Start(v, |recs| + 1) < Claimed(w.recs))
    ensures var x := WindowBehind(v, c, w, min, slot, normal); x.Window? ==> BehindData(v, c, x, r.DataEnd(), r.start)
  {
  }
}
