/** A data sector as the layers above see it: what its footer says, which records the walk yields, and
    its bytes. Every byte-level change of SectorMd is one of the few changes below. */
module SectorView {
  import opened Nor
  import opened SectorMd

  /** How the footer reads: all erased, live, fit for erasing (foreign, torn or tombstoned), or none
      of these. */
  datatype Footer = Blank | Live(full: bool) | Dead | Odd

  datatype Sec = Sec(footer: Footer, recs: seq<Md>, end: Step, bytes: Bytes)

  /** The footer tests of gc_step and find_sector_free_window. */
  function FooterOf(v: Volume, b: Bytes): Footer
    requires VolumeOk(v) && |b| == v.size
  {
    var state := FooterState(v, b);
    if FooterErased(v, b) then Blank
    else if !FooterOwned(v, b) then Dead
    else if IsLive(state) then Live(FullPairCleared(state))
    else if state & 0x81 == 0x81 && state & 0x42 == 0x42 && state != 0xff then Odd
    else Dead
  }

  function View(v: Volume, p: nat, b: Bytes): Sec
    requires VolumeOk(v) && |b| == v.size
  {
    Sec(FooterOf(v, b), WalkOf(v, p, b).recs, WalkOf(v, p, b).end, b)
  }

  /** First live record of a slot (read_md_for_slot). */
  function FirstLive(recs: seq<Md>, slot: u16): (k: nat)
    ensures k <= |recs|
    ensures k < |recs| ==> recs[k].Live() && recs[k].slot == slot
    ensures forall i | 0 <= i < k :: !(recs[i].Live() && recs[i].slot == slot)
  {
    if recs == [] || (recs[0].Live() && recs[0].slot == slot) then 0 else 1 + FirstLive(recs[1..], slot)
  }

  function Lookup(s: Sec, slot: u16): (r: Option<Md>)
    ensures r.Some? ==> r.value in s.recs && r.value.Live() && r.value.slot == slot
  {
    var k := FirstLive(s.recs, slot);
    if s.footer.Live? && k < |s.recs| then Some(s.recs[k]) else None
  }

  /** The bytes that a record claims. */
  function DataOf(s: Sec, r: Md): Bytes
    requires r.DataEnd() <= |s.bytes|
  {
    s.bytes[r.dataOff..r.DataEnd()]
  }

  /** The slot's record and its data are the same in both: what a reader of this slot can see. */
  ghost predicate Keeps(s: Sec, s': Sec, slot: u16) {
    Lookup(s, slot).Some? ==>
      && Lookup(s', slot) == Lookup(s, slot)
      && var r := Lookup(s, slot).value;
      r.DataEnd() <= |s.bytes| ==> r.DataEnd() <= |s'.bytes| && DataOf(s', r) == DataOf(s, r)
  }

  // ---------------------------------------------------------------- the changes

  /** Something was written, completely or not, into the free window. */
  ghost predicate Grown(s: Sec, s': Sec) {
    && s'.footer.Live? == s.footer.Live? && s.recs <= s'.recs && |s'.bytes| == |s.bytes|
    && forall k | 0 <= k < |s.recs| :: s.recs[k].DataEnd() <= |s.bytes| && DataOf(s', s.recs[k]) == DataOf(s, s.recs[k])
  }

  /** Record k may have lost its liveness; nothing else changed. */
  ghost predicate Buried(s: Sec, s': Sec, k: nat) {
    && k < |s.recs| == |s'.recs| && s'.footer == s.footer && s'.end == s.end && |s'.bytes| == |s.bytes|
    && (forall i | 0 <= i < |s.recs| && i != k :: s'.recs[i] == s.recs[i])
    && s'.recs[k] == s.recs[k].(state := s'.recs[k].state) && s'.recs[k].state != UNCOMMITTED
    && forall i | 0 <= i < |s.recs| :: s.recs[i].DataEnd() <= |s.bytes| && DataOf(s', s.recs[i]) == DataOf(s, s.recs[i])
  }

  /** The last record, which was not live, was changed; the ones before it were not. */
  ghost predicate Finished(s: Sec, s': Sec) {
    && s.recs != [] && !s.recs[|s.recs| - 1].Live()
    && s'.footer.Live? == s.footer.Live? && |s'.bytes| == |s.bytes|
    && s.recs[..|s.recs| - 1] <= s'.recs
    && forall k | 0 <= k < |s.recs| - 1 ::
         s.recs[k].DataEnd() <= |s.bytes| && DataOf(s', s.recs[k]) == DataOf(s, s.recs[k])
  }

  /** The bytes below `hi` are the same. */
  ghost predicate SameBelow(s: Sec, s': Sec, hi: int) {
    |s.bytes| == |s'.bytes| && forall i | 0 <= i < |s.bytes| && i < hi :: s'.bytes[i] == s.bytes[i]
  }

  /** Only the full hint of a live sector may have changed. */
  ghost predicate Hinted(s: Sec, s': Sec) {
    && s.footer.Live? && s'.footer.Live? && s'.recs == s.recs && s'.end == s.end
    && SameBelow(s, s', |s.bytes| - FOOTER_SIZE)
    && forall k | 0 <= k < |s.recs| :: s.recs[k].DataEnd() <= |s.bytes| && DataOf(s', s.recs[k]) == DataOf(s, s.recs[k])
  }

  lemma HintedKeeps(s: Sec, s': Sec, slot: u16)
    requires Hinted(s, s')
    ensures Keeps(s, s', slot)
  {
  }

  /** What the others have in common: the first live record of the slot, if it is among the records
      that are left alone, stays the first. */
  lemma PrefixKeeps(s: Sec, s': Sec, n: nat, slot: u16)
    requires n <= |s.recs| && s.recs[..n] <= s'.recs && (s.footer.Live? ==> s'.footer.Live?)
    requires Lookup(s, slot).Some? ==> FirstLive(s.recs, slot) < n
    requires forall k | 0 <= k < n ::
               && s.recs[k].DataEnd() <= |s.bytes| && s.recs[k].DataEnd() <= |s'.bytes|
               && DataOf(s', s.recs[k]) == DataOf(s, s.recs[k])
    ensures Keeps(s, s', slot)
  {
    var k := FirstLive(s.recs, slot);
    if Lookup(s, slot).Some? {
      assert forall i | 0 <= i < n :: s.recs[..n][i] == s.recs[i] == s'.recs[i];
    }
  }

  lemma GrownKeeps(s: Sec, s': Sec, slot: u16)
    requires Grown(s, s')
    ensures Keeps(s, s', slot)
  {
    assert s.recs[..|s.recs|] == s.recs;
    PrefixKeeps(s, s', |s.recs|, slot);
  }

  lemma FinishedKeeps(s: Sec, s': Sec, slot: u16)
    requires Finished(s, s')
    ensures Keeps(s, s', slot)
  {
    PrefixKeeps(s, s', |s.recs| - 1, slot);
  }

  lemma BuriedKeeps(s: Sec, s': Sec, k: nat, slot: u16)
    requires Buried(s, s', k) && s.recs[k].slot != slot
    ensures Keeps(s, s', slot)
  {
    var i, i' := FirstLive(s.recs, slot), FirstLive(s'.recs, slot);
    if i < |s.recs| {
      assert s'.recs[i] == s.recs[i];
    }
    if i' < |s'.recs| {
      assert s'.recs[i'] == s.recs[i'];
    }
  }

  lemma KeepsTransitive(a: Sec, b: Sec, c: Sec, slot: u16)
    requires Keeps(a, b, slot) && Keeps(b, c, slot)
    ensures Keeps(a, c, slot)
  {
  }

  // ---------------------------------------------------------------- where the changes come from

  /** Any write into the free window, whole or torn. */
  lemma WindowWriteGrows(v: Volume, p: nat, b: Bytes, b': Bytes, lo: nat, hi: nat)
    requires VolumeOk(v) && |b| == v.size == |b'| && Claimed(Records(v, p, b)) <= lo <= hi <= LowestRecord(v, p, b)
    requires forall i | 0 <= i < v.size && !(lo <= i < hi) :: b'[i] == b[i]
    ensures Grown(View(v, p, b), View(v, p, b'))
  {
    WindowWrite(v, p, b, b', lo, hi);
    FooterLocal(v, b, b');
    SameFooter(v, b, b');
    forall k | 0 <= k < |Records(v, p, b)|
      ensures ClaimKept(b, b', Records(v, p, b)[k])
    {
    }
  }

  lemma SameFooter(v: Volume, b: Bytes, b': Bytes)
    requires VolumeOk(v) && |b| == v.size && SameFrom(b, b', v.size - FOOTER_SIZE)
    ensures FooterOf(v, b') == FooterOf(v, b)
  {
    FooterLocal(v, b, b');
  }

  /** No record of the walk lies in data that another record claims. Appending behind a free window
      keeps this, torn or not. */
  ghost predicate Clear(recs: seq<Md>) {
    forall i, k | 0 <= i < |recs| && 0 <= k < |recs| :: recs[i].DataEnd() <= recs[k].start
  }

  lemma ClearAppend(recs: seq<Md>, r: Md)
    requires Clear(recs) && Claimed(recs) <= r.start && r.DataEnd() <= r.start
    requires forall k | 0 <= k < |recs| :: r.start <= recs[k].start
    ensures Clear(recs + [r])
  {
    forall i, k | 0 <= i < |recs| + 1 && 0 <= k < |recs| + 1
      ensures (recs + [r])[i].DataEnd() <= (recs + [r])[k].start
    {
      if i < |recs| {
        ClaimedCovers(recs, i);
      }
    }
  }

  /** Tombstoning record k, whole or torn; when whole the record is dead. */
  lemma TombstoneBuries(v: Volume, p: nat, b: Bytes, k: nat, after: bv8)
    requires VolumeOk(v) && |b| == v.size && Clear(Records(v, p, b)) && k < |Records(v, p, b)| && 0 <= Start(v, k)
    requires Records(v, p, b)[k].Live() && TornByte(Records(v, p, b)[k].state, STATE_TOMBSTONED, after)
    ensures Buried(View(v, p, b), View(v, p, b[Start(v, k) := after]), k)
    ensures after == Records(v, p, b)[k].state & STATE_TOMBSTONED ==>
              !View(v, p, b[Start(v, k) := after]).recs[k].Live()
  {
    var b', recs := b[Start(v, k) := after], Records(v, p, b);
    RecordAt(v, p, b, k);
    TombstoneWrite(v, p, b, k, after);
    SameFooter(v, b, b');
    OneByte(b, recs, k, after);
    StillCommitted(recs[k].state, after);
    BuriedIs(View(v, p, b), View(v, p, b'), k, after);
  }

  /** Bits that are gone do not come back. */
  lemma StillCommitted(state: bv8, after: bv8)
    requires IsLive(state) && TornByte(state, STATE_TOMBSTONED, after)
    ensures after != UNCOMMITTED
  {
    LifecycleTorn(state, after);
    assert !ValidPairCleared(UNCOMMITTED);
  }

  lemma BuriedIs(s: Sec, s': Sec, k: nat, after: bv8)
    requires k < |s.recs| && s'.recs == s.recs[k := s.recs[k].(state := after)] && s'.footer == s.footer
    requires s'.end == s.end
    requires after != UNCOMMITTED && forall i | 0 <= i < |s.recs| :: ClaimKept(s.bytes, s'.bytes, s.recs[i])
    ensures Buried(s, s', k)
    ensures s.recs[k].Live() && after == s.recs[k].state & STATE_TOMBSTONED ==> !s'.recs[k].Live()
  {
    assert ClaimKept(s.bytes, s'.bytes, s.recs[k]);
    LifecycleTorn(s.recs[k].state, after);
  }

  lemma OneByte(b: Bytes, recs: seq<Md>, k: nat, after: bv8)
    requires Clear(recs) && k < |recs| && recs[k].start < |b|
    ensures forall i | 0 <= i < |recs| :: ClaimKept(b, b[recs[k].start := after], recs[i])
  {
    forall i | 0 <= i < |recs|
      ensures ClaimKept(b, b[recs[k].start := after], recs[i])
    {
      assert recs[i].DataEnd() <= recs[k].start;
    }
  }

  /** Marking the sector full, whole or torn. */
  lemma FullHintKeeps(v: Volume, p: nat, b: Bytes, after: bv8)
    requires VolumeOk(v) && |b| == v.size && FooterLive(v, b) && TornByte(FooterState(v, b), STATE_FULL, after)
    ensures Hinted(View(v, p, b), View(v, p, b[v.size - FOOTER_SIZE + 5 := after]))
  {
    var b', recs := b[v.size - FOOTER_SIZE + 5 := after], Records(v, p, b);
    FullHintWrite(v, p, b, after);
    LiveNotErased(v, b);
    LiveNotErased(v, b');
    forall k | 0 <= k < |recs|
      ensures ClaimKept(b, b', recs[k])
    {
      RecordAt(v, p, b, k);
    }
  }

  lemma LiveNotErased(v: Volume, b: Bytes)
    requires VolumeOk(v) && |b| == v.size && FooterLive(v, b)
    ensures FooterOf(v, b).Live?
  {
    NotErased(v, b);
  }

  /** Finishing the uncommitted last record, field by field and torn at any point. */
  lemma FinishWrite(v: Volume, p: nat, b: Bytes, b': Bytes)
    requires VolumeOk(v) && |b| == v.size == |b'| && Records(v, p, b) != [] && Clear(Records(v, p, b))
    requires var n := |Records(v, p, b)|;
      Records(v, p, b)[n - 1].state == UNCOMMITTED && OnlyRecord(v, b, b', n - 1)
    ensures Finished(View(v, p, b), View(v, p, b'))
  {
    var recs := Records(v, p, b);
    RecordAt(v, p, b, |recs| - 1);
    FinishPrefix(v, p, b, b', |recs| - 1);
    FinishedClaims(b, b', recs, RECORD_SIZE);
    FinishedIs(View(v, p, b), View(v, p, b'));
  }

  /** The images differ at most in the 16 bytes of record j. */
  ghost predicate OnlyRecord(v: Volume, b: Bytes, b': Bytes, j: nat) {
    |b| == |b'| == v.size && forall i | 0 <= i < v.size && !(Start(v, j) <= i < Cursor(v, j)) :: b'[i] == b[i]
  }

  lemma FinishPrefix(v: Volume, p: nat, b: Bytes, b': Bytes, n: nat)
    requires VolumeOk(v) && OnlyRecord(v, b, b', n) && n <= |Records(v, p, b)|
    ensures n <= |Records(v, p, b')| && Records(v, p, b')[..n] == Records(v, p, b)[..n]
    ensures FooterOf(v, b') == FooterOf(v, b)
  {
    assert n > 0 ==> SameFrom(b, b', Start(v, n - 1));
    RecordsPrefix(v, p, b, b', n);
    SameFooter(v, b, b');
  }

  lemma FinishedClaims(b: Bytes, b': Bytes, recs: seq<Md>, len: nat)
    requires recs != [] && Clear(recs) && |b| == |b'|
    requires var r := recs[|recs| - 1];
      r.start <= |b| && forall i | 0 <= i < |b| && !(r.start <= i < r.start + len) :: b'[i] == b[i]
    ensures forall k | 0 <= k < |recs| :: ClaimKept(b, b', recs[k])
  {
    forall k | 0 <= k < |recs|
      ensures ClaimKept(b, b', recs[k])
    {
      assert recs[k].DataEnd() <= recs[|recs| - 1].start;
    }
  }

  lemma FinishedIs(s: Sec, s': Sec)
    requires s.recs != [] && s.recs[|s.recs| - 1].state == UNCOMMITTED && s'.footer == s.footer
    requires |s'.recs| >= |s.recs| - 1 && s'.recs[..|s.recs| - 1] == s.recs[..|s.recs| - 1] && |s.bytes| == |s'.bytes|
    requires forall k | 0 <= k < |s.recs| :: ClaimKept(s.bytes, s'.bytes, s.recs[k])
    ensures Finished(s, s')
  {
    LifecycleTorn(UNCOMMITTED, UNCOMMITTED);
    forall k | 0 <= k < |s.recs| - 1
      ensures DataOf(s', s.recs[k]) == DataOf(s, s.recs[k])
    {
      assert ClaimKept(s.bytes, s'.bytes, s.recs[k]);
    }
  }

  // ---------------------------------------------------------------- an incremental walk

  /** A walk that has passed the first j records and has not ended. */
  ghost predicate Resumable(v: Volume, recs: seq<Md>, j: nat, claimed: nat) {
    j <= |recs| && claimed == Claimed(recs[..j]) && (j > 0 ==> Start(v, j - 1) > claimed)
  }

  /** The walk goes on from where it was left, and it ends nowhere else. */
  lemma {:induction false} WalkSplit(v: Volume, dec: Decoder, recs: seq<Md>, end: Step, j: nat)
    requires WalkFrom(v, dec, 0, 0) == Walk(recs, end) && j <= |recs|
    ensures j < |recs| ==> Resumable(v, recs, j, Claimed(recs[..j]))
    ensures Resumable(v, recs, j, Claimed(recs[..j])) ==>
              WalkFrom(v, dec, j, Claimed(recs[..j])) == Walk(recs[j..], end)
    decreases j
  {
    if j == 0 {
      assert recs[..0] == [] && recs[0..] == recs;
    } else {
      WalkSplit(v, dec, recs, end, j - 1);
      WalkHead(v, dec, recs, end, j - 1);
      assert recs[j - 1..][1..] == recs[j..];
    }
  }

  /** The record at position j and what the walk does behind it. */
  lemma WalkHead(v: Volume, dec: Decoder, recs: seq<Md>, end: Step, j: nat)
    requires j < |recs| && WalkFrom(v, dec, j, Claimed(recs[..j])) == Walk(recs[j..], end)
    ensures dec(j) == Found(recs[j]) && Claimed(recs[..j + 1]) == Larger(recs[j].DataEnd(), Claimed(recs[..j]))
    ensures Start(v, j) <= Claimed(recs[..j + 1]) ==> j + 1 == |recs|
    ensures Start(v, j) > Claimed(recs[..j + 1]) ==>
              WalkFrom(v, dec, j + 1, Claimed(recs[..j + 1])) == Walk(recs[j..][1..], end)
  {
    assert recs[..j + 1][..j] == recs[..j];
    assert recs[j..][0] == recs[j];
  }

  /** fffs_md_walk_next on position j, with what has been claimed so far. */
  method WalkStep(v: Volume, dec: Decoder, ghost recs: seq<Md>, ghost end: Step, j: nat, claimed: nat)
    returns (d: Step, claimed': nat, active: bool)
    requires WalkFrom(v, dec, 0, 0) == Walk(recs, end) && Resumable(v, recs, j, claimed)
    requires dec(j).Found? ==> Cursor(v, j) >= FOOTER_SIZE + RECORD_SIZE
    ensures d.Found? == (j < |recs|)
    ensures d.Found? ==> d.r == recs[j] && (if active then Resumable(v, recs, j + 1, claimed') else j + 1 == |recs|)
    ensures !d.Found? ==> d == end && !active && claimed' == claimed
  {
    WalkSplit(v, dec, recs, end, j);
    if j < |recs| {
      WalkHead(v, dec, recs, end, j);
    }
    d := dec(j);
    claimed', active := claimed, false;
    if d.Found? {
      claimed' := Larger(d.r.DataEnd(), claimed);
      active := Start(v, j) > claimed';
    }
  }

  method WalkNext(v: Volume, p: nat, s: Sec, j: nat, claimed: nat) returns (d: Step, claimed': nat, active: bool)
    requires VolumeOk(v) && |s.bytes| == v.size && s == View(v, p, s.bytes) && Resumable(v, s.recs, j, claimed)
    ensures d.Found? == (j < |s.recs|)
    ensures d.Found? ==>
              d.r == s.recs[j] && (if active then Resumable(v, s.recs, j + 1, claimed') else j + 1 == |s.recs|)
    ensures !d.Found? ==> d == s.end && !active && claimed' == claimed
  {
    d, claimed', active := WalkStep(v, DecoderOf(v, p, s.bytes), s.recs, s.end, j, claimed);
  }
}
