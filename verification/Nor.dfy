/** NOR flash: programming ANDs bits in, an interrupted program clears only some of
    the intended bits, and erasing sets every bit (src/fffs_flash.c). */
module Nor {

  datatype Option<T> = None | Some(value: T)

  const ERASED_BYTE: bv8 := 0xff

  /** A 16-bit word as a number: slots, sectors and lengths. */
  type u16 = x: int | 0 <= x < 0x1_0000

  /** `after` keeps every bit that `value` keeps and gains no bit: what an
      interrupted program of `value` over `before` can leave behind. */
  predicate TornByte(before: bv8, value: bv8, after: bv8) {
    && after & (before & value) == before & value
    && after | before == before
  }

  /** A word is stored low byte first. */
  function Lo(v: u16): bv8 { (v % 256) as bv8 }

  function Hi(v: u16): bv8 { (v / 256) as bv8 }

  function Le16(lo: bv8, hi: bv8): u16 {
    ByteBound(lo);
    ByteBound(hi);
    lo as int + 256 * (hi as int)
  }

  lemma ByteBound(b: bv8)
    ensures 0 <= b as int < 256
  {
  }

  lemma ByteSucc(b: bv8)
    requires b != 0xff
    ensures (b + 1) as int == b as int + 1
  {
  }

  lemma ByteBack(b: bv8)
    ensures (b as int) as bv8 == b && (0 as bv8) as int == 0 && (b == 0xff ==> b as int == 255)
  {
  }

  /** Every number below 256 is a byte. */
  lemma {:induction false} ByteOf(v: int) returns (b: bv8)
    requires 0 <= v < 256
    ensures b as int == v
    decreases v
  {
    b := 0;
    ByteBack(b);
    if v > 0 {
      b := ByteOf(v - 1);
      ByteBack(b);
      ByteSucc(b);
      b := b + 1;
    }
  }

  lemma ByteNumber(v: int)
    requires 0 <= v < 256
    ensures (v as bv8) as int == v
  {
    var b := ByteOf(v);
    ByteBack(b);
    SameNumber(v, b as int, b);
  }

  lemma SameNumber(v: int, w: int, b: bv8)
    requires v == w && 0 <= v < 256 && w == b as int && w as bv8 == b
    ensures (v as bv8) as int == v
  {
  }

  /** Loading a stored word gives it back. */
  lemma Le16RoundTrip(v: u16)
    ensures Le16(Lo(v), Hi(v)) == v
  {
    ByteNumber(v % 256);
    ByteNumber(v / 256);
  }

  /** Programming a word ANDs both of its bytes. */
  function AndWord(before: u16, value: u16): u16 {
    Le16(Lo(before) & Lo(value), Hi(before) & Hi(value))
  }

  lemma ProgramErasedWord(value: u16)
    ensures AndWord(0xffff, value) == value
  {
    Le16RoundTrip(value);
    assert Lo(0xffff) == 0xff && Hi(0xffff) == 0xff;
  }

  /** An interrupted program of a word tears each of its two bytes. */
  predicate TornWord(before: u16, value: u16, after: u16) {
    TornByte(Lo(before), Lo(value), Lo(after)) && TornByte(Hi(before), Hi(value), Hi(after))
  }

  /** All bits of an erased word can only vanish if none was meant to stay. */
  lemma TornToZero(value: u16)
    requires TornWord(0xffff, value, 0)
    ensures value == 0
  {
    Le16RoundTrip(value);
    assert Lo(0) == 0 && Hi(0) == 0;
    assert Lo(0xffff) == 0xff && Hi(0xffff) == 0xff;
  }

  /** No bit has vanished only if all were there. */
  lemma TornFromOnes(before: u16)
    requires TornWord(before, 0, 0xffff)
    ensures before == 0xffff
  {
    Le16RoundTrip(before);
    assert Lo(0xffff) == 0xff && Hi(0xffff) == 0xff;
  }

  /** A program that has not begun, or has ended, is a torn one, too. */
  lemma UntouchedWordIsTorn(before: u16, value: u16)
    ensures TornWord(before, value, before)
  {
    ByteFacts(Lo(before), Lo(value));
    ByteFacts(Hi(before), Hi(value));
  }

  lemma WholeWordIsTorn(before: u16, value: u16)
    requires before == 0xffff
    ensures TornWord(before, value, value)
  {
    assert Lo(0xffff) == 0xff && Hi(0xffff) == 0xff;
  }

  /** What is left of an erased byte after an interrupted program is no smaller than the value. */
  lemma TornIsLarger(value: bv8, after: bv8)
    requires TornByte(ERASED_BYTE, value, after)
    ensures (value as int) <= (after as int)
  {
    assert after & value == value;
    assert value <= after;
  }

  predicate AllErased(bytes: seq<bv8>) {
    forall i | 0 <= i < |bytes| :: bytes[i] == ERASED_BYTE
  }

  predicate ErasedRange(bytes: seq<bv8>, lo: int, hi: int)
    requires 0 <= lo <= hi <= |bytes|
  {
    forall i | lo <= i < hi :: bytes[i] == ERASED_BYTE
  }

  /** The flash after `data` has been programmed at `off`. */
  function Program(flash: seq<bv8>, off: nat, data: seq<bv8>): (r: seq<bv8>)
    requires off + |data| <= |flash|
    ensures |r| == |flash|
  {
    seq(|flash|, i requires 0 <= i < |flash| =>
      if off <= i < off + |data| then flash[i] & data[i - off] else flash[i])
  }

  lemma ProgramAt(flash: seq<bv8>, off: nat, data: seq<bv8>, k: nat)
    requires off + |data| <= |flash| && k < |flash|
    ensures off <= k < off + |data| ==> Program(flash, off, data)[k] == flash[k] & data[k - off]
    ensures !(off <= k < off + |data|) ==> Program(flash, off, data)[k] == flash[k]
  {
  }

  /** `cut` is a flash image that an interrupted program of `data` at `off` can leave. */
  ghost predicate Torn(flash: seq<bv8>, off: nat, data: seq<bv8>, cut: seq<bv8>)
    requires off + |data| <= |flash|
  {
    && |cut| == |flash|
    && (forall i | 0 <= i < |flash| && !(off <= i < off + |data|) :: cut[i] == flash[i])
    && (forall i | off <= i < off + |data| :: TornByte(flash[i], data[i - off], cut[i]))
  }

  ghost function TornImages(flash: seq<bv8>, off: nat, data: seq<bv8>): iset<seq<bv8>>
    requires off + |data| <= |flash|
  {
    iset cut | Torn(flash, off, data, cut)
  }

  /** A finished program is one of its own torn outcomes. */
  lemma ProgramIsTorn(flash: seq<bv8>, off: nat, data: seq<bv8>)
    requires off + |data| <= |flash|
    ensures Torn(flash, off, data, Program(flash, off, data))
    ensures Torn(flash, off, data, flash)
  {
  }

  /** The device underneath the alignment layer: it accepts whole granules only. */
  class Device {
    const flash: array<bv8>
    const granule: nat
    /** Every image that a power cut could have left so far. */
    ghost var cuts: iset<seq<bv8>>

    ghost predicate Valid()
      reads this
    {
      && 0 < granule <= 256
      && flash.Length % granule == 0
    }

    constructor (size: nat, programGranule: nat)
      requires 0 < programGranule <= 256 && size % programGranule == 0
      ensures Valid() && fresh(flash) && cuts == iset{}
      ensures flash.Length == size && granule == programGranule
      ensures AllErased(flash[..])
    {
      flash := new bv8[size](i => ERASED_BYTE);
      granule := programGranule;
      cuts := iset{};
    }

    /** backend->program: whole granules at a granule boundary. */
    method ProgramGranules(off: nat, data: seq<bv8>)
      requires Valid()
      requires off % granule == 0 && |data| % granule == 0
      requires off + |data| <= flash.Length
      modifies flash, this`cuts
      ensures flash[..] == Program(old(flash[..]), off, data)
      ensures cuts == old(cuts) + TornImages(old(flash[..]), off, data)
    {
      ghost var before := flash[..];
      for i := 0 to |data|
        invariant cuts == old(cuts)
        invariant forall k | 0 <= k < flash.Length ::
                    flash[k] == if off <= k < off + i then before[k] & data[k - off] else before[k]
      {
        flash[off + i] := flash[off + i] & data[i];
      }
      cuts := cuts + TornImages(before, off, data);
    }

    /** One turn of the padded loop: the granule around `pos`, filled with 0xff around
        the bytes of `buffer` that fall into it. */
    method ProgramPadded(ghost before: seq<bv8>, offset: nat, buffer: seq<bv8>, done: nat, pos: nat)
      returns (n: nat)
      requires Valid() && |before| == flash.Length
      requires offset + |buffer| <= flash.Length && done < |buffer| && pos == offset + done
      requires ProgrammedTo(before, flash[..], offset, buffer, done)
      modifies flash, this`cuts
      ensures 0 < n <= |buffer| - done
      ensures ProgrammedTo(before, flash[..], offset, buffer, done + n)
      ensures forall c | c in cuts && c !in old(cuts) :: Torn(before, offset, buffer, c)
      ensures old(cuts) <= cuts
    {
      var base := GranuleBase(pos, granule, flash.Length);
      var inChunk := pos - base;
      n := granule - inChunk;
      if n > |buffer| - done {
        n := |buffer| - done;
      }
      var chunk := Padding(inChunk) + buffer[done..done + n] + Padding(granule - inChunk - n);
      PaddedChunk(offset, buffer, done, n, base, chunk);
      ghost var now := flash[..];
      ProgramGranules(base, chunk);
      ProgramGranule(before, now, offset, buffer, done, n, base, chunk);
      forall c | c in cuts && c !in old(cuts)
        ensures Torn(before, offset, buffer, c)
      {
        TornGranule(before, now, offset, buffer, done, n, base, chunk, c);
      }
    }

    /** Programs any byte range by padding each granule it touches with 0xff. The
        padding changes nothing: the range gets exactly the byte-wise AND, every other
        byte keeps its value, and every image a power cut can leave on the way is one
        that a single interrupted program of just the requested bytes could leave. */
    method ProgramAligned(offset: nat, buffer: seq<bv8>)
      requires Valid()
      requires offset + |buffer| <= flash.Length
      modifies flash, this`cuts
      ensures flash[..] == Program(old(flash[..]), offset, buffer)
      ensures forall c | c in cuts && c !in old(cuts) :: Torn(old(flash[..]), offset, buffer, c)
      ensures old(cuts) <= cuts
    {
      ghost var before := flash[..];
      if |buffer| == 0 {
        return;
      }
      if offset % granule == 0 && |buffer| % granule == 0 {
        ProgramGranules(offset, buffer);
        return;
      }
      var done := 0;
      while done < |buffer|
        invariant done <= |buffer|
        invariant ProgrammedTo(before, flash[..], offset, buffer, done)
        invariant forall c | c in cuts && c !in old(cuts) :: Torn(before, offset, buffer, c)
        invariant old(cuts) <= cuts
      {
        var pos := offset + done;
        var n := ProgramPadded(before, offset, buffer, done, pos);
        done := done + n;
      }
      assert flash[..] == Program(before, offset, buffer);
    }
  }

  function Padding(n: nat): (r: seq<bv8>)
    ensures |r| == n && AllErased(r)
  {
    seq(n, i => ERASED_BYTE)
  }

  /** The first `done` bytes of `buffer` have been programmed and nothing else. */
  ghost predicate ProgrammedTo(before: seq<bv8>, now: seq<bv8>, offset: nat, buffer: seq<bv8>, done: nat)
    requires offset + |buffer| <= |before| && done <= |buffer|
  {
    && |now| == |before|
    && (forall k | offset <= k < offset + done :: now[k] == before[k] & buffer[k - offset])
    && (forall k | 0 <= k < |now| && !(offset <= k < offset + done) :: now[k] == before[k])
  }

  method GranuleBase(pos: nat, granule: nat, size: nat) returns (base: nat)
    requires granule > 0 && size % granule == 0 && pos < size
    ensures base % granule == 0 && granule % granule == 0 && base <= pos < base + granule <= size
  {
    base := pos - pos % granule;
    GranuleFits(base, granule, pos, size);
  }

  /** The granule around a byte of the device lies on the device. */
  lemma GranuleFits(base: nat, granule: nat, pos: nat, size: nat)
    requires granule > 0 && size % granule == 0
    requires base == pos - pos % granule && pos < size
    ensures base % granule == 0 && granule % granule == 0 && base <= pos < base + granule <= size
  {
    var q, s := pos / granule, size / granule;
    Quotient(pos, granule);
    Quotient(size, granule);
    MultipleMod(q, granule);
    MultipleMod(1, granule);
    GranuleBelow(q, s, granule, base, pos, size);
  }

  lemma Quotient(n: nat, m: nat)
    requires m > 0
    ensures n == (n / m) * m + n % m && 0 <= n % m < m
  {
  }

  lemma GranuleBelow(q: nat, s: nat, m: nat, base: nat, pos: nat, size: nat)
    requires m > 0 && base == q * m && size == s * m && base <= pos < size
    ensures base + m <= size
  {
    if s <= q {
      MulMonotone(s, q, m);
    }
    MulMonotone(q + 1, s, m);
    Distribute(q, 1, m);
  }

  lemma MulMonotone(a: nat, b: nat, m: nat)
    requires a <= b
    ensures a * m <= b * m
  {
  }

  lemma Distribute(a: int, b: int, m: int)
    ensures (a + b) * m == a * m + b * m
  {
  }

  lemma MultipleMod(q: nat, m: nat)
    requires m > 0
    ensures q * m % m == 0
  {
    var p := q * m;
    RemainderOfMultiple(q, p / m, m, p % m);
  }

  lemma RemainderOfMultiple(q: nat, d: nat, m: nat, r: nat)
    requires q * m == d * m + r && r < m
    ensures r == 0
  {
    if q < d {
      Distribute(q, d - q, m);
      MulMonotone(1, d - q, m);
    } else if q > d {
      Distribute(d, q - d, m);
      MulMonotone(1, q - d, m);
    }
  }

  lemma ByteFacts(x: bv8, v: bv8)
    ensures x & ERASED_BYTE == x
    ensures TornByte(x, v, x) && TornByte(x, v, x & v)
  {
  }

  lemma TornPadding(x: bv8, c: bv8)
    requires TornByte(x, ERASED_BYTE, c)
    ensures c == x
  {
  }

  /** `chunk` is one granule at `base`: bytes [done, done + n) of the buffer, padded. */
  ghost predicate IsPadded(offset: nat, buffer: seq<bv8>, done: nat, n: nat, base: nat, chunk: seq<bv8>)
  {
    && done + n <= |buffer|
    && base <= offset + done && offset + done + n <= base + |chunk|
    && chunk[offset + done - base..offset + done + n - base] == buffer[done..done + n]
    && AllErased(chunk[..offset + done - base])
    && AllErased(chunk[offset + done + n - base..])
  }

  lemma PaddedChunk(offset: nat, buffer: seq<bv8>, done: nat, n: nat, base: nat, chunk: seq<bv8>)
    requires done + n <= |buffer| && base <= offset + done && offset + done + n <= base + |chunk|
    requires chunk == Padding(offset + done - base) + buffer[done..done + n] +
                      Padding(base + |chunk| - (offset + done + n))
    ensures IsPadded(offset, buffer, done, n, base, chunk)
  {
  }

  lemma PaddedByte(offset: nat, buffer: seq<bv8>, done: nat, n: nat, base: nat, chunk: seq<bv8>, k: nat)
    requires IsPadded(offset, buffer, done, n, base, chunk) && k < |chunk|
    ensures offset + done <= base + k < offset + done + n ==> chunk[k] == buffer[base + k - offset]
    ensures !(offset + done <= base + k < offset + done + n) ==> chunk[k] == ERASED_BYTE
  {
    var lo, hi := offset + done - base, offset + done + n - base;
    if k < lo {
      assert chunk[..lo][k] == ERASED_BYTE;
    } else if k < hi {
      assert chunk[lo..hi][k - lo] == buffer[done..done + n][k - lo];
    } else {
      assert chunk[hi..][k - hi] == ERASED_BYTE;
    }
  }

  /** A torn padded granule is a torn outcome of the whole program. */
  lemma TornGranule(before: seq<bv8>, now: seq<bv8>, offset: nat, buffer: seq<bv8>,
                    done: nat, n: nat, base: nat, chunk: seq<bv8>, c: seq<bv8>)
    requires offset + |buffer| <= |before| && base + |chunk| <= |before|
    requires IsPadded(offset, buffer, done, n, base, chunk)
    requires ProgrammedTo(before, now, offset, buffer, done)
    requires Torn(now, base, chunk, c)
    ensures Torn(before, offset, buffer, c)
  {
    forall i | 0 <= i < |before|
      ensures !(offset <= i < offset + |buffer|) ==> c[i] == before[i]
      ensures offset <= i < offset + |buffer| ==> TornByte(before[i], buffer[i - offset], c[i])
    {
      TornGranuleAt(before, now, offset, buffer, done, n, base, chunk, c, i);
    }
  }

  lemma TornGranuleAt(before: seq<bv8>, now: seq<bv8>, offset: nat, buffer: seq<bv8>, done: nat, n: nat, base: nat,
                      chunk: seq<bv8>, c: seq<bv8>, i: nat)
    requires offset + |buffer| <= |before| && base + |chunk| <= |before| && i < |before|
    requires IsPadded(offset, buffer, done, n, base, chunk)
    requires ProgrammedTo(before, now, offset, buffer, done)
    requires Torn(now, base, chunk, c)
    ensures !(offset <= i < offset + |buffer|) ==> c[i] == before[i]
    ensures offset <= i < offset + |buffer| ==> TornByte(before[i], buffer[i - offset], c[i])
  {
    if base <= i < base + |chunk| {
      var k := i - base;
      PaddedByte(offset, buffer, done, n, base, chunk, k);
      assert TornByte(now[i], chunk[k], c[i]);
      if !(offset + done <= i < offset + done + n) {
        TornPadding(now[i], c[i]);
      }
    }
    if offset <= i < offset + |buffer| {
      ByteFacts(before[i], buffer[i - offset]);
    }
  }

  /** A finished padded granule extends the programmed prefix by its n bytes. */
  lemma ProgramGranule(before: seq<bv8>, now: seq<bv8>, offset: nat, buffer: seq<bv8>,
                       done: nat, n: nat, base: nat, chunk: seq<bv8>)
    requires offset + |buffer| <= |before| && base + |chunk| <= |before|
    requires IsPadded(offset, buffer, done, n, base, chunk)
    requires ProgrammedTo(before, now, offset, buffer, done)
    ensures ProgrammedTo(before, Program(now, base, chunk), offset, buffer, done + n)
  {
    var after := Program(now, base, chunk);
    forall k | 0 <= k < |now|
      ensures offset <= k < offset + done + n ==> after[k] == before[k] & buffer[k - offset]
      ensures !(offset <= k < offset + done + n) ==> after[k] == before[k]
    {
      ProgramAt(now, base, chunk, k);
      if base <= k < base + |chunk| {
        PaddedByte(offset, buffer, done, n, base, chunk, k - base);
      }
      ByteFacts(now[k], ERASED_BYTE);
    }
  }
}
