/** Index-sector headers and the discovery of the active sequence in the ring
    (src/fffs_index_log.c). The geometry is taken as known: `n` index sectors of `cap`
    records each, in a flash of `sectors` sectors. */
module IndexRing {
  import opened Nor
  import opened IndexLog

  datatype Geometry = Geometry(n: nat, cap: nat, shift: bv8, sectors: nat)

  predicate GeometryOk(g: Geometry) {
    2 <= g.n <= 15 && g.cap >= 1 && g.shift <= 15 && g.n <= g.sectors <= 0xffff
  }

  /** One index sector: an 8-byte header and `cap` records. */
  datatype Sector = Sector(hdr: seq<bv8>, recs: seq<Record>)

  type Ring = seq<Sector>

  predicate SectorShape(g: Geometry, s: Sector) {
    |s.hdr| == 8 && |s.recs| == g.cap
  }

  predicate RingShape(g: Geometry, f: Ring) {
    |f| == g.n && forall i | 0 <= i < |f| :: SectorShape(g, f[i])
  }

  /** hdr[5] holds the sector count in its high and the serial in its low nibble. */
  function CountOf(hdr: seq<bv8>): nat
    requires |hdr| == 8
  {
    (hdr[5] >> 4) as nat
  }

  function SerialOf(hdr: seq<bv8>): (r: nat)
    requires |hdr| == 8
  {
    (hdr[5] & 0x0f) as nat
  }

  predicate ValidFlags(flags: bv8) {
    flags & 0x80 == 0 && flags & 0x40 != 0 && flags & 0x20 != 0 && flags & 0x1f == 0x1f
  }

  predicate ValidHeader(hdr: seq<bv8>)
    requires |hdr| == 8
  {
    && hdr[0] == 0x46 && hdr[1] == 0x46 && hdr[2] == 0x46 && hdr[3] == 0x53
    && hdr[4] == 1
    && ValidFlags(hdr[7])
    && 2 <= CountOf(hdr) <= 15
    && hdr[6] <= 15
  }

  /** A valid header of this geometry. */
  predicate OfGeometry(g: Geometry, hdr: seq<bv8>)
    requires |hdr| == 8
  {
    ValidHeader(hdr) && CountOf(hdr) == g.n && hdr[6] == g.shift
  }

  const FLAGS_ERASED: bv8 := 0xff
  const FLAGS_VALID: bv8 := 0x7f
  const FLAGS_TOMBSTONED: bv8 := 0x3f

  /** The header bytes that fffs_program_index_header writes, with the given flags byte. */
  function Header(g: Geometry, serial: nat, flags: bv8): (h: seq<bv8>)
    requires GeometryOk(g) && serial < 16
    ensures |h| == 8
  {
    [0x46, 0x46, 0x46, 0x53, 1, ((g.n as bv8) << 4) | (serial as bv8), g.shift, flags]
  }

  lemma HeaderFields(g: Geometry, serial: nat, flags: bv8)
    requires GeometryOk(g) && serial < 16
    ensures CountOf(Header(g, serial, flags)) == g.n && SerialOf(Header(g, serial, flags)) == serial
    ensures ValidFlags(flags) ==> OfGeometry(g, Header(g, serial, flags))
  {
    Nibbles(g.n as bv8, serial as bv8);
  }

  lemma Nibbles(hi: bv8, lo: bv8)
    requires hi <= 15 && lo <= 15
    ensures ((hi << 4) | lo) >> 4 == hi && ((hi << 4) | lo) & 0x0f == lo
  {
  }

  /** Setting the valid flag and clearing the tombstone flag each flip one bit, so an
      interrupted program either happened or did not. */
  lemma FlagsAreAtomic(after: bv8)
    ensures TornByte(FLAGS_ERASED, FLAGS_VALID, after) ==> after == FLAGS_ERASED || after == FLAGS_VALID
    ensures TornByte(FLAGS_VALID, FLAGS_TOMBSTONED, after) ==> after == FLAGS_VALID || after == FLAGS_TOMBSTONED
    ensures ValidFlags(after) <==> after == FLAGS_VALID
  {
  }

  /** index_serial_newer: ahead by 1 to 7 modulo 16. */
  predicate Newer(serial: nat, best: nat)
    requires serial < 16 && best < 16
  {
    serial != best && (if serial >= best then serial - best else serial + 16 - best) < 8
  }

  lemma SerialBound(hdr: seq<bv8>)
    requires |hdr| == 8
    ensures SerialOf(hdr) < 16
  {
    assert hdr[5] & 0x0f <= 15;
  }

  datatype Sequence = Sequence(active: nat, serial: nat, oldest: nat, count: nat)

  /** What discovery notes per sector: the serial of a valid header. */
  type Serials = v: seq<Option<nat>> | forall i | 0 <= i < |v| && v[i].Some? :: v[i].value < 16

  function SerialsOf(f: Ring): (v: Serials)
    requires forall i | 0 <= i < |f| :: |f[i].hdr| == 8
    ensures |v| == |f|
    ensures forall i | 0 <= i < |f| :: v[i] == if ValidHeader(f[i].hdr) then Some(SerialOf(f[i].hdr)) else None
  {
    seq(|f|, i requires 0 <= i < |f| =>
      SerialBound(f[i].hdr); if ValidHeader(f[i].hdr) then Some(SerialOf(f[i].hdr)) else None)
  }

  datatype Best = NoBest | Best(sector: nat, serial: nat)

  /** consider_index_header: the best header among the first k sectors, scanned upwards. */
  function Scan(v: Serials, k: nat): (b: Best)
    requires k <= |v|
    ensures b.Best? ==> b.sector < k && b.serial < 16
  {
    if k == 0 then NoBest
    else
      var best := Scan(v, k - 1);
      if v[k - 1].None? then best
      else if best.NoBest? || Newer(v[k - 1].value, best.serial) then Best(k - 1, v[k - 1].value)
      else best
  }

  function Previous(n: nat, sector: nat): (p: nat)
    requires sector < n
    ensures p < n
  {
    if sector == 0 then n - 1 else sector - 1
  }

  function PreviousSerial(serial: nat): (p: nat)
    requires serial < 16
    ensures p < 16
  {
    if serial == 0 then 15 else serial - 1
  }

  /** find_oldest_index_sector: follow consecutive serials backwards. */
  function Oldest(v: Serials, current: nat, serial: nat, count: nat): (r: (nat, nat))
    requires current < |v| && serial < 16 && 1 <= count <= |v|
    ensures r.0 < |v| && 1 <= r.1 <= |v|
    decreases |v| - count
  {
    var prev := Previous(|v|, current);
    if count < |v| && v[prev] == Some(PreviousSerial(serial))
    then Oldest(v, prev, PreviousSerial(serial), count + 1)
    else (current, count)
  }

  /** fffs_find_index_sequence for the known geometry: sector 0 or 1 must carry a valid
      header, every valid header must agree on the geometry, the newest serial wins. */
  function Discover(g: Geometry, f: Ring): (r: Option<Sequence>)
    requires GeometryOk(g) && RingShape(g, f)
    ensures r.Some? ==> r.value.active < g.n && r.value.oldest < g.n && 1 <= r.value.count <= g.n && r.value.serial < 16
  {
    if !OfGeometry(g, f[0].hdr) && !OfGeometry(g, f[1].hdr) then None
    else if exists i :: 0 <= i < |f| && ValidHeader(f[i].hdr) && !OfGeometry(g, f[i].hdr) then None
    else DiscoverIn(SerialsOf(f))
  }

  function DiscoverIn(v: Serials): (r: Option<Sequence>)
    ensures r.Some? ==> r.value.active < |v| && r.value.oldest < |v| && 1 <= r.value.count <= |v| && r.value.serial < 16
  {
    var b := Scan(v, |v|);
    if b.NoBest? then None
    else
      var (oldest, count) := Oldest(v, b.sector, b.serial, 1);
      Some(Sequence(b.sector, b.serial, oldest, count))
  }

  /** Ring position of the j-th sector after `oldest`, and its inverse. */
  function At(n: nat, oldest: nat, j: nat): (p: nat)
    requires oldest < n && j <= n
    ensures p < n
  {
    if oldest + j < n then oldest + j else oldest + j - n
  }

  function Offset(n: nat, oldest: nat, p: nat): (j: nat)
    requires oldest < n && p < n
    ensures j < n
  {
    if p >= oldest then p - oldest else p + n - oldest
  }

  function SerialAt(first: nat, j: nat): (r: nat)
    requires first < 16 && j <= 16
    ensures r < 16
  {
    if first + j < 16 then first + j else first + j - 16
  }

  /** The valid headers are exactly `count` sectors from `oldest` on, serials consecutive from `first`. */
  ghost predicate Chain(v: Serials, oldest: nat, count: nat, first: nat) {
    && oldest < |v| <= 15 && 1 <= count <= |v| && first < 16
    && forall p | 0 <= p < |v| ::
         v[p] == if Offset(|v|, oldest, p) < count then Some(SerialAt(first, Offset(|v|, oldest, p))) else None
  }

  /** The ring's headers are such a chain, and all of this geometry. */
  ghost predicate Consecutive(g: Geometry, f: Ring, oldest: nat, count: nat, first: nat) {
    && GeometryOk(g) && RingShape(g, f)
    && oldest < g.n && 1 <= count <= g.n && first < 16
    && forall p | 0 <= p < g.n :: HeaderAt(g, f[p].hdr, first, Offset(g.n, oldest, p), count)
  }

  /** What a chain asks of the header of its j-th sector. */
  predicate HeaderAt(g: Geometry, hdr: seq<bv8>, first: nat, j: nat, count: nat)
    requires |hdr| == 8 && first < 16 && j < 16
  {
    if j < count then OfGeometry(g, hdr) && SerialOf(hdr) == SerialAt(first, j) else !ValidHeader(hdr)
  }

  lemma ConsecutiveIsChain(g: Geometry, f: Ring, oldest: nat, count: nat, first: nat)
    requires Consecutive(g, f, oldest, count, first)
    ensures Chain(SerialsOf(f), oldest, count, first)
    ensures forall p | 0 <= p < g.n && ValidHeader(f[p].hdr) :: OfGeometry(g, f[p].hdr)
  {
    forall p | 0 <= p < g.n
      ensures HeaderAt(g, f[p].hdr, first, Offset(g.n, oldest, p), count)
    {
    }
  }

  /** The sequence runs over the end of the ring. */
  predicate Wraps(n: nat, oldest: nat, count: nat) {
    oldest + count > n
  }

  /** Serials i < j of one sequence: the older looks newer exactly when it is more than 8 behind. */
  lemma SerialOrder(first: nat, i: nat, j: nat)
    requires first < 16 && i < j < 16
    ensures Newer(SerialAt(first, i), SerialAt(first, j)) <==> j - i > 8
    ensures Newer(SerialAt(first, j), SerialAt(first, i)) <==> j - i < 8
  {
  }

  /** What the scan picks among the first k sectors of an unwrapped sequence, ... */
  lemma {:induction false} ScanStraight(v: Serials, oldest: nat, count: nat, first: nat, k: nat)
    requires Chain(v, oldest, count, first) && k <= |v|
    requires !Wraps(|v|, oldest, count)
    ensures Scan(v, k) == (
      if k <= oldest then NoBest
      else if k <= oldest + count then Best(k - 1, SerialAt(first, k - 1 - oldest))
      else Best(oldest + count - 1, SerialAt(first, count - 1)))
  {
    if k > 0 {
      ScanStraight(v, oldest, count, first, k - 1);
    }
  }

  /** ... of a wrapped sequence, where the newest sectors come first, ... */
  lemma {:induction false} ScanWrapped(v: Serials, oldest: nat, count: nat, first: nat, k: nat)
    requires Chain(v, oldest, count, first) && k <= oldest
    requires Wraps(|v|, oldest, count)
    ensures Scan(v, k) == (
      if k == 0 then NoBest
      else if k <= oldest + count - |v| then Best(k - 1, SerialAt(first, k - 1 + |v| - oldest))
      else Best(oldest + count - |v| - 1, SerialAt(first, count - 1)))
  {
    if k > 0 {
      ScanWrapped(v, oldest, count, first, k - 1);
    }
  }

  /** ... and then through its older part: nine or fewer headers never look newer than the active
      one, ten or more do, starting with the oldest. */
  lemma {:induction false} ScanOlder(v: Serials, oldest: nat, count: nat, first: nat, k: nat)
    requires Chain(v, oldest, count, first) && oldest <= k <= |v|
    requires Wraps(|v|, oldest, count)
    ensures Scan(v, k) == (
      if count <= 9 || k == oldest then Best(oldest + count - |v| - 1, SerialAt(first, count - 1))
      else Best(k - 1, SerialAt(first, k - 1 - oldest)))
    decreases k
  {
    if k == oldest {
      ScanWrapped(v, oldest, count, first, k);
    } else {
      ScanOlder(v, oldest, count, first, k - 1);
      var j := k - 1 - oldest;
      assert Offset(|v|, oldest, k - 1) == j < count - 1;
      SerialOrder(first, j, count - 1);
      if j > 0 {
        SerialOrder(first, j - 1, j);
      }
    }
  }

  /** The header that the whole scan settles on: the active one, unless ten or more headers wrap. */
  lemma ScanResult(v: Serials, oldest: nat, count: nat, first: nat)
    requires Chain(v, oldest, count, first)
    ensures count <= 9 || !Wraps(|v|, oldest, count) ==>
              Scan(v, |v|) == Best(At(|v|, oldest, count - 1), SerialAt(first, count - 1))
    ensures !(count <= 9 || !Wraps(|v|, oldest, count)) ==>
              Scan(v, |v|) == Best(|v| - 1, SerialAt(first, |v| - 1 - oldest))
  {
    if Wraps(|v|, oldest, count) {
      ScanOlder(v, oldest, count, first, |v|);
    } else {
      ScanStraight(v, oldest, count, first, |v|);
    }
  }

  /** Walking back from the j-th sector of the sequence ends at its oldest sector: the one before
      it has no valid header or, in a full ring, a serial that does not connect. */
  lemma {:induction false} OldestFrom(v: Serials, oldest: nat, count: nat, first: nat, j: nat, c: nat)
    requires Chain(v, oldest, count, first) && j < count && 1 <= c && c + j <= |v|
    ensures Oldest(v, At(|v|, oldest, j), SerialAt(first, j), c) == (oldest, c + j)
    decreases j
  {
    var prev := Previous(|v|, At(|v|, oldest, j));
    if j > 0 {
      assert prev == At(|v|, oldest, j - 1) && Offset(|v|, oldest, prev) == j - 1;
      OldestFrom(v, oldest, count, first, j - 1, c + 1);
    } else {
      assert Offset(|v|, oldest, prev) == |v| - 1;
    }
  }

  /** The sequence a scan should report. */
  function TrueSequence(n: nat, oldest: nat, count: nat, first: nat): Sequence
    requires oldest < n && 1 <= count <= n <= 15 && first < 16
  {
    Sequence(At(n, oldest, count - 1), SerialAt(first, count - 1), oldest, count)
  }

  /** The sequence that discovery reports when ten or more headers wrap: it stops at the end of
      the ring and drops the newest oldest + count - n sectors, which wrapped. */
  function CutSequence(n: nat, oldest: nat, first: nat): Sequence
    requires oldest < n <= 15 && first < 16
  {
    Sequence(n - 1, SerialAt(first, n - 1 - oldest), oldest, n - oldest)
  }

  lemma DiscoverInChain(v: Serials, oldest: nat, count: nat, first: nat)
    requires Chain(v, oldest, count, first)
    ensures DiscoverIn(v) == Some(
      if count <= 9 || !Wraps(|v|, oldest, count) then TrueSequence(|v|, oldest, count, first)
      else CutSequence(|v|, oldest, first))
  {
    ScanResult(v, oldest, count, first);
    if count <= 9 || !Wraps(|v|, oldest, count) {
      DiscoverFrom(v, oldest, count, first, count - 1);
    } else {
      assert At(|v|, oldest, |v| - 1 - oldest) == |v| - 1;
      DiscoverFrom(v, oldest, count, first, |v| - 1 - oldest);
    }
  }

  /** If the scan settles on the j-th sector of the sequence, the sequence up to there is found. */
  lemma DiscoverFrom(v: Serials, oldest: nat, count: nat, first: nat, j: nat)
    requires Chain(v, oldest, count, first) && j < count && Scan(v, |v|) == Best(At(|v|, oldest, j), SerialAt(first, j))
    ensures DiscoverIn(v) == Some(Sequence(At(|v|, oldest, j), SerialAt(first, j), oldest, j + 1))
  {
    OldestFrom(v, oldest, count, first, j, 1);
  }

  /** Discovery finds the true sequence exactly when it has at most nine sectors or does not
      wrap around the ring: the 4-bit serial is compared in a half window, so the promise of
      "up to 15 index sectors" holds only for unwrapped rings. */
  lemma DiscoveryExact(g: Geometry, f: Ring, oldest: nat, count: nat, first: nat)
    requires Consecutive(g, f, oldest, count, first)
    requires ValidHeader(f[0].hdr) || ValidHeader(f[1].hdr)
    ensures Discover(g, f) == Some(TrueSequence(g.n, oldest, count, first)) <==>
            count <= 9 || !Wraps(g.n, oldest, count)
    ensures count >= 10 && Wraps(g.n, oldest, count) ==>
              Discover(g, f) == Some(CutSequence(g.n, oldest, first))
  {
    ConsecutiveIsChain(g, f, oldest, count, first);
    DiscoverInChain(SerialsOf(f), oldest, count, first);
  }
}
