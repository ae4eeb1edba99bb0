/** The journal as the code runs it: fields updated in place, flash programmed step by step, with a
    record of every image that a power cut could leave (src/fffs_index_log.c). */
module IndexJournal {
  import opened Nor
  import opened IndexLog
  import opened IndexRing
  import opened Journal

  function ErasedSector(g: Geometry): (s: Sector)
    ensures SectorShape(g, s) && !ValidHeader(s.hdr)
  {
    Sector(ERASED_HEADER, ErasedRecords(g.cap))
  }

  /** A header after programming `value` over it. */
  function AndHeader(hdr: seq<bv8>, value: seq<bv8>): (h: seq<bv8>)
    requires |hdr| == 8 && |value| == 8
    ensures |h| == 8
  {
    seq(8, i requires 0 <= i < 8 => hdr[i] & value[i])
  }

  predicate TornHeader(hdr: seq<bv8>, value: seq<bv8>, h: seq<bv8>)
    requires |hdr| == 8 && |value| == 8
  {
    |h| == 8 && forall i | 0 <= i < 8 :: TornByte(hdr[i], value[i], h[i])
  }

  function AndSlot(r: Record, slot: u16): Record { r.(slot := AndWord(r.slot, slot)) }

  function AndHead(r: Record, head: u16): Record { r.(head := AndWord(r.head, head)) }

  /** Every image that an interrupted program of the slot word, then of the head word, can leave. */
  ghost function RecordCuts(f: Ring, p: nat, i: nat, slot: u16, head: u16): iset<Ring>
    requires p < |f| && i < |f[p].recs|
  {
    iset t: Record | TornRecord(slot, head, t) :: SetRecord(f, p, i, t)
  }

  /** An interrupted erase leaves anything but a valid header. */
  ghost function EraseCuts(g: Geometry, f: Ring, p: nat): iset<Ring>
    requires p < |f|
  {
    iset x: Sector | SectorShape(g, x) && !ValidHeader(x.hdr) :: f[p := x]
  }

  lemma EraseNoise(g: Geometry, s: State)
    requires Typed(g, s)
    ensures forall c | c in EraseCuts(g, s.flash, Fresh(g, s)) :: RotationCut(g, s, c)
  {
  }

  lemma ErasedRecordProgram(f: Ring, p: nat, i: nat, slot: u16, head: u16)
    requires p < |f| && i < |f[p].recs| && f[p].recs[i] == ERASED
    ensures var f1 := SetRecord(f, p, i, AndSlot(f[p].recs[i], slot));
      SetRecord(f1, p, i, AndHead(f1[p].recs[i], head)) == SetRecord(f, p, i, Record(slot, head))
  {
    ProgramErasedWord(slot);
    ProgramErasedWord(head);
    SetTwice(f, p, i, Record(slot, WORD_ONES), Record(slot, head));
  }

  class IndexJournal {
    const g: Geometry
    var flash: Ring
    var oldest: nat
    var count: nat
    var active: nat
    var serial: nat
    /** next_index_offset, counted in records of the active sector. */
    var next: nat
    /** The mounted index back end, as the map it represents. */
    var ram: Namespace
    /** Every flash image that a power cut could have left so far. */
    ghost var cuts: iset<Ring>

    ghost function Abs(): State
      reads this
    {
      State(flash, oldest, count, active, serial, next, ram)
    }

    ghost predicate Valid()
      reads this
    {
      Inv(g, Abs())
    }

    ghost predicate Ready()
      reads this
    {
      GeometryOk(g) && RingShape(g, flash)
    }

    // ------------------------------------------------------------ flash steps

    method EraseSector(p: nat)
      requires Ready() && p < g.n
      modifies this`flash, this`cuts
      ensures Ready() && flash == old(flash)[p := ErasedSector(g)]
      ensures cuts == old(cuts) + EraseCuts(g, old(flash), p)
    {
      cuts := cuts + EraseCuts(g, flash, p);
      flash := flash[p := ErasedSector(g)];
    }

    /** program_index_record_at: the slot word first, then the head word. */
    method ProgramRecord(p: nat, i: nat, slot: u16, head: u16)
      requires Ready() && p < g.n && i < g.cap && flash[p].recs[i] == ERASED
      modifies this`flash, this`cuts
      ensures Ready() && flash == SetRecord(old(flash), p, i, Record(slot, head))
      ensures cuts == old(cuts) + RecordCuts(old(flash), p, i, slot, head)
    {
      cuts := cuts + RecordCuts(flash, p, i, slot, head);
      ErasedRecordProgram(flash, p, i, slot, head);
      flash := SetRecord(flash, p, i, AndSlot(flash[p].recs[i], slot));
      flash := SetRecord(flash, p, i, AndHead(flash[p].recs[i], head));
    }

    /** fffs_program_index_header: everything but the valid flag, then that one flag. */
    method ProgramHeader(p: nat, newSerial: nat)
      requires Ready() && p < g.n && newSerial < 16 && flash[p].hdr == ERASED_HEADER
      modifies this`flash, this`cuts
      ensures Ready() && flash == SetHeader(old(flash), p, Header(g, newSerial, FLAGS_VALID))
      ensures forall c | c in cuts && c !in old(cuts) ::
                || c == flash
                || (exists h :: |h| == 8 && !ValidHeader(h) && c == SetHeader(old(flash), p, h))
    {
      ghost var f := flash;
      var hdr := Header(g, newSerial, FLAGS_ERASED);
      ghost var bodyCuts := iset h | TornHeader(ERASED_HEADER, hdr, h) :: SetHeader(f, p, h);
      ghost var flagCuts := iset b: bv8 | TornByte(FLAGS_ERASED, FLAGS_VALID, b) :: SetHeader(f, p, hdr[7 := b]);
      forall c | c in bodyCuts
        ensures exists h :: |h| == 8 && !ValidHeader(h) && c == SetHeader(f, p, h)
      {
        var h :| TornHeader(ERASED_HEADER, hdr, h) && c == SetHeader(f, p, h);
        assert TornByte(0xff, 0xff, h[7]);
        TornPadding(0xff, h[7]);
      }
      forall c | c in flagCuts
        ensures c == SetHeader(f, p, Header(g, newSerial, FLAGS_VALID)) ||
                exists h :: |h| == 8 && !ValidHeader(h) && c == SetHeader(f, p, h)
      {
        var b: bv8 :| TornByte(FLAGS_ERASED, FLAGS_VALID, b) && c == SetHeader(f, p, hdr[7 := b]);
        FlagsAreAtomic(b);
        assert hdr[7 := FLAGS_VALID] == Header(g, newSerial, FLAGS_VALID);
        assert b == FLAGS_ERASED ==> !ValidHeader(hdr[7 := b]);
      }
      cuts := cuts + bodyCuts + flagCuts;
      flash := SetHeader(flash, p, AndHeader(flash[p].hdr, hdr));
      ProgramErasedHeader(hdr);
      flash := SetHeader(flash, p, flash[p].hdr[7 := flash[p].hdr[7] & FLAGS_VALID]);
      assert hdr[7 := FLAGS_ERASED & FLAGS_VALID] == Header(g, newSerial, FLAGS_VALID);
    }

    /** tombstone_index_sector: one bit of the flags byte. */
    method TombstoneSector(p: nat)
      requires Ready() && p < g.n && flash[p].hdr[7] == FLAGS_VALID
      modifies this`flash, this`cuts
      ensures Ready() && flash == SetHeader(old(flash), p, Tombstoned(old(flash)[p].hdr))
      ensures forall c | c in cuts && c !in old(cuts) :: c == old(flash) || c == flash
    {
      ghost var f, hdr := flash, flash[p].hdr;
      ghost var flagCuts := iset b: bv8 | TornByte(FLAGS_VALID, FLAGS_TOMBSTONED, b) :: SetHeader(f, p, hdr[7 := b]);
      forall c | c in flagCuts
        ensures c == f || c == SetHeader(f, p, Tombstoned(hdr))
      {
        var b: bv8 :| TornByte(FLAGS_VALID, FLAGS_TOMBSTONED, b) && c == SetHeader(f, p, hdr[7 := b]);
        FlagsAreAtomic(b);
        assert hdr[7 := FLAGS_VALID] == hdr;
        assert f[p := f[p]] == f;
      }
      cuts := cuts + flagCuts;
      flash := SetHeader(flash, p, Tombstoned(flash[p].hdr));
    }

    // ------------------------------------------------------------ rotation and append

    method RotateBegin()
      requires Typed(g, Abs()) && count < g.n
      modifies this`flash, this`cuts, this`active, this`serial, this`next, this`count
      ensures Ready() && flash == old(flash)[Fresh(g, old(Abs())) := ErasedSector(g)]
      ensures active == Fresh(g, old(Abs())) && serial == SerialAt(old(serial), 1) && next == 0
      ensures count == old(count) + 1
      ensures forall c | c in cuts && c !in old(cuts) :: RotationCut(g, old(Abs()), c)
    {
      var newActive := active + 1;
      if newActive >= g.n {
        newActive := 0;
      }
      ghost var s := Abs();
      EraseSector(newActive);
      EraseNoise(g, s);
      serial := if serial == 15 then 0 else serial + 1;
      active := newActive;
      next := 0;
      if count < g.n {
        count := count + 1;
      }
    }

    /** index_compact_oldest_copy: the current records of the oldest sector go into the fresh one.
        They always fit, so the spill path is never taken. */
    method CompactOldestCopy(ghost s: State)
      requires RecordsInv(g, s) && s.next == g.cap && s.count == g.n - 1
      requires Ready() && flash == s.flash[Fresh(g, s) := ErasedSector(g)]
      requires oldest == s.oldest && active == Fresh(g, s) && next == 0 && ram == s.ram
      modifies this`flash, this`cuts, this`next
      ensures Ready() && flash == s.flash[Fresh(g, s) := Sector(ERASED_HEADER, FreshSector(g, s).recs)]
      ensures next == |Copied(g, s)|
      ensures forall c | c in cuts && c !in old(cuts) :: RotationCut(g, s, c)
    {
      RingStep(g, s);
      CompactFilled(g, s);
      var source := oldest;
      ghost var recs := s.flash[s.oldest].recs;
      CopyNone(g, s);
      var i := 0;
      while i < g.cap
        invariant 0 <= i <= g.cap
        invariant CopiedUpTo(g, s, flash, next, i)
        invariant forall c | c in cuts && c !in old(cuts) :: RotationCut(g, s, c)
      {
        CopyRecord(s, source, i);
        i := i + 1;
      }
      assert recs[..g.cap] == recs;
    }

    /** One record of the oldest sector: copied if it is current. */
    method CopyRecord(ghost s: State, source: nat, i: nat)
      requires RecordsInv(g, s) && s.next == g.cap && s.count == g.n - 1 && Ready() && source == s.oldest && i < g.cap
      requires source != Fresh(g, s) && active == Fresh(g, s) && ram == s.ram && CopiedUpTo(g, s, flash, next, i)
      modifies this`flash, this`cuts, this`next
      ensures Ready() && CopiedUpTo(g, s, flash, next, i + 1)
      ensures forall c | c in cuts && c !in old(cuts) :: RotationCut(g, s, c)
    {
      ghost var recs := s.flash[s.oldest].recs;
      var r := flash[source].recs[i];
      assert r == recs[i] && recs[..i + 1][..i] == recs[..i];
      OldestIsGood(g, s, i);
      if r.head != 0 && r.slot in ram && ram[r.slot] == r.head {
        ghost var f := flash;
        CopyOne(g, s, f, next, i);
        ProgramRecord(active, next, r.slot, r.head);
        next := next + 1;
        FreshNoise(g, s, f, next - 1, r.slot, r.head);
      }
    }

    method RotateCommit(ghost s: State)
      requires Typed(g, s) && Ready() && active == Fresh(g, s) && serial == SerialAt(s.serial, 1)
      requires flash == s.flash[active := Sector(ERASED_HEADER, FreshSector(g, s).recs)]
      modifies this`flash, this`cuts
      ensures flash == Committed(g, s)
      ensures forall c | c in cuts && c !in old(cuts) :: RotationCut(g, s, c)
    {
      ghost var f := flash;
      ProgramHeader(active, serial);
      assert f[active := FreshSector(g, s)] == s.flash[active := FreshSector(g, s)];
    }

    method CompactOldestFinish()
      requires Ready() && oldest < g.n && flash[oldest].hdr[7] == FLAGS_VALID && count > 0
      modifies this`flash, this`cuts, this`oldest, this`count
      ensures flash == SetHeader(old(flash), old(oldest), Tombstoned(old(flash)[old(oldest)].hdr))
      ensures oldest == At(g.n, old(oldest), 1) && count == old(count) - 1
      ensures forall c | c in cuts && c !in old(cuts) :: c == old(flash) || c == flash
    {
      TombstoneSector(oldest);
      oldest := if oldest + 1 < g.n then oldest + 1 else oldest + 1 - g.n;
      count := count - 1;
    }

    /** fffs_rotate_index: the journal afterwards is `Rotated`, and every power cut on the way left
        an image that RotationCrash covers. */
    method Rotate()
      requires Valid() && next == g.cap
      modifies this`flash, this`cuts, this`oldest, this`count, this`active, this`serial, this`next
      ensures Abs() == Rotated(g, old(Abs()))
      ensures forall c | c in cuts && c !in old(cuts) :: RotationCut(g, old(Abs()), c)
    {
      ghost var s := Abs();
      RotateBegin();
      if count == g.n {
        CompactOldestCopy(s);
        RotateCommit(s);
        OldestHeader(g, s);
        CompactOldestFinish();
      } else {
        assert ErasedSector(g).recs == FreshSector(g, s).recs;
        RotateCommit(s);
      }
    }

    /** The record itself, and the index back end. */
    method WriteTail(slot: u16, head: u16)
      requires Typed(g, Abs()) && next < g.cap && flash[active].recs[next] == ERASED && slot != 0
      modifies this`flash, this`cuts, this`next, this`ram
      ensures Abs() == WithTail(g, old(Abs()), Record(slot, head))
      ensures cuts == old(cuts) + RecordCuts(old(flash), active, old(next), slot, head)
    {
      ProgramRecord(active, next, slot, head);
      next := next + 1;
      ram := if head == 0 then ram - {slot} else ram[slot := head];
    }

    /** fffs_append_index_record. */
    method AppendRecord(slot: u16, head: u16) returns (written: bool)
      requires Valid() && Appendable(g, slot, head)
      modifies this
      ensures Valid()
      ensures (Abs(), written) == Append(g, old(Abs()), slot, head)
      ensures ram == if written then Apply(old(ram), Record(slot, head)) else old(ram)
      ensures forall c | c in cuts && c !in old(cuts) :: AppendCut(g, old(Abs()), slot, head, c)
    {
      ghost var s := Abs();
      AppendRefinesMap(g, s, slot, head);
      TailReady(g, s);
      if next >= g.cap {
        Rotate();
        if next >= g.cap {
          return false;
        }
      }
      ghost var s1 := Abs();
      TailCuts(g, s, s1, slot, head);
      WriteTail(slot, head);
      written := true;
    }

    // ------------------------------------------------------------ mount

    method FinishInterruptedCompaction(ghost d: Sequence)
      requires Ready() && oldest == d.oldest < g.n && 1 <= count == d.count <= g.n
      modifies this`flash, this`oldest, this`count
      ensures (flash, oldest, count) == FinishInterrupted(g, old(flash), d)
    {
      if count == g.n {
        flash := SetHeader(flash, oldest, Tombstoned(flash[oldest].hdr));
        oldest := if oldest + 1 < g.n then oldest + 1 else oldest + 1 - g.n;
        count := count - 1;
      }
    }

    /** fffs_mount: discovery, interrupted compaction, replay. `scratch` is the scratch buffer in
        records; its size does not matter. */
    method Mount(root: Roots, strict: bool, scratch: nat) returns (ok: bool)
      requires Ready() && scratch > 0
      modifies this
      ensures ok <==> Mounted(g, root, strict, old(flash)).Some?
      ensures ok ==> Abs() == Mounted(g, root, strict, old(flash)).value
    {
      var d := FindIndexSequence(g, flash);
      if d.None? {
        return false;
      }
      ok := MountSequence(d.value, root, strict, scratch);
    }

    method MountSequence(d: Sequence, root: Roots, strict: bool, scratch: nat) returns (ok: bool)
      requires Ready() && scratch > 0
      requires d.active < g.n && d.oldest < g.n && 1 <= d.count <= g.n
      modifies this
      ensures ok <==> MountedFrom(g, root, strict, old(flash), d).Some?
      ensures ok ==> Abs() == MountedFrom(g, root, strict, old(flash), d).value
    {
      oldest, count, active, serial := d.oldest, d.count, d.active, d.serial;
      FinishInterruptedCompaction(d);
      var r := ReplayIndex(g, root, strict, flash, oldest, count, active, scratch);
      if r.Corrupt? {
        return false;
      }
      if r.clobber {
        flash := SetRecord(flash, active, r.next - 1, CLOBBERED);
      }
      next, ram := r.next, r.m;
      ok := true;
    }
  }

  /** fffs_find_index_sequence: note every header, keep the newest, follow it back. */
  method FindIndexSequence(g: Geometry, f: Ring) returns (r: Option<Sequence>)
    requires GeometryOk(g) && RingShape(g, f)
    ensures r == Discover(g, f)
  {
    if !OfGeometry(g, f[0].hdr) && !OfGeometry(g, f[1].hdr) {
      return None;
    }
    var fits, noted, best := ScanHeaders(g, f);
    if !fits || best.NoBest? {
      return None;
    }
    var oldest, count := FindOldestIndexSector(noted, best.sector, best.serial);
    return Some(Sequence(best.sector, best.serial, oldest, count));
  }

  ghost predicate OneGeometry(g: Geometry, f: Ring, n: nat)
    requires RingShape(g, f) && n <= g.n
  {
    forall k | 0 <= k < n && ValidHeader(f[k].hdr) :: OfGeometry(g, f[k].hdr)
  }

  /** The headers of the ring, unless one is of another geometry. */
  method ScanHeaders(g: Geometry, f: Ring) returns (fits: bool, noted: Serials, best: Best)
    requires GeometryOk(g) && RingShape(g, f)
    ensures fits <==> OneGeometry(g, f, g.n)
    ensures fits ==> noted == SerialsOf(f) && best == Scan(SerialsOf(f), g.n)
  {
    ghost var v := SerialsOf(f);
    noted, best := [], NoBest;
    var i := 0;
    while i < g.n
      invariant 0 <= i <= g.n
      invariant noted == v[..i] && best == Scan(v, i)
      invariant OneGeometry(g, f, i)
    {
      var hdr := f[i].hdr;
      SerialBound(hdr);
      if !ValidHeader(hdr) {
        noted := noted + [None];
      } else if !OfGeometry(g, hdr) {
        return false, noted, best;
      } else {
        noted := noted + [Some(SerialOf(hdr))];
        if best.NoBest? || Newer(SerialOf(hdr), best.serial) {
          best := Best(i, SerialOf(hdr));
        }
      }
      i := i + 1;
    }
    assert noted == v;
    fits := true;
  }

  method FindOldestIndexSector(v: Serials, active: nat, activeSerial: nat) returns (oldest: nat, count: nat)
    requires active < |v| && activeSerial < 16
    ensures (oldest, count) == Oldest(v, active, activeSerial, 1)
  {
    var current: nat, currentSerial: nat, n: nat := active, activeSerial, 1;
    while n < |v|
      invariant current < |v| && currentSerial < 16 && 1 <= n <= |v|
      invariant Oldest(v, current, currentSerial, n) == Oldest(v, active, activeSerial, 1)
    {
      var prev := Previous(|v|, current);
      var expected := PreviousSerial(currentSerial);
      if v[prev] != Some(expected) {
        break;
      }
      current, currentSerial, n := prev, expected, n + 1;
    }
    return current, n;
  }

  /** fffs_replay_index over the sectors of the sequence, oldest first. */
  method ReplayIndex(g: Geometry, root: Roots, strict: bool, f: Ring, oldest: nat, count: nat, active: nat,
                     scratch: nat) returns (r: Replayed)
    requires GeometryOk(g) && RingShape(g, f) && oldest < g.n && count <= g.n && scratch > 0
    ensures r == Replay(g, root, strict, f, oldest, active, count)
  {
    r := Replayed(map[], 0, false);
    var sector := oldest;
    for order := 0 to count
      invariant sector < g.n && sector == At(g.n, oldest, order)
      invariant r.Replayed? && r == Replay(g, root, strict, f, oldest, active, order)
    {
      r := ReplayOneSector(g, root, strict, f[sector].recs, sector == active, r.m, scratch);
      if r.Corrupt? {
        CorruptStays(g, root, strict, f, oldest, active, order + 1, count);
        return;
      }
      sector := if sector + 1 >= g.n then 0 else sector + 1;
    }
  }

  lemma {:induction false} CorruptStays(g: Geometry, root: Roots, strict: bool, f: Ring, oldest: nat, active: nat,
                                        k: nat, l: nat)
    requires GeometryOk(g) && RingShape(g, f) && oldest < g.n && k <= l <= g.n
    requires Replay(g, root, strict, f, oldest, active, k).Corrupt?
    ensures Replay(g, root, strict, f, oldest, active, l).Corrupt?
    decreases l - k
  {
    if k < l {
      CorruptStays(g, root, strict, f, oldest, active, k + 1, l);
    }
  }

  /** One sector, read in chunks of `scratch` records. */
  method ReplayOneSector(g: Geometry, root: Roots, strict: bool, recs: seq<Record>, active: bool, m0: Namespace,
                         scratch: nat) returns (r: Replayed)
    requires scratch > 0
    ensures r == ReplaySector(g, root, strict, recs, 0, active, m0)
  {
    var m: Namespace, off: nat := m0, 0;
    while off < |recs|
      invariant 0 <= off <= |recs|
      invariant ReplaySector(g, root, strict, recs, off, active, m) ==
                  ReplaySector(g, root, strict, recs, 0, active, m0)
    {
      var nread := if |recs| - off < scratch then |recs| - off else scratch;
      var chunk := recs[off..off + nread];
      var pos := 0;
      while pos < nread
        invariant 0 <= pos <= nread
        invariant ReplaySector(g, root, strict, recs, off + pos, active, m) ==
                    ReplaySector(g, root, strict, recs, 0, active, m0)
      {
        var rec := chunk[pos];
        assert rec == recs[off + pos];
        if rec == ERASED {
          return Replayed(m, off + pos, false);
        }
        if rec == CLOBBERED {
          pos := pos + 1;
          continue;
        }
        var terminal := false;
        if active {
          terminal := RecordIsTerminal(recs, off, chunk, pos);
        }
        if rec.slot == 0 || rec.slot == WORD_ONES || rec.head == WORD_ONES {
          return if strict || !terminal then Corrupt else Replayed(m, off + pos + 1, true);
        }
        if rec.head == 0 {
          m := m - {rec.slot};
          pos := pos + 1;
          continue;
        }
        if !InRange(g, rec.head) {
          return if strict || !terminal then Corrupt else Replayed(m, off + pos + 1, true);
        }
        if terminal && !root(rec.head, rec.slot) {
          return if strict then Corrupt else Replayed(m, off + pos + 1, true);
        }
        m := m[rec.slot := rec.head];
        pos := pos + 1;
      }
      off := off + nread;
    }
    return Replayed(m, |recs|, false);
  }

  /** active_index_record_is_terminal: the next record first, then the rest of the chunk, then flash. */
  method RecordIsTerminal(recs: seq<Record>, off: nat, chunk: seq<Record>, pos: nat) returns (terminal: bool)
    requires off + |chunk| <= |recs| && chunk == recs[off..off + |chunk|] && pos < |chunk|
    ensures terminal == ErasedFrom(recs, off + pos + 1)
  {
    var at := off + pos;
    if at + 1 == |recs| {
      return true;
    }
    if recs[at + 1] != ERASED {
      return false;
    }
    var rest := at + 2;
    var chunkEnd := off + |chunk|;
    while rest < chunkEnd
      invariant at + 2 <= rest
      invariant rest <= chunkEnd || rest == at + 2
      invariant forall k | at < k < rest :: recs[k] == ERASED
    {
      if chunk[rest - off] != ERASED {
        assert recs[rest] != ERASED;
        return false;
      }
      rest := rest + 1;
    }
    while rest < |recs|
      invariant at + 2 <= rest <= |recs|
      invariant forall k | at < k < rest :: recs[k] == ERASED
    {
      if recs[rest] != ERASED {
        return false;
      }
      rest := rest + 1;
    }
    return true;
  }

  /** A live oldest sector has the valid flags byte, and is not the fresh sector. */
  lemma OldestHeader(g: Geometry, s: State)
    requires HeadersInv(g, s)
    ensures Committed(g, s)[s.oldest].hdr[7] == FLAGS_VALID
  {
    RingStep(g, s);
    assert At(g.n, s.oldest, 0) == s.oldest && Offset(g.n, s.oldest, s.oldest) == 0;
    assert OfGeometry(g, s.flash[s.oldest].hdr);
    FlagsAreAtomic(s.flash[s.oldest].hdr[7]);
  }

  /** The record behind the tail, after a rotation if one is due, is erased. */
  lemma TailReady(g: Geometry, s: State)
    requires Inv(g, s)
    ensures s.next <= g.cap && (s.next < g.cap ==> s.flash[s.active].recs[s.next] == ERASED)
    ensures s.next == g.cap ==> Typed(g, Rotated(g, s))
    ensures s.next == g.cap && Rotated(g, s).next < g.cap ==>
              Rotated(g, s).flash[Rotated(g, s).active].recs[Rotated(g, s).next] == ERASED
  {
    if s.next == g.cap {
      RotationKeepsInv(g, s);
      FilledTail(g, Rotated(g, s));
    } else {
      FilledTail(g, s);
    }
  }

  lemma FilledTail(g: Geometry, s: State)
    requires RecordsInv(g, s)
    ensures s.next < g.cap ==> s.flash[s.active].recs[s.next] == ERASED
  {
  }

  lemma TailCuts(g: Geometry, s: State, s1: State, slot: u16, head: u16)
    requires Typed(g, s) && Typed(g, s1) && s1 == (if s.next < g.cap then s else Rotated(g, s)) && s1.next < g.cap
    ensures forall c | c in RecordCuts(s1.flash, s1.active, s1.next, slot, head) :: AppendCut(g, s, slot, head, c)
  {
    forall c | c in RecordCuts(s1.flash, s1.active, s1.next, slot, head)
      ensures AppendCut(g, s, slot, head, c)
    {
      var t :| TornRecord(slot, head, t) && c == SetRecord(s1.flash, s1.active, s1.next, t);
    }
  }

  lemma OldestIsGood(g: Geometry, s: State, i: nat)
    requires RecordsInv(g, s) && s.next == g.cap && i < g.cap
    ensures Good(g, s.flash[s.oldest].recs[i])
  {
    assert At(g.n, s.oldest, 0) == s.oldest;
  }

  /** The fresh sector holds the current ones among the first i records of the oldest sector. */
  ghost predicate CopiedUpTo(g: Geometry, s: State, f: Ring, next: nat, i: nat) {
    && Typed(g, s) && i <= g.cap
    && var kept := Survivors(s.ram, s.flash[s.oldest].recs[..i]);
    && next == |kept|
    && f == s.flash[Fresh(g, s) := Sector(ERASED_HEADER, kept + ErasedRecords(g.cap - |kept|))]
  }

  lemma CopyNone(g: Geometry, s: State)
    requires Typed(g, s)
    ensures CopiedUpTo(g, s, s.flash[Fresh(g, s) := ErasedSector(g)], 0, 0)
  {
    assert s.flash[s.oldest].recs[..0] == [];
    assert [] + ErasedRecords(g.cap) == ErasedRecords(g.cap);
  }

  lemma CopyOne(g: Geometry, s: State, f: Ring, next: nat, i: nat)
    requires CopiedUpTo(g, s, f, next, i) && i < g.cap
    requires var r := s.flash[s.oldest].recs[i]; r.head != 0 && r.slot in s.ram && s.ram[r.slot] == r.head
    ensures next < g.cap
    ensures CopiedUpTo(g, s, SetRecord(f, Fresh(g, s), next, s.flash[s.oldest].recs[i]), next + 1, i + 1)
  {
    var recs := s.flash[s.oldest].recs;
    assert recs[..i + 1][..i] == recs[..i];
    var kept := Survivors(s.ram, recs[..i]);
    assert (kept + ErasedRecords(g.cap - |kept|))[next := recs[i]] ==
             (kept + [recs[i]]) + ErasedRecords(g.cap - |kept| - 1);
  }

  /** A torn copy touches only the fresh sector, which has no valid header yet. */
  lemma FreshNoise(g: Geometry, s: State, f: Ring, k: nat, slot: u16, head: u16)
    requires Typed(g, s) && RingShape(g, f) && k < g.cap
    requires f == s.flash[Fresh(g, s) := f[Fresh(g, s)]] && !ValidHeader(f[Fresh(g, s)].hdr)
    ensures forall c | c in RecordCuts(f, Fresh(g, s), k, slot, head) :: RotationCut(g, s, c)
  {
    forall c | c in RecordCuts(f, Fresh(g, s), k, slot, head)
      ensures RotationCut(g, s, c)
    {
      var t :| c == SetRecord(f, Fresh(g, s), k, t);
    }
  }

  lemma ProgramErasedHeader(value: seq<bv8>)
    requires |value| == 8
    ensures AndHeader(ERASED_HEADER, value) == value
  {
    forall i | 0 <= i < 8
      ensures ERASED_HEADER[i] & value[i] == value[i]
    {
      assert ERASED_HEADER[i] == 0xff;
    }
  }
}
