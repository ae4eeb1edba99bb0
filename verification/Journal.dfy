/** The circular namespace journal: replay, mount, append, rotation, and what a power cut at any
    point of them leaves behind (src/fffs_index_log.c, src/fastffs.c). */
module Journal {
  import opened Nor
  import opened IndexLog
  import opened IndexRing

  /** Whether sector `head` holds readable root metadata of `slot`. */
  type Roots = (u16, u16) -> bool

  predicate InRange(g: Geometry, head: u16) {
    g.n <= head < g.sectors
  }

  /** A record that replay accepts anywhere. */
  predicate Good(g: Geometry, r: Record) {
    || r == CLOBBERED
    || (r.slot != 0 && r.slot != WORD_ONES && (r.head == 0 || InRange(g, r.head)))
  }

  predicate ErasedFrom(recs: seq<Record>, i: nat)
    requires i <= |recs|
  {
    forall k | i <= k < |recs| :: recs[k] == ERASED
  }

  /** k good records, then erased space. */
  predicate Filled(g: Geometry, recs: seq<Record>, k: nat) {
    && k <= |recs|
    && (forall i | 0 <= i < k :: Good(g, recs[i]))
    && ErasedFrom(recs, k)
  }

  datatype Replayed = Corrupt | Replayed(m: Namespace, next: nat, clobber: bool)

  /** fffs_replay_index within one sector, from record i on. An unusable record is an error
      unless it is the last written one of the active sector and the mount is not strict: then
      it is clobbered and replay of the sector ends. */
  function ReplaySector(g: Geometry, root: Roots, strict: bool, recs: seq<Record>, i: nat, active: bool,
                        m: Namespace): (res: Replayed)
    requires i <= |recs|
    ensures res.Replayed? ==> i <= res.next <= |recs| && (res.clobber ==> res.next > 0)
    decreases |recs| - i
  {
    if i == |recs| || recs[i] == ERASED then Replayed(m, i, false)
    else
      var r := recs[i];
      var terminal := active && ErasedFrom(recs, i + 1);
      if r == CLOBBERED then ReplaySector(g, root, strict, recs, i + 1, active, m)
      else if r.slot == 0 || r.slot == WORD_ONES || r.head == WORD_ONES then
        if strict || !terminal then Corrupt else Replayed(m, i + 1, true)
      else if r.head == 0 then ReplaySector(g, root, strict, recs, i + 1, active, m - {r.slot})
      else if !InRange(g, r.head) || (terminal && !root(r.head, r.slot)) then
        if strict || !terminal then Corrupt else Replayed(m, i + 1, true)
      else ReplaySector(g, root, strict, recs, i + 1, active, m[r.slot := r.head])
  }

  /** Replay of the first k sectors of the sequence, oldest first. */
  function Replay(g: Geometry, root: Roots, strict: bool, f: Ring, oldest: nat, active: nat, k: nat): (res: Replayed)
    requires GeometryOk(g) && RingShape(g, f) && oldest < g.n && k <= g.n
    ensures res.Replayed? ==> res.next <= g.cap && (res.clobber ==> res.next > 0)
  {
    if k == 0 then Replayed(map[], 0, false)
    else
      var before := Replay(g, root, strict, f, oldest, active, k - 1);
      var p := At(g.n, oldest, k - 1);
      if before.Corrupt? then Corrupt else ReplaySector(g, root, strict, f[p].recs, 0, p == active, before.m)
  }

  /** The mounted journal: flash image and the fields of struct fffs that describe it. */
  datatype State = State(flash: Ring, oldest: nat, count: nat, active: nat, serial: nat, next: nat, ram: Namespace)

  function SetRecord(f: Ring, p: nat, i: nat, r: Record): Ring
    requires p < |f| && i < |f[p].recs|
  {
    f[p := f[p].(recs := f[p].recs[i := r])]
  }

  function SetHeader(f: Ring, p: nat, hdr: seq<bv8>): Ring
    requires p < |f|
  {
    f[p := f[p].(hdr := hdr)]
  }

  /** tombstone_index_sector programs only the flags byte. */
  function Tombstoned(hdr: seq<bv8>): (h: seq<bv8>)
    requires |hdr| == 8
    ensures |h| == 8
  {
    hdr[7 := hdr[7] & FLAGS_TOMBSTONED]
  }

  /** fffs_index_finish_interrupted_compaction: a full ring means the oldest sector has been
      copied but not yet tombstoned. */
  function FinishInterrupted(g: Geometry, f: Ring, d: Sequence): (r: (Ring, nat, nat))
    requires GeometryOk(g) && RingShape(g, f) && d.oldest < g.n && 1 <= d.count <= g.n
    ensures RingShape(g, r.0) && r.1 < g.n && r.2 < g.n
  {
    if d.count < g.n then (f, d.oldest, d.count)
    else (SetHeader(f, d.oldest, Tombstoned(f[d.oldest].hdr)), At(g.n, d.oldest, 1), g.n - 1)
  }

  /** Mounting the sequence `d`: interrupted compaction, then replay. */
  function MountedFrom(g: Geometry, root: Roots, strict: bool, f: Ring, d: Sequence): Option<State>
    requires GeometryOk(g) && RingShape(g, f)
    requires d.active < g.n && d.oldest < g.n && 1 <= d.count <= g.n
  {
    var (f1, oldest, count) := FinishInterrupted(g, f, d);
    var r := Replay(g, root, strict, f1, oldest, d.active, count);
    if r.Corrupt? then None
    else
      var f2 := if r.clobber then SetRecord(f1, d.active, r.next - 1, CLOBBERED) else f1;
      Some(State(f2, oldest, count, d.active, d.serial, r.next, r.m))
  }

  /** fffs_mount as far as the journal is concerned. */
  function Mounted(g: Geometry, root: Roots, strict: bool, f: Ring): Option<State>
    requires GeometryOk(g) && RingShape(g, f)
  {
    var d := Discover(g, f);
    if d.None? then None else MountedFrom(g, root, strict, f, d.value)
  }

  /** All records of the first j sectors of the sequence. */
  ghost function LogUpTo(g: Geometry, f: Ring, oldest: nat, j: nat): seq<Record>
    requires |f| == g.n && oldest < g.n && j <= g.n
  {
    if j == 0 then [] else LogUpTo(g, f, oldest, j - 1) + f[At(g.n, oldest, j - 1)].recs
  }

  ghost function Log(g: Geometry, s: State): seq<Record>
    requires |s.flash| == g.n && s.oldest < g.n && 1 <= s.count <= g.n && s.active < g.n
    requires s.next <= |s.flash[s.active].recs|
  {
    LogUpTo(g, s.flash, s.oldest, s.count - 1) + s.flash[s.active].recs[..s.next]
  }

  function FirstSerial(serial: nat, count: nat): (r: nat)
    requires serial < 16 && 1 <= count <= 16
    ensures r < 16
  {
    if serial >= count - 1 then serial - (count - 1) else serial + 16 - (count - 1)
  }

  ghost predicate Shaped(g: Geometry, s: State) {
    && GeometryOk(g) && RingShape(g, s.flash)
    && s.oldest < g.n && 1 <= s.count <= g.n && s.serial < 16
    && s.active == At(g.n, s.oldest, s.count - 1)
    && s.next <= g.cap
  }

  /** The valid headers are the sequence, and sector 0 or 1 is always among them. */
  ghost predicate HeadersInv(g: Geometry, s: State) {
    && Shaped(g, s)
    && s.count <= g.n - 1
    && (s.oldest == 0 || s.count == g.n - 1)
    && Consecutive(g, s.flash, s.oldest, s.count, FirstSerial(s.serial, s.count))
  }

  /** All sectors but the active one are full of good records, and the mounted namespace is the
      last-writer-wins fold of the log. */
  ghost predicate RecordsInv(g: Geometry, s: State) {
    && Shaped(g, s)
    && (forall j | 0 <= j < s.count - 1 :: Filled(g, s.flash[At(g.n, s.oldest, j)].recs, g.cap))
    && Filled(g, s.flash[s.active].recs, s.next)
    && s.ram == Fold(map[], Log(g, s))
  }

  /** What holds between calls. */
  ghost predicate Inv(g: Geometry, s: State) {
    HeadersInv(g, s) && RecordsInv(g, s)
  }

  /** Every file of the namespace has readable root metadata. */
  ghost predicate Rooted(root: Roots, m: Namespace) {
    forall s | s in m :: root(m[s], s)
  }

  /** Discovery is right for this many headers (DiscoveryExact). */
  predicate Discoverable(g: Geometry, oldest: nat, count: nat) {
    count <= 9 || !Wraps(g.n, oldest, count)
  }

  lemma FoldFront(m: Namespace, r: Record, rest: seq<Record>)
    ensures Fold(m, [r] + rest) == Fold(Apply(m, r), rest)
  {
    FoldConcat(m, [r], rest);
    assert [r][..0] == [];
  }

  /** Good records followed by something written are replayed one by one. */
  lemma {:induction false} ReplayPrefix(g: Geometry, root: Roots, strict: bool, recs: seq<Record>, i: nat, k: nat,
                                        active: bool, m: Namespace)
    requires GeometryOk(g) && i <= k < |recs| && (forall j | i <= j < k :: Good(g, recs[j])) && recs[k] != ERASED
    ensures ReplaySector(g, root, strict, recs, i, active, m)
         == ReplaySector(g, root, strict, recs, k, active, Fold(m, recs[i..k]))
    decreases k - i
  {
    if i == k {
      assert recs[i..k] == [];
    } else {
      assert Good(g, recs[i]) && !ErasedFrom(recs, i + 1);
      ReplayPrefix(g, root, strict, recs, i + 1, k, active, Apply(m, recs[i]));
      FoldFront(m, recs[i], recs[i + 1..k]);
      assert recs[i..k] == [recs[i]] + recs[i + 1..k];
    }
  }

  /** A sector of good records replays to their fold; in the active sector the last one must not
      be a put without a root. */
  lemma ReplayFilled(g: Geometry, root: Roots, strict: bool, recs: seq<Record>, k: nat, active: bool, m: Namespace)
    requires GeometryOk(g) && Filled(g, recs, k)
    requires active && k > 0 ==> recs[k - 1].head == 0 || root(recs[k - 1].head, recs[k - 1].slot)
    ensures ReplaySector(g, root, strict, recs, 0, active, m) == Replayed(Fold(m, recs[..k]), k, false)
  {
    if k > 0 {
      ReplayPrefix(g, root, strict, recs, 0, k - 1, active, m);
      var r := recs[k - 1];
      assert Good(g, r);
      assert recs[..k] == recs[0..k - 1] + [r];
      assert recs[..k][..k - 1] == recs[0..k - 1];
      var m' := Fold(m, recs[0..k - 1]);
      assert ReplaySector(g, root, strict, recs, k - 1, active, m')
          == ReplaySector(g, root, strict, recs, k, active, Apply(m', r));
    } else {
      assert recs[..k] == [];
    }
  }

  /** Replay of the full sectors before the active one. */
  lemma {:induction false} ReplayFull(g: Geometry, root: Roots, strict: bool, f: Ring, oldest: nat, active: nat, k: nat)
    requires GeometryOk(g) && RingShape(g, f) && oldest < g.n && k < g.n
    requires forall j | 0 <= j < k :: At(g.n, oldest, j) != active && Filled(g, f[At(g.n, oldest, j)].recs, g.cap)
    ensures Replay(g, root, strict, f, oldest, active, k).Replayed?
    ensures Replay(g, root, strict, f, oldest, active, k).m == Fold(map[], LogUpTo(g, f, oldest, k))
    ensures !Replay(g, root, strict, f, oldest, active, k).clobber
  {
    if k > 0 {
      ReplayFull(g, root, strict, f, oldest, active, k - 1);
      var recs := f[At(g.n, oldest, k - 1)].recs;
      var m := Fold(map[], LogUpTo(g, f, oldest, k - 1));
      assert Filled(g, recs, g.cap);
      ReplayFilled(g, root, strict, recs, g.cap, false, m);
      assert recs[..g.cap] == recs;
      FoldConcat(map[], LogUpTo(g, f, oldest, k - 1), recs);
    }
  }

  /** The last record of the log decides its slot. */
  lemma LastRecordIsCurrent(m: Namespace, log: seq<Record>)
    requires log != [] && log[|log| - 1] != CLOBBERED && log[|log| - 1].head != 0
    ensures var r := log[|log| - 1]; r.slot in Fold(m, log) && Fold(m, log)[r.slot] == r.head
  {
  }

  /** Mounting a journal that was not interrupted gives back exactly the same journal, strict or not. */
  lemma MountIdentity(g: Geometry, root: Roots, strict: bool, s: State)
    requires Inv(g, s) && Rooted(root, s.ram) && Discoverable(g, s.oldest, s.count)
    ensures Mounted(g, root, strict, s.flash) == Some(s)
  {
    SequenceKnown(g, s);
    ReplayIdentity(g, root, strict, s);
  }

  lemma ReplayIdentity(g: Geometry, root: Roots, strict: bool, s: State)
    requires RecordsInv(g, s) && Rooted(root, s.ram)
    ensures Replay(g, root, strict, s.flash, s.oldest, s.active, s.count) == Replayed(s.ram, s.next, false)
  {
    NotActive(g, s.oldest, s.count);
    ReplayFull(g, root, strict, s.flash, s.oldest, s.active, s.count - 1);
    var recs := s.flash[s.active].recs;
    var before := LogUpTo(g, s.flash, s.oldest, s.count - 1);
    TailRooted(root, before, recs[..s.next], s.ram);
    ReplayFilled(g, root, strict, recs, s.next, true, Fold(map[], before));
    FoldConcat(map[], before, recs[..s.next]);
  }

  /** The last record of the log is a delete, clobbered, or a put of a current file. */
  lemma TailRooted(root: Roots, before: seq<Record>, tail: seq<Record>, m: Namespace)
    requires m == Fold(map[], before + tail) && Rooted(root, m)
    ensures tail != [] ==> tail[|tail| - 1].head == 0 || root(tail[|tail| - 1].head, tail[|tail| - 1].slot)
  {
    var log := before + tail;
    if tail != [] && tail[|tail| - 1].head != 0 {
      assert log[|log| - 1] == tail[|tail| - 1];
      LastRecordIsCurrent(map[], log);
    }
  }

  /** Discovery reports the sequence that the invariant describes. */
  lemma SequenceKnown(g: Geometry, s: State)
    requires HeadersInv(g, s) && Discoverable(g, s.oldest, s.count)
    ensures Discover(g, s.flash) == Some(Sequence(s.active, s.serial, s.oldest, s.count))
  {
    EarlyHeader(g, s);
    SequenceTrue(g, s);
    DiscoveryExact(g, s.flash, s.oldest, s.count, FirstSerial(s.serial, s.count));
  }

  lemma SequenceTrue(g: Geometry, s: State)
    requires HeadersInv(g, s)
    ensures TrueSequence(g.n, s.oldest, s.count, FirstSerial(s.serial, s.count)) ==
              Sequence(s.active, s.serial, s.oldest, s.count)
  {
    assert SerialAt(FirstSerial(s.serial, s.count), s.count - 1) == s.serial;
  }

  /** Sector 0 or sector 1 is in sequence. */
  lemma EarlyHeader(g: Geometry, s: State)
    requires HeadersInv(g, s)
    ensures ValidHeader(s.flash[0].hdr) || ValidHeader(s.flash[1].hdr)
  {
    var p := if s.oldest == 0 || Offset(g.n, s.oldest, 0) < s.count then 0 else 1;
    assert Offset(g.n, s.oldest, p) < s.count;
    assert ValidHeader(s.flash[p].hdr);
  }

  lemma NotActive(g: Geometry, oldest: nat, count: nat)
    requires GeometryOk(g) && oldest < g.n && 1 <= count <= g.n
    ensures forall j | 0 <= j < count - 1 :: At(g.n, oldest, j) != At(g.n, oldest, count - 1)
  {
  }

  // ---------------------------------------------------------------- format

  const ERASED_HEADER: seq<bv8> := [0xff, 0xff, 0xff, 0xff, 0xff, 0xff, 0xff, 0xff]

  /** fffs_format. */
  function Formatted(g: Geometry): State
    requires GeometryOk(g)
  {
    State(seq(g.n, i requires 0 <= i => FormattedSector(g, i)), 0, 1, 0, 0, 0, map[])
  }

  function FormattedSector(g: Geometry, i: nat): (s: Sector)
    requires GeometryOk(g)
    ensures SectorShape(g, s) && ErasedFrom(s.recs, 0)
  {
    Sector(if i == 0 then Header(g, 0, FLAGS_VALID) else ERASED_HEADER, ErasedRecords(g.cap))
  }

  // ---------------------------------------------------------------- appending one record

  /** A record that the file layer may append: resolved slots avoid 0 and 0xffff, a head is 0 for
      a delete or a data sector. */
  predicate Appendable(g: Geometry, slot: u16, head: u16) {
    slot != 0 && slot != WORD_ONES && (head == 0 || InRange(g, head))
  }

  /** What an append interrupted in the slot word or in the head word leaves in the record. */
  predicate TornRecord(slot: u16, head: u16, t: Record) {
    || (t.head == WORD_ONES && TornWord(WORD_ONES, slot, t.slot))
    || (t.slot == slot && TornWord(WORD_ONES, head, t.head))
  }

  /** No sector but the slot's old and new head holds a live root of the slot. */
  ghost predicate OnlyRoots(root: Roots, m: Namespace, slot: u16, head: u16) {
    forall h: u16 | root(h, slot) :: h == head || (slot in m && h == m[slot])
  }

  /** The journal with one more record in its active sector. */
  function WithTail(g: Geometry, s: State, r: Record): State
    requires s.active < |s.flash| && s.next < |s.flash[s.active].recs|
  {
    s.(flash := SetRecord(s.flash, s.active, s.next, r), next := s.next + 1, ram := Apply(s.ram, r))
  }

  lemma {:induction false} LogFrame(g: Geometry, f: Ring, f': Ring, oldest: nat, j: nat)
    requires |f| == |f'| == g.n && oldest < g.n && j <= g.n
    requires forall k | 0 <= k < j :: f[At(g.n, oldest, k)].recs == f'[At(g.n, oldest, k)].recs
    ensures LogUpTo(g, f, oldest, j) == LogUpTo(g, f', oldest, j)
  {
    if j > 0 {
      LogFrame(g, f, f', oldest, j - 1);
    }
  }

  lemma HeadersFrame(g: Geometry, s: State, s': State)
    requires HeadersInv(g, s) && Shaped(g, s')
    requires s'.oldest == s.oldest && s'.count == s.count && s'.serial == s.serial
    requires forall p | 0 <= p < g.n :: s'.flash[p].hdr == s.flash[p].hdr
    ensures HeadersInv(g, s')
  {
    assert forall p | 0 <= p < g.n :: s.flash[p].hdr == s'.flash[p].hdr;
  }

  /** Writing a good record behind the tail keeps the invariant. */
  lemma TailKeepsInv(g: Geometry, s: State, r: Record)
    requires Inv(g, s) && s.next < g.cap && Good(g, r)
    ensures Inv(g, WithTail(g, s, r))
  {
    var s' := WithTail(g, s, r);
    assert Shaped(g, s');
    HeadersFrame(g, s, s');
    TailKeepsRecords(g, s, r);
  }

  lemma TailKeepsRecords(g: Geometry, s: State, r: Record)
    requires RecordsInv(g, s) && s.next < g.cap && Good(g, r)
    ensures RecordsInv(g, WithTail(g, s, r))
  {
    var s' := WithTail(g, s, r);
    NotActive(g, s.oldest, s.count);
    LogFrame(g, s.flash, s'.flash, s.oldest, s.count - 1);
    var before := LogUpTo(g, s.flash, s.oldest, s.count - 1);
    var recs := s.flash[s.active].recs;
    assert s'.flash[s.active].recs[..s'.next] == recs[..s.next] + [r];
    assert Log(g, s') == Log(g, s) + [r];
    assert (Log(g, s) + [r])[..|Log(g, s)|] == Log(g, s);
  }

  /** How replay judges the last written record of the active sector. */
  function TailVerdict(g: Geometry, root: Roots, m: Namespace, t: Record): Record {
    if t == CLOBBERED || t.slot == 0 || t.slot == WORD_ONES || t.head == WORD_ONES then CLOBBERED
    else if t.head == 0 then t
    else if InRange(g, t.head) && root(t.head, t.slot) then t
    else CLOBBERED
  }

  /** Mounting after an interrupted append either keeps the record or clobbers it. */
  lemma MountTail(g: Geometry, root: Roots, s: State, t: Record)
    requires Inv(g, s) && s.next < g.cap && Rooted(root, s.ram) && Discoverable(g, s.oldest, s.count)
    requires t != ERASED
    ensures Mounted(g, root, false, SetRecord(s.flash, s.active, s.next, t))
         == Some(WithTail(g, s, TailVerdict(g, root, s.ram, t)))
  {
    var c := SetRecord(s.flash, s.active, s.next, t);
    var s1 := s.(flash := c, next := s.next + 1);
    assert Shaped(g, s1);
    HeadersFrame(g, s, s1);
    SequenceKnown(g, s1);
    ReplayTail(g, root, s, t);
    SetTwice(s.flash, s.active, s.next, t, CLOBBERED);
  }

  lemma SetTwice(f: Ring, p: nat, i: nat, r: Record, r': Record)
    requires p < |f| && i < |f[p].recs|
    ensures SetRecord(SetRecord(f, p, i, r), p, i, r') == SetRecord(f, p, i, r')
    ensures r == f[p].recs[i] ==> SetRecord(f, p, i, r) == f
  {
    var recs := f[p].recs;
    assert recs[i := r][i := r'] == recs[i := r'];
    if r == recs[i] {
      assert recs[i := r] == recs;
      assert f[p := f[p]] == f;
    }
  }

  lemma ReplayTail(g: Geometry, root: Roots, s: State, t: Record)
    requires RecordsInv(g, s) && s.next < g.cap && Rooted(root, s.ram) && t != ERASED
    ensures var c, v := SetRecord(s.flash, s.active, s.next, t), TailVerdict(g, root, s.ram, t);
      Replay(g, root, false, c, s.oldest, s.active, s.count)
      == Replayed(Apply(s.ram, v), s.next + 1, v != t)
  {
    var c := SetRecord(s.flash, s.active, s.next, t);
    ReplayBefore(g, root, s, c);
    TailFacts(g, s);
    TailSector(g, root, s.flash[s.active].recs, s.next, t, Fold(map[], LogUpTo(g, s.flash, s.oldest, s.count - 1)));
    LastSector(g, root, c, s.oldest, s.active, s.count);
  }

  lemma TailFacts(g: Geometry, s: State)
    requires RecordsInv(g, s) && s.next < g.cap
    ensures At(g.n, s.oldest, s.count - 1) == s.active
    ensures var recs := s.flash[s.active].recs;
      && |recs| == g.cap && ErasedFrom(recs, s.next + 1) && (forall j | 0 <= j < s.next :: Good(g, recs[j]))
      && Fold(Fold(map[], LogUpTo(g, s.flash, s.oldest, s.count - 1)), recs[..s.next]) == s.ram
  {
    FoldConcat(map[], LogUpTo(g, s.flash, s.oldest, s.count - 1), s.flash[s.active].recs[..s.next]);
  }

  lemma LastSector(g: Geometry, root: Roots, c: Ring, oldest: nat, active: nat, count: nat)
    requires GeometryOk(g) && RingShape(g, c) && oldest < g.n && 0 < count <= g.n && active < g.n
    requires At(g.n, oldest, count - 1) == active
    requires Replay(g, root, false, c, oldest, active, count - 1).Replayed?
    ensures Replay(g, root, false, c, oldest, active, count)
         == ReplaySector(g, root, false, c[active].recs, 0, true,
                         Replay(g, root, false, c, oldest, active, count - 1).m)
  {
  }

  /** Good records, then the tail, in one sector. */
  lemma TailSector(g: Geometry, root: Roots, recs: seq<Record>, k: nat, t: Record, m: Namespace)
    requires && GeometryOk(g) && k < |recs| && t != ERASED && ErasedFrom(recs, k + 1)
             && forall j | 0 <= j < k :: Good(g, recs[j])
    ensures var m' := Fold(m, recs[..k]); var v := TailVerdict(g, root, m', t);
      ReplaySector(g, root, false, recs[k := t], 0, true, m) == Replayed(Apply(m', v), k + 1, v != t)
  {
    var recs' := recs[k := t];
    assert recs'[0..k] == recs[..k];
    ReplayPrefix(g, root, false, recs', 0, k, true, m);
    ReplayLast(g, root, recs', k, Fold(m, recs[..k]));
  }

  /** Replay up to the active sector does not see a change in the active sector. */
  lemma ReplayBefore(g: Geometry, root: Roots, s: State, c: Ring)
    requires RecordsInv(g, s) && RingShape(g, c)
    requires forall p | 0 <= p < g.n && p != s.active :: c[p] == s.flash[p]
    ensures var r := Replay(g, root, false, c, s.oldest, s.active, s.count - 1);
      r.Replayed? && r.m == Fold(map[], LogUpTo(g, s.flash, s.oldest, s.count - 1))
  {
    NotActive(g, s.oldest, s.count);
    LogFrame(g, s.flash, c, s.oldest, s.count - 1);
    ReplayFull(g, root, false, c, s.oldest, s.active, s.count - 1);
  }

  lemma ReplayLast(g: Geometry, root: Roots, recs: seq<Record>, k: nat, m: Namespace)
    requires GeometryOk(g) && k < |recs| && recs[k] != ERASED && ErasedFrom(recs, k + 1)
    ensures var v := TailVerdict(g, root, m, recs[k]);
      ReplaySector(g, root, false, recs, k, true, m) == Replayed(Apply(m, v), k + 1, v != recs[k])
  {
  }

  /** What replay makes of a torn record is nothing or the record that was meant. */
  lemma TornVerdict(g: Geometry, root: Roots, m: Namespace, slot: u16, head: u16, t: Record)
    requires Appendable(g, slot, head) && OnlyRoots(root, m, slot, head) && TornRecord(slot, head, t)
    ensures var m' := Apply(m, TailVerdict(g, root, m, t)); m' == m || m' == Apply(m, Record(slot, head))
    ensures Good(g, TailVerdict(g, root, m, t))
    ensures Rooted(root, m) ==> Rooted(root, Apply(m, TailVerdict(g, root, m, t)))
  {
    var v := TailVerdict(g, root, m, t);
    if v != CLOBBERED && t.head == 0 {
      TornToZero(head);
    }
  }

  /** Torn append: whichever bits of the slot word and then of the head word were cleared when the
      power failed, one mount brings back the namespace before or after the append, and the
      journal is whole again. */
  lemma TornAppend(g: Geometry, root: Roots, s: State, slot: u16, head: u16, t: Record)
    requires Inv(g, s) && s.next < g.cap && Rooted(root, s.ram) && Discoverable(g, s.oldest, s.count)
    requires Appendable(g, slot, head) && OnlyRoots(root, s.ram, slot, head) && TornRecord(slot, head, t)
    ensures var after := Mounted(g, root, false, SetRecord(s.flash, s.active, s.next, t));
      && after.Some? && Inv(g, after.value) && Rooted(root, after.value.ram)
      && (after.value.ram == s.ram || after.value.ram == Apply(s.ram, Record(slot, head)))
  {
    if t == ERASED {
      SetTwice(s.flash, s.active, s.next, t, t);
      MountIdentity(g, root, false, s);
    } else {
      MountTail(g, root, s, t);
      var v := TailVerdict(g, root, s.ram, t);
      TornVerdict(g, root, s.ram, slot, head, t);
      TailKeepsInv(g, s, v);
    }
  }

  /** The head word tore to a third sector with a live root of the slot. */
  predicate ThirdRoot(g: Geometry, root: Roots, m: Namespace, slot: u16, head: u16, t: Record) {
    && t.slot == slot && t.head != head && t.head != WORD_ONES && InRange(g, t.head) && root(t.head, slot)
    && !(slot in m && m[slot] == t.head)
  }

  /** Without the hypothesis about roots: a torn append mounts to the namespace before or after it if and only if
      the head word has not torn to a third root. If it has, the slot gets that root. */
  lemma TornAppendExact(g: Geometry, root: Roots, s: State, slot: u16, head: u16, t: Record)
    requires Inv(g, s) && s.next < g.cap && Rooted(root, s.ram) && Discoverable(g, s.oldest, s.count)
    requires Appendable(g, slot, head) && TornRecord(slot, head, t)
    ensures var after := Mounted(g, root, false, SetRecord(s.flash, s.active, s.next, t));
      && after.Some?
      && (after.value.ram == s.ram || after.value.ram == Apply(s.ram, Record(slot, head)) <==>
            !ThirdRoot(g, root, s.ram, slot, head, t))
      && (ThirdRoot(g, root, s.ram, slot, head, t) ==> after.value.ram == s.ram[slot := t.head])
  {
    if t == ERASED {
      SetTwice(s.flash, s.active, s.next, t, t);
      MountIdentity(g, root, false, s);
    } else {
      MountTail(g, root, s, t);
      VerdictExact(g, root, s.ram, slot, head, t);
    }
  }

  lemma VerdictExact(g: Geometry, root: Roots, m: Namespace, slot: u16, head: u16, t: Record)
    requires Appendable(g, slot, head) && TornRecord(slot, head, t)
    ensures var m' := Apply(m, TailVerdict(g, root, m, t));
      && (m' == m || m' == Apply(m, Record(slot, head)) <==> !ThirdRoot(g, root, m, slot, head, t))
      && (ThirdRoot(g, root, m, slot, head, t) ==> m' == m[slot := t.head])
  {
    var v := TailVerdict(g, root, m, t);
    var m' := Apply(m, v);
    if ThirdRoot(g, root, m, slot, head, t) {
      assert v == t && m' == m[slot := t.head];
      assert slot in m' && m'[slot] == t.head;
    } else if v != CLOBBERED && t.head == 0 {
      TornToZero(head);
    } else if v != CLOBBERED && t.head != head {
      assert m' == m;
    }
  }

  // ---------------------------------------------------------------- rotation

  /** The sector that rotation erases and fills: the one behind the active sector. */
  function Fresh(g: Geometry, s: State): (p: nat)
    requires s.active < g.n
    ensures p < g.n
  {
    At(g.n, s.active, 1)
  }

  function ErasedRecords(k: nat): (r: seq<Record>)
    ensures |r| == k && forall i | 0 <= i < k :: r[i] == ERASED
  {
    seq(k, i => ERASED)
  }

  /** The records that rotation copies: none unless it uses up the last free sector. */
  function Copied(g: Geometry, s: State): (r: seq<Record>)
    requires GeometryOk(g) && RingShape(g, s.flash) && s.oldest < g.n
    ensures |r| <= g.cap
  {
    if s.count < g.n - 1 then [] else Survivors(s.ram, s.flash[s.oldest].recs)
  }

  function FreshSector(g: Geometry, s: State): (f: Sector)
    requires GeometryOk(g) && RingShape(g, s.flash) && s.oldest < g.n && s.serial < 16
    ensures SectorShape(g, f)
  {
    var kept := Copied(g, s);
    Sector(Header(g, SerialAt(s.serial, 1), FLAGS_VALID), kept + ErasedRecords(g.cap - |kept|))
  }

  /** Flash once the fresh header has become valid ... */
  function Committed(g: Geometry, s: State): (f: Ring)
    requires Typed(g, s)
    ensures RingShape(g, f)
  {
    s.flash[Fresh(g, s) := FreshSector(g, s)]
  }

  /** ... and the journal when rotation has finished. */
  function Rotated(g: Geometry, s: State): (r: State)
    requires Typed(g, s)
  {
    var f := Committed(g, s);
    var next := |Copied(g, s)|;
    if s.count < g.n - 1 then State(f, s.oldest, s.count + 1, Fresh(g, s), SerialAt(s.serial, 1), next, s.ram)
    else State(SetHeader(f, s.oldest, Tombstoned(f[s.oldest].hdr)), At(g.n, s.oldest, 1), s.count, Fresh(g, s),
               SerialAt(s.serial, 1), next, s.ram)
  }

  /** The field ranges that the operations rely on. */
  predicate Typed(g: Geometry, s: State) {
    GeometryOk(g) && RingShape(g, s.flash) && s.oldest < g.n && s.serial < 16 && s.active < g.n
  }

  /** Every flash image that a power cut during rotation can leave: the fresh sector still without
      a valid header, or committed with the oldest sector not yet or already tombstoned. */
  ghost predicate RotationCut(g: Geometry, s: State, c: Ring)
    requires Typed(g, s)
  {
    || (RingShape(g, c) && !ValidHeader(c[Fresh(g, s)].hdr) && c == s.flash[Fresh(g, s) := c[Fresh(g, s)]])
    || c == Committed(g, s)
    || c == Rotated(g, s).flash
  }

  lemma TombstonedInvalid(hdr: seq<bv8>)
    requires |hdr| == 8
    ensures !ValidHeader(Tombstoned(hdr))
  {
  }

  /** The log from the front: the oldest sector, then the rest. */
  lemma {:induction false} LogFront(g: Geometry, f: Ring, oldest: nat, j: nat)
    requires |f| == g.n && oldest < g.n && j < g.n
    ensures LogUpTo(g, f, oldest, j + 1) == f[oldest].recs + LogUpTo(g, f, At(g.n, oldest, 1), j)
  {
    if j > 0 {
      LogFront(g, f, oldest, j - 1);
      assert At(g.n, At(g.n, oldest, 1), j - 1) == At(g.n, oldest, j);
    } else {
      assert At(g.n, oldest, 0) == oldest;
    }
  }

  /** A full journal's log is the log of its sectors. */
  lemma FullLog(g: Geometry, s: State)
    requires RecordsInv(g, s) && s.next == g.cap
    ensures Log(g, s) == LogUpTo(g, s.flash, s.oldest, s.count)
  {
    assert s.flash[s.active].recs[..g.cap] == s.flash[s.active].recs;
  }

  /** A new empty sector behind a full active one changes no record. */
  lemma GrowRecords(g: Geometry, s: State)
    requires RecordsInv(g, s) && s.next == g.cap && s.count < g.n - 1
    ensures RecordsInv(g, Rotated(g, s))
  {
    var s' := Rotated(g, s);
    FullLog(g, s);
    RingStep(g, s);
    LogFrame(g, s.flash, s'.flash, s.oldest, s.count);
    forall j | 0 <= j < s'.count - 1
      ensures Filled(g, s'.flash[At(g.n, s.oldest, j)].recs, g.cap)
    {
      assert s'.flash[At(g.n, s.oldest, j)] == s.flash[At(g.n, s.oldest, j)];
    }
    assert s'.flash[s'.active].recs[..0] == [];
    assert Log(g, s') == Log(g, s);
  }

  /** Positions around the ring when the active sector moves on by one. */
  lemma RingStep(g: Geometry, s: State)
    requires Shaped(g, s) && s.count < g.n
    ensures Fresh(g, s) == At(g.n, s.oldest, s.count)
    ensures forall j | 0 <= j < s.count :: At(g.n, s.oldest, j) != Fresh(g, s)
    ensures forall j | 0 <= j < g.n - 1 :: At(g.n, At(g.n, s.oldest, 1), j) == At(g.n, s.oldest, j + 1)
    ensures forall j | 0 < j < g.n :: At(g.n, s.oldest, j) != s.oldest
  {
  }

  /** The copy of the current records of the oldest sector stands in for that sector. */
  lemma CompactRecords(g: Geometry, s: State)
    requires RecordsInv(g, s) && s.next == g.cap && s.count == g.n - 1
    ensures RecordsInv(g, Rotated(g, s))
  {
    var s' := Rotated(g, s);
    RingStep(g, s);
    CompactFilled(g, s);
    KeptGood(g, s.ram, s.flash[s.oldest].recs);
    CompactLog(g, s);
  }

  lemma CompactLog(g: Geometry, s: State)
    requires RecordsInv(g, s) && s.next == g.cap && s.count == g.n - 1
    ensures Shaped(g, Rotated(g, s)) && Fold(map[], Log(g, Rotated(g, s))) == s.ram
  {
    var rest := LogUpTo(g, s.flash, At(g.n, s.oldest, 1), s.count - 1);
    FullLog(g, s);
    LogFront(g, s.flash, s.oldest, s.count - 1);
    CompactionKeepsMeaning(s.flash[s.oldest].recs, rest);
    RotatedLog(g, s);
  }

  /** After compaction the log is what was behind the oldest sector, then the copied records. */
  lemma RotatedLog(g: Geometry, s: State)
    requires RecordsInv(g, s) && s.next == g.cap && s.count == g.n - 1
    ensures Shaped(g, Rotated(g, s))
    ensures Log(g, Rotated(g, s)) == LogUpTo(g, s.flash, At(g.n, s.oldest, 1), s.count - 1) + Copied(g, s)
  {
    var s' := Rotated(g, s);
    RingStep(g, s);
    LogFrame(g, s.flash, s'.flash, s'.oldest, s.count - 1);
    assert s'.flash[s'.active].recs[..s'.next] == Copied(g, s);
  }

  lemma {:induction false} KeptGood(g: Geometry, m: Namespace, recs: seq<Record>)
    requires forall i | 0 <= i < |recs| :: Good(g, recs[i])
    ensures forall i | 0 <= i < |Survivors(m, recs)| :: Good(g, Survivors(m, recs)[i])
  {
    if recs != [] {
      KeptGood(g, m, recs[..|recs| - 1]);
    }
  }

  lemma CompactFilled(g: Geometry, s: State)
    requires RecordsInv(g, s) && s.next == g.cap && s.count == g.n - 1
    ensures var s' := Rotated(g, s);
      forall j | 0 <= j < s'.count - 1 :: Filled(g, s'.flash[At(g.n, s'.oldest, j)].recs, g.cap)
    ensures forall i | 0 <= i < g.cap :: Good(g, s.flash[s.oldest].recs[i])
  {
    var s' := Rotated(g, s);
    RingStep(g, s);
    forall j | 0 <= j < s'.count - 1
      ensures Filled(g, s'.flash[At(g.n, s'.oldest, j)].recs, g.cap)
    {
      assert At(g.n, s'.oldest, j) == At(g.n, s.oldest, j + 1);
      assert s'.flash[At(g.n, s.oldest, j + 1)].recs == s.flash[At(g.n, s.oldest, j + 1)].recs;
      assert j + 1 < s.count - 1 ==> Filled(g, s.flash[At(g.n, s.oldest, j + 1)].recs, g.cap);
    }
    assert At(g.n, s.oldest, 0) == s.oldest;
  }

  /** Headers after a rotation without compaction. */
  lemma GrowHeaders(g: Geometry, s: State)
    requires HeadersInv(g, s) && s.count < g.n - 1
    ensures HeadersInv(g, Rotated(g, s).(next := 0))
  {
    var s' := Rotated(g, s);
    var first := FirstSerial(s.serial, s.count);
    HeaderFields(g, s'.serial, FLAGS_VALID);
    assert FirstSerial(s'.serial, s'.count) == first && SerialAt(first, s.count) == s'.serial;
    forall p | 0 <= p < g.n
      ensures Offset(g.n, s.oldest, p) < s'.count ==>
                OfGeometry(g, s'.flash[p].hdr) && SerialOf(s'.flash[p].hdr) == SerialAt(first, Offset(g.n, s.oldest, p))
      ensures Offset(g.n, s.oldest, p) >= s'.count ==> !ValidHeader(s'.flash[p].hdr)
    {
      if p != s'.active {
        assert s'.flash[p].hdr == s.flash[p].hdr;
      }
    }
  }

  /** Once the fresh header is valid the whole ring is one sequence of n headers. */
  lemma FullRing(g: Geometry, s: State)
    requires HeadersInv(g, s) && s.count == g.n - 1
    ensures Consecutive(g, Committed(g, s), s.oldest, g.n, FirstSerial(s.serial, s.count))
  {
    var f := Committed(g, s);
    var first := FirstSerial(s.serial, s.count);
    HeaderFields(g, SerialAt(s.serial, 1), FLAGS_VALID);
    assert SerialAt(first, s.count) == SerialAt(s.serial, 1);
    forall p | 0 <= p < g.n
      ensures OfGeometry(g, f[p].hdr) && SerialOf(f[p].hdr) == SerialAt(first, Offset(g.n, s.oldest, p))
    {
      if p != Fresh(g, s) {
        assert f[p].hdr == s.flash[p].hdr;
      }
    }
  }

  /** Headers after a rotation with compaction. */
  lemma CompactHeaders(g: Geometry, s: State)
    requires HeadersInv(g, s) && s.count == g.n - 1
    ensures HeadersInv(g, Rotated(g, s))
  {
    var s' := Rotated(g, s);
    forall p | 0 <= p < g.n
      ensures HeaderAt(g, s'.flash[p].hdr, FirstSerial(s'.serial, s'.count), Offset(g.n, s'.oldest, p), s'.count)
    {
      CompactHeaderAt(g, s, p);
    }
  }

  lemma CompactHeaderAt(g: Geometry, s: State, p: nat)
    requires HeadersInv(g, s) && s.count == g.n - 1 && p < g.n
    ensures var s' := Rotated(g, s);
      HeaderAt(g, s'.flash[p].hdr, FirstSerial(s'.serial, s'.count), Offset(g.n, s'.oldest, p), s'.count)
  {
    var s', f := Rotated(g, s), Committed(g, s);
    if p == s.oldest {
      TombstonedInvalid(f[p].hdr);
    } else {
      FullRing(g, s);
      var j := Offset(g.n, s'.oldest, p);
      assert Offset(g.n, s.oldest, p) == j + 1;
      assert s'.flash[p].hdr == f[p].hdr;
      var first := FirstSerial(s.serial, s.count);
      assert SerialAt(FirstSerial(s'.serial, s'.count), j) == SerialAt(first, j + 1);
    }
  }

  /** Rotation keeps the invariant and the namespace, always. */
  lemma RotationKeepsInv(g: Geometry, s: State)
    requires Inv(g, s) && s.next == g.cap
    ensures Inv(g, Rotated(g, s)) && Rotated(g, s).ram == s.ram
  {
    if s.count < g.n - 1 {
      GrowHeaders(g, s);
      GrowRecords(g, s);
    } else {
      CompactHeaders(g, s);
      CompactRecords(g, s);
    }
  }

  /** A valid fresh header and a live oldest sector: mounting finishes the interrupted rotation. */
  lemma MountCommitted(g: Geometry, root: Roots, strict: bool, s: State)
    requires Inv(g, s) && s.next == g.cap && s.count == g.n - 1 && Rooted(root, s.ram)
    requires Discoverable(g, s.oldest, g.n)
    ensures Mounted(g, root, strict, Committed(g, s)) == Some(Rotated(g, s))
  {
    CommittedFound(g, s);
    CompactRecords(g, s);
    ReplayIdentity(g, root, strict, Rotated(g, s));
  }

  lemma CommittedFound(g: Geometry, s: State)
    requires HeadersInv(g, s) && s.count == g.n - 1 && Discoverable(g, s.oldest, g.n)
    ensures Discover(g, Committed(g, s)) == Some(Sequence(Fresh(g, s), SerialAt(s.serial, 1), s.oldest, g.n))
  {
    var f := Committed(g, s);
    var first := FirstSerial(s.serial, s.count);
    FullRing(g, s);
    assert Offset(g.n, s.oldest, 0) < g.n && ValidHeader(f[0].hdr);
    DiscoveryExact(g, f, s.oldest, g.n, first);
    assert SerialAt(first, g.n - 1) == SerialAt(s.serial, 1);
    RingStep(g, s);
  }

  /** The sector that rotation erases is never one in sequence. */
  lemma RotationSparesSequence(g: Geometry, s: State)
    requires HeadersInv(g, s)
    ensures s.count <= g.n - 1 && forall j | 0 <= j < s.count :: At(g.n, s.oldest, j) != Fresh(g, s)
  {
    RingStep(g, s);
  }

  /** Noise in the sector behind the active one does not concern the journal. */
  lemma UnusedSector(g: Geometry, s: State, c: Ring)
    requires Inv(g, s) && RingShape(g, c)
    requires !ValidHeader(c[Fresh(g, s)].hdr) && c == s.flash[Fresh(g, s) := c[Fresh(g, s)]]
    ensures Inv(g, s.(flash := c))
  {
    var s', p := s.(flash := c), Fresh(g, s);
    RingStep(g, s);
    assert Offset(g.n, s.oldest, p) >= s.count;
    forall q | 0 <= q < g.n
      ensures HeaderAt(g, c[q].hdr, FirstSerial(s.serial, s.count), Offset(g.n, s.oldest, q), s.count)
    {
      assert q != p ==> c[q] == s.flash[q];
    }
    UnusedRecords(g, s, c);
  }

  lemma UnusedRecords(g: Geometry, s: State, c: Ring)
    requires RecordsInv(g, s) && s.count < g.n && RingShape(g, c)
    requires c == s.flash[Fresh(g, s) := c[Fresh(g, s)]]
    ensures RecordsInv(g, s.(flash := c))
  {
    RingStep(g, s);
    assert forall q | 0 <= q < g.n && q != Fresh(g, s) :: c[q] == s.flash[q];
    LogFrame(g, s.flash, c, s.oldest, s.count - 1);
  }

  /** Discovery can tell the sequence before, during and after the rotation: always with up to nine
      index sectors, and with more as long as the sequences in question do not wrap. */
  predicate RotationDiscoverable(g: Geometry, s: State)
    requires s.oldest < g.n
  {
    && Discoverable(g, s.oldest, s.count)
    && (if s.count < g.n - 1 then Discoverable(g, s.oldest, s.count + 1)
        else Discoverable(g, s.oldest, g.n) && Discoverable(g, At(g.n, s.oldest, 1), s.count))
  }

  /** Crash-atomic rotation: whatever image the power cut left, mounting succeeds (strict or
      not), rebuilds exactly the namespace from before the rotation, and leaves a whole journal. */
  lemma RotationCrash(g: Geometry, root: Roots, strict: bool, s: State, c: Ring)
    requires Inv(g, s) && s.next == g.cap && Rooted(root, s.ram) && RotationDiscoverable(g, s)
    requires RotationCut(g, s, c)
    ensures RingShape(g, c)
    ensures var after := Mounted(g, root, strict, c);
      after.Some? && Inv(g, after.value) && after.value.ram == s.ram
  {
    RotationKeepsInv(g, s);
    if c == Rotated(g, s).flash {
      MountIdentity(g, root, strict, Rotated(g, s));
    } else if c == Committed(g, s) {
      MountCommitted(g, root, strict, s);
    } else {
      UnusedSector(g, s, c);
      MountIdentity(g, root, strict, s.(flash := c));
    }
  }

  // ---------------------------------------------------------------- whole runs

  /** fffs_append_index_record: rotate if the active sector is full, then write the record unless
      the fresh sector came out full as well. The flag says whether the record was written. */
  function Append(g: Geometry, s: State, slot: u16, head: u16): (r: (State, bool))
    requires Typed(g, s)
  {
    var s1 := if s.next < g.cap then s else Rotated(g, s);
    if s1.next < g.cap then (WithTail(g, s1, Record(slot, head)), true) else (s1, false)
  }

  /** Every flash image that a power cut during an append can leave. */
  ghost predicate AppendCut(g: Geometry, s: State, slot: u16, head: u16, c: Ring)
    requires Typed(g, s)
  {
    var s1 := if s.next < g.cap then s else Rotated(g, s);
    || (s.next >= g.cap && RotationCut(g, s, c))
    || (s1.next < g.cap && exists t :: TornRecord(slot, head, t) && c == SetRecord(s1.flash, s1.active, s1.next, t))
  }

  /** An append keeps the invariant and updates the namespace like a map, or leaves it alone when
      the index is full. */
  lemma AppendRefinesMap(g: Geometry, s: State, slot: u16, head: u16)
    requires Inv(g, s) && Appendable(g, slot, head)
    ensures var (s', written) := Append(g, s, slot, head);
      Inv(g, s') && s'.ram == if written then Apply(s.ram, Record(slot, head)) else s.ram
  {
    if s.next < g.cap {
      TailKeepsInv(g, s, Record(slot, head));
    } else {
      RotationKeepsInv(g, s);
      if Rotated(g, s).next < g.cap {
        TailKeepsInv(g, Rotated(g, s), Record(slot, head));
      }
    }
  }

  /** Crash-atomic append, rotation included. */
  lemma AppendCrash(g: Geometry, root: Roots, s: State, slot: u16, head: u16, c: Ring)
    requires Inv(g, s) && Rooted(root, s.ram) && RotationDiscoverable(g, s)
    requires Appendable(g, slot, head) && OnlyRoots(root, s.ram, slot, head) && AppendCut(g, s, slot, head, c)
    ensures RingShape(g, c)
    ensures var after := Mounted(g, root, false, c);
      && after.Some? && Inv(g, after.value) && Rooted(root, after.value.ram)
      && (after.value.ram == s.ram || after.value.ram == Apply(s.ram, Record(slot, head)))
  {
    if s.next >= g.cap && RotationCut(g, s, c) {
      RotationCrash(g, root, false, s, c);
    } else if s.next < g.cap {
      TailCrash(g, root, s, slot, head, c);
    } else {
      RotationKeepsInv(g, s);
      TailCrash(g, root, Rotated(g, s), slot, head, c);
    }
  }

  lemma TailCrash(g: Geometry, root: Roots, s: State, slot: u16, head: u16, c: Ring)
    requires Inv(g, s) && s.next < g.cap && Rooted(root, s.ram) && Discoverable(g, s.oldest, s.count)
    requires Appendable(g, slot, head) && OnlyRoots(root, s.ram, slot, head)
    requires exists t :: TornRecord(slot, head, t) && c == SetRecord(s.flash, s.active, s.next, t)
    ensures RingShape(g, c)
    ensures var after := Mounted(g, root, false, c);
      && after.Some? && Inv(g, after.value) && Rooted(root, after.value.ram)
      && (after.value.ram == s.ram || after.value.ram == Apply(s.ram, Record(slot, head)))
  {
    var t :| TornRecord(slot, head, t) && c == SetRecord(s.flash, s.active, s.next, t);
    TornAppend(g, root, s, slot, head, t);
  }

  /** One event in the life of a journal: an append that ran to its end, or one that a power cut
      interrupted with image `cut`, followed by a mount that sees the roots `root`. */
  datatype Event = Finished(slot: u16, head: u16) | Interrupted(slot: u16, head: u16, cut: Ring, root: Roots)

  ghost predicate Step(g: Geometry, s: State, e: Event, s': State) {
    Typed(g, s) &&
    match e
    case Finished(slot, head) => Appendable(g, slot, head) && s' == Append(g, s, slot, head).0
    case Interrupted(slot, head, cut, root) =>
      && Appendable(g, slot, head) && Rooted(root, s.ram) && OnlyRoots(root, s.ram, slot, head)
      && AppendCut(g, s, slot, head, cut)
      && RingShape(g, cut) && Mounted(g, root, false, cut) == Some(s')
  }

  /** A run: every state follows from the one before by one event. */
  ghost predicate Run(g: Geometry, states: seq<State>, events: seq<Event>) {
    && |states| == |events| + 1
    && Inv(g, states[0])
    && (forall i | 0 <= i < |events| :: Step(g, states[i], events[i], states[i + 1]))
  }

  /** A finished append took effect exactly if it did not report a full index. */
  predicate TookAsReported(g: Geometry, s: State, e: Event, took: bool) {
    e.Finished? ==> Typed(g, s) && took == Append(g, s, e.slot, e.head).1
  }

  /** The records of those events that took effect. */
  function Effects(events: seq<Event>, took: seq<bool>): seq<Record>
    requires |took| == |events|
  {
    if events == [] then []
    else
      var n := |events| - 1;
      var rest := Effects(events[..n], took[..n]);
      if took[n] then rest + [Record(events[n].slot, events[n].head)] else rest
  }

  /** Every state is whole, ... */
  ghost predicate AllWhole(g: Geometry, states: seq<State>) {
    forall i | 0 <= i < |states| :: Inv(g, states[i])
  }

  /** ... finished appends took effect as they reported, ... */
  ghost predicate AllReported(g: Geometry, states: seq<State>, events: seq<Event>, took: seq<bool>) {
    && |states| == |events| + 1 && |took| == |events|
    && forall i | 0 <= i < |events| :: TookAsReported(g, states[i], events[i], took[i])
  }

  /** ... and the last namespace is the last-writer-wins fold of what took effect. */
  ghost predicate Folds(m: Namespace, events: seq<Event>, took: seq<bool>, m': Namespace) {
    |took| == |events| && m' == Fold(m, Effects(events, took))
  }

  /** Wherever the power was cut, discovery can tell the sequence before and after a rotation. */
  ghost predicate CutsDiscoverable(g: Geometry, states: seq<State>, events: seq<Event>) {
    && |events| <= |states|
    && forall i | 0 <= i < |events| && events[i].Interrupted? ::
         Typed(g, states[i]) && RotationDiscoverable(g, states[i])
  }

  /** Whole-run refinement: through any number of appends, rotations, power cuts and mounts the
      journal stays whole and its namespace is the last-writer-wins fold of the appends that took
      effect: an interrupted append took effect or not, a finished one did exactly if it was written.
      Only where the power was cut does discovery have to be able to tell the sequence. */
  lemma {:induction false} RunRefinesFold(g: Geometry, states: seq<State>, events: seq<Event>) returns (took: seq<bool>)
    requires Run(g, states, events) && CutsDiscoverable(g, states, events)
    ensures AllWhole(g, states) && AllReported(g, states, events, took)
    ensures Folds(states[0].ram, events, took, states[|events|].ram)
    decreases |events|
  {
    if events == [] {
      took := [];
    } else {
      var n := |events| - 1;
      RunPrefix(g, states, events);
      CutsPrefix(g, states, events);
      var before := RunRefinesFold(g, states[..n + 1], events[..n]);
      assert states[..n + 1][n] == states[n];
      var b := StepRefines(g, states[n], events[n], states[n + 1]);
      took := before + [b];
      ExtendWhole(g, states);
      ExtendReported(g, states, events, before, b);
      ExtendFold(states[0].ram, events, before, b, states[n].ram);
    }
  }

  lemma RunPrefix(g: Geometry, states: seq<State>, events: seq<Event>)
    requires Run(g, states, events) && events != []
    ensures Run(g, states[..|events|], events[..|events| - 1])
    ensures Step(g, states[|events| - 1], events[|events| - 1], states[|events|])
  {
  }

  lemma CutsPrefix(g: Geometry, states: seq<State>, events: seq<Event>)
    requires CutsDiscoverable(g, states, events) && events != []
    ensures CutsDiscoverable(g, states[..|events|], events[..|events| - 1])
    ensures var n := |events| - 1; events[n].Interrupted? ==> Typed(g, states[n]) && RotationDiscoverable(g, states[n])
  {
  }

  lemma ExtendWhole(g: Geometry, states: seq<State>)
    requires states != [] && AllWhole(g, states[..|states| - 1]) && Inv(g, states[|states| - 1])
    ensures AllWhole(g, states)
  {
    forall i | 0 <= i < |states| - 1
      ensures Inv(g, states[i])
    {
      assert states[..|states| - 1][i] == states[i];
    }
  }

  lemma ExtendReported(g: Geometry, states: seq<State>, events: seq<Event>, before: seq<bool>, b: bool)
    requires events != [] && |states| == |events| + 1
    requires AllReported(g, states[..|events|], events[..|events| - 1], before)
    requires TookAsReported(g, states[|events| - 1], events[|events| - 1], b)
    ensures AllReported(g, states, events, before + [b])
  {
    var n := |events| - 1;
    forall i | 0 <= i < n
      ensures TookAsReported(g, states[i], events[i], (before + [b])[i])
    {
      assert states[..n + 1][i] == states[i] && events[..n][i] == events[i];
    }
  }

  lemma ExtendFold(m: Namespace, events: seq<Event>, before: seq<bool>, b: bool, m': Namespace)
    requires events != [] && Folds(m, events[..|events| - 1], before, m')
    ensures var r := Record(events[|events| - 1].slot, events[|events| - 1].head);
      Folds(m, events, before + [b], if b then Apply(m', r) else m')
  {
    var n := |events| - 1;
    assert (before + [b])[..n] == before;
    var done, r := Effects(events[..n], before), Record(events[n].slot, events[n].head);
    assert (done + [r])[..|done|] == done;
  }

  lemma StepRefines(g: Geometry, s: State, e: Event, s': State) returns (took: bool)
    requires Inv(g, s) && Step(g, s, e, s') && (e.Interrupted? ==> RotationDiscoverable(g, s))
    ensures Inv(g, s')
    ensures s'.ram == if took then Apply(s.ram, Record(e.slot, e.head)) else s.ram
    ensures TookAsReported(g, s, e, took)
  {
    match e {
      case Finished(slot, head) =>
        AppendRefinesMap(g, s, slot, head);
        took := Append(g, s, slot, head).1;
      case Interrupted(slot, head, cut, root) =>
        AppendCrash(g, root, s, slot, head, cut);
        took := s'.ram != s.ram;
    }
  }

  // ---------------------------------------------------------------- a power cut inside recovery

  /** What a power cut inside the clobbering of record t0 leaves: its words are being programmed to 0. */
  predicate TornClobber(t0: Record, t: Record) {
    TornWord(t0.slot, 0, t.slot) && TornWord(t0.head, 0, t.head)
  }

  /** A record that mount clobbers. */
  predicate ToBeClobbered(g: Geometry, root: Roots, m: Namespace, t0: Record) {
    t0 != ERASED && t0 != CLOBBERED && TailVerdict(g, root, m, t0) == CLOBBERED
  }

  /** A record that does harm: it deletes a stored file that nobody wanted to delete, or it leads the name of
      another file to a root that is not that file's. */
  predicate Harmful(g: Geometry, root: Roots, m: Namespace, slot: u16, head: u16, t: Record) {
    if t.head == 0 then t.slot in m && !(head == 0 && t.slot == slot)
    else t.slot != slot && TailVerdict(g, root, m, t) == t != CLOBBERED && !(t.slot in m && m[t.slot] == t.head)
  }

  /** A second power cut, while mount clobbers the record that an interrupted append of (slot, head) had left:
      the next mount finds the namespace before or after that append if and only if the second cut has
      not left a harmful record. */
  lemma ClobberCutExact(g: Geometry, root: Roots, s: State, slot: u16, head: u16, t0: Record, t: Record)
    requires Inv(g, s) && s.next < g.cap && Rooted(root, s.ram) && Discoverable(g, s.oldest, s.count)
    requires Appendable(g, slot, head) && OnlyRoots(root, s.ram, slot, head)
    requires TornRecord(slot, head, t0) && ToBeClobbered(g, root, s.ram, t0) && TornClobber(t0, t)
    ensures var after := Mounted(g, root, false, SetRecord(s.flash, s.active, s.next, t));
      && after.Some?
      && (after.value.ram == s.ram || after.value.ram == Apply(s.ram, Record(slot, head)) <==>
            !Harmful(g, root, s.ram, slot, head, t))
  {
    ClobberNotErased(t0, t);
    MountTail(g, root, s, t);
    VerdictHarm(g, root, s, slot, head, t);
  }

  /** Clobbering only clears bits. */
  lemma ClobberNotErased(t0: Record, t: Record)
    requires t0 != ERASED && TornClobber(t0, t)
    ensures t != ERASED
  {
    if t == ERASED {
      TornFromOnes(t0.slot);
      TornFromOnes(t0.head);
    }
  }

  lemma VerdictHarm(g: Geometry, root: Roots, s: State, slot: u16, head: u16, t: Record)
    requires RecordsInv(g, s) && Appendable(g, slot, head) && OnlyRoots(root, s.ram, slot, head)
    ensures var m' := Apply(s.ram, TailVerdict(g, root, s.ram, t));
      m' == s.ram || m' == Apply(s.ram, Record(slot, head)) <==> !Harmful(g, root, s.ram, slot, head, t)
  {
    var m: Namespace, r := s.ram, Record(slot, head);
    var v := TailVerdict(g, root, m, t);
    var m' := Apply(m, v);
    if t.head == 0 && t.slot in m {
      SlotsAreGood(g, s, t.slot);
      assert v == t && t.slot !in m';
      if head == 0 && t.slot != slot {
        assert t.slot in Apply(m, r);
      }
    } else if v == CLOBBERED || t.head == 0 {
      assert m' == m;
    } else {
      assert t.slot in m' && m'[t.slot] == t.head;
      if t.slot in m && m[t.slot] == t.head {
        assert m' == m;
      } else if t.slot != slot {
        assert t.slot in Apply(m, r) ==> t.slot in m && Apply(m, r)[t.slot] == m[t.slot];
      }
    }
  }

  /** This happens to every stored file: interrupt its replacement after the slot word, and the clobbering
      after the head word, and the next mount has lost the file, old and new. */
  lemma ClobberLosesFile(g: Geometry, root: Roots, s: State, slot: u16, head: u16)
    requires Inv(g, s) && s.next < g.cap && Rooted(root, s.ram) && Discoverable(g, s.oldest, s.count)
    requires slot in s.ram && head != 0
    ensures var t0, t := Record(slot, WORD_ONES), Record(slot, 0);
      && TornRecord(slot, head, t0) && ToBeClobbered(g, root, s.ram, t0) && TornClobber(t0, t)
      && var after := Mounted(g, root, false, SetRecord(s.flash, s.active, s.next, t));
      && after.Some? && after.value.ram == s.ram - {slot}
      && after.value.ram != s.ram && after.value.ram != Apply(s.ram, Record(slot, head))
  {
    var t := Record(slot, 0);
    SlotsAreGood(g, s, slot);
    WholeWordIsTorn(WORD_ONES, slot);
    UntouchedWordIsTorn(slot, 0);
    WholeWordIsTorn(WORD_ONES, 0);
    MountTail(g, root, s, t);
    assert slot in Apply(s.ram, Record(slot, head));
  }

  /** Stored slots are never the two reserved words. */
  lemma SlotsAreGood(g: Geometry, s: State, slot: u16)
    requires RecordsInv(g, s) && slot in s.ram
    ensures slot != 0 && slot != WORD_ONES
  {
    var log := Log(g, s);
    FoldAt(map[], log, slot);
    FoldKeepsNoZero(map[], log);
    var i :| LastAt(log, slot, i);
    LogIsGood(g, s);
    assert Good(g, log[i]);
  }

  lemma LogIsGood(g: Geometry, s: State)
    requires RecordsInv(g, s)
    ensures forall i | 0 <= i < |Log(g, s)| :: Good(g, Log(g, s)[i])
  {
    SectorsAreGood(g, s.flash, s.oldest, s.count - 1);
  }

  lemma {:induction false} SectorsAreGood(g: Geometry, f: Ring, oldest: nat, j: nat)
    requires RingShape(g, f) && oldest < g.n && j <= g.n
    requires forall k | 0 <= k < j :: Filled(g, f[At(g.n, oldest, k)].recs, g.cap)
    ensures forall i | 0 <= i < |LogUpTo(g, f, oldest, j)| :: Good(g, LogUpTo(g, f, oldest, j)[i])
  {
    if j > 0 {
      SectorsAreGood(g, f, oldest, j - 1);
      assert Filled(g, f[At(g.n, oldest, j - 1)].recs, g.cap);
    }
  }
}
