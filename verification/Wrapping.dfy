/** What becomes of a journal whose sequence is too long for its 4-bit serials (src/fffs_index_log.c). */
module Wrapping {
  import opened Nor
  import opened IndexLog
  import opened IndexRing
  import opened Journal

  // ---------------------------------------------------------------- mounting exactly

  /** A whole journal mounts to itself if and only if discovery can tell its sequence. */
  lemma MountExact(g: Geometry, root: Roots, strict: bool, s: State)
    requires Inv(g, s) && Rooted(root, s.ram)
    ensures Mounted(g, root, strict, s.flash) == Some(s) <==> Discoverable(g, s.oldest, s.count)
  {
    if Discoverable(g, s.oldest, s.count) {
      MountIdentity(g, root, strict, s);
    } else {
      CutFound(g, s);
    }
  }

  /** Discovery stops at the end of the ring. */
  lemma CutFound(g: Geometry, s: State)
    requires Inv(g, s) && !Discoverable(g, s.oldest, s.count)
    ensures var d := CutSequence(g.n, s.oldest, FirstSerial(s.serial, s.count));
      Discover(g, s.flash) == Some(d) && d.active == g.n - 1 != s.active && d.count == g.n - s.oldest < s.count
  {
    EarlyHeader(g, s);
    DiscoveryExact(g, s.flash, s.oldest, s.count, FirstSerial(s.serial, s.count));
  }

  /** The records that such a mount sees: those from the oldest sector to the end of the ring. */
  ghost function SeenLog(g: Geometry, s: State): seq<Record>
    requires |s.flash| == g.n && s.oldest < g.n
  {
    LogUpTo(g, s.flash, s.oldest, g.n - s.oldest)
  }

  /** What is left of the log, with its last record judged as if it were a torn tail. */
  ghost function Judged(g: Geometry, root: Roots, seen: seq<Record>): Namespace
    requires seen != []
  {
    var front := Fold(map[], seen[..|seen| - 1]);
    Apply(front, TailVerdict(g, root, front, seen[|seen| - 1]))
  }

  /** The newest sectors, which wrapped, are not replayed, and their records are missing from the namespace. */
  lemma NewestDropped(g: Geometry, root: Roots, s: State)
    requires Inv(g, s) && !Discoverable(g, s.oldest, s.count)
    ensures var after, seen := Mounted(g, root, false, s.flash), SeenLog(g, s);
      && after.Some? && after.value.active == g.n - 1 && after.value.count < s.count && seen != []
      && after.value.ram == Judged(g, root, seen)
  {
    SeenReplayed(g, root, s);
    var d := CutDiscovered(g, s);
    CutMounted(g, root, s.flash, s.oldest, d, SeenLog(g, s));
    assert DroppedIn(g, root, s.flash, s.oldest, SeenLog(g, s));
  }

  /** The mount stops at the end of the ring. Callers unfold this where they need it. */
  ghost predicate Dropped(g: Geometry, root: Roots, f: Ring, oldest: nat, seen: seq<Record>)
    requires GeometryOk(g) && RingShape(g, f) && seen != []
  {
    forall x: nat {:trigger DroppedIn(g, root, f, x, seen)} | x == oldest :: DroppedIn(g, root, f, x, seen)
  }

  ghost predicate DroppedIn(g: Geometry, root: Roots, f: Ring, oldest: nat, seen: seq<Record>)
    requires GeometryOk(g) && RingShape(g, f) && seen != []
  {
    var after := Mounted(g, root, false, f);
    && after.Some? && after.value.active == g.n - 1 && after.value.count == g.n - oldest
    && after.value.ram == Judged(g, root, seen)
  }

  lemma CutDiscovered(g: Geometry, s: State) returns (d: Sequence)
    requires Inv(g, s) && !Discoverable(g, s.oldest, s.count)
    ensures GeometryOk(g) && RingShape(g, s.flash) && 0 < s.oldest < g.n && Discover(g, s.flash) == Some(d)
    ensures d.active == g.n - 1 && d.oldest == s.oldest && d.count == g.n - s.oldest <= g.n - 1 && d.count < s.count
  {
    CutFound(g, s);
    SeenFull(g, s);
    d := CutSequence(g.n, s.oldest, FirstSerial(s.serial, s.count));
  }

  lemma SeenReplayed(g: Geometry, root: Roots, s: State)
    requires Inv(g, s) && !Discoverable(g, s.oldest, s.count)
    ensures 0 < s.oldest && SeenLog(g, s) != []
    ensures var r := Replay(g, root, false, s.flash, s.oldest, g.n - 1, g.n - s.oldest);
              r.Replayed? && r.m == Judged(g, root, SeenLog(g, s))
  {
    SeenFull(g, s);
    RingReplayed(g, root, s.flash, s.oldest);
  }

  lemma CutMounted(g: Geometry, root: Roots, f: Ring, oldest: nat, d: Sequence, seen: seq<Record>)
    requires GeometryOk(g) && RingShape(g, f) && 0 < oldest < g.n && Discover(g, f) == Some(d)
    requires d.active == g.n - 1 && d.oldest == oldest && d.count == g.n - oldest <= g.n - 1
    requires seen != []
    requires var r := Replay(g, root, false, f, oldest, g.n - 1, g.n - oldest);
               r.Replayed? && r.m == Judged(g, root, seen)
    ensures Dropped(g, root, f, oldest, seen)
  {
  }

  /** The j-th sector from the oldest on is before the end of the ring, and full. */
  ghost predicate Loaded(g: Geometry, f: Ring, oldest: nat, j: nat)
    requires |f| == g.n && oldest + j < g.n
  {
    At(g.n, oldest, j) == oldest + j && Filled(g, f[oldest + j].recs, g.cap)
  }

  lemma SeenFull(g: Geometry, s: State)
    requires Inv(g, s) && !Discoverable(g, s.oldest, s.count)
    ensures 0 < s.oldest && forall j: nat | s.oldest + j < g.n :: Loaded(g, s.flash, s.oldest, j)
  {
    forall j: nat | s.oldest + j < g.n
      ensures Loaded(g, s.flash, s.oldest, j)
    {
      assert j < s.count - 1 && Filled(g, s.flash[At(g.n, s.oldest, j)].recs, g.cap);
    }
  }

  /** Replay of full sectors up to the end of the ring. */
  lemma RingReplayed(g: Geometry, root: Roots, f: Ring, oldest: nat)
    requires GeometryOk(g) && RingShape(g, f) && 0 < oldest < g.n
    requires forall j: nat | oldest + j < g.n :: Loaded(g, f, oldest, j)
    ensures var seen := LogUpTo(g, f, oldest, g.n - oldest);
      var r := Replay(g, root, false, f, oldest, g.n - 1, g.n - oldest);
      seen != [] && r.Replayed? && r.m == Judged(g, root, seen)
  {
    var k := g.n - oldest;
    FrontReplayed(g, root, f, oldest);
    assert Loaded(g, f, oldest, k - 1);
    var recs, before := f[g.n - 1].recs, LogUpTo(g, f, oldest, k - 1);
    LastReplayed(g, root, recs, Fold(map[], before));
    LastSector(g, root, f, oldest, g.n - 1, k);
    SeenSplit(before, recs);
  }

  lemma FrontReplayed(g: Geometry, root: Roots, f: Ring, oldest: nat)
    requires GeometryOk(g) && RingShape(g, f) && 0 < oldest < g.n
    requires forall j: nat | oldest + j < g.n :: Loaded(g, f, oldest, j)
    ensures var r := Replay(g, root, false, f, oldest, g.n - 1, g.n - oldest - 1);
      r.Replayed? && r.m == Fold(map[], LogUpTo(g, f, oldest, g.n - oldest - 1))
  {
    assert forall j | 0 <= j < g.n - oldest - 1 :: Loaded(g, f, oldest, j) && At(g.n, oldest, j) == oldest + j;
    ReplayFull(g, root, false, f, oldest, g.n - 1, g.n - oldest - 1);
  }

  lemma SeenSplit(before: seq<Record>, recs: seq<Record>)
    requires recs != []
    ensures var seen := before + recs;
      && seen[|seen| - 1] == recs[|recs| - 1]
      && Fold(map[], seen[..|seen| - 1]) == Fold(Fold(map[], before), recs[..|recs| - 1])
  {
    var seen := before + recs;
    assert seen[..|seen| - 1] == before + recs[..|recs| - 1];
    FoldConcat(map[], before, recs[..|recs| - 1]);
  }

  /** A full sector, replayed as the active one. */
  lemma LastReplayed(g: Geometry, root: Roots, recs: seq<Record>, m: Namespace)
    requires GeometryOk(g) && |recs| == g.cap && Filled(g, recs, g.cap)
    ensures var m' := Fold(m, recs[..g.cap - 1]); var v := TailVerdict(g, root, m', recs[g.cap - 1]);
      ReplaySector(g, root, false, recs, 0, true, m) == Replayed(Apply(m', v), g.cap, v != recs[g.cap - 1])
  {
    var k := g.cap - 1;
    assert Good(g, recs[k]);
    assert recs[0..k] == recs[..k];
    ReplayPrefix(g, root, false, recs, 0, k, true, m);
    ReplayLast(g, root, recs, k, Fold(m, recs[..k]));
  }

  // ---------------------------------------------------------------- it does happen

  lemma FormattedInv(g: Geometry)
    requires GeometryOk(g)
    ensures Idle(g, Formatted(g))
  {
    var s := Formatted(g);
    HeaderFields(g, 0, FLAGS_VALID);
    assert forall p | 0 <= p < g.n :: s.flash[p] == FormattedSector(g, p) && Offset(g.n, 0, p) == p;
    assert s.flash[0].recs[..0] == [];
    assert LogUpTo(g, s.flash, 0, 0) == [] && Log(g, s) == [];
    forall p | 0 <= p < g.n
      ensures HeaderAt(g, s.flash[p].hdr, 0, Offset(g.n, 0, p), 1)
    {
      assert !ValidHeader(ERASED_HEADER);
    }
    assert OnlyDeletes(g, s);
  }

  /** The journal after these appends. */
  function Applied(g: Geometry, s: State, log: seq<Record>): State {
    if log == [] then s
    else
      var before := Applied(g, s, log[..|log| - 1]);
      var r := log[|log| - 1];
      if Typed(g, before) then Append(g, before, r.slot, r.head).0 else before
  }

  lemma {:induction false} AppliedMore(g: Geometry, s: State, a: seq<Record>, b: seq<Record>)
    ensures Applied(g, s, a + b) == Applied(g, Applied(g, s, a), b)
    decreases |b|
  {
    if b == [] {
      assert a + b == a;
    } else {
      AppliedMore(g, s, a, b[..|b| - 1]);
      assert (a + b)[..|a + b| - 1] == a + b[..|b| - 1];
    }
  }

  /** Appends of deletes only: nothing is stored and every record is a delete. */
  const DELETE := Record(1, 0)

  ghost predicate OnlyDeletes(g: Geometry, s: State) {
    && Inv(g, s) && s.ram == map[]
    && forall p, i | 0 <= p < g.n && 0 <= i < g.cap :: s.flash[p].recs[i] == ERASED || s.flash[p].recs[i] == DELETE
  }

  /** The same, for those who need not know what it means. */
  ghost predicate Idle(g: Geometry, s: State) {
    Typed(g, s) && s.next <= g.cap && forall x {:trigger OnlyDeletes(g, x)} | x == s :: OnlyDeletes(g, x)
  }

  ghost predicate AllDeletes(log: seq<Record>) { forall i | 0 <= i < |log| :: log[i] == DELETE }

  lemma {:induction false} NothingSurvives(recs: seq<Record>)
    ensures Survivors(map[], recs) == []
  {
    if recs != [] {
      NothingSurvives(recs[..|recs| - 1]);
    }
  }

  lemma {:induction false} DeletesFold(log: seq<Record>)
    requires AllDeletes(log)
    ensures Fold(map[], log) == map[]
  {
    if log != [] {
      DeletesFold(log[..|log| - 1]);
    }
  }

  /** One delete into the active sector. */
  lemma DeleteOne(g: Geometry, s: State)
    requires Idle(g, s) && s.next < g.cap
    ensures var s' := Append(g, s, 1, 0).0;
      && Idle(g, s') && s'.next == s.next + 1 && s'.oldest == s.oldest && s'.count == s.count && s'.active == s.active
  {
    assert OnlyDeletes(g, s);
    AppendRefinesMap(g, s, 1, 0);
    assert OnlyDeletes(g, Append(g, s, 1, 0).0);
  }

  /** One delete that finds the active sector full. */
  lemma DeleteRotates(g: Geometry, s: State)
    requires Idle(g, s) && s.next == g.cap
    ensures var s' := Append(g, s, 1, 0).0;
      && Idle(g, s') && s'.next == 1 && s'.active == At(g.n, s.active, 1)
      && (if s.count < g.n - 1 then s'.count == s.count + 1 && s'.oldest == s.oldest
          else s'.count == s.count && s'.oldest == At(g.n, s.oldest, 1))
  {
    RotatedEmpty(g, s);
    DeleteOne(g, Rotated(g, s));
  }

  lemma RotatedEmpty(g: Geometry, s: State)
    requires Idle(g, s) && s.next == g.cap
    ensures Idle(g, Rotated(g, s)) && Rotated(g, s).next == 0
  {
    assert OnlyDeletes(g, s);
    NothingCopied(g, s);
    RotationKeepsInv(g, s);
    RotatedDeletes(g, s);
  }

  lemma NothingCopied(g: Geometry, s: State)
    requires Idle(g, s)
    ensures Copied(g, s) == [] && Rotated(g, s).next == 0
  {
    assert OnlyDeletes(g, s);
    NothingSurvives(s.flash[s.oldest].recs);
  }

  lemma RotatedDeletes(g: Geometry, s: State)
    requires Typed(g, s) && OnlyDeletes(g, s) && Copied(g, s) == [] && Inv(g, Rotated(g, s))
    requires Rotated(g, s).ram == s.ram
    ensures OnlyDeletes(g, Rotated(g, s))
  {
    RotatedRecords(g, s);
  }

  lemma RotatedRecords(g: Geometry, s: State)
    requires Typed(g, s) && Copied(g, s) == []
    ensures var s' := Rotated(g, s);
      forall p | 0 <= p < g.n :: s'.flash[p].recs == if p == Fresh(g, s) then ErasedRecords(g.cap) else s.flash[p].recs
  {
    assert FreshSector(g, s).recs == ErasedRecords(g.cap);
  }

  /** Deletes until the active sector is full. */
  lemma {:induction false} FillUp(g: Geometry, s: State) returns (log: seq<Record>)
    requires Idle(g, s)
    ensures AllDeletes(log)
    ensures var s' := Applied(g, s, log);
      Idle(g, s') && s'.next == g.cap && s'.oldest == s.oldest && s'.count == s.count && s'.active == s.active
    decreases g.cap - s.next
  {
    log := [];
    if s.next < g.cap {
      DeleteOne(g, s);
      log := FillUp(g, Append(g, s, 1, 0).0);
      OneFirst(g, s, log);
      log := [DELETE] + log;
    }
  }

  lemma OneFirst(g: Geometry, s: State, log: seq<Record>)
    requires Typed(g, s)
    ensures Applied(g, s, [DELETE] + log) == Applied(g, Append(g, s, 1, 0).0, log)
  {
    AppliedMore(g, s, [DELETE], log);
    assert [DELETE][..0] == [];
  }

  /** Deletes through q rotations, up to the last sector of the ring being full. */
  lemma {:induction false} FillRing(g: Geometry, q: nat) returns (log: seq<Record>)
    requires GeometryOk(g) && q <= g.n - 1
    ensures AllDeletes(log)
    ensures var s := Applied(g, Formatted(g), log);
      && Idle(g, s) && s.next == g.cap && s.active == q
      && (if q <= g.n - 2 then s.oldest == 0 && s.count == q + 1 else s.oldest == 1 && s.count == g.n - 1)
    decreases q
  {
    FormattedInv(g);
    if q == 0 {
      log := FillUp(g, Formatted(g));
    } else {
      log := FillRing(g, q - 1);
      var s := Applied(g, Formatted(g), log);
      var more := FillNext(g, s);
      AppliedMore(g, Formatted(g), log, more);
      log := log + more;
    }
  }

  /** One rotation, and deletes until the next sector is full. */
  lemma FillNext(g: Geometry, s: State) returns (log: seq<Record>)
    requires Idle(g, s) && s.next == g.cap
    ensures AllDeletes(log)
    ensures var s' := Applied(g, s, log);
      && Idle(g, s') && s'.next == g.cap && s'.active == At(g.n, s.active, 1)
      && (if s.count < g.n - 1 then s'.count == s.count + 1 && s'.oldest == s.oldest
          else s'.count == s.count && s'.oldest == At(g.n, s.oldest, 1))
  {
    DeleteRotates(g, s);
    var more := FillUp(g, Append(g, s, 1, 0).0);
    OneFirst(g, s, more);
    log := [DELETE] + more;
  }

  /** With eleven or more index sectors there is a run of appends, from format on, after which the file that was
      stored last is gone with the next mount, without any power cut. */
  lemma WrappedLoss(g: Geometry, root: Roots, head: u16)
    requires GeometryOk(g) && g.n >= 11 && InRange(g, head)
    ensures exists log: seq<Record> :: Forgets(g, root, log, head)
  {
    var deletes := FillRing(g, g.n - 1);
    var put := Record(1, head);
    PutLast(g, deletes, put);
    PutForgotten(g, root, Applied(g, Formatted(g), deletes), head);
    assert Forgets(g, root, deletes + [put], head);
  }

  lemma PutForgotten(g: Geometry, root: Roots, s: State, head: u16)
    requires Idle(g, s) && s.next == g.cap && s.active == g.n - 1 && s.oldest == 1 && s.count == g.n - 1 >= 10
    requires InRange(g, head)
    ensures Forgetful(g, root, Append(g, s, 1, head).0, head)
  {
    PutWrapped(g, s, head);
    PutLost(g, root, Append(g, s, 1, head).0, head);
  }

  lemma PutLast(g: Geometry, log: seq<Record>, put: Record)
    requires GeometryOk(g) && Typed(g, Applied(g, Formatted(g), log))
    ensures Applied(g, Formatted(g), log + [put]) == Append(g, Applied(g, Formatted(g), log), put.slot, put.head).0
  {
    AppliedMore(g, Formatted(g), log, [put]);
    assert [put][..0] == [];
  }

  /** These appends to a formatted journal store one file, and the next mount does not find it. */
  ghost predicate Forgets(g: Geometry, root: Roots, log: seq<Record>, head: u16)
    requires GeometryOk(g)
  {
    && (forall i | 0 <= i < |log| :: Appendable(g, log[i].slot, log[i].head))
    && Forgetful(g, root, Applied(g, Formatted(g), log), head)
  }

  /** The journal has this file, and a mount finds none. Callers unfold this where they need it. */
  ghost predicate Forgetful(g: Geometry, root: Roots, s: State, head: u16) {
    forall x {:trigger ForgetsFile(g, root, x, head)} | x == s :: ForgetsFile(g, root, x, head)
  }

  ghost predicate ForgetsFile(g: Geometry, root: Roots, s: State, head: u16) {
    && Inv(g, s) && s.ram == map[1 := head]
    && var after := Mounted(g, root, false, s.flash); after.Some? && after.value.ram == map[]
  }

  lemma PutLost(g: Geometry, root: Roots, s: State, head: u16)
    requires Inv(g, s) && !Discoverable(g, s.oldest, s.count) && AllDeletes(SeenLog(g, s)) && s.ram == map[1 := head]
    ensures Forgetful(g, root, s, head)
  {
    NewestDropped(g, root, s);
    JudgedDeletes(g, root, SeenLog(g, s));
  }

  lemma JudgedDeletes(g: Geometry, root: Roots, seen: seq<Record>)
    requires seen != [] && AllDeletes(seen)
    ensures Judged(g, root, seen) == map[]
  {
    DeletesFold(seen[..|seen| - 1]);
    assert seen[|seen| - 1] == DELETE;
  }

  /** The put goes into the first sector of the ring, and all that a mount sees are deletes. */
  lemma PutWrapped(g: Geometry, s: State, head: u16)
    requires Idle(g, s) && s.next == g.cap && s.active == g.n - 1 && s.oldest == 1 && s.count == g.n - 1 >= 10
    requires InRange(g, head)
    ensures var s' := Append(g, s, 1, head).0;
      && Inv(g, s') && s'.ram == map[1 := head] && !Discoverable(g, s'.oldest, s'.count) && AllDeletes(SeenLog(g, s'))
  {
    RotatedEmpty(g, s);
    PutTaken(g, s, head);
    assert OnlyDeletes(g, s) && OnlyDeletes(g, Rotated(g, s));
    SeenDeletes(g, s, Rotated(g, s), head);
  }

  lemma PutTaken(g: Geometry, s: State, head: u16)
    requires Idle(g, s) && s.next == g.cap && InRange(g, head) && Rotated(g, s).next == 0
    ensures var s' := Append(g, s, 1, head).0;
      Inv(g, s') && s'.ram == map[1 := head]
  {
    assert OnlyDeletes(g, s);
    AppendRefinesMap(g, s, 1, head);
  }

  lemma SeenDeletes(g: Geometry, s: State, s1: State, head: u16)
    requires OnlyDeletes(g, s) && s.next == g.cap && s.active == g.n - 1 && s.oldest == 1 && s.count == g.n - 1 >= 10
    requires s1 == Rotated(g, s) && OnlyDeletes(g, s1) && s1.next < g.cap
    requires Inv(g, Append(g, s, 1, head).0)
    ensures var s' := Append(g, s, 1, head).0;
      !Discoverable(g, s'.oldest, s'.count) && AllDeletes(SeenLog(g, s'))
  {
    var s' := Append(g, s, 1, head).0;
    assert s'.active == 0 && s'.oldest == 2;
    SeenFull(g, s');
    assert forall j: nat | 2 + j < g.n :: Loaded(g, s'.flash, 2, j) && At(g.n, 2, j) == 2 + j;
    assert forall p | 0 < p < g.n :: s'.flash[p] == s1.flash[p];
    LogDeletes(g, s'.flash, 2, g.n - 2);
  }

  lemma {:induction false} LogDeletes(g: Geometry, f: Ring, oldest: nat, k: nat)
    requires GeometryOk(g) && RingShape(g, f) && oldest < g.n && k <= g.n
    requires forall j | 0 <= j < k :: Filled(g, f[At(g.n, oldest, j)].recs, g.cap)
    requires forall p, i | 0 <= p < g.n && 0 <= i < g.cap && p != 0 :: f[p].recs[i] == ERASED || f[p].recs[i] == DELETE
    requires forall j | 0 <= j < k :: At(g.n, oldest, j) != 0
    ensures AllDeletes(LogUpTo(g, f, oldest, k))
  {
    if k > 0 {
      LogDeletes(g, f, oldest, k - 1);
      var p := At(g.n, oldest, k - 1);
      assert Filled(g, f[p].recs, g.cap);
      forall i | 0 <= i < g.cap
        ensures f[p].recs[i] == DELETE
      {
        assert Good(g, f[p].recs[i]);
      }
    }
  }
}
