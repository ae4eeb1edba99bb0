/** Namespace records and what a sequence of them means (src/fffs_index_log.c,
    src/fffs_nocache_index.c). */
module IndexLog {
  import opened Nor

  /** One 4-byte record: slot word, then head word. */
  datatype Record = Record(slot: u16, head: u16)

  const WORD_ONES: u16 := 0xffff
  const ERASED := Record(WORD_ONES, WORD_ONES)
  const CLOBBERED := Record(0, 0)

  type Namespace = map<u16, u16>

  /** Replaying one record: clobbered records are skipped, head 0 deletes, the rest store. */
  function Apply(m: Namespace, r: Record): Namespace {
    if r == CLOBBERED then m
    else if r.head == 0 then m - {r.slot}
    else m[r.slot := r.head]
  }

  /** Last writer wins. */
  function Fold(m: Namespace, log: seq<Record>): Namespace {
    if log == [] then m else Apply(Fold(m, log[..|log| - 1]), log[|log| - 1])
  }

  /** The head stored for a slot, 0 if none. */
  function HeadOf(m: Namespace, slot: u16): u16 {
    if slot in m then m[slot] else 0
  }

  predicate NoZeroHead(m: Namespace) {
    forall s | s in m :: m[s] != 0
  }

  lemma {:induction false} FoldConcat(m: Namespace, a: seq<Record>, b: seq<Record>)
    ensures Fold(m, a + b) == Fold(Fold(m, a), b)
  {
    if b == [] {
      assert a + b == a;
    } else {
      var n := |b| - 1;
      FoldConcat(m, a, b[..n]);
      assert (a + b)[..|a + b| - 1] == a + b[..n];
    }
  }

  lemma {:induction false} FoldKeepsNoZero(m: Namespace, log: seq<Record>)
    requires NoZeroHead(m)
    ensures NoZeroHead(Fold(m, log))
  {
    if log != [] {
      FoldKeepsNoZero(m, log[..|log| - 1]);
    }
  }

  /** Two namespaces without zero heads are equal when they answer every slot alike. */
  lemma SameHeads(a: Namespace, b: Namespace)
    requires NoZeroHead(a) && NoZeroHead(b)
    requires forall s: u16 :: HeadOf(a, s) == HeadOf(b, s)
    ensures a == b
  {
    forall s: u16
      ensures s in a <==> s in b
      ensures s in a ==> a[s] == b[s]
    {
      assert HeadOf(a, s) == HeadOf(b, s);
    }
    assert a.Keys == b.Keys;
  }

  /** The record speaks about `slot`. */
  predicate Mentions(r: Record, slot: u16) {
    r != CLOBBERED && r.slot == slot
  }

  predicate Mentioned(log: seq<Record>, slot: u16) {
    exists i :: 0 <= i < |log| && Mentions(log[i], slot)
  }

  /** Position of the last record about `slot`. */
  ghost predicate LastAt(log: seq<Record>, slot: u16, i: int) {
    0 <= i < |log| && Mentions(log[i], slot) && forall j | i < j < |log| :: !Mentions(log[j], slot)
  }

  /** The head of the last record about a slot decides it, and an unmentioned slot keeps its head. */
  lemma {:induction false} FoldAt(m: Namespace, log: seq<Record>, slot: u16)
    ensures !Mentioned(log, slot) ==> HeadOf(Fold(m, log), slot) == HeadOf(m, slot)
    ensures forall i | LastAt(log, slot, i) :: HeadOf(Fold(m, log), slot) == log[i].head
    ensures Mentioned(log, slot) ==> exists i :: LastAt(log, slot, i)
  {
    if log != [] {
      var n := |log| - 1;
      var init := log[..n];
      FoldAt(m, init, slot);
      if Mentions(log[n], slot) {
        assert LastAt(log, slot, n);
      } else {
        assert forall i | 0 <= i < n :: init[i] == log[i];
        forall i | LastAt(log, slot, i)
          ensures LastAt(init, slot, i)
        {
        }
        if Mentioned(log, slot) {
          assert Mentioned(init, slot);
          var i :| LastAt(init, slot, i);
          assert LastAt(log, slot, i);
        }
      }
    }
  }

  /** The records of the oldest sector that compaction copies forward when "current" means that
      the mounted namespace maps the slot to this head (hash and direct back ends). */
  function Survivors(m: Namespace, oldest: seq<Record>): (s: seq<Record>)
    ensures |s| <= |oldest|
    ensures forall i | 0 <= i < |s| :: s[i].head != 0 && s[i].slot in m && m[s[i].slot] == s[i].head
  {
    if oldest == [] then []
    else
      var r := oldest[|oldest| - 1];
      var rest := Survivors(m, oldest[..|oldest| - 1]);
      if r.head != 0 && r.slot in m && m[r.slot] == r.head then rest + [r] else rest
  }

  /** ... and when "current" means that no later record mentions the slot (log-scan back end). */
  function Newest(oldest: seq<Record>, rest: seq<Record>): (s: seq<Record>)
    ensures |s| <= |oldest|
  {
    if oldest == [] then []
    else
      var tail := Newest(oldest[1..], rest);
      if oldest[0].head != 0 && !Mentioned(oldest[1..], oldest[0].slot) && !Mentioned(rest, oldest[0].slot)
      then [oldest[0]] + tail else tail
  }

  lemma {:induction false} SurvivorsContain(m: Namespace, oldest: seq<Record>, r: Record)
    requires r in oldest && r.head != 0 && r.slot in m && m[r.slot] == r.head
    ensures r in Survivors(m, oldest)
  {
    var n := |oldest| - 1;
    if oldest[n] == r {
      assert Survivors(m, oldest)[|Survivors(m, oldest)| - 1] == r;
    } else {
      assert r in oldest[..n];
      SurvivorsContain(m, oldest[..n], r);
    }
  }

  /** Moving the current records of the oldest sector behind all others changes nothing. */
  lemma CompactionKeepsMeaning(oldest: seq<Record>, rest: seq<Record>)
    ensures var m := Fold(map[], oldest + rest); Fold(map[], rest + Survivors(m, oldest)) == m
  {
    var m := Fold(map[], oldest + rest);
    var kept := Survivors(m, oldest);
    FoldConcat(map[], rest, kept);
    FoldConcat(map[], oldest, rest);
    FoldKeepsNoZero(map[], oldest + rest);
    FoldKeepsNoZero(map[], rest + kept);
    forall s: u16
      ensures HeadOf(Fold(map[], rest + kept), s) == HeadOf(m, s)
    {
      CompactionAt(oldest, rest, m, s);
    }
    SameHeads(Fold(map[], rest + kept), m);
  }

  lemma CompactionAt(oldest: seq<Record>, rest: seq<Record>, m: Namespace, s: u16)
    requires m == Fold(map[], oldest + rest)
    ensures HeadOf(Fold(map[], rest + Survivors(m, oldest)), s) == HeadOf(m, s)
  {
    var kept := Survivors(m, oldest);
    FoldConcat(map[], rest, kept);
    FoldConcat(map[], oldest, rest);
    FoldAt(Fold(map[], rest), kept, s);
    FoldAt(map[], rest, s);
    FoldAt(Fold(map[], oldest), rest, s);
    FoldAt(map[], oldest, s);
    FoldKeepsNoZero(map[], oldest + rest);
    if !Mentioned(kept, s) && !Mentioned(rest, s) && s in m {
      var i :| LastAt(oldest, s, i);
      SurvivorsContain(m, oldest, oldest[i]);
    }
  }

  /** The two notions of "current" lead to the same namespace. */
  lemma NewestKeepsMeaning(oldest: seq<Record>, rest: seq<Record>)
    ensures Fold(map[], rest + Newest(oldest, rest)) == Fold(map[], oldest + rest)
  {
    var m := Fold(map[], oldest + rest);
    FoldKeepsNoZero(map[], oldest + rest);
    FoldKeepsNoZero(map[], rest + Newest(oldest, rest));
    forall s: u16
      ensures HeadOf(Fold(map[], rest + Newest(oldest, rest)), s) == HeadOf(m, s)
    {
      NewestAt(oldest, rest, s);
    }
    SameHeads(Fold(map[], rest + Newest(oldest, rest)), m);
  }

  lemma NewestAt(oldest: seq<Record>, rest: seq<Record>, s: u16)
    ensures HeadOf(Fold(map[], rest + Newest(oldest, rest)), s) == HeadOf(Fold(map[], oldest + rest), s)
  {
    var kept := Newest(oldest, rest);
    FoldConcat(map[], rest, kept);
    FoldConcat(map[], oldest, rest);
    FoldAt(Fold(map[], rest), kept, s);
    FoldAt(map[], rest, s);
    FoldAt(Fold(map[], oldest), rest, s);
    FoldAt(map[], oldest, s);
    NewestContains(oldest, rest, s);
  }

  /** `Newest` keeps the last record about a slot, and only if nothing newer exists. */
  lemma {:induction false} NewestContains(oldest: seq<Record>, rest: seq<Record>, s: u16)
    ensures forall k | 0 <= k < |Newest(oldest, rest)| && Mentions(Newest(oldest, rest)[k], s) ::
              !Mentioned(rest, s) && Mentioned(oldest, s)
    ensures forall k, i | && 0 <= k < |Newest(oldest, rest)| && Mentions(Newest(oldest, rest)[k], s)
                          && LastAt(oldest, s, i) ::
              Newest(oldest, rest)[k] == oldest[i]
    ensures forall i | LastAt(oldest, s, i) && oldest[i].head != 0 && !Mentioned(rest, s) ::
              oldest[i] in Newest(oldest, rest)
  {
    if oldest != [] {
      NewestContains(oldest[1..], rest, s);
      MentionedTail(oldest, s);
    }
  }

  lemma MentionedTail(log: seq<Record>, s: u16)
    requires log != []
    ensures Mentioned(log, s) <==> Mentions(log[0], s) || Mentioned(log[1..], s)
    ensures forall i | LastAt(log, s, i) && i > 0 :: LastAt(log[1..], s, i - 1)
    ensures LastAt(log, s, 0) ==> !Mentioned(log[1..], s)
  {
    if Mentioned(log[1..], s) {
      var i :| 0 <= i < |log[1..]| && Mentions(log[1..][i], s);
      assert Mentions(log[i + 1], s);
    }
    if Mentioned(log, s) && !Mentions(log[0], s) {
      var i :| 0 <= i < |log| && Mentions(log[i], s);
      assert Mentions(log[1..][i - 1], s);
    }
  }
}
