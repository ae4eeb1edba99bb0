/** The back end without a RAM index: every question is answered by scanning the log
    (src/fffs_nocache_index.c), and agrees with the replayed map. The log is the sequence of
    written records from the oldest sector to the append position. */
module LogScan {
  import opened Nor
  import opened IndexLog

  /** head_for_slot: the newest record about the slot, scanning backwards. */
  method HeadForSlot(log: seq<Record>, slot: u16) returns (head: u16, found: bool)
    requires slot != 0
    ensures head == HeadOf(Fold(map[], log), slot)
    ensures found <==> slot in Fold(map[], log)
  {
    FoldAt(map[], log, slot);
    FoldKeepsNoZero(map[], log);
    var off := |log|;
    while off > 0
      invariant 0 <= off <= |log|
      invariant forall j | off <= j < |log| :: !Mentions(log[j], slot)
    {
      off := off - 1;
      if log[off].slot == slot {
        assert LastAt(log, slot, off);
        return log[off].head, log[off].head != 0;
      }
    }
    return 0, false;
  }

  /** newer_record_for_slot: does any record after position `pos` mention the slot? */
  method NewerRecordForSlot(log: seq<Record>, pos: nat, slot: u16) returns (newer: bool)
    requires pos < |log|
    ensures newer <==> exists j :: pos < j < |log| && Mentions(log[j], slot)
  {
    var cur := pos + 1;
    while cur < |log|
      invariant pos < cur <= |log|
      invariant forall j | pos < j < cur :: !Mentions(log[j], slot)
    {
      if log[cur] != CLOBBERED && log[cur].slot == slot {
        assert Mentions(log[cur], slot);
        return true;
      }
      cur := cur + 1;
    }
    return false;
  }

  /** The record at `pos` is the live entry of its slot: a put with nothing newer. */
  ghost predicate IsCurrent(log: seq<Record>, pos: nat) {
    pos < |log| && log[pos].head != 0 && LastAt(log, log[pos].slot, pos)
  }

  /** current_index_entry_read, run to the end: the live entries in log order. Each live slot is
      listed exactly once, with the head that replay stores for it. */
  method Iterate(log: seq<Record>) returns (entries: seq<Record>)
    ensures var m := Fold(map[], log);
      && (forall k | 0 <= k < |entries| :: entries[k].slot in m && m[entries[k].slot] == entries[k].head)
      && (forall k, l | 0 <= k < l < |entries| :: entries[k].slot != entries[l].slot)
      && (forall s | s in m :: exists k :: 0 <= k < |entries| && entries[k].slot == s)
  {
    entries := [];
    ghost var at: seq<nat> := [];
    var cur := 0;
    while cur < |log|
      invariant 0 <= cur <= |log|
      invariant Listed(log, cur, at, entries)
    {
      var rec := log[cur];
      if rec.head != 0 {
        var newer := NewerRecordForSlot(log, cur, rec.slot);
        if !newer {
          ListOne(log, cur, at, entries);
          entries := entries + [rec];
          at := at + [cur];
        }
      }
      cur := cur + 1;
    }
    ListedAll(log, at, entries);
  }

  ghost predicate Listed(log: seq<Record>, cur: nat, at: seq<nat>, entries: seq<Record>) {
    && |at| == |entries| && cur <= |log|
    && (forall k | 0 <= k < |at| :: at[k] < cur && IsCurrent(log, at[k]) && entries[k] == log[at[k]])
    && (forall k, l | 0 <= k < l < |at| :: at[k] < at[l])
    && (forall i | 0 <= i < cur && IsCurrent(log, i) :: i in at)
  }

  lemma ListOne(log: seq<Record>, cur: nat, at: seq<nat>, entries: seq<Record>)
    requires cur < |log| && Listed(log, cur, at, entries) && IsCurrent(log, cur)
    ensures Listed(log, cur + 1, at + [cur], entries + [log[cur]])
  {
    var at' := at + [cur];
    assert at'[|at|] == cur;
    forall i | 0 <= i < cur && IsCurrent(log, i)
      ensures i in at'
    {
      var k :| 0 <= k < |at| && at[k] == i;
      assert at'[k] == i;
    }
  }

  lemma ListedAll(log: seq<Record>, at: seq<nat>, entries: seq<Record>)
    requires Listed(log, |log|, at, entries)
    ensures var m := Fold(map[], log);
      && (forall k | 0 <= k < |entries| :: entries[k].slot in m && m[entries[k].slot] == entries[k].head)
      && (forall k, l | 0 <= k < l < |entries| :: entries[k].slot != entries[l].slot)
      && (forall s | s in m :: exists k :: 0 <= k < |entries| && entries[k].slot == s)
  {
    var m := Fold(map[], log);
    FoldKeepsNoZero(map[], log);
    forall k | 0 <= k < |entries|
      ensures entries[k].slot in m && m[entries[k].slot] == entries[k].head
    {
      FoldAt(map[], log, entries[k].slot);
      assert LastAt(log, entries[k].slot, at[k]);
    }
    forall k, l | 0 <= k < l < |entries|
      ensures entries[k].slot != entries[l].slot
    {
      assert LastAt(log, entries[k].slot, at[k]) && LastAt(log, entries[l].slot, at[l]);
    }
    forall s | s in m
      ensures exists k :: 0 <= k < |entries| && entries[k].slot == s
    {
      FoldAt(map[], log, s);
      var i :| LastAt(log, s, i);
      assert IsCurrent(log, i);
      var k :| 0 <= k < |at| && at[k] == i;
      assert entries[k].slot == s;
    }
  }

  /** record_is_current by scanning is what `Newest` keeps during compaction. */
  lemma {:induction false} CurrentIsNewest(oldest: seq<Record>, rest: seq<Record>, r: Record)
    ensures r in Newest(oldest, rest) <==>
            exists i :: 0 <= i < |oldest| && oldest[i] == r && IsCurrent(oldest + rest, i)
  {
    if oldest == [] {
    } else {
      CurrentIsNewest(oldest[1..], rest, r);
      var log := oldest + rest;
      assert log[1..] == oldest[1..] + rest;
      MentionedConcat(oldest[1..], rest, oldest[0].slot);
      MentionedTail(log, oldest[0].slot);
      forall i | 0 < i < |oldest|
        ensures IsCurrent(log, i) <==> IsCurrent(log[1..], i - 1)
      {
        LastAtShift(log, log[i].slot, i);
      }
      if r in Newest(oldest[1..], rest) {
        var i :| 0 <= i < |oldest[1..]| && oldest[1..][i] == r && IsCurrent(oldest[1..] + rest, i);
        assert oldest[i + 1] == r && IsCurrent(log, i + 1);
      }
      if i :| 0 <= i < |oldest| && oldest[i] == r && IsCurrent(log, i) {
        if i > 0 {
          assert oldest[1..][i - 1] == r && IsCurrent(oldest[1..] + rest, i - 1);
        }
      }
      if oldest[0] == r && r.head != 0 && !Mentioned(log[1..], r.slot) {
        LastIsFirst(log, r.slot);
      }
    }
  }

  lemma LastIsFirst(log: seq<Record>, s: u16)
    requires log != [] && Mentions(log[0], s) && !Mentioned(log[1..], s)
    ensures LastAt(log, s, 0)
  {
    forall j | 0 < j < |log|
      ensures !Mentions(log[j], s)
    {
      assert log[j] == log[1..][j - 1];
    }
  }

  lemma LastAtShift(log: seq<Record>, s: u16, i: int)
    requires 0 < i < |log|
    ensures LastAt(log, s, i) <==> LastAt(log[1..], s, i - 1)
  {
    assert log[1..][i - 1] == log[i];
    if LastAt(log[1..], s, i - 1) {
      forall j | i < j < |log|
        ensures !Mentions(log[j], s)
      {
        assert log[j] == log[1..][j - 1];
      }
    }
  }

  lemma MentionedConcat(a: seq<Record>, b: seq<Record>, s: u16)
    ensures Mentioned(a + b, s) <==> Mentioned(a, s) || Mentioned(b, s)
  {
    if i :| 0 <= i < |a| && Mentions(a[i], s) {
      assert Mentions((a + b)[i], s);
    }
    if i :| 0 <= i < |b| && Mentions(b[i], s) {
      assert Mentions((a + b)[|a| + i], s);
    }
  }

  /** The direct table (src/fffs_ram_index.c): one head per slot, 0 for none. */
  class DirectTable {
    const heads: array<u16>
    ghost var M: Namespace

    ghost predicate Valid()
      reads this, heads
    {
      && heads.Length == 0x1_0000
      && (forall s: u16 :: heads[s] == HeadOf(M, s))
      && NoZeroHead(M)
    }

    constructor ()
      ensures Valid() && fresh(heads) && M == map[]
    {
      heads := new u16[0x1_0000](i => 0);
      M := map[];
    }

    /** fffs_index_set never fails here. */
    method Set(slot: u16, head: u16)
      requires Valid()
      modifies heads, this`M
      ensures Valid()
      ensures M == if head == 0 then old(M) - {slot} else old(M)[slot := head]
    {
      heads[slot] := head;
      M := if head == 0 then M - {slot} else M[slot := head];
    }

    method HeadForSlot(slot: u16) returns (head: u16, found: bool)
      requires Valid()
      ensures head == HeadOf(M, slot) && (found <==> slot in M)
    {
      head := heads[slot];
      found := head != 0;
    }

    /** Iteration in slot order: each live slot exactly once. */
    method Iterate() returns (entries: seq<Record>)
      requires Valid()
      ensures forall k | 0 <= k < |entries| :: entries[k].slot in M && M[entries[k].slot] == entries[k].head
      ensures forall k, l | 0 <= k < l < |entries| :: entries[k].slot < entries[l].slot
      ensures forall s | s in M :: exists k :: 0 <= k < |entries| && entries[k].slot == s
    {
      entries := [];
      var pos: int := 0;
      while pos < 0x1_0000
        invariant 0 <= pos <= 0x1_0000
        invariant forall k | 0 <= k < |entries| ::
                    entries[k].slot < pos && entries[k].slot in M && M[entries[k].slot] == entries[k].head
        invariant forall k, l | 0 <= k < l < |entries| :: entries[k].slot < entries[l].slot
        invariant forall s | s in M && s < pos :: exists k :: 0 <= k < |entries| && entries[k].slot == s
      {
        if heads[pos] != 0 {
          ghost var was := entries;
          entries := entries + [Record(pos, heads[pos])];
          forall s | s in M && s < pos + 1
            ensures exists k :: 0 <= k < |entries| && entries[k].slot == s
          {
            if s < pos {
              var k :| 0 <= k < |was| && was[k].slot == s;
              assert entries[k].slot == s;
            } else {
              assert entries[|was|].slot == s;
            }
          }
        }
        pos := pos + 1;
      }
    }
  }
}
