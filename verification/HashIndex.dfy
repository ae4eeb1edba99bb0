/** The open-addressed (slot, head) table with backward-shift deletion
    (src/fffs_hashtable_index.c). Slot 0 marks an empty bucket. */
module HashIndex {
  import opened Nor

  datatype Bucket = Bucket(slot: u16, head: u16)

  const EMPTY := Bucket(0, 0)

  datatype Status = Ok | NoSpace | Invalid

  type Table = t: seq<Bucket> | |t| > 0 witness [EMPTY]

  /** bucket_for: the size is a power of two, so masking is the remainder. */
  function Home(size: nat, slot: u16): (h: nat)
    requires size > 0
    ensures h < size
  {
    Remainder(slot, size)
  }

  function Remainder(x: nat, size: nat): (r: nat)
    requires size > 0
    ensures r < size
  {
    if x < size then x else Remainder(x - size, size)
  }

  /** The next bucket around the ring. */
  function Next(size: nat, pos: nat): (p: nat)
    requires pos < size
    ensures p < size
  {
    if pos + 1 == size then 0 else pos + 1
  }

  /** probe_distance: steps forward around the ring from `from` to `to`. */
  function Distance(size: nat, from: nat, to: nat): (d: nat)
    requires from < size && to < size
    ensures d < size
  {
    if to >= from then to - from else to + size - from
  }

  /** `j` is probed before `i` when the entry in bucket `i` is looked up. */
  predicate Before(t: Table, j: nat, i: nat)
    requires j < |t| && i < |t|
  {
    Distance(|t|, Home(|t|, t[i].slot), j) < Distance(|t|, Home(|t|, t[i].slot), i)
  }

  /** No slot is stored twice. */
  predicate Distinct(t: Table) {
    forall i, j | 0 <= i < |t| && 0 <= j < |t| && t[i].slot != 0 && t[i].slot == t[j].slot :: i == j
  }

  /** No empty bucket lies between an entry's home and its position. */
  ghost predicate NoGap(t: Table) {
    forall i, j | 0 <= i < |t| && 0 <= j < |t| && t[i].slot != 0 && Before(t, j, i) :: t[j].slot != 0
  }

  ghost predicate WellFormed(t: Table) {
    Distinct(t) && NoGap(t)
  }

  /** The table stores exactly the entries of `m`. */
  ghost predicate Represents(t: Table, m: map<u16, u16>) {
    && (forall i | 0 <= i < |t| && t[i].slot != 0 :: t[i].slot in m && m[t[i].slot] == t[i].head)
    && (forall s | s in m :: s != 0 && Stores(t, s))
  }

  ghost predicate Stores(t: Table, slot: u16) {
    exists i :: 0 <= i < |t| && t[i].slot == slot
  }

  ghost predicate Full(t: Table) {
    forall i | 0 <= i < |t| :: t[i].slot != 0
  }

  /** Every bucket that the search for `slot` visits before bucket `e` satisfies neither stop. */
  ghost predicate Passed(t: Table, slot: u16, e: nat)
    requires e < |t|
  {
    forall j | 0 <= j < |t| && Distance(|t|, Home(|t|, slot), j) < Distance(|t|, Home(|t|, slot), e) ::
      t[j].slot != 0 && t[j].slot != slot
  }

  /** A slot that is met by no bucket from its home up to an empty one is not stored. */
  lemma NotStored(t: Table, slot: u16, e: nat)
    requires WellFormed(t) && e < |t| && t[e].slot == 0 && slot != 0
    requires Passed(t, slot, e)
    ensures !Stores(t, slot)
  {
    if i :| 0 <= i < |t| && t[i].slot == slot {
      assert Before(t, e, i);
    }
  }

  /** Writing an entry for `slot` where the search for it ended updates the map at `slot`. */
  lemma Stored(t: Table, m: map<u16, u16>, slot: u16, head: u16, e: nat)
    requires WellFormed(t) && Represents(t, m) && e < |t| && slot != 0
    requires t[e].slot == slot || t[e].slot == 0
    requires Passed(t, slot, e)
    ensures WellFormed(t[e := Bucket(slot, head)])
    ensures Represents(t[e := Bucket(slot, head)], m[slot := head])
  {
    var u: Table := t[e := Bucket(slot, head)];
    if t[e].slot == 0 {
      NotStored(t, slot, e);
    }
    assert Distinct(u);
    forall i, j | 0 <= i < |u| && 0 <= j < |u| && u[i].slot != 0 && Before(u, j, i)
      ensures u[j].slot != 0
    {
      if i != e {
        assert Before(t, j, i);
      }
    }
    var m' := m[slot := head];
    forall i | 0 <= i < |u| && u[i].slot != 0
      ensures u[i].slot in m' && m'[u[i].slot] == u[i].head
    {
      if i != e {
        assert u[i].slot != u[e].slot;
        assert m[t[i].slot] == t[i].head;
        assert m'[t[i].slot] == m[t[i].slot];
      }
    }
    forall s | s in m[slot := head]
      ensures s != 0 && Stores(u, s)
    {
      if s == slot {
        assert u[e].slot == s;
      } else {
        var i :| 0 <= i < |t| && t[i].slot == s;
        assert u[i].slot == s;
      }
    }
  }

  /** The state of the removal loop: the entry of `hole` is dead, every other probe path is
      intact except that it may cross the hole if its entry has not been visited yet, i.e.
      lies at or after `idx`. */
  ghost predicate Shifting(t: Table, hole: nat, idx: nat)
    requires hole < |t| && idx < |t|
  {
    && Distinct(t[hole := EMPTY])
    && t[hole].slot != 0
    && idx != hole
    && (forall i, j | 0 <= i < |t| && 0 <= j < |t| && i != hole && j != hole && t[i].slot != 0 && Before(t, j, i) ::
          t[j].slot != 0)
    && (forall i | 0 <= i < |t| && i != hole && t[i].slot != 0 && Before(t, hole, i) ::
          Distance(|t|, hole, idx) <= Distance(|t|, hole, i))
  }

  /** Reaching an empty bucket ends the repair: emptying the hole leaves no gap. */
  lemma ShiftDone(t: Table, hole: nat, idx: nat)
    requires hole < |t| && idx < |t|
    requires Shifting(t, hole, idx) && t[idx].slot == 0
    ensures WellFormed(t[hole := EMPTY])
  {
    var u: Table := t[hole := EMPTY];
    forall i, j | 0 <= i < |u| && 0 <= j < |u| && u[i].slot != 0 && Before(u, j, i)
      ensures u[j].slot != 0
    {
      assert Before(t, j, i);
      if j == hole {
        assert Before(t, idx, i);
      }
    }
  }

  /** The entry at `idx` does not probe through the hole: step over it. */
  lemma ShiftKeep(t: Table, hole: nat, idx: nat)
    requires hole < |t| && idx < |t|
    requires Shifting(t, hole, idx) && t[idx].slot != 0 && !Before(t, hole, idx)
    requires Next(|t|, idx) != hole
    ensures Shifting(t, hole, Next(|t|, idx))
  {
  }

  /** The entry at `idx` probes through the hole: move it there; its old bucket is the new hole. */
  lemma ShiftMove(t: Table, hole: nat, idx: nat)
    requires hole < |t| && idx < |t|
    requires Shifting(t, hole, idx) && t[idx].slot != 0 && Before(t, hole, idx)
    requires Next(|t|, idx) != idx
    ensures Shifting(t[hole := t[idx]], idx, Next(|t|, idx))
  {
    var u: Table := t[hole := t[idx]];
    var was: Table, now: Table := t[hole := EMPTY], u[idx := EMPTY];
    forall i, j | 0 <= i < |now| && 0 <= j < |now| && now[i].slot != 0 && now[i].slot == now[j].slot
      ensures i == j
    {
      var i', j' := if i == hole then idx else i, if j == hole then idx else j;
      assert was[i'] == now[i] && was[j'] == now[j];
    }
    forall i, j | 0 <= i < |u| && 0 <= j < |u| && i != idx && j != idx && u[i].slot != 0 && Before(u, j, i)
      ensures u[j].slot != 0
    {
      if j != hole {
        assert Before(t, j, if i == hole then idx else i);
      }
    }
  }

  /** ... and the table with the new hole emptied stores the same entries. */
  lemma MovedEntry(t: Table, m: map<u16, u16>, hole: nat, idx: nat)
    requires hole < |t| && idx < |t| && idx != hole
    requires Represents(t[hole := EMPTY], m)
    ensures Represents(t[hole := t[idx]][idx := EMPTY], m)
  {
    var was: Table, now: Table := t[hole := EMPTY], t[hole := t[idx]][idx := EMPTY];
    forall i | 0 <= i < |now| && now[i].slot != 0
      ensures now[i].slot in m && m[now[i].slot] == now[i].head
    {
      assert was[if i == hole then idx else i] == now[i];
    }
    forall s | s in m
      ensures s != 0 && Stores(now, s)
    {
      var i :| 0 <= i < |was| && was[i].slot == s;
      assert now[if i == idx then hole else i].slot == s;
    }
  }

  /** Taking an entry out of the table takes its slot out of the map. */
  lemma Emptied(t: Table, m: map<u16, u16>, hole: nat)
    requires Distinct(t) && Represents(t, m) && hole < |t| && t[hole].slot != 0
    ensures Distinct(t[hole := EMPTY])
    ensures Represents(t[hole := EMPTY], m - {t[hole].slot})
  {
    var u: Table := t[hole := EMPTY];
    var m' := m - {t[hole].slot};
    forall i | 0 <= i < |u| && u[i].slot != 0
      ensures u[i].slot in m' && m'[u[i].slot] == u[i].head
    {
      assert t[i].slot != t[hole].slot;
      assert m[t[i].slot] == t[i].head;
      assert m'[t[i].slot] == m[t[i].slot];
    }
    forall s | s in m && s != t[hole].slot
      ensures s != 0 && Stores(u, s)
    {
      var i :| 0 <= i < |t| && t[i].slot == s;
      assert u[i].slot == s;
    }
  }

  /** One turn of the removal loop, as a function of table, hole and index. */
  function ShiftStep(t: Table, hole: nat, idx: nat): (r: (Table, nat, nat))
    requires hole < |t| && idx < |t|
    ensures |r.0| == |t| && r.1 < |t| && r.2 < |t|
  {
    if Before(t, hole, idx) then (t[hole := t[idx]], idx, Next(|t|, idx)) else (t, hole, Next(|t|, idx))
  }

  /** The removal loop's invariant: repair in progress, `gone` is what the table holds once the
      hole is emptied, and the empty bucket `stop` is still ahead. */
  ghost predicate Repairing(t: Table, gone: map<u16, u16>, hole: nat, idx: nat, stop: nat)
    requires hole < |t| && idx < |t| && stop < |t|
  {
    && Shifting(t, hole, idx)
    && Represents(t[hole := EMPTY], gone)
    && t[stop].slot == 0
    && Distance(|t|, hole, idx) <= Distance(|t|, hole, stop)
  }

  lemma RepairStart(t: Table, m: map<u16, u16>, hole: nat) returns (stop: nat)
    requires WellFormed(t) && Represents(t, m) && |m| < |t| && hole < |t| && t[hole].slot != 0
    ensures stop < |t| && Repairing(t, m - {t[hole].slot}, hole, Next(|t|, hole), stop)
  {
    FullIffCount(t, m);
    stop :| 0 <= stop < |t| && t[stop].slot == 0;
    Emptied(t, m, hole);
  }

  lemma RepairTurn(t: Table, gone: map<u16, u16>, hole: nat, idx: nat, stop: nat)
    requires hole < |t| && idx < |t| && stop < |t|
    requires Repairing(t, gone, hole, idx, stop) && t[idx].slot != 0
    ensures var (u, h, i) := ShiftStep(t, hole, idx);
      Repairing(u, gone, h, i, stop) && Distance(|t|, i, stop) < Distance(|t|, idx, stop)
  {
    if Before(t, hole, idx) {
      ShiftMove(t, hole, idx);
      MovedEntry(t, gone, hole, idx);
    } else {
      ShiftKeep(t, hole, idx);
    }
  }

  /** On a table without an empty bucket the removal loop never meets its stopping
      condition: after any number of turns every bucket is still occupied. */
  lemma {:induction false} FullTableNeverStops(t: Table, hole: nat, idx: nat, turns: nat)
    requires hole < |t| && idx < |t| && Full(t)
    ensures Full(Turns(t, hole, idx, turns).0)
    decreases turns
  {
    if turns > 0 {
      var (u, h, i) := ShiftStep(t, hole, idx);
      FullTableNeverStops(u, h, i, turns - 1);
    }
  }

  function Turns(t: Table, hole: nat, idx: nat, turns: nat): (r: (Table, nat, nat))
    requires hole < |t| && idx < |t|
    ensures |r.0| == |t| && r.1 < |t| && r.2 < |t|
    decreases turns
  {
    if turns == 0 then (t, hole, idx)
    else
      var (u, h, i) := ShiftStep(t, hole, idx);
      Turns(u, h, i, turns - 1)
  }

  /** Occupied slots among the first `k` buckets. */
  ghost function SlotsUpTo(t: Table, k: nat): set<u16>
    requires k <= |t|
  {
    set i | 0 <= i < k && t[i].slot != 0 :: t[i].slot
  }

  lemma {:induction false} CountSlots(t: Table, k: nat)
    requires Distinct(t) && k <= |t|
    ensures |SlotsUpTo(t, k)| <= k
    ensures |SlotsUpTo(t, k)| == k <==> forall i | 0 <= i < k :: t[i].slot != 0
  {
    if k > 0 {
      CountSlots(t, k - 1);
      if t[k - 1].slot == 0 {
        assert SlotsUpTo(t, k) == SlotsUpTo(t, k - 1);
      } else {
        assert SlotsUpTo(t, k) == SlotsUpTo(t, k - 1) + {t[k - 1].slot};
      }
    }
  }

  /** The table is full exactly when it stores as many slots as it has buckets. */
  lemma FullIffCount(t: Table, m: map<u16, u16>)
    requires Distinct(t) && Represents(t, m)
    ensures |m| <= |t|
    ensures Full(t) <==> |m| == |t|
  {
    CountSlots(t, |t|);
    forall s
      ensures s in m <==> s in SlotsUpTo(t, |t|)
    {
      if s in m {
        var i :| 0 <= i < |t| && t[i].slot == s;
      }
    }
    assert m.Keys == SlotsUpTo(t, |t|);
  }

  /** `entries` are the occupied buckets among the first `pos`, in order; `at` says where. */
  ghost predicate Listed(t: Table, pos: nat, at: seq<nat>, entries: seq<Bucket>)
    requires pos <= |t|
  {
    && |at| == |entries|
    && (forall k | 0 <= k < |at| :: at[k] < pos && t[at[k]] == entries[k] && entries[k].slot != 0)
    && (forall k, l | 0 <= k < l < |at| :: at[k] < at[l])
    && (forall i | 0 <= i < pos && t[i].slot != 0 :: i in at)
  }

  lemma ListOne(t: Table, pos: nat, at: seq<nat>, entries: seq<Bucket>)
    requires pos < |t| && Listed(t, pos, at, entries) && t[pos].slot != 0
    ensures Listed(t, pos + 1, at + [pos], entries + [t[pos]])
  {
    var at' := at + [pos];
    assert at'[|at|] == pos;
    forall i | 0 <= i < pos && t[i].slot != 0
      ensures i in at'
    {
      var k :| 0 <= k < |at| && at[k] == i;
      assert at'[k] == i;
    }
  }

  lemma ListedAll(t: Table, m: map<u16, u16>, at: seq<nat>, entries: seq<Bucket>)
    requires Distinct(t) && Represents(t, m) && Listed(t, |t|, at, entries)
    ensures forall k | 0 <= k < |entries| :: entries[k].slot in m && m[entries[k].slot] == entries[k].head
    ensures forall k, l | 0 <= k < l < |entries| :: entries[k].slot != entries[l].slot
    ensures forall s | s in m :: exists k :: 0 <= k < |entries| && entries[k].slot == s
  {
    forall s | s in m
      ensures exists k :: 0 <= k < |entries| && entries[k].slot == s
    {
      var i :| 0 <= i < |t| && t[i].slot == s;
      var k :| 0 <= k < |at| && at[k] == i;
      assert entries[k].slot == s;
    }
  }

  class HashTable {
    const table: array<Bucket>
    ghost var M: map<u16, u16>

    ghost predicate Valid()
      reads this, table
    {
      && table.Length > 0
      && WellFormed(table[..])
      && Represents(table[..], M)
    }

    constructor (size: nat)
      requires size > 0
      ensures Valid() && fresh(table) && M == map[] && table.Length == size
    {
      table := new Bucket[size](i => EMPTY);
      M := map[];
    }

    /** The linear probe for `slot`: its bucket, or the empty bucket where it belongs. */
    method FindSlotBucket(slot: u16) returns (status: Status, idx: nat, found: bool)
      requires Valid()
      ensures status.Invalid? <==> slot == 0
      ensures status.Ok? ==> idx < table.Length && Passed(table[..], slot, idx)
      ensures status.Ok? && found ==> slot in M && table[idx] == Bucket(slot, M[slot])
      ensures status.Ok? && !found ==> slot !in M && table[idx].slot == 0
      ensures status.NoSpace? ==> !found && slot !in M && |M| == table.Length
      ensures found ==> status.Ok?
    {
      idx, found := 0, false;
      if slot == 0 {
        return Invalid, 0, false;
      }
      ghost var t: Table := table[..];
      FullIffCount(t, M);
      var size := table.Length;
      var home := Home(size, slot);
      var pos: nat := home;
      var probe: nat := 0;
      while probe < size
        invariant probe <= size && pos < size
        invariant probe < size ==> Distance(size, home, pos) == probe
        invariant forall j | 0 <= j < size && Distance(size, home, j) < probe :: t[j].slot != 0 && t[j].slot != slot
      {
        if table[pos].slot == 0 {
          NotStored(t, slot, pos);
          return Ok, pos, false;
        }
        if table[pos].slot == slot {
          assert t[pos].slot in M;
          return Ok, pos, true;
        }
        assert forall j | 0 <= j < size && Distance(size, home, j) == probe :: j == pos;
        pos := Next(size, pos);
        probe := probe + 1;
      }
      assert forall j | 0 <= j < size :: Distance(size, home, j) < size;
      assert Full(t) && !Stores(t, slot);
      status := NoSpace;
    }

    /** Map update, refused only for a new slot in a full table or for slot 0. */
    method Insert(slot: u16, head: u16) returns (status: Status)
      requires Valid()
      modifies table, this`M
      ensures Valid()
      ensures status.Invalid? <==> slot == 0
      ensures status.NoSpace? <==> slot != 0 && slot !in old(M) && |old(M)| == table.Length
      ensures M == if status.Ok? then old(M)[slot := head] else old(M)
    {
      var idx, found;
      status, idx, found := FindSlotBucket(slot);
      ghost var t: Table := table[..];
      FullIffCount(t, M);
      if status.Ok? {
        Stored(t, M, slot, head, idx);
        table[idx] := Bucket(slot, head);
        M := M[slot := head];
        assert table[..] == t[idx := Bucket(slot, head)];
      }
    }

    /** Backward-shift removal of bucket `removeIdx`. An empty bucket somewhere is what stops
        the loop (FullTableNeverStops). */
    method RemoveBucketAt(removeIdx: nat)
      requires Valid() && removeIdx < table.Length && table[removeIdx].slot != 0
      requires |M| < table.Length
      modifies table, this`M
      ensures Valid()
      ensures M == old(M) - {old(table[removeIdx].slot)}
    {
      ghost var gone := M - {table[removeIdx].slot};
      var size := table.Length;
      ghost var t: Table := table[..];
      ghost var stop := RepairStart(t, M, removeIdx);
      var hole: nat := removeIdx;
      var idx: nat := Next(size, hole);
      while table[idx].slot != 0
        invariant hole < size && idx < size && stop < size
        invariant Repairing(table[..], gone, hole, idx, stop)
        invariant M == old(M)
        decreases Distance(size, idx, stop)
      {
        t := table[..];
        ghost var next := ShiftStep(t, hole, idx).0;
        RepairTurn(t, gone, hole, idx, stop);
        var home := Home(size, table[idx].slot);
        if Distance(size, home, hole) < Distance(size, home, idx) {
          table[hole] := table[idx];
          hole := idx;
        }
        idx := Next(size, idx);
        assert table[..] == next;
      }
      ShiftDone(table[..], hole, idx);
      t := table[..][hole := EMPTY];
      table[hole] := EMPTY;
      assert table[..] == t;
      M := gone;
    }

    /** Map removal; an absent slot changes nothing. */
    method Remove(slot: u16) returns (status: Status)
      requires Valid()
      requires slot in M ==> |M| < table.Length
      modifies table, this`M
      ensures Valid()
      ensures status == if slot == 0 then Invalid else Ok
      ensures M == old(M) - {slot}
    {
      var idx, found;
      status, idx, found := FindSlotBucket(slot);
      if status.Invalid? {
        assert 0 !in M;
        return;
      }
      if found {
        RemoveBucketAt(idx);
      }
      status := Ok;
    }

    /** fffs_index_set: head 0 means delete. */
    method Set(slot: u16, head: u16) returns (status: Status)
      requires Valid()
      requires head == 0 && slot in M ==> |M| < table.Length
      modifies table, this`M
      ensures Valid()
      ensures status.Ok? ==> M == if head == 0 then old(M) - {slot} else old(M)[slot := head]
      ensures !status.Ok? ==> M == old(M)
      ensures status.NoSpace? <==> head != 0 && slot != 0 && slot !in old(M) && |old(M)| == table.Length
    {
      if head == 0 {
        status := Remove(slot);
      } else {
        status := Insert(slot, head);
      }
    }

    method HeadForSlot(slot: u16) returns (status: Status, head: u16, found: bool)
      requires Valid()
      ensures status == if slot == 0 then Invalid else Ok
      ensures found <==> slot in M
      ensures head == if slot in M then M[slot] else 0
    {
      var st, idx, slotFound := FindSlotBucket(slot);
      if st.Invalid? {
        assert 0 !in M;
        return Invalid, 0, false;
      }
      if !slotFound {
        return Ok, 0, false;
      }
      return Ok, table[idx].head, true;
    }

    /** Iteration visits every stored slot exactly once. */
    method Iterate() returns (entries: seq<Bucket>)
      requires Valid()
      ensures forall k | 0 <= k < |entries| :: entries[k].slot in M && M[entries[k].slot] == entries[k].head
      ensures forall k, l | 0 <= k < l < |entries| :: entries[k].slot != entries[l].slot
      ensures forall s | s in M :: exists k :: 0 <= k < |entries| && entries[k].slot == s
    {
      entries := [];
      ghost var t: Table := table[..];
      ghost var at: seq<nat> := [];
      for pos := 0 to table.Length
        invariant Listed(t, pos, at, entries)
      {
        if table[pos].slot != 0 {
          ListOne(t, pos, at, entries);
          entries := entries + [table[pos]];
          at := at + [pos];
        }
      }
      ListedAll(t, M, at, entries);
    }
  }
}
