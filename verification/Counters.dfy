/** The committed file and byte counters (src/fastffs.c): what the notes do to them, and how they relate to
    the sizes of the stored files. */
module Counters {
  import opened Nor

  /** Size of each stored file, by slot. */
  type Sizes = map<u16, nat>

  const WRAP: nat := 0x1_0000_0000

  function Wrapped(n: int): (r: nat)
    ensures r < WRAP
  {
    n % WRAP
  }

  // ---------------------------------------------------------------- the sum over all files

  ghost function Total(m: Sizes): nat {
    if m == map[] then 0
    else
      var slot :| slot in m;
      m[slot] + Total(m - {slot})
  }

  /** The sum does not depend on the order. */
  lemma {:induction false} TotalWithout(m: Sizes, slot: u16)
    requires slot in m
    ensures Total(m) == m[slot] + Total(m - {slot})
    decreases |m|
  {
    var first :| first in m && Total(m) == m[first] + Total(m - {first});
    if first != slot {
      TotalWithout(m - {first}, slot);
      assert m - {first} - {slot} == m - {slot} - {first};
      TotalWithout(m - {slot}, first);
    }
  }

  lemma TotalSet(m: Sizes, slot: u16, size: nat)
    ensures Total(m[slot := size]) == size + Total(m - {slot})
  {
    TotalWithout(m[slot := size], slot);
    assert m[slot := size] - {slot} == m - {slot};
  }

  /** Wrapping early does not change a sum. */
  lemma WrappedSum(a: int, b: int)
    ensures Wrapped(Wrapped(a) + b) == Wrapped(a + b)
  {
    var q, r := (a + b) / WRAP, (a + b) % WRAP;
    assert Wrapped(a) + b == r + (q - a / WRAP) * WRAP;
  }

  lemma WrappedDifference(a: int, b: int)
    ensures Wrapped(Wrapped(a) - b) == Wrapped(a - b)
  {
    var minus: int := -1 * b;
    WrappedSum(a, minus);
  }

  // ---------------------------------------------------------------- the counters

  datatype Count = Count(valid: bool, files: nat, bytes: nat)

  /** While they count as valid, the counters are those of these files. */
  ghost predicate Right(c: Count, m: Sizes) {
    c.valid ==> c.files == |m| && c.bytes == Wrapped(Total(m))
  }

  function Added(c: Count, size: nat): Count {
    if c.valid then Count(true, c.files + 1, Wrapped(c.bytes + size)) else c
  }

  function Subtracted(c: Count, size: nat): Count {
    if !c.valid then c
    else if c.files == 0 || c.bytes < size then c.(valid := false)
    else Count(true, c.files - 1, c.bytes - size)
  }

  /** A close adds the new file and then, if the slot had one, takes the old file off. */
  function Replaced(c: Count, size: nat, was: Option<nat>): Count {
    if was.Some? then Subtracted(Added(c, size), was.value) else Added(c, size)
  }

  /** After a close the counters are right for the files with the new one. They stay valid exactly if the
      running total, wrapped, is not smaller than the file that was replaced. */
  lemma CloseKeepsRight(c: Count, m: Sizes, slot: u16, size: nat)
    requires Right(c, m)
    ensures var c' := Replaced(c, size, if slot in m then Some(m[slot]) else None);
      && Right(c', m[slot := size])
      && (c'.valid <==> c.valid && (slot in m ==> Wrapped(c.bytes + size) >= m[slot]))
  {
    ReplacedTotal(m, slot, size);
    if c.valid {
      WrappedSum(Total(m), size);
      if slot in m {
        WrappedDifference(Total(m) + size, m[slot]);
      }
    }
  }

  /** So they are after a delete, and stay valid unless the wrapped total is smaller than the file. */
  lemma DeleteKeepsRight(c: Count, m: Sizes, slot: u16)
    requires Right(c, m) && slot in m
    ensures var c' := Subtracted(c, m[slot]);
      Right(c', m - {slot}) && (c'.valid <==> c.valid && c.bytes >= m[slot])
  {
    RemovedTotal(m, slot);
  }

  /** The order lists each slot of the files once. */
  ghost predicate EachOnce(m: Sizes, order: seq<u16>) {
    (forall i, j | 0 <= i < j < |order| :: order[i] != order[j]) && (forall slot :: slot in m <==> slot in order)
  }

  function Along(order: seq<u16>, sizeOf: u16 -> nat): nat {
    if order == [] then 0 else Along(order[..|order| - 1], sizeOf) + sizeOf(order[|order| - 1])
  }

  lemma {:induction false} AlongIsTotal(m: Sizes, order: seq<u16>, sizeOf: u16 -> nat)
    requires EachOnce(m, order) && forall slot | slot in m :: sizeOf(slot) == m[slot]
    ensures Along(order, sizeOf) == Total(m) && |order| == |m|
  {
    if order == [] {
      assert m == map[];
    } else {
      var n := |order| - 1;
      var slot, front := order[n], order[..n];
      EachOnceLess(m, order);
      AlongIsTotal(m - {slot}, front, sizeOf);
      RemovedTotal(m, slot);
    }
  }

  lemma EachOnceLess(m: Sizes, order: seq<u16>)
    requires EachOnce(m, order) && order != []
    ensures var (slot, front) := (order[|order| - 1], order[..|order| - 1]);
      slot in m && EachOnce(m - {slot}, front)
  {
    var slot, front := order[|order| - 1], order[..|order| - 1];
    assert order == front + [slot] && slot in order && slot !in front;
  }

  lemma RemovedTotal(m: Sizes, slot: u16)
    requires slot in m
    ensures |m - {slot}| == |m| - 1 && Total(m) == m[slot] + Total(m - {slot})
    ensures Wrapped(Total(m - {slot})) == Wrapped(Wrapped(Total(m)) - m[slot])
  {
    var rest := m - {slot};
    assert |rest| == |rest.Keys| && |m| == |m.Keys| && rest.Keys == m.Keys - {slot};
    TotalWithout(m, slot);
    WrappedDifference(Total(m), m[slot]);
  }

  lemma ReplacedTotal(m: Sizes, slot: u16, size: nat)
    ensures Total(m[slot := size]) == Total(m) + size - (if slot in m then m[slot] else 0)
    ensures |m[slot := size]| == |m| + 1 - (if slot in m then 1 else 0)
  {
    TotalSet(m, slot, size);
    CountSet(m, slot, size);
    if slot in m {
      TotalWithout(m, slot);
    } else {
      assert m - {slot} == m;
    }
  }

  lemma CountSet(m: Sizes, slot: u16, size: nat)
    ensures |m[slot := size]| == |m| + 1 - (if slot in m then 1 else 0)
  {
    var m' := m[slot := size];
    assert |m'| == |m'.Keys| && |m| == |m.Keys|;
    assert m'.Keys == m.Keys + {slot};
  }
}
