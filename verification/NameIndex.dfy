/** From names to slots: bounded probing over a window of candidate slots
    (src/fffs_index_log.c, src/fffs_hashtable_index.c, src/fffs_ram_index.c,
    src/fffs_nocache_index.c). The 16-bit name hash is an arbitrary function. */
module NameIndex {
  import opened Nor
  import opened IndexLog

  const MAX_PROBE: nat := 50
  const LAST_SLOT: u16 := 0xfffe

  function NormalizeBase(hash: u16): (s: u16)
    ensures 1 <= s <= LAST_SLOT
  {
    if hash == 0 then 1 else if hash == 0xffff then 0x7fff else hash
  }

  function NextSlot(slot: u16): (s: u16)
    ensures 1 <= s <= LAST_SLOT
  {
    if slot >= LAST_SLOT then 1 else slot + 1
  }

  /** The d-th candidate slot after `base`. */
  function Candidate(base: u16, d: nat): (s: u16) {
    if d == 0 then base else NextSlot(Candidate(base, d - 1))
  }

  /** The candidates of one name are 51 distinct proper slots. */
  lemma {:induction false} CandidateIs(base: u16, d: nat)
    requires 1 <= base <= LAST_SLOT && d < LAST_SLOT
    ensures Candidate(base, d) == if base + d <= LAST_SLOT then base + d else base + d - LAST_SLOT
  {
    if d > 0 {
      CandidateIs(base, d - 1);
    }
  }

  lemma CandidatesDistinct(base: u16, d: nat, e: nat)
    requires 1 <= base <= LAST_SLOT && d <= MAX_PROBE && e <= MAX_PROBE
    ensures 1 <= Candidate(base, d) <= LAST_SLOT
    ensures Candidate(base, d) == Candidate(base, e) <==> d == e
  {
    CandidateIs(base, d);
    CandidateIs(base, e);
  }

  datatype Resolved = Found(slot: u16, head: u16) | Free(slot: u16) | NoSpace

  /** The name found in the root metadata of (head, slot). */
  type Names = (u16, u16) -> string

  /** The d-th candidate stores `name`. */
  predicate StoredAt(m: Namespace, names: Names, base: u16, name: string, d: nat) {
    var c := Candidate(base, d);
    c in m && names(m[c], c) == name
  }

  /** The d-th candidate cannot be given to a new file: occupied, or pinned by an open handle. */
  predicate Taken(m: Namespace, pinned: set<u16>, base: u16, d: nat) {
    Candidate(base, d) in m || Candidate(base, d) in pinned
  }

  /** What resolving a name must report. */
  ghost predicate Resolves(m: Namespace, names: Names, pinned: set<u16>, base: u16, name: string, r: Resolved) {
    match r
    case Found(slot, head) =>
      exists d: nat ::
        d <= MAX_PROBE && slot == Candidate(base, d) && StoredAt(m, names, base, name, d) && m[slot] == head
    case Free(slot) =>
      && (forall d: nat | d <= MAX_PROBE :: !StoredAt(m, names, base, name, d))
      && exists d: nat :: d <= MAX_PROBE && slot == Candidate(base, d) && !Taken(m, pinned, base, d) &&
           forall e: nat | e < d :: Taken(m, pinned, base, e)
    case NoSpace =>
      forall d: nat | d <= MAX_PROBE :: !StoredAt(m, names, base, name, d) && Taken(m, pinned, base, d)
  }

  /** At most one candidate stores the name. */
  ghost predicate StoredOnce(m: Namespace, names: Names, base: u16, name: string) {
    forall d: nat, e: nat | && d <= MAX_PROBE && StoredAt(m, names, base, name, d)
                            && e <= MAX_PROBE && StoredAt(m, names, base, name, e) ::
      d == e
  }

  /** For a uniquely stored name the answer is determined, so all back ends that meet `Resolves`
      give the same one. */
  lemma BackEndsAgree(m: Namespace, names: Names, pinned: set<u16>, base: u16, name: string, r: Resolved, r': Resolved)
    requires StoredOnce(m, names, base, name)
    requires Resolves(m, names, pinned, base, name, r) && Resolves(m, names, pinned, base, name, r')
    ensures r == r'
  {
    if r.Free? && r'.Free? {
      var d: nat :| d <= MAX_PROBE && r.slot == Candidate(base, d) && !Taken(m, pinned, base, d) &&
        forall e: nat | e < d :: Taken(m, pinned, base, e);
      var d': nat :| d' <= MAX_PROBE && r'.slot == Candidate(base, d') && !Taken(m, pinned, base, d') &&
        forall e: nat | e < d' :: Taken(m, pinned, base, e);
      assert d == d';
    }
  }

  /** fffs_index_resolve over a RAM index: probe the candidates in order. */
  method ResolveByProbe(m: Namespace, names: Names, pinned: set<u16>, hash: u16, name: string) returns (r: Resolved)
    ensures Resolves(m, names, pinned, NormalizeBase(hash), name, r)
  {
    var base := NormalizeBase(hash);
    var candidate := base;
    var firstFree: u16, haveFree := 0, false;
    ghost var freeAt: nat := 0;
    var d: nat := 0;
    while d <= MAX_PROBE
      invariant d <= MAX_PROBE + 1 && candidate == Candidate(base, d)
      invariant forall e: nat | e < d :: !StoredAt(m, names, base, name, e)
      invariant haveFree ==> freeAt < d && firstFree == Candidate(base, freeAt) && !Taken(m, pinned, base, freeAt) &&
                             forall e: nat | e < freeAt :: Taken(m, pinned, base, e)
      invariant !haveFree ==> forall e: nat | e < d :: Taken(m, pinned, base, e)
    {
      if candidate !in m {
        if !haveFree && candidate !in pinned {
          firstFree, haveFree, freeAt := candidate, true, d;
        }
      } else if names(m[candidate], candidate) == name {
        assert StoredAt(m, names, base, name, d);
        return Found(candidate, m[candidate]);
      }
      candidate := NextSlot(candidate);
      d := d + 1;
    }
    return if haveFree then Free(firstFree) else NoSpace;
  }

  /** candidate_offset: which candidate a slot is. */
  method CandidateOffset(base: u16, slot: u16) returns (found: bool, d: nat)
    ensures found ==> d <= MAX_PROBE && Candidate(base, d) == slot
    ensures !found ==> forall e: nat | e <= MAX_PROBE :: Candidate(base, e) != slot
  {
    var candidate := base;
    d := 0;
    while d <= MAX_PROBE
      invariant d <= MAX_PROBE + 1 && candidate == Candidate(base, d)
      invariant forall e: nat | e < d :: Candidate(base, e) != slot
    {
      if candidate == slot {
        return true, d;
      }
      candidate := NextSlot(candidate);
      d := d + 1;
    }
    return false, d;
  }

  /** The scan has decided candidate d from the records at `off` and later. */
  ghost predicate Decided(log: seq<Record>, off: nat, m: Namespace, base: u16, occupied: set<nat>, deleted: set<nat>) {
    && off <= |log|
    && (forall d: nat | d <= MAX_PROBE :: d in occupied || d in deleted <==> Mentioned(log[off..], Candidate(base, d)))
    && (forall d: nat | d in occupied :: d <= MAX_PROBE && Candidate(base, d) in m)
    && (forall d: nat | d in deleted :: d <= MAX_PROBE && Candidate(base, d) !in m)
  }

  /** fffs_index_resolve by scanning the log backwards, with one bit per candidate for
      "occupied" and "deleted". */
  method ResolveByScan(log: seq<Record>, names: Names, pinned: set<u16>, hash: u16, name: string) returns (r: Resolved)
    ensures Resolves(Fold(map[], log), names, pinned, NormalizeBase(hash), name, r)
  {
    ghost var m := Fold(map[], log);
    var base := NormalizeBase(hash);
    var occupied: set<nat>, deleted: set<nat> := {}, {};
    var off := |log|;
    assert log[off..] == [];
    while off > 0
      invariant Decided(log, off, m, base, occupied, deleted)
      invariant forall d: nat | d in occupied :: !StoredAt(m, names, base, name, d)
    {
      off := off - 1;
      var rec := log[off];
      MentionedFront(log, off);
      if rec == CLOBBERED {
        continue;
      }
      var found, d := CandidateOffset(base, rec.slot);
      if !found || d in occupied || d in deleted {
        OthersUnmentioned(log, off, base, rec.slot, occupied, deleted);
        continue;
      }
      NewestDecides(log, off, rec.slot);
      OtherCandidates(base, d);
      if rec.head == 0 {
        deleted := deleted + {d};
        continue;
      }
      occupied := occupied + {d};
      if names(rec.head, rec.slot) == name {
        assert StoredAt(m, names, base, name, d);
        return Found(rec.slot, rec.head);
      }
    }
    assert log[0..] == log;
    AllDecided(log, m, base, occupied, deleted);
    r := ReachedSlot(m, pinned, base, occupied);
  }

  lemma MentionedFront(log: seq<Record>, off: nat)
    requires off < |log|
    ensures forall s: u16 :: Mentioned(log[off..], s) <==> Mentions(log[off], s) || Mentioned(log[off + 1..], s)
  {
    forall s: u16
      ensures Mentioned(log[off..], s) <==> Mentions(log[off], s) || Mentioned(log[off + 1..], s)
    {
      MentionedTail(log[off..], s);
      assert log[off..][1..] == log[off + 1..];
    }
  }

  lemma OthersUnmentioned(log: seq<Record>, off: nat, base: u16, slot: u16, occupied: set<nat>, deleted: set<nat>)
    requires off < |log| && log[off].slot == slot && 1 <= base <= LAST_SLOT
    requires forall d: nat | d <= MAX_PROBE && Candidate(base, d) == slot :: d in occupied || d in deleted
    ensures forall d: nat | d <= MAX_PROBE && Mentions(log[off], Candidate(base, d)) :: d in occupied || d in deleted
  {
  }

  lemma OtherCandidates(base: u16, d: nat)
    requires 1 <= base <= LAST_SLOT && d <= MAX_PROBE
    ensures forall e: nat | e <= MAX_PROBE && Candidate(base, e) == Candidate(base, d) :: e == d
  {
    forall e: nat | e <= MAX_PROBE && Candidate(base, e) == Candidate(base, d)
      ensures e == d
    {
      CandidatesDistinct(base, d, e);
    }
  }

  /** A record whose slot is not mentioned later decides the slot. */
  lemma NewestDecides(log: seq<Record>, off: nat, slot: u16)
    requires off < |log| && log[off] != CLOBBERED && log[off].slot == slot && !Mentioned(log[off + 1..], slot)
    ensures HeadOf(Fold(map[], log), slot) == log[off].head
    ensures slot in Fold(map[], log) <==> log[off].head != 0
  {
    FoldAt(map[], log, slot);
    FoldKeepsNoZero(map[], log);
    forall j | off < j < |log|
      ensures !Mentions(log[j], slot)
    {
      assert log[off + 1..][j - off - 1] == log[j];
    }
    assert LastAt(log, slot, off);
  }

  /** After the whole log, a candidate is stored exactly if its bit says occupied. */
  lemma AllDecided(log: seq<Record>, m: Namespace, base: u16, occupied: set<nat>, deleted: set<nat>)
    requires m == Fold(map[], log) && Decided(log, 0, m, base, occupied, deleted)
    ensures forall d: nat | d <= MAX_PROBE :: d in occupied <==> Candidate(base, d) in m
  {
    assert log[0..] == log;
    forall d: nat | d <= MAX_PROBE
      ensures d in occupied <==> Candidate(base, d) in m
    {
      FoldAt(map[], log, Candidate(base, d));
      FoldKeepsNoZero(map[], log);
    }
  }

  /** resolve_reached_slot: the first candidate that is neither occupied nor pinned. */
  method ReachedSlot(ghost m: Namespace, pinned: set<u16>, base: u16, occupied: set<nat>) returns (r: Resolved)
    requires forall d: nat | d <= MAX_PROBE :: d in occupied <==> Candidate(base, d) in m
    ensures !r.Found?
    ensures r.Free? ==> exists d: nat :: d <= MAX_PROBE && r.slot == Candidate(base, d) && !Taken(m, pinned, base, d) &&
                          forall e: nat | e < d :: Taken(m, pinned, base, e)
    ensures r.NoSpace? ==> forall d: nat | d <= MAX_PROBE :: Taken(m, pinned, base, d)
  {
    var d: nat := 0;
    while d <= MAX_PROBE
      invariant d <= MAX_PROBE + 1
      invariant forall e: nat | e < d :: Taken(m, pinned, base, e)
    {
      var candidate := Candidate(base, d);
      if d !in occupied && candidate !in pinned {
        assert !Taken(m, pinned, base, d);
        return Free(candidate);
      }
      d := d + 1;
    }
    return NoSpace;
  }

  // ---------------------------------------------------------------- names over time

  datatype Writer = Writer(slot: u16, name: string)

  /** The stored files (slot to head, slot to name), the open writers, and the slots that other
      open handles pin. */
  datatype Files = Files(m: Namespace, name: map<u16, string>, writers: seq<Writer>, readers: set<u16>)

  type Hash = string -> u16

  function RootNames(f: Files): Names {
    (head: u16, slot: u16) => if slot in f.name then f.name[slot] else ""
  }

  function Pinned(f: Files): set<u16> {
    f.readers + set i | 0 <= i < |f.writers| :: f.writers[i].slot
  }

  ghost predicate InWindow(hash: Hash, name: string, slot: u16) {
    exists d: nat :: d <= MAX_PROBE && slot == Candidate(NormalizeBase(hash(name)), d)
  }

  datatype Action =
    | Open(writer: string, answer: Resolved)
    | Commit(index: nat, head: u16)
    | Abandon(index: nat)
    | Delete(file: string, at: Resolved)
    | Move(slot: u16, to: u16)
    | Pin(slots: set<u16>)

  function Without<T>(s: seq<T>, i: nat): seq<T>
    requires i < |s|
  {
    s[..i] + s[i + 1..]
  }

  /** Opening for writing resolves the name (at most one open writer per name), committing stores
      it at the resolved slot, deleting resolves it and removes the slot, compaction moves a
      head, and handles come and go. */
  ghost predicate Act(hash: Hash, f: Files, a: Action, f': Files) {
    match a
    case Open(name, r) =>
      && (forall i | 0 <= i < |f.writers| :: f.writers[i].name != name)
      && Resolves(f.m, RootNames(f), Pinned(f), NormalizeBase(hash(name)), name, r) && !r.NoSpace?
      && f' == f.(writers := f.writers + [Writer(r.slot, name)])
    case Commit(i, head) =>
      && i < |f.writers|
      && f' == f.(m := f.m[f.writers[i].slot := head], name := f.name[f.writers[i].slot := f.writers[i].name],
                  writers := Without(f.writers, i))
    case Abandon(i) => i < |f.writers| && f' == f.(writers := Without(f.writers, i))
    case Delete(name, r) =>
      && Resolves(f.m, RootNames(f), Pinned(f), NormalizeBase(hash(name)), name, r) && r.Found?
      && f' == f.(m := f.m - {r.slot}, name := f.name - {r.slot})
    case Move(slot, to) => slot in f.m && f' == f.(m := f.m[slot := to])
    case Pin(slots) => f' == f.(readers := slots)
  }

  /** Every stored name lies in its window and is stored once; open writers have distinct names and
      slots, and a writer's slot is the only place where its name is or will be stored. */
  ghost predicate NamesInv(hash: Hash, f: Files) {
    && f.m.Keys == f.name.Keys
    && (forall s | s in f.name :: InWindow(hash, f.name[s], s))
    && (forall s, t | s in f.name && t in f.name && f.name[s] == f.name[t] :: s == t)
    && WritersInv(hash, f)
  }

  ghost predicate WritersInv(hash: Hash, f: Files) {
    && (forall i | 0 <= i < |f.writers| :: InWindow(hash, f.writers[i].name, f.writers[i].slot))
    && (forall i, j | 0 <= i < j < |f.writers| ::
          f.writers[i].name != f.writers[j].name && f.writers[i].slot != f.writers[j].slot)
    && (forall i, s | 0 <= i < |f.writers| && s in f.name ::
          s == f.writers[i].slot <==> f.name[s] == f.writers[i].name)
  }

  /** A stored name is found at its slot; a name that is not stored is not found. */
  lemma Findable(hash: Hash, f: Files, name: string, r: Resolved)
    requires NamesInv(hash, f)
    requires Resolves(f.m, RootNames(f), Pinned(f), NormalizeBase(hash(name)), name, r)
    ensures forall s | s in f.name && f.name[s] == name :: r == Found(s, f.m[s])
    ensures r.Found? ==> r.slot in f.name && f.name[r.slot] == name
  {
    var base := NormalizeBase(hash(name));
    forall s | s in f.name && f.name[s] == name
      ensures r == Found(s, f.m[s])
    {
      var d: nat :| d <= MAX_PROBE && s == Candidate(base, d);
      assert StoredAt(f.m, RootNames(f), base, name, d);
    }
  }

  lemma OpenKeeps(hash: Hash, f: Files, name: string, r: Resolved, f': Files)
    requires NamesInv(hash, f) && Act(hash, f, Open(name, r), f')
    ensures NamesInv(hash, f')
  {
    Findable(hash, f, name, r);
    var base := NormalizeBase(hash(name));
    if r.Free? {
      var d: nat :| d <= MAX_PROBE && r.slot == Candidate(base, d) && !Taken(f.m, Pinned(f), base, d);
    }
    forall i | 0 <= i < |f.writers|
      ensures f.writers[i].slot != r.slot
    {
      assert f.writers[i].slot in Pinned(f);
    }
  }

  lemma CommitKeeps(hash: Hash, f: Files, i: nat, head: u16, f': Files)
    requires NamesInv(hash, f) && Act(hash, f, Commit(i, head), f')
    ensures NamesInv(hash, f')
  {
    var w := f.writers[i];
    assert forall j | 0 <= j < |f'.writers| :: f'.writers[j] == f.writers[if j < i then j else j + 1];
  }

  lemma AbandonKeeps(hash: Hash, f: Files, i: nat, f': Files)
    requires NamesInv(hash, f) && Act(hash, f, Abandon(i), f')
    ensures NamesInv(hash, f')
  {
    assert forall j | 0 <= j < |f'.writers| :: f'.writers[j] == f.writers[if j < i then j else j + 1];
  }

  lemma ActKeeps(hash: Hash, f: Files, a: Action, f': Files)
    requires NamesInv(hash, f) && Act(hash, f, a, f')
    ensures NamesInv(hash, f')
  {
    match a
    case Open(name, r) => OpenKeeps(hash, f, name, r, f');
    case Commit(i, head) => CommitKeeps(hash, f, i, head, f');
    case Abandon(i) => AbandonKeeps(hash, f, i, f');
    case _ =>
  }

  /** Through any interleaving of opens, commits, deletes, compactions and handles, every stored
      name stays findable among its 51 candidates, at the slot where it was committed. */
  lemma {:induction false} NamesStayFindable(hash: Hash, states: seq<Files>, actions: seq<Action>, name: string,
                                             r: Resolved)
    requires |states| == |actions| + 1 && NamesInv(hash, states[0])
    requires forall i | 0 <= i < |actions| :: Act(hash, states[i], actions[i], states[i + 1])
    requires var f := states[|actions|];
      Resolves(f.m, RootNames(f), Pinned(f), NormalizeBase(hash(name)), name, r)
    ensures var f := states[|actions|];
      && NamesInv(hash, f)
      && (forall s | s in f.name && f.name[s] == name :: r == Found(s, f.m[s]))
      && (r.Found? ==> r.slot in f.name && f.name[r.slot] == name)
  {
    NamesInvAlways(hash, states, actions);
    Findable(hash, states[|actions|], name, r);
  }

  lemma {:induction false} NamesInvAlways(hash: Hash, states: seq<Files>, actions: seq<Action>)
    requires |states| == |actions| + 1 && NamesInv(hash, states[0])
    requires forall i | 0 <= i < |actions| :: Act(hash, states[i], actions[i], states[i + 1])
    ensures NamesInv(hash, states[|actions|])
    decreases |actions|
  {
    if actions != [] {
      var n := |actions| - 1;
      NamesInvAlways(hash, states[..n + 1], actions[..n]);
      ActKeeps(hash, states[n], actions[n], states[n + 1]);
    }
  }
}
