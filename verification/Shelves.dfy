/** What a volume with open writers is to its callers: a map from names to bytes, and what each writer has written
    (the interface in src/fastffs.c). */
module Shelves {
  import opened Nor
  import opened SectorMd
  import opened Files
  import opened Mounted
  import opened Content
  import opened Naming
  import NameIndex
  import Reader

  // ---------------------------------------------------------------- jobs and answers

  type Directory = map<Bytes, Bytes>

  /** What an open writer has written so far, and for which name. */
  datatype Page = Page(name: Bytes, bytes: Bytes)

  /** The stored files and the open writers. */
  datatype Shelf = Shelf(files: Directory, open: map<nat, Page>)

  datatype Job = Open(id: nat, name: Bytes) | Write(id: nat, data: Bytes) | Close(id: nat) | Remove(name: Bytes)
               | Read(name: Bytes, calls: seq<Reader.Call>) | Collect

  /** `Full` is for lack of room, `Absent` for a name or a handle that is not there. */
  datatype Reply = Done | Full | Absent | Took(n: nat) | Data(answers: seq<Reader.Answer>)

  /** What a job makes of the shelf, given how it was answered: a close stores the bytes that its writer has written
      under its name. */
  function NextShelf(s: Shelf, job: Job, reply: Reply): Shelf {
    match job
    case Open(id, name) => if reply.Done? then s.(open := s.open[id := Page(name, [])]) else s
    case Write(id, data) =>
      if id in s.open && reply.Took? && reply.n <= |data| then
        s.(open := s.open[id := s.open[id].(bytes := s.open[id].bytes + data[..reply.n])])
      else s
    case Close(id) =>
      if id !in s.open then s
      else if reply.Done? then Shelf(s.files[s.open[id].name := s.open[id].bytes], s.open - {id})
      else s.(open := s.open - {id})
    case Remove(name) => if reply.Done? then s.(files := s.files - {name}) else s
    case Read(_, _) => s
    case Collect => s
  }

  /** The answers that a job may get. Only lack of room is not decided by the shelf. */
  predicate Answers(s: Shelf, job: Job, reply: Reply) {
    match job
    case Open(_, _) => reply.Done? || reply.Full?
    case Write(id, data) => if id in s.open then reply.Took? && reply.n <= |data| else reply.Absent?
    case Close(id) => if id in s.open then reply.Done? || reply.Full? else reply.Absent?
    case Remove(name) => if name in s.files then reply.Done? || reply.Full? else reply.Absent?
    case Read(name, calls) =>
      reply == if name in s.files then Data(Reader.AllAnswers(s.files[name], 0, calls)) else Absent
    case Collect => reply.Done?
  }

  // ---------------------------------------------------------------- what callers must see to

  /** The handles that callers have asked for and not closed, with their names and how much they have written. */
  type Plan = map<nat, (Bytes, nat)>

  function Planned(plan: Plan, job: Job): Plan {
    match job
    case Open(id, name) => plan[id := (name, 0)]
    case Write(id, data) => if id in plan then plan[id := (plan[id].0, plan[id].1 + |data|)] else plan
    case Close(id) => plan - {id}
    case Remove(_) => plan
    case Read(_, _) => plan
    case Collect => plan
  }

  /** No handle and no name is opened twice at a time, names have a length that fits, and files are smaller than
      4 GiB. */
  predicate Sensible(plan: Plan, job: Job) {
    match job
    case Open(id, name) =>
      id !in plan && 1 <= |name| <= MAX_NAME && forall a | a in plan :: plan[a].0 != name
    case Write(id, data) => id in plan ==> plan[id].1 + |data| < 0x1_0000_0000
    case Close(_) => true
    case Remove(_) => true
    case Read(_, _) => true
    case Collect => true
  }

  function PlanAfter(plan: Plan, jobs: seq<Job>): Plan {
    if jobs == [] then plan else Planned(PlanAfter(plan, jobs[..|jobs| - 1]), jobs[|jobs| - 1])
  }

  predicate AllSensible(plan: Plan, jobs: seq<Job>) {
    forall i | 0 <= i < |jobs| :: Sensible(PlanAfter(plan, jobs[..i]), jobs[i])
  }

  /** The plan knows all open writers. */
  predicate Covers(plan: Plan, s: Shelf) {
    forall a | a in s.open :: a in plan && plan[a].0 == s.open[a].name && |s.open[a].bytes| <= plan[a].1
  }

  lemma StillCovers(plan: Plan, s: Shelf, job: Job, reply: Reply)
    requires Covers(plan, s) && Sensible(plan, job)
    ensures Covers(Planned(plan, job), NextShelf(s, job, reply))
  {
  }

  lemma PlanMore(plan: Plan, jobs: seq<Job>, n: nat)
    requires n < |jobs|
    ensures PlanAfter(plan, jobs[..n + 1]) == Planned(PlanAfter(plan, jobs[..n]), jobs[n])
  {
    assert jobs[..n + 1][..n] == jobs[..n];
  }

  // ---------------------------------------------------------------- the map of names

  /** The file has a name of the map, and the bytes that the map has for it. */
  ghost predicate Listed(f: File, m: Directory) {
    Rooted(f) && NameOf(f.pieces[0]) in m && m[NameOf(f.pieces[0])] == Contents(f)
  }

  /** The files are those of the map: each under its name, with its bytes. */
  ghost predicate Means(files: map<u16, File>, m: Directory) {
    && (forall s {:trigger Listed(files[s], m)} | s in files :: Listed(files[s], m))
    && (forall name {:trigger HasFile(files, name)} | name in m :: HasFile(files, name))
  }

  ghost predicate HasFile(files: map<u16, File>, name: Bytes) { exists s :: s in files && NamedAs(files[s], name) }

  lemma OneSlot(hash: NameIndex.Hash, files: map<u16, File>, s: u16, t: u16, name: Bytes)
    requires NamesKept(hash, files) && s in files && t in files && NamedAs(files[t], name)
    ensures NamedAs(files[s], name) ==> s == t
  {
    if NamedAs(files[s], name) {
      assert FileName(files[s]) == FileName(files[t]);
    }
  }

  /** One name more, or one with other bytes. */
  lemma MeansPut(hash: NameIndex.Hash, files: map<u16, File>, m: Directory, slot: u16, f: File, name: Bytes,
                 data: Bytes)
    requires Means(files, m) && NamesKept(hash, files[slot := f]) && (slot in files ==> NamedAs(files[slot], name))
    requires NamedAs(f, name) && Contents(f) == data
    ensures Means(files[slot := f], m[name := data])
  {
    var files', m' := files[slot := f], m[name := data];
    forall s | s in files'
      ensures Listed(files'[s], m')
    {
      OneSlot(hash, files', s, slot, name);
      if s != slot {
        assert Listed(files[s], m);
      }
    }
    forall n | n in m'
      ensures HasFile(files', n)
    {
      if n == name {
        assert NamedAs(files'[slot], n);
      } else {
        assert HasFile(files, n);
        var s :| s in files && NamedAs(files[s], n);
        assert s != slot && NamedAs(files'[s], n);
      }
    }
  }

  lemma MeansRemove(hash: NameIndex.Hash, files: map<u16, File>, m: Directory, slot: u16, name: Bytes)
    requires Means(files, m) && NamesKept(hash, files) && slot in files && NamedAs(files[slot], name)
    ensures Means(files - {slot}, m - {name})
  {
    var files', m' := files - {slot}, m - {name};
    forall s | s in files'
      ensures Listed(files'[s], m')
    {
      OneSlot(hash, files, s, slot, name);
      assert Listed(files[s], m);
    }
    forall n | n in m'
      ensures HasFile(files', n)
    {
      assert HasFile(files, n);
      var s :| s in files && NamedAs(files[s], n);
      assert s != slot && NamedAs(files'[s], n);
    }
  }

  lemma NamesLess(hash: NameIndex.Hash, files: map<u16, File>, slot: u16)
    requires NamesKept(hash, files)
    ensures NamesKept(hash, files - {slot})
  {
    var files' := files - {slot};
    forall s {:trigger Rooted(files'[s])} | s in files'
      ensures Rooted(files'[s])
    {
      assert Rooted(files[s]);
    }
  }

  /** A name that is resolved on the volume is found exactly if the map has it, with its bytes. */
  lemma MeansFound(hash: NameIndex.Hash, v: Volume, w: World, pinned: set<u16>, m: Directory, name: Bytes,
                   r: NameIndex.Resolved)
    requires Sound(v, w) && NamesKept(hash, w.files) && Means(w.files, m)
    requires LeadsTo(hash, v, w.disk, w.index, pinned, Text(name), r)
    ensures r.Found? <==> name in m
    ensures r.Found? ==> r.slot in w.index && r.slot in w.files && NamedAs(w.files[r.slot], name)
    ensures r.Found? ==> Contents(w.files[r.slot]) == m[name]
  {
    Findable(hash, v, w, pinned, Text(name), r);
    if r.Found? {
      NameStored(v, w, r.slot);
      TextInjective(NameOf(w.files[r.slot].pieces[0]), name);
      assert Listed(w.files[r.slot], m);
    }
    if name in m {
      assert HasFile(w.files, name);
      var s :| s in w.files && NamedAs(w.files[s], name);
      assert FileName(w.files[s]) == Text(name);
    }
  }

  /** A file of the volume under this name is the map's. */
  lemma NamedIsListed(files: map<u16, File>, m: Directory, slot: u16, name: Bytes)
    requires Means(files, m) && slot in files && NamedAs(files[slot], name)
    ensures name in m && m[name] == Contents(files[slot])
  {
    assert Listed(files[slot], m);
  }
}
