/** Whole runs on a mounted volume: files are opened, written, closed, removed and read by name, in any order and with
    any number of writers at a time, while the collector works. The volume is its shelf. */
module Runs {
  import opened Nor
  import opened SectorMd
  import opened SectorView
  import opened Files
  import opened Mounted
  import opened Content
  import opened Writer
  import opened Notes
  import opened Sharing
  import opened Naming
  import opened Remount
  import opened Shelves
  import Alloc
  import Bystanders
  import Closing
  import Compact
  import Counters
  import Deleting
  import Drafts
  import Gc
  import GcPass
  import IndexLog
  import IndexRing
  import Journal
  import NameIndex
  import OldChain
  import Opening
  import Reader
  import Recovery
  import Storing
  import Streaming
  import Witness

  // ---------------------------------------------------------------- a volume that stands for a shelf

  /** Everything that a run depends on, at one moment: the volume with its open files, what their writers have written,
      the journal, the power cuts so far, the counters, and the shelf that the volume stands for. */
  datatype Moment = Moment(e: Env, ds: map<nat, Draft>, journal: Journal.State, cuts: iset<Image>,
                           counts: Counters.Count, shelf: Shelf)

  ghost function MomentOf(fs: Volatile, shelf: Shelf): Moment
    reads fs
  {
    Moment(EnvOf(fs), fs.drafts, fs.journal, fs.cuts, fs.committed, shelf)
  }

  /** Writer a has written what the shelf says, and its note is one that a close can deal with. */
  ghost predicate AtDesk(v: Volume, m: Moment, a: nat) {
    && a in m.shelf.open && WritableIn(v, m.e, m.ds, a) && NoteGood(v, m.e, a)
    && m.ds[a].name == m.shelf.open[a].name && m.ds[a].written == m.shelf.open[a].bytes
  }

  /** The slot is one where a file of this name can be stored. */
  ghost predicate Placed(hash: NameIndex.Hash, files: map<u16, File>, slot: u16, name: Bytes) {
    && InWindow(hash, Text(name), slot) && (slot in files ==> NamedAs(files[slot], name))
    && forall s {:trigger NamedAs(files[s], name)} | s in files && NamedAs(files[s], name) :: s == slot
  }

  /** Two writers have different slots and names. */
  ghost predicate Distinguished(m: Moment, a: nat, b: nat) {
    a in m.e.w.open && b in m.e.w.open && a in m.shelf.open && b in m.shelf.open && a != b ==>
      m.e.w.open[a].slot != m.e.w.open[b].slot && m.shelf.open[a].name != m.shelf.open[b].name
  }

  datatype Facet = TheVolume | TheNames | TheHandles | TheDesks | ThePlaces | TheBegun

  /** One facet of a volume that stands for a shelf. Callers name the facets they need. */
  ghost predicate StandsIn(hash: NameIndex.Hash, v: Volume, m: Moment, facet: Facet) {
    var w := m.e.w;
    match facet
    case TheVolume => Ready(v, m.e) && VolumeOk(v) && GcPass.DataSectors(v) >= 2
    case TheNames => NamesKept(hash, w.files) && Means(w.files, m.shelf.files)
    case TheHandles =>
      && w.open.Keys == m.shelf.open.Keys && w.pend.Keys == m.shelf.open.Keys && m.e.ranges.Keys == m.shelf.open.Keys
      && m.ds.Keys == m.shelf.open.Keys
    case TheDesks => forall a {:trigger AtDesk(v, m, a)} | a in m.shelf.open :: AtDesk(v, m, a)
    case ThePlaces =>
      && (forall a {:trigger Placed(hash, w.files, w.open[a].slot, m.shelf.open[a].name)}
            | a in m.shelf.open && a in w.open :: Placed(hash, w.files, w.open[a].slot, m.shelf.open[a].name))
      && (forall a, b {:trigger Distinguished(m, a, b)} :: Distinguished(m, a, b))
    case TheBegun => forall t: u16 {:trigger NoBegun(w.disk, t)} | Opening.NoWriter(w.open, t) :: NoBegun(w.disk, t)
  }

  /** The volume is in order, its files are those of the shelf, and each of the shelf's writers is at work on the
      volume, in sectors, with a slot and under a name of its own. */
  ghost predicate Stands(hash: NameIndex.Hash, v: Volume, m: Moment) {
    forall facet {:trigger StandsIn(hash, v, m, facet)} :: StandsIn(hash, v, m, facet)
  }

  ghost predicate InOrder(fs: Volatile, hash: NameIndex.Hash, shelf: Shelf)
    reads fs
  {
    Stands(hash, fs.v, MomentOf(fs, shelf)) && fs.Backed()
  }

  // ---------------------------------------------------------------- what may go wrong

  /** The journal takes such a record, or is full. */
  predicate Takes(g: IndexRing.Geometry, s: Journal.State, slot: u16, head: nat) {
    head < 0x1_0000 && Journal.Typed(g, s) && Journal.Append(g, s, slot, head).1
  }

  /** The close would destroy the file that it commits. */
  ghost predicate Loses(g: IndexRing.Geometry, m: Moment, job: Job) {
    && job.Close? && job.id in m.e.w.open && job.id in m.e.w.pend
    && var h := m.e.w.open[job.id];
    Harmful(h, PathOf(m.e.w, job.id)) && Takes(g, m.journal, h.slot, h.head)
  }

  /** The job leaves a volume that is not in order: a close that loses its file; one of a new file that the full journal
      does not take, so that its root is a stray; and a removal of a file whose slot has a second live root. */
  ghost predicate Halts(v: Volume, g: IndexRing.Geometry, m: Moment, job: Job) {
    || Loses(g, m, job)
    || (&& job.Close? && job.id in m.e.w.open
        && var h := m.e.w.open[job.id]; h.slot !in m.e.w.index && !Takes(g, m.journal, h.slot, h.head))
    || (&& job.Remove?
        && exists slot {:trigger NamedAs(m.e.w.files[slot], job.name)} | slot in m.e.w.files ::
             NamedAs(m.e.w.files[slot], job.name) && RootsLeft(v, g, m, slot))
  }

  ghost predicate RootsLeft(v: Volume, g: IndexRing.Geometry, m: Moment, slot: u16) {
    Takes(g, m.journal, slot, 0) && !Deleting.LoneRoot(v, m.e.w, slot)
  }

  /** No slot of the name's window is free. */
  ghost predicate NoSlot(hash: NameIndex.Hash, v: Volume, w: World, name: Bytes) {
    LeadsTo(hash, v, w.disk, w.index, PinnedSlots(w.open), Text(name), NameIndex.NoSpace)
  }

  /** The allocator has nothing left. */
  ghost predicate Exhausted(v: Volume, w: World) { exists status :: Alloc.NoRoom(v, w, status) }

  /** Why the answer is what it is, where the shelf does not decide it: there was really no room. */
  ghost predicate Excused(hash: NameIndex.Hash, v: Volume, g: IndexRing.Geometry, m: Moment, job: Job, reply: Reply,
                          m': Moment) {
    match job
    case Open(_, name) => reply.Full? ==> NoSlot(hash, v, m.e.w, name) || Exhausted(v, m'.e.w)
    case Write(_, data) => reply.Took? && reply.n < |data| ==> Exhausted(v, m'.e.w)
    case Close(id) =>
      id in m.e.w.open ==> (reply.Done? <==> Takes(g, m.journal, m.e.w.open[id].slot, m.e.w.open[id].head))
    case Remove(name) =>
      forall slot {:trigger NamedAs(m.e.w.files[slot], name)}
        | slot in m.e.w.files && NamedAs(m.e.w.files[slot], name) ::
        reply.Done? <==> Takes(g, m.journal, slot, 0)
    case Read(_, _) => true
    case Collect => true
  }

  /** What a job does. The shelf goes on as the answer says, the files are those of the shelf, and if the answer is for
      lack of room there was none. The volume is in order again unless the job was one of those that halt. Unless it has
      lost a file, a power cut on the way finds the files from before or after, and valid counters are right. */
  ghost predicate Stepped(hash: NameIndex.Hash, v: Volume, g: IndexRing.Geometry, m: Moment, job: Job, reply: Reply,
                          m': Moment) {
    && Answers(m.shelf, job, reply) && m'.shelf == NextShelf(m.shelf, job, reply)
    && NamesKept(hash, m'.e.w.files) && Means(m'.e.w.files, m'.shelf.files)
    && Excused(hash, v, g, m, job, reply, m')
    && (Stands(hash, v, m') <==> !Halts(v, g, m, job))
    && (!Loses(g, m, job) ==>
          && CutsEither(v, m.cuts, m'.cuts, m.e.w.files, m'.e.w.files)
          && (CountsFiles(m.counts, m.e.w.files) ==> CountsFiles(m'.counts, m'.e.w.files)))
  }

  // ---------------------------------------------------------------- standing for the next shelf

  /** Of the writers in `but` and of the other facets this is known; the others have stayed where they were. */
  lemma StandsAgain(hash: NameIndex.Hash, v: Volume, m: Moment, m': Moment, but: set<nat>)
    requires Stands(hash, v, m) && Ready(v, m'.e) && OthersStay(v, m.e, m.ds, m'.e, m'.ds, but)
    requires StandsIn(hash, v, m', TheNames) && StandsIn(hash, v, m', TheHandles) && StandsIn(hash, v, m', ThePlaces)
    requires StandsIn(hash, v, m', TheBegun)
    requires forall a | a in m'.shelf.open && a !in but :: a in m.shelf.open && m'.shelf.open[a] == m.shelf.open[a]
    requires forall a | a in m'.shelf.open && a in but :: AtDesk(v, m', a)
    ensures Stands(hash, v, m')
  {
    assert StandsIn(hash, v, m, TheVolume) && StandsIn(hash, v, m, TheDesks);
    forall a | a in m'.shelf.open
      ensures AtDesk(v, m', a)
    {
      if a !in but {
        assert AtDesk(v, m, a) && Stays(v, m.e, m.ds, m'.e, m'.ds, a);
      }
    }
    forall facet
      ensures StandsIn(hash, v, m', facet)
    {
      match facet
      case TheVolume =>
      case TheNames =>
      case TheHandles =>
      case TheDesks =>
      case ThePlaces =>
      case TheBegun =>
    }
  }

  /** The places of writers are their places still, while files and handles stay as they are, or some handles go. */
  lemma PlacesSame(hash: NameIndex.Hash, v: Volume, m: Moment, m': Moment)
    requires Stands(hash, v, m) && m'.e.w.files == m.e.w.files && m'.e.w.open.Keys == m'.shelf.open.Keys
    requires m'.shelf.open.Keys <= m.shelf.open.Keys
    requires forall a | a in m'.shelf.open && a in m.e.w.open ::
               && m'.e.w.open[a].slot == m.e.w.open[a].slot && m'.shelf.open[a].name == m.shelf.open[a].name
    ensures StandsIn(hash, v, m', ThePlaces)
  {
    assert StandsIn(hash, v, m, ThePlaces) && StandsIn(hash, v, m, TheHandles);
    forall a | a in m'.shelf.open && a in m'.e.w.open
      ensures Placed(hash, m'.e.w.files, m'.e.w.open[a].slot, m'.shelf.open[a].name)
    {
      assert Placed(hash, m.e.w.files, m.e.w.open[a].slot, m.shelf.open[a].name);
    }
    forall a, b
      ensures Distinguished(m', a, b)
    {
      assert Distinguished(m, a, b);
    }
  }

  /** Uncommitted records are still those of writers only. */
  lemma BegunSame(hash: NameIndex.Hash, v: Volume, m: Moment, m': Moment)
    requires Stands(hash, v, m) && BegunKept(m.e.w.disk, m'.e.w.disk)
    requires forall t: u16 | Opening.NoWriter(m'.e.w.open, t) :: Opening.NoWriter(m.e.w.open, t)
    ensures StandsIn(hash, v, m', TheBegun)
  {
    assert StandsIn(hash, v, m, TheBegun);
    forall t: u16 | Opening.NoWriter(m'.e.w.open, t)
      ensures NoBegun(m'.e.w.disk, t)
    {
      assert NoBegun(m.e.w.disk, t);
      forall p: nat | p < |m'.e.w.disk|
        ensures NoneBegun(m'.e.w.disk[p], t)
      {
        assert NoneBegun(m.e.w.disk[p], t);
      }
    }
  }

  // ---------------------------------------------------------------- open

  /** Handles, files and the shelf are the same, whatever else has happened. */
  lemma SameStands(hash: NameIndex.Hash, v: Volume, m: Moment, m': Moment, but: set<nat>)
    requires Stands(hash, v, m) && Ready(v, m'.e) && OthersStay(v, m.e, m.ds, m'.e, m'.ds, but)
    requires BegunKept(m.e.w.disk, m'.e.w.disk) && m'.e.w.files == m.e.w.files && m'.shelf == m.shelf
    requires m'.e.w.open == m.e.w.open && m'.e.w.pend.Keys == m.e.w.pend.Keys && m'.e.ranges.Keys == m.e.ranges.Keys
    requires m'.ds.Keys == m.ds.Keys && forall a | a in but :: a !in m.shelf.open
    ensures Stands(hash, v, m')
  {
    HandlesOf(hash, v, m);
    NamesSame(hash, v, m, m');
    PlacesSame(hash, v, m, m');
    BegunSame(hash, v, m, m');
    assert StandsIn(hash, v, m', TheHandles);
    StandsAgain(hash, v, m, m', but);
  }

  /** One more writer. */
  lemma OpenStands(hash: NameIndex.Hash, v: Volume, m: Moment, m': Moment, id: nat, slot: u16, name: Bytes)
    requires Stands(hash, v, m) && Ready(v, m'.e) && OthersStay(v, m.e, m.ds, m'.e, m'.ds, {id})
    requires BegunKept(m.e.w.disk, m'.e.w.disk) && m'.e.w.files == m.e.w.files && id !in m.shelf.open
    requires m'.shelf == NextShelf(m.shelf, Open(id, name), Done)
    requires id in m'.e.w.open && m'.e.w.open == m.e.w.open[id := m'.e.w.open[id]] && m'.e.w.open[id].slot == slot
    requires m'.e.w.pend == m.e.w.pend[id := []] && m'.e.ranges.Keys == m.e.ranges.Keys + {id}
    requires m'.ds == m.ds[id := Opening.NewDraft(name)] && WritableIn(v, m'.e, m'.ds, id) && NoteGood(v, m'.e, id)
    requires Placed(hash, m.e.w.files, slot, name) && Opening.NoWriter(m.e.w.open, slot)
    requires forall a | a in m.shelf.open :: m.shelf.open[a].name != name
    ensures Stands(hash, v, m')
  {
    OpenPlaces(hash, v, m, m', id, slot, name);
    HandlesOf(hash, v, m);
    OneMoreOpen(m.e.w.open, m'.e.w.open, id);
    BegunSame(hash, v, m, m');
    assert AtDesk(v, m', id);
    NamesSame(hash, v, m, m');
    assert StandsIn(hash, v, m', TheHandles);
    StandsAgain(hash, v, m, m', {id});
  }

  lemma HandlesOf(hash: NameIndex.Hash, v: Volume, m: Moment)
    requires Stands(hash, v, m)
    ensures m.e.w.open.Keys == m.e.w.pend.Keys == m.e.ranges.Keys == m.ds.Keys == m.shelf.open.Keys
  {
    assert StandsIn(hash, v, m, TheHandles);
  }

  lemma NamesOf(hash: NameIndex.Hash, v: Volume, m: Moment)
    requires Stands(hash, v, m)
    ensures NamesKept(hash, m.e.w.files) && Means(m.e.w.files, m.shelf.files)
  {
    assert StandsIn(hash, v, m, TheNames);
  }

  lemma NamesSame(hash: NameIndex.Hash, v: Volume, m: Moment, m': Moment)
    requires Stands(hash, v, m) && m'.e.w.files == m.e.w.files && m'.shelf.files == m.shelf.files
    ensures StandsIn(hash, v, m', TheNames)
  {
    NamesOf(hash, v, m);
  }

  lemma NamesNow(hash: NameIndex.Hash, v: Volume, m: Moment)
    requires NamesKept(hash, m.e.w.files) && Means(m.e.w.files, m.shelf.files)
    ensures StandsIn(hash, v, m, TheNames)
  {
  }

  lemma OneMoreOpen(open: OpenFiles, open': OpenFiles, id: nat)
    requires id !in open && id in open' && open' == open[id := open'[id]]
    ensures forall t: u16 | Opening.NoWriter(open', t) :: Opening.NoWriter(open, t)
  {
    forall t: u16 | Opening.NoWriter(open', t)
      ensures Opening.NoWriter(open, t)
    {
      assert forall a | a in open :: a != id && open'[a] == open[a];
    }
  }

  lemma OpenPlaces(hash: NameIndex.Hash, v: Volume, m: Moment, m': Moment, id: nat, slot: u16, name: Bytes)
    requires Stands(hash, v, m) && m'.e.w.files == m.e.w.files && id !in m.shelf.open
    requires m'.shelf.open == m.shelf.open[id := Page(name, [])]
    requires id in m'.e.w.open && m'.e.w.open == m.e.w.open[id := m'.e.w.open[id]] && m'.e.w.open[id].slot == slot
    requires Placed(hash, m.e.w.files, slot, name) && Opening.NoWriter(m.e.w.open, slot)
    requires forall a | a in m.shelf.open :: m.shelf.open[a].name != name
    ensures StandsIn(hash, v, m', ThePlaces)
  {
    assert StandsIn(hash, v, m, ThePlaces) && StandsIn(hash, v, m, TheDesks) && StandsIn(hash, v, m, TheHandles);
    forall a | a in m'.shelf.open && a in m'.e.w.open
      ensures Placed(hash, m'.e.w.files, m'.e.w.open[a].slot, m'.shelf.open[a].name)
    {
      assert a != id ==> Placed(hash, m.e.w.files, m.e.w.open[a].slot, m.shelf.open[a].name);
    }
    forall a, b
      ensures Distinguished(m', a, b)
    {
      assert Distinguished(m, a, b);
      assert a in m.shelf.open ==> AtDesk(v, m, a);
      assert b in m.shelf.open ==> AtDesk(v, m, b);
    }
  }

  // ---------------------------------------------------------------- write

  lemma WriteStands(hash: NameIndex.Hash, v: Volume, m: Moment, m': Moment, id: nat)
    requires Stands(hash, v, m) && id in m.shelf.open && Ready(v, m'.e) && AtDesk(v, m', id)
    requires OthersStay(v, m.e, m.ds, m'.e, m'.ds, {id}) && Streaming.OthersKept(m.e.w, m'.e.w, id)
    requires m'.e.ranges.Keys == m.e.ranges.Keys && m'.e.w.pend.Keys == m.e.w.pend.Keys && m'.ds.Keys == m.ds.Keys
    requires m'.shelf == m.shelf.(open := m.shelf.open[id := m'.shelf.open[id]])
    requires m'.shelf.open[id].name == m.shelf.open[id].name
    ensures Stands(hash, v, m')
  {
    HandlesOf(hash, v, m);
    WriteSame(m.e.w, m'.e.w, id);
    PlacesSame(hash, v, m, m');
    WriteBegun(hash, v, m, m', id);
    NamesSame(hash, v, m, m');
    assert StandsIn(hash, v, m', TheHandles);
    StandsAgain(hash, v, m, m', {id});
  }

  lemma WriteDesk(hash: NameIndex.Hash, v: Volume, m: Moment, m': Moment, id: nat, data: Bytes, n: nat)
    requires Stands(hash, v, m) && id in m.shelf.open && n <= |data| && id in m.ds
    requires WritableIn(v, m'.e, m'.ds, id) && NoteGood(v, m'.e, id)
    requires m'.shelf == NextShelf(m.shelf, Write(id, data), Took(n))
    requires m'.ds[id].name == m.ds[id].name && m'.ds[id].written == m.ds[id].written + data[..n]
    ensures AtDesk(v, m', id)
  {
    assert StandsIn(hash, v, m, TheDesks);
    assert AtDesk(v, m, id);
  }

  lemma WriteSame(w: World, w': World, id: nat)
    requires Streaming.OthersKept(w, w', id)
    ensures w'.open.Keys == w.open.Keys && w'.files == w.files
    ensures forall a | a in w.open && a in w'.open :: w'.open[a].slot == w.open[a].slot
  {
    Streaming.KeptBoth(w, w', id);
    assert Streaming.KeptIn(w, w', id, Streaming.Records);
  }

  lemma WriteBegun(hash: NameIndex.Hash, v: Volume, m: Moment, m': Moment, id: nat)
    requires Stands(hash, v, m) && Streaming.OthersKept(m.e.w, m'.e.w, id) && id in m'.e.w.open
    requires m'.e.w.open[id].writing
    ensures StandsIn(hash, v, m', TheBegun)
  {
    assert StandsIn(hash, v, m, TheBegun);
    Streaming.KeptBoth(m.e.w, m'.e.w, id);
    assert Streaming.KeptIn(m.e.w, m'.e.w, id, Streaming.Records);
    forall t: u16 | Opening.NoWriter(m'.e.w.open, t)
      ensures NoBegun(m'.e.w.disk, t)
    {
      assert t != m'.e.w.open[id].slot;
      assert Opening.NoWriter(m.e.w.open, t) by {
        forall a | a in m.e.w.open && m.e.w.open[a].writing
          ensures m.e.w.open[a].slot != t
        {
          assert a != id ==> m'.e.w.open[a] == m.e.w.open[a];
        }
      }
      assert NoBegun(m.e.w.disk, t);
      forall p: nat | p < |m'.e.w.disk|
        ensures NoneBegun(m'.e.w.disk[p], t)
      {
        assert NoneBegun(m.e.w.disk[p], t);
      }
    }
  }

  // ---------------------------------------------------------------- close

  /** The handle is gone, and so are all uncommitted records of its slot. */
  lemma CloseBegun(hash: NameIndex.Hash, v: Volume, m: Moment, m': Moment, id: nat)
    requires Stands(hash, v, m) && id in m.e.w.open && m'.e.w.open == m.e.w.open - {id}
    requires NoBegun(m'.e.w.disk, m.e.w.open[id].slot) && Bystanders.TracesSpared(m.e.w, m'.e.w, m.e.w.open[id].slot)
    ensures StandsIn(hash, v, m', TheBegun)
  {
    assert StandsIn(hash, v, m, TheBegun);
    var slot := m.e.w.open[id].slot;
    forall t: u16 | Opening.NoWriter(m'.e.w.open, t)
      ensures NoBegun(m'.e.w.disk, t)
    {
      if t != slot {
        assert Opening.NoWriter(m.e.w.open, t) by {
          forall a | a in m.e.w.open && m.e.w.open[a].writing
            ensures m.e.w.open[a].slot != t
          {
            assert a != id ==> a in m'.e.w.open && m'.e.w.open[a] == m.e.w.open[a];
          }
        }
        assert NoBegun(m.e.w.disk, t);
        forall p: nat | p < |m'.e.w.disk|
          ensures NoneBegun(m'.e.w.disk[p], t)
        {
          assert NoneBegun(m.e.w.disk[p], t);
        }
      }
    }
  }

  /** A file that was stored for one writer is in no other writer's way. */
  lemma ClosePlaces(hash: NameIndex.Hash, v: Volume, m: Moment, m': Moment, id: nat, f: File)
    requires Stands(hash, v, m) && id in m.shelf.open && id in m.e.w.open
    requires NamedAs(f, m.shelf.open[id].name) && m'.e.w.files == m.e.w.files[m.e.w.open[id].slot := f]
    requires m'.e.w.open == m.e.w.open - {id} && m'.shelf.open == m.shelf.open - {id}
    ensures StandsIn(hash, v, m', ThePlaces)
  {
    assert StandsIn(hash, v, m, ThePlaces);
    var slot, files, files' := m.e.w.open[id].slot, m.e.w.files, m'.e.w.files;
    forall a | a in m'.shelf.open && a in m'.e.w.open
      ensures Placed(hash, files', m'.e.w.open[a].slot, m'.shelf.open[a].name)
    {
      assert Placed(hash, files, m.e.w.open[a].slot, m.shelf.open[a].name) && Distinguished(m, a, id);
      forall s | s in files' && NamedAs(files'[s], m.shelf.open[a].name)
        ensures s == m.e.w.open[a].slot
      {
        assert s != slot && NamedAs(files[s], m.shelf.open[a].name);
      }
    }
    forall a, b
      ensures Distinguished(m', a, b)
    {
      assert Distinguished(m, a, b);
    }
  }

  /** The new file is what the writer has written, under its name. */
  lemma CloseMeans(hash: NameIndex.Hash, v: Volume, m: Moment, files': map<u16, File>, id: nat)
    requires Stands(hash, v, m) && id in m.shelf.open && id in m.e.w.open && id in m.ds
    requires Closing.FileClosed(m.e.w.files, files', m.e.w.open[id].slot, m.ds[id])
    ensures NamesKept(hash, files') && Means(files', m.shelf.files[m.shelf.open[id].name := m.shelf.open[id].bytes])
    ensures NamedAs(files'[m.e.w.open[id].slot], m.shelf.open[id].name)
  {
    var slot, name, files := m.e.w.open[id].slot, m.shelf.open[id].name, m.e.w.files;
    assert StandsIn(hash, v, m, TheNames) && StandsIn(hash, v, m, TheDesks) && StandsIn(hash, v, m, ThePlaces);
    assert AtDesk(v, m, id) && Placed(hash, files, slot, name);
    var f := files'[slot];
    forall s | s in files && Rooted(files[s]) && FileName(files[s]) == FileName(f)
      ensures s == slot
    {
      TextInjective(NameOf(files[s].pieces[0]), NameOf(f.pieces[0]));
      assert NamedAs(files[s], name);
    }
    OneMore(hash, files, slot, f);
    MeansPut(hash, files, m.shelf.files, slot, f, name, m.shelf.open[id].bytes);
  }

  lemma CloseStands(hash: NameIndex.Hash, v: Volume, m: Moment, m': Moment, id: nat, stored: bool)
    requires Stands(hash, v, m) && Ready(v, m'.e) && id in m.shelf.open && id in m.e.w.open && id in m.ds
    requires Closing.Departed(m.e, m.ds, m'.e, m'.ds, id) && OthersStay(v, m.e, m.ds, m'.e, m'.ds, {id})
    requires NoBegun(m'.e.w.disk, m.e.w.open[id].slot) && Bystanders.TracesSpared(m.e.w, m'.e.w, m.e.w.open[id].slot)
    requires if stored then Closing.FileClosed(m.e.w.files, m'.e.w.files, m.e.w.open[id].slot, m.ds[id])
             else m'.e.w.files == m.e.w.files
    requires m'.shelf == NextShelf(m.shelf, Close(id), if stored then Done else Full)
    ensures Stands(hash, v, m')
  {
    HandlesOf(hash, v, m);
    CloseBegun(hash, v, m, m', id);
    if stored {
      CloseMeans(hash, v, m, m'.e.w.files, id);
      NamesNow(hash, v, m');
      ClosePlaces(hash, v, m, m', id, m'.e.w.files[m.e.w.open[id].slot]);
    } else {
      NamesSame(hash, v, m, m');
      PlacesSame(hash, v, m, m');
    }
    assert StandsIn(hash, v, m', TheHandles);
    StandsAgain(hash, v, m, m', {id});
  }

  // ---------------------------------------------------------------- remove

  lemma RemovePlaces(hash: NameIndex.Hash, v: Volume, m: Moment, m': Moment, slot: u16)
    requires Stands(hash, v, m) && m'.e.w.files == m.e.w.files - {slot} && m'.e.w.open == m.e.w.open
    requires m'.shelf.open == m.shelf.open
    ensures StandsIn(hash, v, m', ThePlaces)
  {
    assert StandsIn(hash, v, m, ThePlaces);
    forall a | a in m'.shelf.open && a in m'.e.w.open
      ensures Placed(hash, m'.e.w.files, m'.e.w.open[a].slot, m'.shelf.open[a].name)
    {
      assert Placed(hash, m.e.w.files, m.e.w.open[a].slot, m.shelf.open[a].name);
    }
    forall a, b
      ensures Distinguished(m', a, b)
    {
      assert Distinguished(m, a, b);
    }
  }

  lemma RemoveStands(hash: NameIndex.Hash, v: Volume, m: Moment, m': Moment, slot: u16, name: Bytes)
    requires Stands(hash, v, m) && Ready(v, m'.e) && OthersStay(v, m.e, m.ds, m'.e, m'.ds, {})
    requires slot in m.e.w.files && NamedAs(m.e.w.files[slot], name) && m'.e.w.files == m.e.w.files - {slot}
    requires m'.e.w.open == m.e.w.open && m'.e.w.pend == m.e.w.pend && m'.e.ranges == m.e.ranges && m'.ds == m.ds
    requires BegunKept(m.e.w.disk, m'.e.w.disk) && m'.shelf == m.shelf.(files := m.shelf.files - {name})
    ensures Stands(hash, v, m')
  {
    HandlesOf(hash, v, m);
    NamesOf(hash, v, m);
    RemoveMeans(hash, m.e.w.files, m.shelf.files, slot, name);
    NamesNow(hash, v, m');
    RemovePlaces(hash, v, m, m', slot);
    BegunSame(hash, v, m, m');
    assert StandsIn(hash, v, m', TheHandles);
    StandsAgain(hash, v, m, m', {});
  }

  lemma RemoveMeans(hash: NameIndex.Hash, files: map<u16, File>, dir: Directory, slot: u16, name: Bytes)
    requires NamesKept(hash, files) && Means(files, dir) && slot in files && NamedAs(files[slot], name)
    ensures NamesKept(hash, files - {slot}) && Means(files - {slot}, dir - {name})
  {
    MeansRemove(hash, files, dir, slot, name);
    NamesLess(hash, files, slot);
  }

  // ---------------------------------------------------------------- single jobs

  /** A job that changes no file and cannot halt. */
  lemma QuietStep(hash: NameIndex.Hash, v: Volume, g: IndexRing.Geometry, m: Moment, job: Job, reply: Reply, m': Moment)
    requires Stands(hash, v, m) && Stands(hash, v, m') && !job.Close? && !job.Remove?
    requires Answers(m.shelf, job, reply) && m'.shelf == NextShelf(m.shelf, job, reply)
    requires Excused(hash, v, g, m, job, reply, m') && m'.e.w.files == m.e.w.files && m'.counts == m.counts
    requires CutsSafe(v, m.cuts, m'.cuts, m.e.w.files)
    ensures Stepped(hash, v, g, m, job, reply, m')
  {
    assert StandsIn(hash, v, m', TheNames);
  }

  /** What a name resolves to before an open: a slot for it, without a writer and without leftovers. */
  lemma SlotFor(fs: Volatile, hash: NameIndex.Hash, shelf: Shelf, name: Bytes, r: NameIndex.Resolved)
    requires InOrder(fs, hash, shelf) && forall a | a in shelf.open :: shelf.open[a].name != name
    requires LeadsTo(hash, fs.v, fs.disk, fs.index, PinnedSlots(fs.open), Text(name), r) && !r.NoSpace?
    ensures Opening.NoWriter(fs.open, r.slot) && ProperSlot(r.slot) && NoBegun(fs.disk, r.slot)
    ensures Placed(hash, fs.files, r.slot, name)
  {
    var m := MomentOf(fs, shelf);
    assert StandsIn(hash, fs.v, m, TheVolume) && StandsIn(hash, fs.v, m, TheNames) && InReady(fs.v, m.e, TheFiles);
    NotYetOpen(fs, hash, shelf, name);
    SlotFits(fs, hash, name, r);
    OldName(hash, fs.v, fs.Now(), PinnedSlots(fs.open), name, r);
    Findable(hash, fs.v, fs.Now(), PinnedSlots(fs.open), Text(name), r);
    assert StandsIn(hash, fs.v, m, TheBegun);
    forall s | s in fs.files && NamedAs(fs.files[s], name)
      ensures s == r.slot
    {
      assert FileName(fs.files[s]) == Text(name);
    }
  }

  lemma NotYetOpen(fs: Volatile, hash: NameIndex.Hash, shelf: Shelf, name: Bytes)
    requires InOrder(fs, hash, shelf) && forall a | a in shelf.open :: shelf.open[a].name != name
    ensures NoWriterOf(fs, name)
  {
    var m := MomentOf(fs, shelf);
    assert StandsIn(hash, fs.v, m, TheHandles) && StandsIn(hash, fs.v, m, TheDesks);
    assert StandsIn(hash, fs.v, m, ThePlaces);
    forall a | a in fs.open && fs.open[a].writing
      ensures a in fs.drafts && fs.drafts[a].name != name
      ensures fs.open[a].slot in fs.files && Rooted(fs.files[fs.open[a].slot]) ==>
                NameOf(fs.files[fs.open[a].slot].pieces[0]) == fs.drafts[a].name
    {
      assert AtDesk(fs.v, m, a) && Placed(hash, fs.files, fs.open[a].slot, shelf.open[a].name);
    }
  }

  method DoOpen(fs: Volatile, hash: NameIndex.Hash, id: nat, name: Bytes, allowed: Candidate -> bool, scratch: nat,
                ghost shelf: Shelf)
    returns (reply: Reply)
    requires InOrder(fs, hash, shelf) && id !in shelf.open && 1 <= |name| <= MAX_NAME && 0 < scratch
    requires forall a | a in shelf.open :: shelf.open[a].name != name
    modifies fs
    ensures fs.Backed()
    ensures Stepped(hash, fs.v, fs.g, old(MomentOf(fs, shelf)), Open(id, name), reply,
                    MomentOf(fs, NextShelf(shelf, Open(id, name), reply)))
  {
    ghost var m := MomentOf(fs, shelf);
    ReadyNow(fs, hash, shelf);
    var r := NameIndex.ResolveByProbe(fs.index, NamesOnFlash(fs.v, fs.disk), PinnedSlots(fs.open), hash(Text(name)),
                                      Text(name));
    reply := Full;
    if r.NoSpace? {
      QuietStep(hash, fs.v, fs.g, m, Open(id, name), Full, m);
      return;
    }
    SlotFor(fs, hash, shelf, name, r);
    reply := OpenSlot(fs, hash, id, r.slot, name, allowed, scratch, shelf);
    QuietStep(hash, fs.v, fs.g, m, Open(id, name), reply, MomentOf(fs, NextShelf(shelf, Open(id, name), reply)));
  }

  method OpenSlot(fs: Volatile, hash: NameIndex.Hash, id: nat, slot: u16, name: Bytes, allowed: Candidate -> bool,
                  scratch: nat, ghost shelf: Shelf)
    returns (reply: Reply)
    requires InOrder(fs, hash, shelf) && id !in shelf.open && 1 <= |name| <= MAX_NAME && 0 < scratch
    requires forall a | a in shelf.open :: shelf.open[a].name != name
    requires Opening.NoWriter(fs.open, slot) && ProperSlot(slot) && NoBegun(fs.disk, slot)
    requires Placed(hash, fs.files, slot, name)
    modifies fs`disk, fs`cuts, fs`gcCursor, fs`gcMd, fs`candidates, fs`reserve, fs`ranges, fs`allocMap, fs`allocCursor,
             fs`nextSerial,
             fs`index, fs`journal, fs`paths, fs`open, fs`pend, fs`drafts
    ensures InOrder(fs, hash, NextShelf(shelf, Open(id, name), reply)) && (reply.Done? || reply.Full?)
    ensures reply.Full? ==> Exhausted(fs.v, fs.Now())
    ensures CutsSafe(fs.v, old(fs.cuts), fs.cuts, fs.files)
  {
    ghost var m := MomentOf(fs, shelf);
    ReadyNow(fs, hash, shelf);
    var status := Opening.OpenWriter(fs, id, slot, name, allowed, scratch);
    reply := if status.Ok? then Done else Full;
    if status.Ok? {
      OpenStands(hash, fs.v, m, MomentOf(fs, NextShelf(shelf, Open(id, name), Done)), id, slot, name);
    } else {
      SameStands(hash, fs.v, m, MomentOf(fs, shelf), {id});
    }
  }

  lemma ReadyNow(fs: Volatile, hash: NameIndex.Hash, shelf: Shelf)
    requires InOrder(fs, hash, shelf)
    ensures Ready(fs.v, EnvOf(fs)) && VolumeOk(fs.v) && GcPass.DataSectors(fs.v) >= 2 && Sound(fs.v, fs.Now())
    ensures fs.open.Keys == fs.pend.Keys == fs.ranges.Keys == fs.drafts.Keys == shelf.open.Keys
  {
    var m := MomentOf(fs, shelf);
    assert StandsIn(hash, fs.v, m, TheVolume) && InReady(fs.v, m.e, TheFiles);
    HandlesOf(hash, fs.v, m);
  }

  /** Writer `id` of the shelf can write, and be closed. */
  lemma AtWork(fs: Volatile, hash: NameIndex.Hash, shelf: Shelf, id: nat)
    requires InOrder(fs, hash, shelf) && id in shelf.open
    ensures id in fs.open && id in fs.drafts && Streaming.Writable(fs, id) && NoteGood(fs.v, EnvOf(fs), id)
    ensures OnlyWriter(fs.open, id, fs.open[id].slot) && fs.open[id].out.size == |shelf.open[id].bytes|
  {
    var m := MomentOf(fs, shelf);
    assert StandsIn(hash, fs.v, m, TheHandles) && StandsIn(hash, fs.v, m, TheDesks);
    assert StandsIn(hash, fs.v, m, ThePlaces);
    assert AtDesk(fs.v, m, id);
    forall a | a in fs.open && a != id && fs.open[a].writing
      ensures fs.open[a].slot != fs.open[id].slot
    {
      assert Distinguished(m, a, id);
    }
    Storing.SizeIs(fs.v, fs.disk, fs.open[id], fs.pend[id], fs.drafts[id]);
  }

  method DoWrite(fs: Volatile, hash: NameIndex.Hash, id: nat, data: Bytes, granule: nat, allowed: Candidate -> bool,
                 scratch: nat, ghost shelf: Shelf)
    returns (reply: Reply)
    requires InOrder(fs, hash, shelf) && (id in shelf.open ==> |shelf.open[id].bytes| + |data| < 0x1_0000_0000)
    requires 0 < granule <= RECORD_SIZE + FOOTER_SIZE && 0 < scratch
    modifies fs
    ensures fs.Backed()
    ensures Stepped(hash, fs.v, fs.g, old(MomentOf(fs, shelf)), Write(id, data), reply,
                    MomentOf(fs, NextShelf(shelf, Write(id, data), reply)))
  {
    ghost var m := MomentOf(fs, shelf);
    ReadyNow(fs, hash, shelf);
    if id !in fs.open {
      QuietStep(hash, fs.v, fs.g, m, Write(id, data), Absent, m);
      return Absent;
    }
    AtWork(fs, hash, shelf, id);
    var status, n := Streaming.Write(fs, id, data, granule, allowed, scratch);
    reply := Took(n);
    ghost var m' := MomentOf(fs, NextShelf(shelf, Write(id, data), reply));
    WriteSame(m.e.w, m'.e.w, id);
    WriteDesk(hash, fs.v, m, m', id, data, n);
    WriteStands(hash, fs.v, m, m', id);
    QuietStep(hash, fs.v, fs.g, m, Write(id, data), reply, m');
  }

  method DoRead(fs: Volatile, hash: NameIndex.Hash, name: Bytes, calls: seq<Reader.Call>, granule: nat,
                ghost shelf: Shelf)
    returns (reply: Reply)
    requires InOrder(fs, hash, shelf) && 0 < granule
    ensures Stepped(hash, fs.v, fs.g, MomentOf(fs, shelf), Read(name, calls), reply, MomentOf(fs, shelf))
  {
    ReadyNow(fs, hash, shelf);
    var r := NameIndex.ResolveByProbe(fs.index, NamesOnFlash(fs.v, fs.disk), PinnedSlots(fs.open), hash(Text(name)),
                                      Text(name));
    NamesOf(hash, fs.v, MomentOf(fs, shelf));
    MeansFound(hash, fs.v, fs.Now(), PinnedSlots(fs.open), shelf.files, name, r);
    reply := Absent;
    if r.Found? {
      var answers := Storing.ReadBack(fs, r.slot, calls, granule);
      reply := Data(answers);
    }
    QuietStep(hash, fs.v, fs.g, MomentOf(fs, shelf), Read(name, calls), reply, MomentOf(fs, shelf));
  }

  method DoCollect(fs: Volatile, hash: NameIndex.Hash, allowed: Candidate -> bool, scratch: nat, ghost shelf: Shelf)
    requires InOrder(fs, hash, shelf) && 0 < scratch
    modifies fs
    ensures fs.Backed()
    ensures Stepped(hash, fs.v, fs.g, old(MomentOf(fs, shelf)), Collect, Done, MomentOf(fs, shelf))
  {
    ghost var m := MomentOf(fs, shelf);
    ReadyNow(fs, hash, shelf);
    CollectAll(fs, allowed, scratch);
    SameStands(hash, fs.v, m, MomentOf(fs, shelf), {});
    QuietStep(hash, fs.v, fs.g, m, Collect, Done, MomentOf(fs, shelf));
  }

  /** fffs_gc_until_erased, while writers are open: they all stay where they were. */
  method CollectAll(fs: Volatile, allowed: Candidate -> bool, scratch: nat)
    requires Ready(fs.v, EnvOf(fs)) && fs.Backed() && VolumeOk(fs.v) && GcPass.DataSectors(fs.v) >= 2 && 0 < scratch
    modifies fs`disk, fs`cuts, fs`gcCursor, fs`gcMd, fs`candidates, fs`reserve, fs`allocMap, fs`allocCursor,
             fs`nextSerial,
             fs`index, fs`journal, fs`paths
    ensures Ready(fs.v, EnvOf(fs)) && fs.Backed() && CutsSafe(fs.v, old(fs.cuts), fs.cuts, fs.files)
    ensures OthersStay(fs.v, old(EnvOf(fs)), fs.drafts, EnvOf(fs), fs.drafts, {}) && BegunKept(old(fs.disk), fs.disk)
  {
    ghost var e := EnvOf(fs);
    Streaming.ReadyAll(fs);
    ghost var h := fs.Held();
    var status, erased := GcPass.GcUntilErased(fs, allowed, scratch);
    Alloc.AllocKept(fs.v, fs.open, h, fs.Held(), fs.ranges);
    Streaming.AllReady(fs);
    AllStay(fs.v, e, EnvOf(fs), fs.drafts);
    assert Compact.TameIn(fs.v, e.w, fs.Now(), Compact.NewBegun);
  }

  // ---------------------------------------------------------------- close and remove

  /** What is known when fffs_close has come back. */
  ghost predicate Closed(v: Volume, g: IndexRing.Geometry, m: Moment, m': Moment, id: nat, status: Status) {
    && id in m.e.w.open && id in m.e.w.pend && id in m.ds
    && Closing.Departed(m.e, m.ds, m'.e, m'.ds, id) && Bystanders.Spared(v, m.e.w, m'.e.w, id, m.e.w.open[id].slot)
    && (exists at :: Closing.CloseOutcomeIs(v, g, m.e, m.ds, m.counts, StageAt(m), m'.e, m'.counts, StageAt(m'), at, id,
                                            status))
    && (Ready(v, m'.e) ==> OthersStay(v, m.e, m.ds, m'.e, m'.ds, {id}))
  }

  ghost function StageAt(m: Moment): Stage { Stage(m.e.w.index, m.e.w.files, m.journal, m.cuts) }

  /** The journal has taken the record exactly if it takes such a record. */
  lemma TakesExactly(v: Volume, g: IndexRing.Geometry, m: Moment, m': Moment, id: nat, status: Status)
    requires Closed(v, g, m, m', id, status)
    ensures var h := m.e.w.open[id]; status.Ok? <==> Takes(g, m.journal, h.slot, h.head)
  {
    var h := m.e.w.open[id];
    var at :| Closing.CloseOutcomeIs(v, g, m.e, m.ds, m.counts, StageAt(m), m'.e, m'.counts, StageAt(m'), at, id,
                                     status);
    assert GrewTo(g, m.journal, m'.journal, h.slot, h.head, status.Ok?);
  }

  /** The file was lost. */
  lemma LostStep(hash: NameIndex.Hash, v: Volume, g: IndexRing.Geometry, m: Moment, m': Moment, id: nat)
    requires Stands(hash, v, m) && id in m.shelf.open && Closed(v, g, m, m', id, Ok)
    requires Harmful(m.e.w.open[id], PathOf(m.e.w, id)) && m'.shelf == NextShelf(m.shelf, Close(id), Done)
    ensures Stepped(hash, v, g, m, Close(id), Done, m')
  {
    TakesExactly(v, g, m, m', id, Ok);
    var at :| Closing.CloseOutcomeIs(v, g, m.e, m.ds, m.counts, StageAt(m), m'.e, m'.counts, StageAt(m'), at, id, Ok);
    CloseMeans(hash, v, m, m'.e.w.files, id);
    FilesThere(hash, v, m');
    Closing.HeldIsThere(v, m'.e.w.disk, m'.e.w.index, m.e.w.open[id].slot, m'.e.w.files);
  }

  lemma FilesThere(hash: NameIndex.Hash, v: Volume, m: Moment)
    ensures Stands(hash, v, m) ==> HoldsAt(v, m.e.w.disk, m.e.w.index, m.e.w.files)
  {
    if Stands(hash, v, m) {
      assert StandsIn(hash, v, m, TheVolume) && InReady(v, m.e, TheFiles);
    }
  }

  /** Of the result of a close that has lost nothing, this is left. */
  lemma ResultOf(v: Volume, g: IndexRing.Geometry, m: Moment, m': Moment, id: nat, status: Status)
    requires Closed(v, g, m, m', id, status) && NoteGood(v, m.e, id)
    requires !status.Ok? || !Harmful(m.e.w.open[id], PathOf(m.e.w, id))
    ensures if status.Ok? then
              Closing.FileClosed(m.e.w.files, m'.e.w.files, m.e.w.open[id].slot, m.ds[id]) && Ready(v, m'.e)
            else m'.e.w.files == m.e.w.files && (Ready(v, m'.e) <==> m.e.w.open[id].slot in m.e.w.index)
    ensures NoBegun(m'.e.w.disk, m.e.w.open[id].slot)
    ensures CountsFiles(m.counts, m.e.w.files) ==> CountsFiles(m'.counts, m'.e.w.files)
    ensures CutsEither(v, m.cuts, m'.cuts, m.e.w.files, m'.e.w.files)
    ensures Bystanders.TracesSpared(m.e.w, m'.e.w, m.e.w.open[id].slot)
  {
    var h := m.e.w.open[id];
    var at :| Closing.CloseOutcomeIs(v, g, m.e, m.ds, m.counts, StageAt(m), m'.e, m'.counts, StageAt(m'), at, id,
                                     status);
    assert Closing.CloseResultIs(v, m.e, m.ds, m.counts, m'.e, m'.counts, id, status);
    assert PassageIs(v, g, StageAt(m), StageAt(m'), at, h.slot, h.head, status.Ok?);
    assert Bystanders.SparedIn(v, m.e.w, m'.e.w, id, h.slot, Bystanders.TheirTraces);
  }

  lemma CloseStep(hash: NameIndex.Hash, v: Volume, g: IndexRing.Geometry, m: Moment, m': Moment, id: nat,
                  status: Status)
    requires Stands(hash, v, m) && id in m.shelf.open && Closed(v, g, m, m', id, status) && NoteGood(v, m.e, id)
    requires !status.Ok? || !Harmful(m.e.w.open[id], PathOf(m.e.w, id))
    requires m'.shelf == NextShelf(m.shelf, Close(id), if status.Ok? then Done else Full)
    ensures Stepped(hash, v, g, m, Close(id), if status.Ok? then Done else Full, m')
  {
    TakesExactly(v, g, m, m', id, status);
    ResultOf(v, g, m, m', id, status);
    HandlesOf(hash, v, m);
    if status.Ok? {
      CloseMeans(hash, v, m, m'.e.w.files, id);
    } else {
      NamesOf(hash, v, m);
    }
    if Ready(v, m'.e) {
      CloseStands(hash, v, m, m', id, status.Ok?);
    } else {
      assert !StandsIn(hash, v, m', TheVolume);
    }
  }

  method DoClose(fs: Volatile, hash: NameIndex.Hash, id: nat, granule: nat, ghost shelf: Shelf)
    returns (reply: Reply, more: bool)
    requires InOrder(fs, hash, shelf) && 0 < granule <= RECORD_SIZE + FOOTER_SIZE
    modifies fs
    ensures fs.Backed()
    ensures Stepped(hash, fs.v, fs.g, old(MomentOf(fs, shelf)), Close(id), reply,
                    MomentOf(fs, NextShelf(shelf, Close(id), reply)))
    ensures more <==> !Halts(fs.v, fs.g, old(MomentOf(fs, shelf)), Close(id))
  {
    ghost var m := MomentOf(fs, shelf);
    ReadyNow(fs, hash, shelf);
    if id !in fs.open {
      AbsentClose(hash, fs.v, fs.g, m, id);
      return Absent, true;
    }
    AtWork(fs, hash, shelf, id);
    HarmSeen(fs.v, EnvOf(fs), fs.drafts, id);
    var harm, known := SeenHarmful(fs.v, fs.disk, fs.open[id]), fs.open[id].slot in fs.index;
    ghost var at;
    var status;
    status, at := Closing.Close(fs, id, granule);
    reply, more := if status.Ok? then Done else Full, if status.Ok? then !harm else known;
    ghost var m' := MomentOf(fs, NextShelf(shelf, Close(id), reply));
    assert Closing.CloseOutcomeIs(fs.v, fs.g, m.e, m.ds, m.counts, StageAt(m), m'.e, m'.counts, StageAt(m'), at, id,
                                  status);
    TakesExactly(fs.v, fs.g, m, m', id, status);
    if status.Ok? && Harmful(m.e.w.open[id], PathOf(m.e.w, id)) {
      LostStep(hash, fs.v, fs.g, m, m', id);
    } else {
      CloseStep(hash, fs.v, fs.g, m, m', id, status);
    }
  }

  lemma AbsentClose(hash: NameIndex.Hash, v: Volume, g: IndexRing.Geometry, m: Moment, id: nat)
    requires Stands(hash, v, m) && id !in m.shelf.open
    ensures Stepped(hash, v, g, m, Close(id), Absent, m)
  {
    HandlesOf(hash, v, m);
    NamesOf(hash, v, m);
  }

  /** What is known when fffs_delete_file has come back. */
  ghost predicate Deleted(v: Volume, g: IndexRing.Geometry, m: Moment, m': Moment, slot: u16, status: Status) {
    && slot in m.e.w.files && m'.e.w.open == m.e.w.open && m'.e.w.pend == m.e.w.pend && m'.e.ranges == m.e.ranges
    && m'.ds == m.ds
    && PassageIs(v, g, StageAt(m), StageAt(m'), m.e.w.disk, slot, 0, status.Ok?)
    && (if status.Ok? then
          && m'.e.w.files == m.e.w.files - {slot} && (Ready(v, m'.e) <==> Deleting.LoneRoot(v, m.e.w, slot))
        else m'.e.w.files == m.e.w.files && Ready(v, m'.e))
    && (CountsFiles(m.counts, m.e.w.files) ==> CountsFiles(m'.counts, m'.e.w.files))
    && (Ready(v, m'.e) ==> OthersStay(v, m.e, m.ds, m'.e, m'.ds, {})) && BegunKept(m.e.w.disk, m'.e.w.disk)
  }

  lemma OnlyFileNamed(hash: NameIndex.Hash, files: map<u16, File>, slot: u16, name: Bytes)
    requires NamesKept(hash, files) && slot in files && NamedAs(files[slot], name)
    ensures forall s | s in files && NamedAs(files[s], name) :: s == slot
  {
    forall s | s in files && NamedAs(files[s], name)
      ensures s == slot
    {
      OneSlot(hash, files, s, slot, name);
    }
  }

  lemma RemoveStep(hash: NameIndex.Hash, v: Volume, g: IndexRing.Geometry, m: Moment, m': Moment, slot: u16,
                   name: Bytes, status: Status)
    requires Stands(hash, v, m) && Deleted(v, g, m, m', slot, status) && NamedAs(m.e.w.files[slot], name)
    requires m'.shelf == NextShelf(m.shelf, Remove(name), if status.Ok? then Done else Full)
    ensures Stepped(hash, v, g, m, Remove(name), if status.Ok? then Done else Full, m')
  {
    RemoveTakes(v, g, m, m', slot, status);
    RemoveNames(hash, v, m, m', slot, name, status);
    OnlyNamed(hash, v, m, slot, name);
    RemoveHalts(hash, v, g, m, slot, name);
    if status.Ok? {
      if Ready(v, m'.e) {
        RemoveStands(hash, v, m, m', slot, name);
      } else {
        assert !StandsIn(hash, v, m', TheVolume);
      }
    } else {
      SameStands(hash, v, m, m', {});
    }
  }

  lemma RemoveNames(hash: NameIndex.Hash, v: Volume, m: Moment, m': Moment, slot: u16, name: Bytes, status: Status)
    requires Stands(hash, v, m) && slot in m.e.w.files && NamedAs(m.e.w.files[slot], name)
    requires m'.e.w.files == if status.Ok? then m.e.w.files - {slot} else m.e.w.files
    requires m'.shelf == NextShelf(m.shelf, Remove(name), if status.Ok? then Done else Full)
    ensures NamesKept(hash, m'.e.w.files) && Means(m'.e.w.files, m'.shelf.files)
  {
    NamesOf(hash, v, m);
    var files', dir' := m'.e.w.files, m'.shelf.files;
    if status.Ok? {
      RemoveMeans(hash, m.e.w.files, m.shelf.files, slot, name);
      assert dir' == m.shelf.files - {name} && files' == m.e.w.files - {slot};
    } else {
      assert dir' == m.shelf.files && files' == m.e.w.files;
    }
  }

  lemma OnlyNamed(hash: NameIndex.Hash, v: Volume, m: Moment, slot: u16, name: Bytes)
    requires Stands(hash, v, m) && slot in m.e.w.files && NamedAs(m.e.w.files[slot], name)
    ensures forall s {:trigger NamedAs(m.e.w.files[s], name)} | s in m.e.w.files && NamedAs(m.e.w.files[s], name) ::
              s == slot
    ensures name in m.shelf.files
  {
    NamesOf(hash, v, m);
    OnlyFileNamed(hash, m.e.w.files, slot, name);
    NamedIsListed(m.e.w.files, m.shelf.files, slot, name);
  }

  lemma RemoveHalts(hash: NameIndex.Hash, v: Volume, g: IndexRing.Geometry, m: Moment, slot: u16, name: Bytes)
    requires Stands(hash, v, m) && slot in m.e.w.files && NamedAs(m.e.w.files[slot], name)
    ensures Halts(v, g, m, Remove(name)) <==> RootsLeft(v, g, m, slot)
  {
    OnlyNamed(hash, v, m, slot, name);
  }

  lemma RemoveTakes(v: Volume, g: IndexRing.Geometry, m: Moment, m': Moment, slot: u16, status: Status)
    requires Deleted(v, g, m, m', slot, status)
    ensures status.Ok? <==> Takes(g, m.journal, slot, 0)
    ensures CutsEither(v, m.cuts, m'.cuts, m.e.w.files, m'.e.w.files)
  {
    assert GrewTo(g, m.journal, m'.journal, slot, 0, status.Ok?);
  }

  lemma AbsentRemove(hash: NameIndex.Hash, v: Volume, g: IndexRing.Geometry, m: Moment, name: Bytes)
    requires Stands(hash, v, m) && name !in m.shelf.files
    ensures Stepped(hash, v, g, m, Remove(name), Absent, m)
  {
    NamesOf(hash, v, m);
    forall slot | slot in m.e.w.files && NamedAs(m.e.w.files[slot], name)
      ensures false
    {
      NamedIsListed(m.e.w.files, m.shelf.files, slot, name);
    }
  }

  /** Whether the file's root is the only live one of its slot, by looking. */
  predicate SeenLone(v: Volume, disk: Disk, head: u16, slot: u16) {
    forall p | 0 <= p < |disk| && DataSector(v, p) && disk[p].footer.Live? && p != head ::
      forall k | 0 <= k < |disk[p].recs| ::
        !(disk[p].recs[k].Live() && disk[p].recs[k].typ == TYPE_ROOT && disk[p].recs[k].slot == slot)
  }

  lemma LoneSeen(v: Volume, w: World, slot: u16)
    requires slot in w.index
    ensures SeenLone(v, w.disk, w.index[slot], slot) <==> Deleting.LoneRoot(v, w, slot)
  {
  }

  method DoRemove(fs: Volatile, hash: NameIndex.Hash, name: Bytes, ghost shelf: Shelf)
    returns (reply: Reply, more: bool)
    requires InOrder(fs, hash, shelf)
    modifies fs
    ensures fs.Backed()
    ensures Stepped(hash, fs.v, fs.g, old(MomentOf(fs, shelf)), Remove(name), reply,
                    MomentOf(fs, NextShelf(shelf, Remove(name), reply)))
    ensures more <==> !Halts(fs.v, fs.g, old(MomentOf(fs, shelf)), Remove(name))
  {
    ghost var m := MomentOf(fs, shelf);
    ReadyNow(fs, hash, shelf);
    var r := NameIndex.ResolveByProbe(fs.index, NamesOnFlash(fs.v, fs.disk), PinnedSlots(fs.open), hash(Text(name)),
                                      Text(name));
    NamesOf(hash, fs.v, m);
    MeansFound(hash, fs.v, fs.Now(), PinnedSlots(fs.open), shelf.files, name, r);
    if !r.Found? {
      AbsentRemove(hash, fs.v, fs.g, m, name);
      return Absent, true;
    }
    var lone := SeenLone(fs.v, fs.disk, fs.index[r.slot], r.slot);
    LoneSeen(fs.v, fs.Now(), r.slot);
    RemoveHalts(hash, fs.v, fs.g, m, r.slot, name);
    var status := RemoveSlot(fs, hash, r.slot, shelf);
    reply, more := if status.Ok? then Done else Full, !status.Ok? || lone;
    ghost var m' := MomentOf(fs, NextShelf(shelf, Remove(name), reply));
    RemoveTakes(fs.v, fs.g, m, MomentOf(fs, shelf), r.slot, status);
    assert Deleted(fs.v, fs.g, m, m', r.slot, status) by {
      DeletedSame(fs.v, fs.g, m, MomentOf(fs, shelf), m', r.slot, status);
    }
    RemoveStep(hash, fs.v, fs.g, m, m', r.slot, name, status);
  }

  lemma DeletedSame(v: Volume, g: IndexRing.Geometry, m: Moment, m1: Moment, m2: Moment, slot: u16, status: Status)
    requires Deleted(v, g, m, m1, slot, status) && m2 == m1.(shelf := m2.shelf)
    ensures Deleted(v, g, m, m2, slot, status)
  {
  }

  method RemoveSlot(fs: Volatile, hash: NameIndex.Hash, slot: u16, ghost shelf: Shelf) returns (status: Status)
    requires InOrder(fs, hash, shelf) && slot in fs.index && slot in fs.files
    modifies fs`index, fs`journal, fs`cuts, fs`files, fs`disk, fs`allocMap, fs`committed
    ensures fs.Backed()
    ensures Deleted(fs.v, fs.g, old(MomentOf(fs, shelf)), MomentOf(fs, shelf), slot, status)
  {
    ghost var m := MomentOf(fs, shelf);
    ReadyNow(fs, hash, shelf);
    AllApart(fs, hash, shelf, slot);
    status := Deleting.DeleteFile(fs, slot);
    Bystanders.DimmedBegun(fs.v, m.e.w.disk, fs.disk, slot);
    assert PassageIs(fs.v, fs.g, StageAt(m), StageOf(fs), m.e.w.disk, slot, 0, status.Ok?);
  }

  /** Writers have their extents off the chain of the file. */
  lemma AllApart(fs: Volatile, hash: NameIndex.Hash, shelf: Shelf, slot: u16)
    requires InOrder(fs, hash, shelf)
    ensures Deleting.WritersApart(fs.Now(), slot)
  {
    var m := MomentOf(fs, shelf);
    assert StandsIn(hash, fs.v, m, TheHandles) && StandsIn(hash, fs.v, m, TheDesks);
    forall a | a in fs.open && a in fs.pend && fs.open[a].writing && fs.open[a].slot == slot
      ensures Apart(fs.index, fs.paths, slot, fs.pend[a] + [fs.open[a].current])
    {
      assert AtDesk(fs.v, m, a);
    }
  }

  // ---------------------------------------------------------------- a run

  /** The job makes sense for the shelf. */
  predicate Possible(s: Shelf, job: Job) {
    match job
    case Open(id, name) => id !in s.open && 1 <= |name| <= MAX_NAME && forall a | a in s.open :: s.open[a].name != name
    case Write(id, data) => id in s.open ==> |s.open[id].bytes| + |data| < 0x1_0000_0000
    case Close(_) => true
    case Remove(_) => true
    case Read(_, _) => true
    case Collect => true
  }

  lemma SensibleIsPossible(plan: Plan, s: Shelf, job: Job)
    requires Covers(plan, s) && Sensible(plan, job)
    ensures Possible(s, job)
  {
  }

  /** One job, whatever it is. There is more to come unless the volume is not in order any more. */
  method Do(fs: Volatile, hash: NameIndex.Hash, job: Job, granule: nat, allowed: Candidate -> bool, scratch: nat,
            ghost shelf: Shelf)
    returns (reply: Reply, more: bool)
    requires InOrder(fs, hash, shelf) && Possible(shelf, job)
    requires 0 < granule <= RECORD_SIZE + FOOTER_SIZE && 0 < scratch
    modifies fs
    ensures fs.Backed()
    ensures Stepped(hash, fs.v, fs.g, old(MomentOf(fs, shelf)), job, reply, MomentOf(fs, NextShelf(shelf, job, reply)))
    ensures more <==> !Halts(fs.v, fs.g, old(MomentOf(fs, shelf)), job)
  {
    more := true;
    match job
    case Open(id, name) => reply := DoOpen(fs, hash, id, name, allowed, scratch, shelf);
    case Write(id, data) => reply := DoWrite(fs, hash, id, data, granule, allowed, scratch, shelf);
    case Close(id) => reply, more := DoClose(fs, hash, id, granule, shelf);
    case Remove(name) => reply, more := DoRemove(fs, hash, name, shelf);
    case Read(name, calls) => reply := DoRead(fs, hash, name, calls, granule, shelf);
    case Collect =>
      DoCollect(fs, hash, allowed, scratch, shelf);
      reply := Done;
  }

  /** Step i of a run. */
  ghost predicate StepAt(hash: NameIndex.Hash, v: Volume, g: IndexRing.Geometry, jobs: seq<Job>, replies: seq<Reply>,
                         trace: seq<Moment>, i: nat) {
    && i < |jobs| && i < |replies| && i + 1 < |trace|
    && Stands(hash, v, trace[i]) && Stepped(hash, v, g, trace[i], jobs[i], replies[i], trace[i + 1])
  }

  /** The moments between the first jobs, each of which was done on a volume in order. */
  ghost predicate History(hash: NameIndex.Hash, v: Volume, g: IndexRing.Geometry, jobs: seq<Job>, replies: seq<Reply>,
                          trace: seq<Moment>) {
    && |replies| <= |jobs| && |trace| == |replies| + 1
    && forall i: nat {:trigger StepAt(hash, v, g, jobs, replies, trace, i)} | i < |replies| ::
         StepAt(hash, v, g, jobs, replies, trace, i)
  }

  lemma HistoryMore(hash: NameIndex.Hash, v: Volume, g: IndexRing.Geometry, jobs: seq<Job>, replies: seq<Reply>,
                    trace: seq<Moment>, reply: Reply, m: Moment)
    requires History(hash, v, g, jobs, replies, trace) && |replies| < |jobs| && Stands(hash, v, trace[|replies|])
    requires Stepped(hash, v, g, trace[|replies|], jobs[|replies|], reply, m)
    ensures History(hash, v, g, jobs, replies + [reply], trace + [m])
  {
    var replies', trace' := replies + [reply], trace + [m];
    var n := |replies|;
    assert trace'[n] == trace[n] && trace'[n + 1] == m && replies'[n] == reply;
    assert StepAt(hash, v, g, jobs, replies', trace', n);
    forall i: nat | i < |replies'|
      ensures StepAt(hash, v, g, jobs, replies', trace', i)
    {
      if i < n {
        assert StepAt(hash, v, g, jobs, replies, trace, i);
        assert trace'[i] == trace[i] && trace'[i + 1] == trace[i + 1] && replies'[i] == replies[i];
      }
    }
  }

  /** Any jobs, one after the other, with any number of writers at a time. Every answer is the shelf's, or there was no
      room; between any two jobs the volume stands for the shelf, and each close stores what its writer has written.
      The run comes to its end unless one of the jobs leaves a volume that is not in order: a close or a removal in one
      of the situations of `Halts`. */
  method Run(fs: Volatile, hash: NameIndex.Hash, jobs: seq<Job>, granule: nat, allowed: Candidate -> bool,
             scratch: nat, ghost shelf: Shelf, ghost plan: Plan)
    returns (replies: seq<Reply>, ghost trace: seq<Moment>)
    requires InOrder(fs, hash, shelf) && Covers(plan, shelf) && AllSensible(plan, jobs)
    requires 0 < granule <= RECORD_SIZE + FOOTER_SIZE && 0 < scratch
    modifies fs
    ensures History(hash, fs.v, fs.g, jobs, replies, trace) && trace[0] == old(MomentOf(fs, shelf))
    ensures trace[|replies|] == MomentOf(fs, trace[|replies|].shelf) && fs.Backed()
    ensures |replies| < |jobs| ==>
              replies != [] && Halts(fs.v, fs.g, trace[|replies| - 1], jobs[|replies| - 1])
    ensures InOrder(fs, hash, trace[|replies|].shelf) <==>
              !(replies != [] && Halts(fs.v, fs.g, trace[|replies| - 1], jobs[|replies| - 1]))
  {
    replies, trace := [], [MomentOf(fs, shelf)];
    ghost var now := shelf;
    var more := true;
    assert jobs[..0] == [];
    while more && |replies| < |jobs|
      invariant |replies| <= |jobs| && History(hash, fs.v, fs.g, jobs, replies, trace) && fs.Backed()
      invariant trace[0] == old(MomentOf(fs, shelf)) && trace[|replies|] == MomentOf(fs, now)
      invariant Covers(PlanAfter(plan, jobs[..|replies|]), now) && (more <==> Stands(hash, fs.v, trace[|replies|]))
      invariant more <==> !(replies != [] && Halts(fs.v, fs.g, trace[|replies| - 1], jobs[|replies| - 1]))
      decreases more, |jobs| - |replies|
    {
      more, replies, now, trace := Next(fs, hash, jobs, granule, allowed, scratch, plan, replies, now, trace);
    }
  }

  method Next(fs: Volatile, hash: NameIndex.Hash, jobs: seq<Job>, granule: nat, allowed: Candidate -> bool,
              scratch: nat, ghost plan: Plan, replies: seq<Reply>, ghost now: Shelf, ghost trace: seq<Moment>)
    returns (more: bool, replies': seq<Reply>, ghost now': Shelf, ghost trace': seq<Moment>)
    requires |replies| < |jobs| && History(hash, fs.v, fs.g, jobs, replies, trace) && AllSensible(plan, jobs)
    requires InOrder(fs, hash, now) && trace[|replies|] == MomentOf(fs, now)
    requires Covers(PlanAfter(plan, jobs[..|replies|]), now)
    requires 0 < granule <= RECORD_SIZE + FOOTER_SIZE && 0 < scratch
    modifies fs
    ensures |replies'| == |replies| + 1 && History(hash, fs.v, fs.g, jobs, replies', trace') && fs.Backed()
    ensures trace'[0] == trace[0] && trace'[|replies'|] == MomentOf(fs, now') && trace'[|replies|] == trace[|replies|]
    ensures Covers(PlanAfter(plan, jobs[..|replies'|]), now') && (more <==> Stands(hash, fs.v, trace'[|replies'|]))
    ensures more <==> !Halts(fs.v, fs.g, trace[|replies|], jobs[|replies|])
  {
    var n := |replies|;
    SensibleIsPossible(PlanAfter(plan, jobs[..n]), now, jobs[n]);
    var reply;
    reply, more := Do(fs, hash, jobs[n], granule, allowed, scratch, now);
    replies', now' := replies + [reply], NextShelf(now, jobs[n], reply);
    trace' := trace + [MomentOf(fs, now')];
    HistoryMore(hash, fs.v, fs.g, jobs, replies, trace, reply, MomentOf(fs, now'));
    PlanMore(plan, jobs, n);
    StillCovers(PlanAfter(plan, jobs[..n]), now, jobs[n], reply);
  }

  // ---------------------------------------------------------------- what holds at every moment

  /** At every moment at which the volume stands for its shelf, no two writers have a sector in common that they write
      to or have reserved. */
  lemma NothingShared(hash: NameIndex.Hash, v: Volume, m: Moment, a: nat, b: nat, p: nat)
    requires Stands(hash, v, m) && a in m.shelf.open && b in m.shelf.open && a != b
    ensures a in m.e.w.open && b in m.e.w.open && !(m.e.w.open[a].Occupies(p) && m.e.w.open[b].Occupies(p))
    ensures a in m.e.ranges && b in m.e.ranges && !(m.e.ranges[a].Has(p) && m.e.ranges[b].Has(p))
    ensures p in m.e.reserve ==> !m.e.w.open[a].Occupies(p)
  {
    HandlesOf(hash, v, m);
    assert StandsIn(hash, v, m, TheVolume) && InReady(v, m.e, TheWriters) && InReady(v, m.e, TheAllocator);
  }

  /** And a mount of what is on flash then finds the files of the shelf. */
  lemma QuietBoot(hash: NameIndex.Hash, v: Volume, g: IndexRing.Geometry, m: Moment)
    requires Stands(hash, v, m) && JournalOf(v, g, m.journal, m.e.w.index)
    requires Journal.Discoverable(g, m.journal.oldest, m.journal.count)
    ensures Boots(v, g, Flash(m.e.w.disk, m.journal.flash), m.e.w.files) && Means(m.e.w.files, m.shelf.files)
  {
    NamesOf(hash, v, m);
    FilesThere(hash, v, m);
    QuietCrash(v, g, m.journal, m.e.w.disk, m.e.w.files);
  }

  // ---------------------------------------------------------------- from format on

  /** A volume without open files. */
  lemma FreshStands(fs: Volatile, hash: NameIndex.Hash, dir: Directory)
    requires Ready(fs.v, EnvOf(fs)) && VolumeOk(fs.v) && GcPass.DataSectors(fs.v) >= 2 && fs.Backed()
    requires fs.open == map[] && fs.pend == map[] && fs.ranges == map[] && fs.drafts == map[]
    requires NamesKept(hash, fs.files) && Means(fs.files, dir) && forall t: u16 :: NoBegun(fs.disk, t)
    ensures InOrder(fs, hash, Shelf(dir, map[])) && Covers(map[], Shelf(dir, map[]))
  {
    var m := MomentOf(fs, Shelf(dir, map[]));
    NamesNow(hash, fs.v, m);
    forall facet
      ensures StandsIn(hash, fs.v, m, facet)
    {
      match facet
      case TheVolume =>
      case TheNames =>
      case TheHandles =>
      case TheDesks =>
      case ThePlaces =>
      case TheBegun =>
    }
  }

  /** A run on a formatted volume. */
  method RunFromFormat(v: Volume, g: IndexRing.Geometry, hash: NameIndex.Hash, jobs: seq<Job>, granule: nat,
                       allowed: Candidate -> bool, scratch: nat)
    returns (fs: Volatile, replies: seq<Reply>, ghost trace: seq<Moment>)
    requires VolumeOk(v) && IndexRing.GeometryOk(g) && g.n == v.index && g.sectors == v.sectors
    requires GcPass.DataSectors(v) >= 2 && AllSensible(map[], jobs)
    requires 0 < granule <= RECORD_SIZE + FOOTER_SIZE && 0 < scratch
    ensures History(hash, v, g, jobs, replies, trace) && trace[0].shelf == Shelf(map[], map[])
    ensures trace[0].cuts == iset{}
    ensures |replies| < |jobs| ==> replies != [] && Halts(v, g, trace[|replies| - 1], jobs[|replies| - 1])
    ensures fs.v == v && fs.g == g && trace[|replies|] == MomentOf(fs, trace[|replies|].shelf)
    ensures CountsFiles(trace[0].counts, trace[0].e.w.files)
  {
    fs := Witness.Formatted(v, g);
    FreshStands(fs, hash, map[]);
    replies, trace := Run(fs, hash, jobs, granule, allowed, scratch, Shelf(map[], map[]), map[]);
  }

  // ---------------------------------------------------------------- power cuts

  /** The first n jobs have not lost a file. */
  ghost predicate NothingLost(g: IndexRing.Geometry, jobs: seq<Job>, trace: seq<Moment>, n: nat) {
    n <= |jobs| && n < |trace| && forall i: nat {:trigger trace[i]} | i < n :: !Loses(g, trace[i], jobs[i])
  }

  /** An image of the first n jobs was left by one of them. */
  lemma {:induction false} LeftBy(trace: seq<Moment>, n: nat, c: Image) returns (i: nat)
    requires n < |trace| && c in trace[n].cuts && c !in trace[0].cuts
    ensures i < n && c in trace[i + 1].cuts && c !in trace[i].cuts
    decreases n
  {
    if c in trace[n - 1].cuts {
      i := LeftBy(trace, n - 1, c);
    } else {
      i := n - 1;
    }
  }

  /** What some first jobs make of the shelf is what a mount finds. */
  ghost predicate FindsPrefix(hash: NameIndex.Hash, v: Volume, g: IndexRing.Geometry, trace: seq<Moment>, n: nat,
                              p: Flash)
  {
    exists i: nat :: i <= n && i < |trace| && FindsAt(hash, v, g, trace[i], p)
  }

  ghost predicate FindsAt(hash: NameIndex.Hash, v: Volume, g: IndexRing.Geometry, m: Moment, p: Flash) {
    Boots(v, g, p, m.e.w.files) && NamesKept(hash, m.e.w.files) && Means(m.e.w.files, m.shelf.files)
  }

  /** A power cut anywhere in a run, in a data sector, in an index record or in a rotation of the journal: the mount
      finds exactly what some first jobs have made of the map. */
  lemma CutLeavesPrefix(hash: NameIndex.Hash, v: Volume, g: IndexRing.Geometry, jobs: seq<Job>, replies: seq<Reply>,
                        trace: seq<Moment>, n: nat, c: Image, p: Flash)
    requires History(hash, v, g, jobs, replies, trace) && n <= |replies| && NothingLost(g, jobs, trace, n)
    requires c in trace[n].cuts && c !in trace[0].cuts && FlashOf(v, g, c, p) && Mountable(v, c)
    ensures FindsPrefix(hash, v, g, trace, n, p)
  {
    var i := LeftBy(trace, n, c);
    assert StepAt(hash, v, g, jobs, replies, trace, i);
    var m, m' := trace[i], trace[i + 1];
    assert !Loses(g, m, jobs[i]);
    NamesOf(hash, v, m);
    ImageBoots(v, g, c, p, m.e.w.files, m'.e.w.files);
    assert FindsAt(hash, v, g, m, p) || FindsAt(hash, v, g, m', p);
  }

  /** Valid counters are right at every moment, if they were at first. */
  lemma {:induction false} CountersRight(hash: NameIndex.Hash, v: Volume, g: IndexRing.Geometry, jobs: seq<Job>,
                                         replies: seq<Reply>, trace: seq<Moment>, n: nat)
    requires History(hash, v, g, jobs, replies, trace) && n <= |replies| && NothingLost(g, jobs, trace, n)
    requires CountsFiles(trace[0].counts, trace[0].e.w.files)
    ensures CountsFiles(trace[n].counts, trace[n].e.w.files)
    decreases n
  {
    if n > 0 {
      CountersRight(hash, v, g, jobs, replies, trace, n - 1);
      assert StepAt(hash, v, g, jobs, replies, trace, n - 1) && !Loses(g, trace[n - 1], jobs[n - 1]);
      CountersStep(hash, v, g, trace[n - 1], jobs[n - 1], replies[n - 1], trace[n]);
    }
  }

  lemma CountersStep(hash: NameIndex.Hash, v: Volume, g: IndexRing.Geometry, m: Moment, job: Job, reply: Reply,
                     m': Moment)
    requires Stepped(hash, v, g, m, job, reply, m') && !Loses(g, m, job) && CountsFiles(m.counts, m.e.w.files)
    ensures CountsFiles(m'.counts, m'.e.w.files)
  {
  }

  /** The mounted namespace knows all live roots. */
  ghost predicate AllKnown(v: Volume, g: IndexRing.Geometry, p: Flash)
    requires IndexRing.GeometryOk(g) && IndexRing.RingShape(g, p.ring)
  {
    var after := Journal.Mounted(g, RootsOf(v, p.disk), false, p.ring);
    after.Some? && NoStrays(v, World(p.disk, after.value.ram, map[], map[], map[], map[]))
  }

  /** The run goes on after the power cut, from the map that the cut has left, if the sectors are in order, all
      live roots are known, and no record is left unfinished. */
  method Resume(v: Volume, g: IndexRing.Geometry, p: Flash, hash: NameIndex.Hash, jobs: seq<Job>, granule: nat,
                allowed: Candidate -> bool, scratch: nat, ghost files: map<u16, File>, ghost dir: Directory)
    returns (fs: Volatile, replies: seq<Reply>, ghost trace: seq<Moment>)
    requires VolumeOk(v) && g.n == v.index && g.sectors == v.sectors && GcPass.DataSectors(v) >= 2
    requires Boots(v, g, p, files) && NamesKept(hash, files) && Means(files, dir) && AllSensible(map[], jobs)
    requires DiskOk(v, p.disk) && AllKnown(v, g, p) && forall t: u16 :: NoBegun(p.disk, t)
    requires 0 < granule <= RECORD_SIZE + FOOTER_SIZE && 0 < scratch
    ensures History(hash, v, g, jobs, replies, trace) && trace[0].shelf == Shelf(dir, map[]) && trace[0].cuts == iset{}
    ensures |replies| < |jobs| ==> replies != [] && Halts(v, g, trace[|replies| - 1], jobs[|replies| - 1])
    ensures CountsFiles(trace[0].counts, trace[0].e.w.files)
  {
    fs := Recovery.MountAgain(v, g, p, files);
    FreshStands(fs, hash, dir);
    replies, trace := Run(fs, hash, jobs, granule, allowed, scratch, Shelf(dir, map[]), map[]);
  }
}
