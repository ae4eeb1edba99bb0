/** A whole file: opened, written in chunks, closed, read (src/fffs_file.c). */
module Storing {
  import opened Nor
  import opened SectorMd
  import opened SectorView
  import opened Files
  import opened Mounted
  import opened SectorOps
  import opened Content
  import opened Drafts
  import opened Writer
  import opened Notes
  import opened Sharing
  import opened Remount
  import Closing
  import Commit
  import Compact
  import Counters
  import GcPass
  import Journal
  import Opening
  import Reader
  import Streaming

  // ---------------------------------------------------------------- the note

  /** The noted chain is still the chain of the slot, because the slot is open. */
  lemma NotedStill(v: Volume, w: World, w': World, slot: u16, oldHead: nat, oldNext: nat)
    requires Sound(v, w) && Streaming.HandsKept(w, w') && Pinned(w.open, slot)
    requires OldNoted(v, w, slot, oldHead, oldNext)
    ensures OldNoted(v, w', slot, oldHead, oldNext)
  {
    if slot in w.index {
      assert Files.Stored(v, w.disk, w.index, w.paths, slot, w.files[slot]);
      assert w.paths[slot][0] in w.paths[slot] && Compact.InHand(w, slot, oldHead);
      assert Keeps(w.disk[oldHead], w'.disk[oldHead], slot);
    }
  }

  /** The writer's note leads to the old chain, or will be looked up again. */
  ghost predicate NoteTrue(v: Volume, w: World, h: Handle) {
    h.out.oldHead == h.head || OldNoted(v, w, h.slot, h.out.oldHead, h.out.oldNext)
  }

  lemma NoteStays(v: Volume, e0: Env, w': World, id: nat, h': Handle)
    requires Ready(v, e0) && id in e0.w.open && Streaming.OthersKept(e0.w, w', id)
    requires Streaming.SameOrigin(e0.w.open[id], h')
    requires NoteTrue(v, e0.w, e0.w.open[id])
    ensures NoteTrue(v, w', h')
  {
    var h := e0.w.open[id];
    assert InReady(v, e0, TheFiles);
    Streaming.KeptBoth(e0.w, w', id);
    assert Pinned(e0.w.open, h.slot);
    if OldNoted(v, e0.w, h.slot, h.out.oldHead, h.out.oldNext) {
      NotedStill(v, e0.w, w', h.slot, h.out.oldHead, h.out.oldNext);
    }
  }

  /** A true note is about no sector of the new file. */
  lemma TrueNoteFits(v: Volume, e: Env, id: nat, d: Draft)
    requires WriterIn(v, e, id, d) && NoteTrue(v, e.w, e.w.open[id])
    ensures NoteGood(v, e, id) && !Harmful(e.w.open[id], PathOf(e.w, id))
  {
    var h, path := e.w.open[id], PathOf(e.w, id);
    assert InReady(v, e, TheFiles);
    if OldNoted(v, e.w, h.slot, h.out.oldHead, h.out.oldNext) && h.slot in e.w.index {
      assert Files.Stored(v, e.w.disk, e.w.index, e.w.paths, h.slot, e.w.files[h.slot]);
      assert e.w.paths[h.slot][0] in e.w.paths[h.slot] && Used(e.w.index, e.w.paths, h.slot, h.out.oldHead);
    }
  }

  // ---------------------------------------------------------------- chunks

  lemma SizeIs(v: Volume, disk: Disk, h: Handle, pend: Path, d: Draft)
    requires WorkOk(v, disk, h, pend, d)
    ensures h.out.size == |d.written|
  {
    assert InWork(v, disk, h, pend, d, TheStream);
  }

  /** The first k chunks have been written, since the volume was as in w0. */
  ghost predicate Wrote(fs: Volatile, id: nat, w0: World, cuts0: iset<Image>, d0: Draft, h0: Handle, chunks: seq<Bytes>,
                        k: nat)
    reads fs
  {
    && k <= |chunks| && Streaming.Writable(fs, id) && CutsSafe(fs.v, cuts0, fs.cuts, fs.files)
    && Streaming.OthersKept(w0, fs.Now(), id) && NoteGood(fs.v, EnvOf(fs), id)
    && fs.drafts[id].written == Join(chunks[..k]) && fs.drafts[id].name == d0.name
    && Streaming.SameOrigin(h0, fs.open[id])
  }

  method WriteChunk(fs: Volatile, id: nat, chunks: seq<Bytes>, k: nat, granule: nat, allowed: Candidate -> bool,
                    scratch: nat,
                    ghost w0: World, ghost cuts0: iset<Image>, ghost d0: Draft, ghost h0: Handle)
    returns (status: Status)
    requires Wrote(fs, id, w0, cuts0, d0, h0, chunks, k) && k < |chunks| && |Join(chunks)| < 0x1_0000_0000
    requires 0 < granule <= RECORD_SIZE + FOOTER_SIZE && 0 < scratch && VolumeOk(fs.v) && GcPass.DataSectors(fs.v) >= 2
    modifies fs`disk, fs`cuts, fs`gcCursor, fs`gcMd, fs`candidates, fs`reserve, fs`ranges, fs`allocMap, fs`allocCursor,
             fs`nextSerial,
             fs`index, fs`journal, fs`paths, fs`open, fs`pend, fs`drafts
    ensures fs.Backed()
    ensures CutsSafe(fs.v, cuts0, fs.cuts, fs.files) && (status.Ok? ==> Wrote(fs, id, w0, cuts0, d0, h0, chunks, k + 1))
  {
    ghost var w1, d1 := fs.Now(), fs.drafts[id];
    SizeIs(fs.v, fs.disk, fs.open[id], fs.pend[id], d1);
    JoinNext(chunks, k);
    JoinGrows(chunks, k + 1);
    var done;
    status, done := Streaming.Write(fs, id, chunks[k], granule, allowed, scratch);
    Streaming.KeptMore(w0, w1, fs.Now(), id);
    assert status.Ok? ==> chunks[k][..done] == chunks[k];
  }

  method WriteChunks(fs: Volatile, id: nat, chunks: seq<Bytes>, granule: nat, allowed: Candidate -> bool, scratch: nat)
    returns (status: Status)
    requires Streaming.Writable(fs, id) && fs.drafts[id].written == [] && |Join(chunks)| < 0x1_0000_0000
    requires 0 < granule <= RECORD_SIZE + FOOTER_SIZE && 0 < scratch && VolumeOk(fs.v) && GcPass.DataSectors(fs.v) >= 2
    requires NoteGood(fs.v, EnvOf(fs), id)
    modifies fs`disk, fs`cuts, fs`gcCursor, fs`gcMd, fs`candidates, fs`reserve, fs`ranges, fs`allocMap, fs`allocCursor,
             fs`nextSerial,
             fs`index, fs`journal, fs`paths, fs`open, fs`pend, fs`drafts
    ensures fs.Backed()
    ensures CutsSafe(fs.v, old(fs.cuts), fs.cuts, fs.files)
    ensures status.Ok? ==>
              Wrote(fs, id, old(fs.Now()), old(fs.cuts), old(fs.drafts)[id], old(fs.open)[id], chunks, |chunks|)
  {
    ghost var w0, cuts0, d0, h0 := fs.Now(), fs.cuts, fs.drafts[id], fs.open[id];
    Streaming.KeptByOut(w0, w0, id);
    assert chunks[..0] == [];
    status := Ok;
    var k := 0;
    while k < |chunks|
      invariant status.Ok? && Wrote(fs, id, w0, cuts0, d0, h0, chunks, k)
    {
      status := WriteChunk(fs, id, chunks, k, granule, allowed, scratch, w0, cuts0, d0, h0);
      if !status.Ok? {
        return;
      }
      k := k + 1;
    }
  }

  // ---------------------------------------------------------------- from the first chunk to the close

  /** The slot's file is the one that was written, and the volume is in order. */
  ghost predicate Written(v: Volume, files: map<u16, File>, e: Env, slot: u16, name: Bytes, written: Bytes) {
    && Ready(v, e) && slot in e.w.files && Rooted(e.w.files[slot]) && e.w.files == files[slot := e.w.files[slot]]
    && Contents(e.w.files[slot]) == written && NameOf(e.w.files[slot].pieces[0]) == name
  }

  /** A file from its first chunk to its close. Whatever the chunks, the file then holds all of them, and at
      every power cut on the way the volume has all files as before, or all files with this one. Only a note that was
      out of date to begin with can have become harmful by the time of the close, which then loses the file. */
  method WriteFile(fs: Volatile, id: nat, chunks: seq<Bytes>, granule: nat, allowed: Candidate -> bool, scratch: nat)
    returns (status: Status, lost: bool)
    requires Streaming.Writable(fs, id) && fs.drafts[id].written == [] && |Join(chunks)| < 0x1_0000_0000
    requires 0 < granule <= RECORD_SIZE + FOOTER_SIZE && 0 < scratch && VolumeOk(fs.v) && GcPass.DataSectors(fs.v) >= 2
    requires OnlyWriter(fs.open, id, fs.open[id].slot) && NoteGood(fs.v, EnvOf(fs), id)
    modifies fs
    ensures fs.Backed() && (lost ==> status.Ok? && !old(NoteTrue(fs.v, fs.Now(), fs.open[id])))
    ensures if lost then
              FileGone(fs, old(fs.files), old(fs.open)[id].slot, old(fs.drafts)[id].name, Join(chunks))
            else if status.Ok? then
              Written(fs.v, old(fs.files), EnvOf(fs), old(fs.open)[id].slot, old(fs.drafts)[id].name, Join(chunks))
            else
              fs.files == old(fs.files)
    ensures !lost ==>
              && CutsEither(fs.v, old(fs.cuts), fs.cuts, old(fs.files), fs.files)
              && (CountsFiles(old(fs.committed), old(fs.files)) ==> CountsFiles(fs.committed, fs.files))
    ensures status.Ok? ==> Opening.Unused(fs, id) && fs.open == old(fs.open) - {id}
  {
    ghost var e0, cuts0, d0 := EnvOf(fs), fs.cuts, fs.drafts[id];
    lost := false;
    status := WriteChunks(fs, id, chunks, granule, allowed, scratch);
    if status.Ok? {
      assert chunks[..|chunks|] == chunks;
      status, lost := CloseSince(fs, id, granule, e0, cuts0);
    }
  }

  /** The new file is in the index, but not on flash. */
  ghost predicate FileGone(fs: Volatile, files: map<u16, File>, slot: u16, name: Bytes, written: Bytes)
    reads fs
  {
    && slot in fs.files && Rooted(fs.files[slot]) && fs.files == files[slot := fs.files[slot]]
    && Contents(fs.files[slot]) == written && NameOf(fs.files[slot].pieces[0]) == name
    && Closing.Destroyed(fs.v, fs.disk, fs.index, slot)
  }

  /** The close of a writer that has been at work since the volume was as in e0. */
  method CloseSince(fs: Volatile, id: nat, granule: nat, ghost e0: Env, ghost cuts0: iset<Image>)
    returns (status: Status, lost: bool)
    requires Streaming.Writable(fs, id) && CutsSafe(fs.v, cuts0, fs.cuts, fs.files)
    requires Streaming.OthersKept(e0.w, fs.Now(), id)
    requires id in e0.w.open && Streaming.SameOrigin(e0.w.open[id], fs.open[id]) && Ready(fs.v, e0)
    requires 0 < granule <= RECORD_SIZE + FOOTER_SIZE && VolumeOk(fs.v)
    requires OnlyWriter(e0.w.open, id, e0.w.open[id].slot) && NoteGood(fs.v, EnvOf(fs), id)
    modifies fs`disk, fs`cuts, fs`nextSerial, fs`index, fs`journal, fs`paths, fs`files, fs`ranges, fs`allocMap, fs`open,
             fs`pend, fs`drafts,
             fs`committed
    ensures fs.Backed() && (lost ==> status.Ok? && !NoteTrue(fs.v, e0.w, e0.w.open[id]))
    ensures var d := old(fs.drafts)[id];
      if lost then FileGone(fs, e0.w.files, e0.w.open[id].slot, d.name, d.written)
      else if status.Ok? then Written(fs.v, e0.w.files, EnvOf(fs), e0.w.open[id].slot, d.name, d.written)
      else fs.files == e0.w.files
    ensures !lost ==>
              && CutsEither(fs.v, cuts0, fs.cuts, e0.w.files, fs.files)
              && (CountsFiles(old(fs.committed), e0.w.files) ==> CountsFiles(fs.committed, fs.files))
    ensures Opening.Unused(fs, id) && fs.open == e0.w.open - {id}
  {
    SameHandles(e0.w, fs.Now(), id);
    SameFilesSince(e0.w, fs.Now(), id);
    OnlyStill(e0.w, fs.Now(), id, fs.open[id].slot);
    if NoteTrue(fs.v, e0.w, e0.w.open[id]) {
      NoteStays(fs.v, e0, fs.Now(), id, fs.open[id]);
      TrueNoteFits(fs.v, EnvOf(fs), id, fs.drafts[id]);
    }
    ghost var at, e1, ds1, c1, a1 := fs.disk, EnvOf(fs), fs.drafts, fs.committed, StageOf(fs);
    HarmSeen(fs.v, EnvOf(fs), fs.drafts, id);
    lost := SeenHarmful(fs.v, fs.disk, fs.open[id]);
    status, at := Closing.Close(fs, id, granule);
    lost := lost && status.Ok?;
    assert Closing.CloseOutcomeIs(fs.v, fs.g, e1, ds1, c1, a1, EnvOf(fs), fs.committed, StageOf(fs), at, id, status);
    if !lost {
      assert Closing.CloseResultIs(fs.v, e1, ds1, c1, EnvOf(fs), fs.committed, id, status);
      assert PassageIs(fs.v, fs.g, a1, StageOf(fs), at, e1.w.open[id].slot, e1.w.open[id].head, status.Ok?);
    }
  }

  lemma SameFilesSince(w: World, w': World, id: nat)
    requires Streaming.OthersKept(w, w', id)
    ensures w'.files == w.files
  {
    Streaming.KeptBoth(w, w', id);
  }

  lemma SameHandles(w: World, w': World, id: nat)
    requires Streaming.OthersKept(w, w', id)
    ensures w'.open - {id} == w.open - {id}
  {
    Streaming.KeptBoth(w, w', id);
  }

  lemma OnlyStill(w: World, w': World, id: nat, slot: u16)
    requires Streaming.OthersKept(w, w', id) && OnlyWriter(w.open, id, slot)
    ensures OnlyWriter(w'.open, id, slot)
  {
    Streaming.KeptBoth(w, w', id);
  }

  // ---------------------------------------------------------------- from open to close

  /** Opens a file for writing, writes it and closes it. The file is stored or, for lack of space, nothing changes; at
      every power cut the volume has all files as before, or all files with this one. Only if the allocation made by
      the open has moved the head of the old file can the file be lost. */
  method StoreFile(fs: Volatile, id: nat, slot: u16, name: Bytes, chunks: seq<Bytes>, granule: nat,
                   allowed: Candidate -> bool, scratch: nat)
    returns (status: Status, lost: bool, ghost mid: World)
    requires Ready(fs.v, EnvOf(fs)) && fs.Backed() && Opening.Unused(fs, id) && Opening.NoWriter(fs.open, slot)
    requires 1 <= |name| <= MAX_NAME && ProperSlot(slot) && NoBegun(fs.disk, slot) && |Join(chunks)| < 0x1_0000_0000
    requires 0 < granule <= RECORD_SIZE + FOOTER_SIZE && 0 < scratch && VolumeOk(fs.v) && GcPass.DataSectors(fs.v) >= 2
    modifies fs
    ensures fs.Backed() && (lost ==> status.Ok? && !Opening.HeadUnmoved(old(fs.Now()), mid, slot))
    ensures if lost then FileGone(fs, old(fs.files), slot, name, Join(chunks))
            else if status.Ok? then Written(fs.v, old(fs.files), EnvOf(fs), slot, name, Join(chunks))
            else fs.files == old(fs.files)
    ensures !lost ==>
              && CutsEither(fs.v, old(fs.cuts), fs.cuts, old(fs.files), fs.files)
              && (CountsFiles(old(fs.committed), old(fs.files)) ==> CountsFiles(fs.committed, fs.files))
    ensures status.Ok? ==> Opening.Unused(fs, id) && fs.open == old(fs.open)
  {
    ghost var w0 := fs.Now();
    status := OpenFor(fs, id, slot, name, allowed, scratch);
    lost, mid := false, fs.Now();
    if status.Ok? {
      status, lost := WriteFile(fs, id, chunks, granule, allowed, scratch);
      if lost {
        assert OpenedIs(fs.v, w0, mid, id, slot);
      }
    }
  }

  /** What the open did with the note. Callers unfold this where they need it. */
  ghost predicate OpenedWith(v: Volume, w0: World, w: World, id: nat, slot: u16) {
    forall n: nat {:trigger OpenedIs(v, w0, w, n, slot)} | n == id :: OpenedIs(v, w0, w, n, slot)
  }

  ghost predicate OpenedIs(v: Volume, w0: World, w: World, id: nat, slot: u16) {
    id in w.open && (!NoteTrue(v, w, w.open[id]) ==> !Opening.HeadUnmoved(w0, w, slot))
  }

  method OpenFor(fs: Volatile, id: nat, slot: u16, name: Bytes, allowed: Candidate -> bool, scratch: nat)
    returns (status: Status)
    requires Ready(fs.v, EnvOf(fs)) && fs.Backed() && Opening.Unused(fs, id) && Opening.NoWriter(fs.open, slot)
    requires 1 <= |name| <= MAX_NAME && ProperSlot(slot) && NoBegun(fs.disk, slot)
    requires 0 < scratch && VolumeOk(fs.v) && GcPass.DataSectors(fs.v) >= 2
    modifies fs`disk, fs`cuts, fs`gcCursor, fs`gcMd, fs`candidates, fs`reserve, fs`ranges, fs`allocMap, fs`allocCursor,
             fs`nextSerial,
             fs`index, fs`journal, fs`paths, fs`open, fs`pend, fs`drafts
    ensures fs.Backed() && CutsSafe(fs.v, old(fs.cuts), fs.cuts, fs.files)
    ensures status.Ok? ==>
              && Streaming.Writable(fs, id) && NoteGood(fs.v, EnvOf(fs), id) && OnlyWriter(fs.open, id, slot)
              && fs.open[id].slot == slot && fs.drafts[id] == Opening.NewDraft(name)
              && fs.open - {id} == old(fs.open) && OpenedWith(fs.v, old(fs.Now()), fs.Now(), id, slot)
  {
    ghost var w0 := fs.Now();
    status := Opening.OpenWriter(fs, id, slot, name, allowed, scratch);
    if status.Ok? {
      assert OpenedIs(fs.v, w0, fs.Now(), id, slot);
    }
  }

  // ---------------------------------------------------------------- and reading it

  /** An open file that is stored can be read on while writers and the collector are at work. */
  lemma ReaderUndisturbed(w: World, w': World, slot: u16)
    requires Streaming.HandsKept(w, w') && Pinned(w.open, slot) && slot in w.index && slot in w.paths
    ensures KeepsPath(w.disk, w'.disk, slot, w.paths[slot]) && slot in w'.index && slot in w'.paths
    ensures w'.index[slot] == w.index[slot] && w'.paths[slot] == w.paths[slot]
  {
    forall p | p in w.paths[slot] && p < |w.disk|
      ensures Keeps(w.disk[p], w'.disk[p], slot)
    {
      assert Compact.InHand(w, slot, p);
    }
  }

  /** Opens, writes in chunks and closes a file, then reads it in any way: the answers are those of the
      concatenated chunks. */
  method StoreThenRead(fs: Volatile, id: nat, slot: u16, name: Bytes, chunks: seq<Bytes>, calls: seq<Reader.Call>,
                       granule: nat,
                       allowed: Candidate -> bool, scratch: nat)
    returns (status: Status, lost: bool, answers: seq<Reader.Answer>, ghost mid: World)
    requires Ready(fs.v, EnvOf(fs)) && fs.Backed() && Opening.Unused(fs, id) && Opening.NoWriter(fs.open, slot)
    requires 1 <= |name| <= MAX_NAME && ProperSlot(slot) && NoBegun(fs.disk, slot) && |Join(chunks)| < 0x1_0000_0000
    requires 0 < granule <= RECORD_SIZE + FOOTER_SIZE && 0 < scratch && VolumeOk(fs.v) && GcPass.DataSectors(fs.v) >= 2
    modifies fs
    ensures lost ==> status.Ok? && !Opening.HeadUnmoved(old(fs.Now()), mid, slot)
    ensures status.Ok? && !lost ==> answers == Reader.AllAnswers(Join(chunks), 0, calls)
  {
    status, lost, mid := StoreFile(fs, id, slot, name, chunks, granule, allowed, scratch);
    answers := [];
    if status.Ok? && !lost {
      assert InReady(fs.v, EnvOf(fs), TheFiles);
      answers := ReadBack(fs, slot, calls, granule);
    }
  }

  /** Reads a stored file in any way: the answers are those of its bytes. */
  method ReadBack(fs: Volatile, slot: u16, calls: seq<Reader.Call>, granule: nat) returns (answers: seq<Reader.Answer>)
    requires Sound(fs.v, fs.Now()) && slot in fs.files && Rooted(fs.files[slot]) && 0 < granule
    ensures answers == Reader.AllAnswers(Contents(fs.files[slot]), 0, calls)
  {
    Reader.ReadableAfterClose(fs.v, fs.Now(), slot);
    var disk := fs.disk;
    var disks := seq(|calls| + 1, _ => disk);
    answers := Reader.Session(fs.v, disks, slot, fs.index[slot], calls, granule, fs.paths[slot], fs.files[slot]);
  }
}
