/** What a stored file says: its name and its bytes (read_root_prefix in src/fffs_file_md.c). */
module Content {
  import opened Nor
  import opened SectorMd
  import opened Files

  const MAX_NAME: nat := 32
  const CACHE_SIZE: nat := 256

  /** Length of the name, which the root starts with. */
  function NameLen(root: Bytes): nat
    requires |root| > 0
  {
    ByteBound(root[0]);
    root[0] as int
  }

  /** Length of the metadata block behind the name. */
  function VmetaLen(root: Bytes): nat
    requires |root| > 0 && 1 + NameLen(root) < |root|
  {
    ByteBound(root[1 + NameLen(root)]);
    root[1 + NameLen(root)] as int
  }

  /** What read_root_prefix accepts. */
  predicate Prefixed(root: Bytes) {
    && |root| >= 2 && 1 <= NameLen(root) <= MAX_NAME && 1 + NameLen(root) < |root|
    && 2 + NameLen(root) + VmetaLen(root) <= |root|
  }

  function PrefixLen(root: Bytes): (n: nat)
    requires Prefixed(root)
    ensures 3 <= n <= |root|
  {
    2 + NameLen(root) + VmetaLen(root)
  }

  function NameOf(root: Bytes): Bytes
    requires Prefixed(root)
  {
    root[1..1 + NameLen(root)]
  }

  /** stage_root_prefix. */
  function Prefix(name: Bytes): (b: Bytes)
    requires 1 <= |name| <= MAX_NAME
    ensures |b| == 2 + |name|
  {
    [|name| as bv8] + name + [0]
  }

  /** The prefix says the name and where the payload begins. */
  lemma PrefixRoundTrip(name: Bytes, payload: Bytes)
    requires 1 <= |name| <= MAX_NAME
    ensures var root := Prefix(name) + payload;
      Prefixed(root) && NameOf(root) == name && PrefixLen(root) == |Prefix(name)| && root[0] != ERASED_BYTE
  {
    var root := Prefix(name) + payload;
    ByteNumber(|name|);
    assert root[0] == |name| as bv8;
    assert root[1 + |name|] == 0;
    assert root[1..1 + |name|] == name;
    SmallByte(root[0]);
  }

  lemma SmallByte(b: bv8)
    requires b as int <= MAX_NAME
    ensures b != ERASED_BYTE
  {
  }

  function Join(ps: seq<Bytes>): Bytes {
    if ps == [] then [] else Join(ps[..|ps| - 1]) + ps[|ps| - 1]
  }

  /** The extents without the prefix of the root. */
  function Payloads(f: File): (ps: seq<Bytes>)
    requires f.pieces != [] && Prefixed(f.pieces[0])
    ensures |ps| == |f.pieces|
  {
    f.pieces[0 := f.pieces[0][PrefixLen(f.pieces[0])..]]
  }

  /** All bytes of the file. */
  function Contents(f: File): Bytes
    requires f.pieces != [] && Prefixed(f.pieces[0])
  {
    Join(Payloads(f))
  }

  /** The sizes that the records of these extents should have: all of it, then each one's offset. */
  ghost predicate SizesTrue(ps: seq<Bytes>, sizes: seq<nat>) {
    && ps != [] && |sizes| == |ps| && sizes[0] == |Join(ps)|
    && forall i | 0 < i < |ps| :: sizes[i] == |Join(ps[..i])|
  }

  /** A root with a prefix, continuations that hold something, and sizes that are true. */
  ghost predicate WellFormed(f: File) {
    && f.pieces != [] && Prefixed(f.pieces[0]) && SizesTrue(Payloads(f), f.sizes)
    && forall i | 0 < i < |f.pieces| :: f.pieces[i] != []
  }

  lemma {:induction false} JoinGrows(ps: seq<Bytes>, i: nat)
    requires i <= |ps|
    ensures Join(ps[..i]) <= Join(ps)
  {
    if i < |ps| {
      var init := ps[..|ps| - 1];
      JoinGrows(init, i);
      assert init[..i] == ps[..i];
    } else {
      assert ps[..i] == ps;
    }
  }

  lemma JoinNext(ps: seq<Bytes>, i: nat)
    requires i < |ps|
    ensures Join(ps[..i + 1]) == Join(ps[..i]) + ps[i]
  {
    assert ps[..i + 1][..i] == ps[..i];
  }

  /** The bytes of extent i are where they belong in the file. */
  lemma ExtentSlice(ps: seq<Bytes>, i: nat)
    requires i < |ps|
    ensures var lo := |Join(ps[..i])|; lo + |ps[i]| <= |Join(ps)| && Join(ps)[lo..lo + |ps[i]|] == ps[i]
  {
    JoinNext(ps, i);
    JoinGrows(ps, i + 1);
    Middle(Join(ps), Join(ps[..i]), ps[i]);
  }

  lemma Middle(whole: Bytes, front: Bytes, part: Bytes)
    requires front + part <= whole
    ensures |front| + |part| <= |whole| && whole[|front|..|front| + |part|] == part
  {
    assert whole[..|front| + |part|] == front + part;
    assert whole[|front|..|front| + |part|] == whole[..|front| + |part|][|front|..];
  }
}
