/** How many blocks files can take up, and what that says about a new volume. */
module SfsCapacity {
  import opened Bytes
  import opened Uios
  import opened SfsLayout
  import opened SfsVolume
  import opened SfsState
  import opened SfsContent
  import opened SfsIo
  import opened SfsTruncate
  import opened SfsDirSpec
  import opened SfsDir
  import opened SfsVnode
  import opened SfsNames
  import opened SfsFile
  import opened SfsMake

  const FILEBLOCKS := 145  // the inode, an indirect block and MAXFILEBLOCKS blocks of data

  /** The blocks that belong to the inodes in s. */
  ghost function BlocksOf(own: Owners, s: set<nat>): set<nat> {
    set b | b in own && own[b].ino in s
  }

  ghost function Inodes(own: Owners): set<nat> {
    set b | b in own && own[b] == InodeOf(b)
  }

  function Elements(ps: seq<word>): set<nat> {
    set k | 0 <= k < |ps| :: ps[k] as nat
  }

  lemma {:induction false} ElementsBound(ps: seq<word>)
    ensures |Elements(ps)| <= |ps|
  {
    if ps == [] {
      assert Elements(ps) == {};
    } else {
      var init, last := ps[..|ps| - 1], ps[|ps| - 1];
      ElementsBound(init);
      assert Elements(ps) == Elements(init) + {last as nat} by { ElementsLast(ps); }
    }
  }

  lemma ElementsLast(ps: seq<word>)
    requires ps != []
    ensures Elements(ps) == Elements(ps[..|ps| - 1]) + {ps[|ps| - 1] as nat}
  {
    var init, last := ps[..|ps| - 1], ps[|ps| - 1];
    forall x | x in Elements(ps)
      ensures x in Elements(init) + {last as nat}
    {
      var k :| 0 <= k < |ps| && x == ps[k];
      if k < |init| {
        assert x == init[k];
      }
    }
    forall x | x in Elements(init) + {last as nat}
      ensures x in Elements(ps)
    {
      if x in Elements(init) {
        var k :| 0 <= k < |init| && x == init[k];
        assert x == ps[k];
      } else {
        assert x == ps[|ps| - 1];
      }
    }
  }

  lemma SubsetCard(a: set<nat>, b: set<nat>)
    requires a <= b
    ensures |a| <= |b|
  {
    assert b == a + (b - a);
  }

  /** A file takes up at most 145 blocks. */
  lemma FileBlocks(fs: Fs, own: Owners, i: nat)
    requires VolInv(fs, own)
    ensures |BlocksOf(own, {i})| <= FILEBLOCKS
  {
    hide Ptrs;
    hide DecodeInode;
    hide Elements;
    if Live(own, i) {
      assert InodeInv(fs, own, i);
      var ino := Cur(fs, i);
      var ps := Ptrs(fs.disk, ino);
      PartsOf(|fs.disk|, own, i, ino.indirect, ps);
      ElementsBound(ps);
      var all := {i, ino.indirect as nat} + Elements(ps);
      SubsetCard(BlocksOf(own, {i}), all);
      assert |all| <= 2 + |Elements(ps)|;
    } else {
      assert BlocksOf(own, {i}) == {};
    }
  }

  lemma PartsOf(n: nat, own: Owners, i: nat, indirect: nat, ps: seq<word>)
    requires OwnersInv(n, own) && FileInv(own, i, indirect, ps)
    ensures BlocksOf(own, {i}) <= {i, indirect} + Elements(ps)
  {
    forall b | b in BlocksOf(own, {i})
      ensures b in {i, indirect} + Elements(ps)
    {
      if own[b].DataOf? {
        assert ps[own[b].k] == b;
      }
    }
  }

  lemma {:induction false} FilesBlocks(fs: Fs, own: Owners, s: set<nat>)
    requires VolInv(fs, own)
    ensures |BlocksOf(own, s)| <= FILEBLOCKS * |s|
    decreases |s|
  {
    hide VolInv;
    if s == {} {
      assert BlocksOf(own, s) == {};
    } else {
      var i :| i in s;
      FileBlocks(fs, own, i);
      FilesBlocks(fs, own, s - {i});
      assert BlocksOf(own, s) == BlocksOf(own, s - {i}) + BlocksOf(own, {i});
      assert |s - {i}| == |s| - 1;
    }
  }

  /** The n numbers from lo on. */
  function Range(lo: nat, n: nat): set<nat> {
    if n == 0 then {} else Range(lo, n - 1) + {lo + n - 1}
  }

  lemma {:induction false} RangeHas(lo: nat, n: nat, x: nat)
    ensures x in Range(lo, n) <==> lo <= x < lo + n
  {
    if n > 0 {
      RangeHas(lo, n - 1, x);
    }
  }

  lemma {:induction false} RangeCard(lo: nat, n: nat)
    ensures |Range(lo, n)| == n
  {
    if n > 0 {
      RangeCard(lo, n - 1);
      RangeHas(lo, n - 1, lo + n - 1);
    }
  }

  /**
   * A volume has at least as many free blocks as are left when the superblock, the map and 145 blocks for each file
   * are taken off: with few enough files it cannot be full.
   */
  lemma FreeAtLeast(fs: Fs, own: Owners)
    requires VolInv(fs, own)
    ensures |fs.disk| <= 1 + BitBlocks(|fs.disk|) + FILEBLOCKS * |Inodes(own)| + |Free(fs)|
  {
    hide InodeInv;
    hide CacheInv;
    hide BitBlocks;
    hide Range;
    var n := |fs.disk|;
    var m := BitBlocks(n);
    RangeCard(0, n);
    RangeCard(MAP_LOCATION, m);
    FilesBlocks(fs, own, Inodes(own));
    EnoughBits(n);
    var used := BlocksOf(own, Inodes(own));
    var all := {SB_LOCATION as nat} + Range(MAP_LOCATION, m) + used + Free(fs);
    forall x: nat | x in Range(0, n)
      ensures x in all
    {
      RangeHas(0, n, x);
      RangeHas(MAP_LOCATION, m, x);
      if fs.bits[x] && !Reserved(n, x) {
        assert x in own && Live(own, own[x].ino);
      }
    }
    SubsetCard(Range(0, n), all);
    UnionCard({SB_LOCATION as nat}, Range(MAP_LOCATION, m));
    UnionCard({SB_LOCATION as nat} + Range(MAP_LOCATION, m), used);
    UnionCard({SB_LOCATION as nat} + Range(MAP_LOCATION, m) + used, Free(fs));
  }

  lemma UnionCard(a: set<nat>, b: set<nat>)
    ensures |a + b| <= |a| + |b|
  {
    var c := b - a;
    SubsetCard(c, b);
    assert a + b == a + c && a !! c;
  }

  // ---- a volume on which truncation keeps one block too many ----

  const ONES: Block := seq(512, _ => 1)

  lemma BitsFor1000()
    ensures BitBlocks(1000) == 1
  {
  }

  /** On a volume of 1000 blocks with at most two files, the root included, more than two blocks are free. */
  lemma RoomLeft(fs: Fs, own: Owners, b: nat)
    requires VolInv(fs, own) && |fs.disk| == 1000 && forall j | Live(own, j) :: j == ROOT_LOCATION || j == b
    ensures |Free(fs)| > 2
  {
    hide VolInv;
    hide Free;
    hide BitBlocks;
    BitsFor1000();
    FreeAtLeast(fs, own);
    forall x | x in Inodes(own)
      ensures x in {ROOT_LOCATION as nat, b}
    {
      assert Live(own, x);
    }
    SubsetCard(Inodes(own), {ROOT_LOCATION as nat, b});
    assert |{ROOT_LOCATION as nat, b}| <= 2;
  }

  /** With so many free blocks, and no name yet, creating a file can only succeed. */
  lemma CanCreate(fs: Fs, own: Owners, base: nat)
    requires FsInv(fs, own, base) && Dir(fs) == map[] && |Free(fs)| > 2
    ensures !Full(fs) && !NoSpaceForName(fs, 1) && !DirFull(fs)
  {
    hide VolInv;
    hide DirInv;
    hide Slots;
    hide Names;
    hide UniqueNames;
    hide NewSlot;
    hide Ptrs;
    hide Free;
    FullIsNoneFree(fs);
    SoundDirOk(fs, own, base);
    if DirFull(fs) {
      NameAt(Slots(fs), 0);
    }
  }

  lemma NewFileType(fs: Fs, own: Owners, fs': Fs, own': Owners, b: nat, m: map<seq<byte>, nat>)
    requires Made(fs, own, fs', own', b, m)
    ensures |fs'.disk| == |fs.disk| && b < |fs'.disk| && Cur(fs', b).typ == TYPE_FILE
    ensures forall j | Live(own', j) :: Live(own, j) || j == b
  {
    hide Dir;
    hide Ptrs;
    hide Blocks;
    hide AgreeOff;
  }

  lemma NotStuck(fs: Fs, i: nat, k: nat)
    requires |Free(fs)| > 2 && k < MAXFILEBLOCKS
    ensures !Stuck(fs, i, UioWrite, Pos(k * BLOCKSIZE) / BLOCKSIZE)
  {
    hide Free;
    hide Ptrs;
  }

  /** A write of a whole block that moved something moved all of it. */
  lemma WholeOrNothing(u: UioState, u': UioState, data: seq<byte>, err: Errno, k: nat)
    requires UioStep(UioWrite, u, u', data) && u.offset == k * BLOCKSIZE && u.resid == BLOCKSIZE && u.source == ONES
    requires data != [] && if err == Success then u'.resid == 0 else u'.offset % BLOCKSIZE == 0 && u'.resid > 0
    ensures data == ONES
  {
    assert u.source[..BLOCKSIZE] == ONES;
  }

  lemma BlockWritten(fs: Fs, own: Owners, fs': Fs, own': Owners, i: nat, k: nat)
    requires k < MAXFILEBLOCKS && Wrote(fs, own, fs', own', i, k * BLOCKSIZE, ONES)
    ensures i < |fs'.disk| == |fs.disk| && View(fs', i).blocks[k] == ONES && View(fs', i).typ == View(fs, i).typ
  {
    hide VolInv;
    hide OthersSame;
    hide AgreeOff;
    hide View;
    hide Flat;
    var bs := View(fs', i).blocks;
    FlatSlice(bs, k, 0, BLOCKSIZE);
    assert bs[k][0..BLOCKSIZE] == bs[k];
    assert Overlay(Content(fs, i), k * BLOCKSIZE, ONES)[k * BLOCKSIZE..k * BLOCKSIZE + BLOCKSIZE] == ONES;
  }

  lemma BlockKept(fs: Fs, own: Owners, fs': Fs, own': Owners, i: nat)
    requires Truncated(fs, own, fs', own', i, 20 * BLOCKSIZE) && View(fs, i).blocks[20] == ONES
    ensures |fs'.disk| == |fs.disk| && Ptrs(fs'.disk, Cur(fs', i))[20] != 0 && View(fs', i).blocks[20] == ONES
    ensures Cur(fs', i).size == 20 * BLOCKSIZE && Cur(fs', i).typ == Cur(fs, i).typ
  {
    hide VolInv;
    hide OthersSame;
    hide AgreeOff;
    hide Ptrs;
    hide Blocks;
    hide Kept;
    hide NoSlotKept;
    assert BlockLen(20 * BLOCKSIZE) == 20;
    OneBlockTooMany(fs, own, fs', own', i, 20 * BLOCKSIZE);
    MappedFetch(fs', i, 20, Ptrs(fs'.disk, Cur(fs', i))[20]);
    assert ONES[0] != ZeroBlock[0];
  }

  lemma CurIs(fs: Fs, i: nat)
    requires i < |fs.disk|
    ensures View(fs, i).typ == Cur(fs, i).typ && (i in fs.cache ==> Cur(fs, i) == fs.cache[i].inode)
  {
  }

  /** Format a disk of 1000 blocks, mount it, create a file, and write one block of ones as its block k. */
  method WithBlock(k: nat) returns (sfs: Sfs, f: Vnode)
    requires k < MAXFILEBLOCKS
    ensures fresh(sfs) && fresh(sfs.freemap) && fresh(sfs.freemap.v) && fresh(f)
    ensures Sound(sfs) && f in sfs.vnodes && f.inode.typ == TYPE_FILE
    ensures f.ino < |sfs.fs.disk| && View(sfs.fs, f.ino).blocks[k] == ONES
  {
    hide VolInv;
    hide DirInv;
    hide Sfs.Shape;
    hide View;
    hide Ptrs;
    hide Dir;
    hide Made;
    hide Wrote;
    hide Stuck;
    hide Rest;
    hide Free;
    hide Full;
    hide NoSpaceForName;
    hide DirFull;
    hide Ending;
    hide LoadVn;
    hide BitBlocks;
    hide Pos;
    BitsFor1000();
    var volume := FormatAndMount(seq(1000, _ => ZeroBlock), []);
    sfs := volume;
    ghost var fs0 := sfs.fs;
    RootLive(sfs.fs, sfs.own);
    var dv := GetVnode(sfs, ROOT_LOCATION);
    LoadKeeps(fs0, sfs.own, sfs.fs, ROOT_LOCATION, sfs.base);
    RoomLeft(sfs.fs, sfs.own, ROOT_LOCATION);
    CanCreate(sfs.fs, sfs.own, sfs.base);
    ghost var fs, own := sfs.fs, sfs.own;
    var err, sv := Creat(sfs, dv, [97], true);
    f := sv;
    NewFileType(fs, own, sfs.fs, sfs.own, f.ino, Dir(fs)[[97] := f.ino]);
    RoomLeft(sfs.fs, sfs.own, f.ino);
    NotStuck(sfs.fs, f.ino, k);
    ShapeVn(sfs, f);
    CurIs(sfs.fs, f.ino);
    var uio := new Uio(ONES, k * BLOCKSIZE, UioWrite);
    ghost var u := uio.State();
    fs, own := sfs.fs, sfs.own;
    ghost var data;
    err, data := Write(sfs, f, uio);
    WholeOrNothing(u, uio.State(), data, err, k);
    BlockWritten(fs, own, sfs.fs, sfs.own, f.ino, k);
    ShapeVn(sfs, f);
    CurIs(sfs.fs, f.ino);
  }

  /** Truncated to 20 blocks, such a file still has its block 20, full of ones. */
  method OneBlockTooManyShown() returns (sfs: Sfs, f: Vnode)
    ensures Sound(sfs) && f in sfs.vnodes && f.inode.typ == TYPE_FILE && f.inode.size == 20 * BLOCKSIZE
    ensures f.ino < |sfs.fs.disk| && Ptrs(sfs.fs.disk, Cur(sfs.fs, f.ino))[20] != 0
    ensures View(sfs.fs, f.ino).blocks[20] == ONES
  {
    hide VolInv;
    hide DirInv;
    hide Sfs.Shape;
    hide View;
    hide Ptrs;
    hide Dir;
    hide Truncated;
    sfs, f := WithBlock(20);
    ghost var fs, own := sfs.fs, sfs.own;
    ShapeVn(sfs, f);
    CurIs(fs, f.ino);
    TruncateFile(sfs, f, 20 * BLOCKSIZE);
    BlockKept(fs, own, sfs.fs, sfs.own, f.ino);
    ShapeVn(sfs, f);
    CurIs(sfs.fs, f.ino);
  }

  lemma FirstBytes(fs: Fs, i: nat)
    requires i < |fs.disk| && View(fs, i).blocks[0] == ONES
    ensures Content(fs, i)[1] == 1
  {
    hide View;
  }

  /** Truncated to one byte, such a file still has its second byte, which a later write past it makes readable. */
  method TailStaysShown() returns (sfs: Sfs, f: Vnode)
    ensures Sound(sfs) && f in sfs.vnodes && f.inode.typ == TYPE_FILE && f.inode.size == 1
    ensures f.ino < |sfs.fs.disk| && Content(sfs.fs, f.ino)[1] == 1
  {
    hide VolInv;
    hide DirInv;
    hide Sfs.Shape;
    hide View;
    hide Content;
    hide Dir;
    hide Truncated;
    sfs, f := WithBlock(0);
    FirstBytes(sfs.fs, f.ino);
    ghost var fs, own := sfs.fs, sfs.own;
    ShapeVn(sfs, f);
    CurIs(fs, f.ino);
    TruncateFile(sfs, f, 1);
    TailStays(fs, own, sfs.fs, sfs.own, f.ino, 1);
    ShortNow(fs, own, sfs.fs, sfs.own, f.ino, 1);
    ShapeVn(sfs, f);
    CurIs(sfs.fs, f.ino);
  }

  lemma ShortNow(fs: Fs, own: Owners, fs': Fs, own': Owners, i: nat, len: word)
    requires Truncated(fs, own, fs', own', i, len)
    ensures |fs'.disk| == |fs.disk| && Cur(fs', i).size == len && Cur(fs', i).typ == Cur(fs, i).typ
  {
    hide VolInv;
    hide OthersSame;
    hide AgreeOff;
    hide Ptrs;
    hide Blocks;
    hide Kept;
    hide NoSlotKept;
  }
}
