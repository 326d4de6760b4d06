/** The writing part of mksfs (user/sbin/mksfs/mksfs.c:69-144): the volume every run of SFS operations starts from. */
module SfsMake {
  import opened Bytes
  import opened Bitmaps
  import opened SfsLayout
  import opened SfsVolume
  import opened SfsSteps
  import opened SfsState
  import opened SfsContent
  import opened SfsDirSpec
  import opened SfsVnode
  import opened SfsNames
  import opened SfsFs
  import opened SfsOnDisk

  const MAXBITBLOCKS := 32
  const VOLNAME_SIZE := 32

  function SuperBlock(volname: seq<byte>, nblocks: word): Block
    requires |volname| < VOLNAME_SIZE
  {
    PutWords([MAGIC, nblocks]) + volname + Zeros(504 - |volname|)
  }

  lemma SuperBlockOk(volname: seq<byte>, nblocks: word)
    requires |volname| < VOLNAME_SIZE
    ensures SuperOk(SuperBlock(volname, nblocks), nblocks)
    ensures var b := SuperBlock(volname, nblocks); b[8..8 + |volname|] == volname && b[8 + |volname|] == 0
  {
    var ws: seq<word> := [MAGIC, nblocks];
    var b := SuperBlock(volname, nblocks);
    GetPut(ws, 0);
    GetPut(ws, 1);
    assert b[..8] == PutWords(ws);
    assert forall j | 0 <= j < 8 :: b[j] == b[..8][j];
  }

  function RootInode(): Inode {
    Inode(0, TYPE_DIR, 1, seq(15, _ => 0), 0, seq(110, _ => 0))
  }

  /** doallocbit: a clear bit of the buffer becomes set. */
  method AllocBit(bitbuf: array<bv8>, bit: nat)
    requires bit < 8 * bitbuf.Length && !BitsOf(bitbuf[..])[bit]
    modifies bitbuf
    ensures BitsOf(bitbuf[..]) == old(BitsOf(bitbuf[..]))[bit := true]
  {
    hide Bit;
    hide BitsOf;
    SetWord(bitbuf[..], bit);
    ghost var v := bitbuf[..];
    bitbuf[bit / 8] := bitbuf[bit / 8] | (1 << (bit % 8));
    assert bitbuf[..] == v[bit / 8 := v[bit / 8] | (1 << (bit % 8))];
  }

  /** The bits a new volume has set: superblock, root inode, the map itself, and those past the last block. */
  predicate Marked(nblocks: nat, b: nat) {
    b == SB_LOCATION || b == ROOT_LOCATION || MAP_LOCATION <= b < MAP_LOCATION + BitBlocks(nblocks)
    || nblocks <= b < BitmapSize(nblocks)
  }

  /** The marking part of writebitmap; no bit is marked twice. */
  method MarkBits(bitbuf: array<bv8>, fsblocks: nat)
    requires bitbuf.Length == MAXBITBLOCKS * BLOCKSIZE && BitBlocks(fsblocks) <= MAXBITBLOCKS
    requires MAP_LOCATION + BitBlocks(fsblocks) <= fsblocks
    requires forall b | 0 <= b < 8 * bitbuf.Length :: !BitsOf(bitbuf[..])[b]
    modifies bitbuf
    ensures forall b | 0 <= b < 8 * bitbuf.Length :: BitsOf(bitbuf[..])[b] <==> Marked(fsblocks, b)
  {
    hide BitsOf;
    hide BitBlocks;
    var nbits, nblocks := BitmapSize(fsblocks), BitBlocks(fsblocks);
    EnoughBits(fsblocks);
    AllocBit(bitbuf, SB_LOCATION);
    AllocBit(bitbuf, ROOT_LOCATION);
    for i := 0 to nblocks
      invariant forall b | 0 <= b < 8 * bitbuf.Length :: BitsOf(bitbuf[..])[b] <==> b < MAP_LOCATION + i
    {
      AllocBit(bitbuf, MAP_LOCATION + i);
    }
    for i := fsblocks to nbits
      invariant forall b | 0 <= b < 8 * bitbuf.Length ::
                  BitsOf(bitbuf[..])[b] <==> b < MAP_LOCATION + nblocks || fsblocks <= b < i
    {
      AllocBit(bitbuf, i);
    }
  }

  lemma EnoughBits(fsblocks: nat)
    ensures fsblocks <= BitmapSize(fsblocks) == 8 * BLOCKSIZE * BitBlocks(fsblocks)
  {
  }

  /** The writing part of writebitmap: the map on disk is the first part of the buffer. */
  method WriteBits(disk: seq<Block>, bitbuf: array<bv8>) returns (disk': seq<Block>)
    requires bitbuf.Length == MAXBITBLOCKS * BLOCKSIZE && BitBlocks(|disk|) <= MAXBITBLOCKS
    requires MAP_LOCATION + BitBlocks(|disk|) <= |disk|
    ensures |disk'| == |disk|
         && forall b | 0 <= b < |disk| && !(MAP_LOCATION <= b < MAP_LOCATION + BitBlocks(|disk|)) ::
                                   disk'[b] == disk[b]
    ensures MapOf(disk') == bitbuf[..BLOCKSIZE * BitBlocks(|disk|)]
  {
    hide BitBlocks;
    hide MapOf;
    var nblocks := BitBlocks(|disk|);
    var v := bitbuf[..BLOCKSIZE * nblocks];
    disk' := disk;
    for i := 0 to nblocks
      invariant |disk'| == |disk| && forall j | 0 <= j < i :: disk'[MAP_LOCATION + j] == MapBlock(v, j)
      invariant forall b | 0 <= b < |disk| && !(MAP_LOCATION <= b < MAP_LOCATION + i) :: disk'[b] == disk[b]
    {
      disk' := disk'[MAP_LOCATION + i := MapBlock(v, i)];
    }
    MapBuilt(disk', v);
  }

  lemma PrefixBits(v: seq<bv8>, n: nat)
    requires n <= |v|
    ensures BitsOf(v[..n]) == BitsOf(v)[..8 * n]
  {
    hide Bit;
  }

  lemma ZeroBits(v: seq<bv8>)
    requires forall k | 0 <= k < |v| :: v[k] == 0
    ensures forall b | 0 <= b < 8 * |v| :: !BitsOf(v)[b]
  {
    assert forall j | 0 <= j < 8 :: !Bit(0, j);
    hide Bit;
    hide BitsOf;
    forall b | 0 <= b < 8 * |v|
      ensures !BitsOf(v)[b]
    {
      BitAt(v, b);
    }
  }

  /** The owners on a new volume: the root inode's block, and nothing else. */
  ghost function NewOwners(): Owners {
    map[ROOT_LOCATION := InodeOf(ROOT_LOCATION)]
  }

  /**
   * writesuper, writerootdir and writebitmap: refused exactly for a name or a disk that is too large; otherwise the
   * disk holds a consistent, empty volume.
   */
  method Format(disk: seq<Block>, volname: seq<byte>) returns (ok: bool, disk': seq<Block>)
    requires MAP_LOCATION + BitBlocks(|disk|) <= |disk| < 0x80_0000
    ensures ok <==> |volname| < 32 && BitBlocks(|disk|) <= 32
    ensures ok ==> |disk'| == |disk| && SuperOk(disk'[SB_LOCATION], |disk|)
    ensures ok ==> disk'[0][8..8 + |volname|] == volname && disk'[0][8 + |volname|] == 0
    ensures ok ==> At32(disk'[1], 0) == 0 && At16(disk'[1], 4) == 2 && At16(disk'[1], 6) == 1
    ensures ok ==> var fs := Fs(disk', BitsOf(MapOf(disk')), map[]);
                   FsInv(fs, NewOwners(), 1) && Dir(fs) == map[] && View(fs, ROOT_LOCATION).size == 0
  {
    hide BitBlocks;
    hide BitsOf;
    hide MapOf;
    hide FsInv;
    hide Dir;
    hide View;
    hide EncodeInode;
    hide SuperBlock;
    hide Marked;
    if |volname| >= VOLNAME_SIZE {
      return false, disk;
    }
    disk' := disk[SB_LOCATION := SuperBlock(volname, |disk|)];
    disk' := disk'[ROOT_LOCATION := EncodeInode(RootInode())];
    if BitBlocks(|disk|) > MAXBITBLOCKS {
      return false, disk';
    }
    var bitbuf := new bv8[MAXBITBLOCKS * BLOCKSIZE](_ => 0);
    ZeroBits(bitbuf[..]);
    MarkBits(bitbuf, |disk|);
    disk' := WriteBits(disk', bitbuf);
    SuperBlockOk(volname, |disk|);
    InodeBytes(RootInode());
    EnoughBits(|disk|);
    PrefixBits(bitbuf[..], BLOCKSIZE * BitBlocks(|disk|));
    assert bitbuf[..][..BLOCKSIZE * BitBlocks(|disk|)] == bitbuf[..BLOCKSIZE * BitBlocks(|disk|)];
    DecodeEncode(RootInode());
    NewVolume(Fs(disk', BitsOf(MapOf(disk')), map[]));
    ok := true;
  }

  lemma NewVolume(fs: Fs)
    requires fs.cache == map[] && MAP_LOCATION + BitBlocks(|fs.disk|) <= |fs.disk| < 0x80_0000
    requires |fs.bits| == BitmapSize(|fs.disk|) && forall b | 0 <= b < |fs.bits| :: fs.bits[b] <==> Marked(|fs.disk|, b)
    requires DecodeInode(fs.disk[ROOT_LOCATION]) == RootInode()
    ensures FsInv(fs, NewOwners(), 1) && Dir(fs) == map[] && View(fs, ROOT_LOCATION).size == 0
  {
    hide BitBlocks;
    hide DecodeInode;
    hide FileInv;
    hide Blocks;
    hide Flat;
    hide Ptrs;
    var own, ino := NewOwners(), RootInode();
    PtrsNone(fs.disk, ino);
    FileNone(own, ROOT_LOCATION, Ptrs(fs.disk, ino));
    assert InodeInv(fs, own, ROOT_LOCATION);
    assert VolInv(fs, own);
    assert Slots(fs) == [];
    assert Names(Slots(fs)) == map[];
  }

  /** A new volume can be mounted: it is sound, has no names and nothing in use but the root inode. */
  method FormatAndMount(disk: seq<Block>, volname: seq<byte>) returns (sfs: Sfs?)
    requires MAP_LOCATION + BitBlocks(|disk|) <= |disk| < 0x80_0000
    ensures sfs != null <==> |volname| < VOLNAME_SIZE && BitBlocks(|disk|) <= MAXBITBLOCKS
    ensures sfs != null ==>
              && fresh(sfs) && fresh(sfs.freemap) && fresh(sfs.freemap.v) && Sound(sfs) && sfs.vnodes == []
              && |sfs.fs.disk| == |disk|
              && Dir(sfs.fs) == map[] && sfs.own == NewOwners()
  {
    hide BitBlocks;
    hide BitsOf;
    hide MapOf;
    hide FsInv;
    hide Dir;
    hide View;
    hide Sfs.Shape;
    var ok, disk' := Format(disk, volname);
    if !ok {
      return null;
    }
    var err;
    assert disk'[..|disk'|] == disk';
    err, sfs := Mount(disk', BLOCKSIZE, NewOwners(), 1);
  }
}
