/** kern/include/kern/sfs.h: the on-disk structures of SFS, as the bytes of 512-byte blocks. */
module SfsLayout {
  import opened Bytes
  import opened Bitmaps

  const BLOCKSIZE := 512
  const NDIRECT := 15
  const DBPERIDB := 128
  const MAXFILEBLOCKS := 143            // NDIRECT + DBPERIDB
  const MAXFILESIZE := 73216            // MAXFILEBLOCKS * BLOCKSIZE
  const NAMELEN := 60
  const DIRENTSIZE := 64                // a 4-byte inode number and NAMELEN name bytes
  const MAXSLOTS := 1144                // MAXFILESIZE / DIRENTSIZE
  const SB_LOCATION := 0
  const ROOT_LOCATION := 1
  const MAP_LOCATION := 2
  const NOINO := 0
  const BLOCKBITS := 4096
  const MAGIC := 0xabadf001

  const TYPE_INVAL := 0
  const TYPE_FILE := 1
  const TYPE_DIR := 2

  datatype Errno = Success | ENOENT | EEXIST | ENOSPC | EFBIG | ENAMETOOLONG | EBUSY | EINVAL | ENXIO

  type Block = b: seq<byte> | |b| == 512 witness Zeros(512)

  const ZeroBlock: Block := Zeros(512)

  /** SFS_BITBLOCKS and SFS_BITMAPSIZE: the free map rounded up to whole blocks. */
  function BitBlocks(nblocks: nat): nat {
    DivRoundUp(nblocks, BLOCKBITS)
  }

  function BitmapSize(nblocks: nat): nat {
    BitBlocks(nblocks) * BLOCKBITS
  }

  datatype InodeRec = Inode(size: word, typ: half, links: half, direct: seq<word>, indirect: word, waste: seq<word>)

  type Inode = i: InodeRec | |i.direct| == NDIRECT && |i.waste| == 110
    witness Inode(0, 0, 0, seq(15, _ => 0), 0, seq(110, _ => 0))

  function InodeWords(i: Inode): (ws: seq<word>)
    ensures |ws| == 128
  {
    [i.size, i.typ * 0x1_0000 + i.links] + i.direct + [i.indirect] + i.waste
  }

  function EncodeInode(i: Inode): Block
  {
    PutWords(InodeWords(i))
  }

  function DecodeInode(b: Block): Inode
  {
    Inode(GetWord(b, 0), GetWord(b, 1) / 0x1_0000, GetWord(b, 1) % 0x1_0000,
          seq(NDIRECT, k requires 0 <= k < NDIRECT => GetWord(b, 2 + k)), GetWord(b, 17),
          seq(110, k requires 0 <= k < 110 => GetWord(b, 18 + k)))
  }

  /** Writing an inode out and reading it back gives the same inode. */
  lemma DecodeEncode(i: Inode)
    ensures DecodeInode(EncodeInode(i)) == i
  {
    hide GetWord;
    hide PutWords;
    var ws := InodeWords(i);
    var b := EncodeInode(i);
    forall k | 0 <= k < 128
      ensures GetWord(b, k) == ws[k]
    {
      GetPut(ws, k);
    }
    assert GetWord(b, 0) == ws[0] && GetWord(b, 1) == ws[1] && GetWord(b, 17) == ws[17];
    assert forall k | 0 <= k < NDIRECT :: ws[2 + k] == i.direct[k];
    assert forall k | 0 <= k < 110 :: ws[18 + k] == i.waste[k];
  }

  function EmptyInode(): Inode {
    Inode(0, 0, 0, seq(15, _ => 0), 0, seq(110, _ => 0))
  }

  /** A cleared block reads as an inode of invalid type with no blocks and no links. */
  lemma DecodeZero()
    ensures DecodeInode(ZeroBlock) == EmptyInode()
  {
  }

  /** The pointers held by an indirect block. */
  function Pointers(b: Block): (ws: seq<word>)
    ensures |ws| == DBPERIDB
  {
    seq(DBPERIDB, j requires 0 <= j < DBPERIDB => GetWord(b, j))
  }

  lemma PointersPut(ws: seq<word>)
    requires |ws| == DBPERIDB
    ensures Pointers(PutWords(ws)) == ws
  {
    hide GetWord;
    hide PutWords;
    forall j | 0 <= j < DBPERIDB
      ensures Pointers(PutWords(ws))[j] == ws[j]
    {
      GetPut(ws, j);
    }
  }

  lemma PointersZero()
    ensures Pointers(ZeroBlock) == seq(DBPERIDB, _ => 0)
  {
  }

  /** The disk blocks holding the logical blocks of a file, 0 where the file has a hole. */
  function Ptrs(disk: seq<Block>, i: Inode): (ps: seq<word>)
    ensures |ps| == MAXFILEBLOCKS
  {
    i.direct + (if i.indirect == 0 || i.indirect >= |disk| then seq(DBPERIDB, _ => 0) else Pointers(disk[i.indirect]))
  }

  function Fetch(disk: seq<Block>, p: word): Block {
    if p == 0 || p >= |disk| then ZeroBlock else disk[p]
  }

  /** The logical blocks of a file; holes read as zeros. */
  function Blocks(disk: seq<Block>, ps: seq<word>): (bs: seq<Block>)
    ensures |bs| == |ps|
  {
    seq(|ps|, k requires 0 <= k < |ps| => Fetch(disk, ps[k]))
  }
}
