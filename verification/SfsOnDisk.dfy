/** Where the fields of the on-disk structures are (kern/include/kern/sfs.h:38-95), byte by byte. */
module SfsOnDisk {
  import opened Bytes
  import opened Bitmaps
  import opened SfsLayout
  import opened SfsVolume
  import opened SfsState
  import opened SfsDirSpec

  /** The big-endian numbers at an address. */
  function At32(b: seq<byte>, a: nat): (n: nat)
    requires a + 4 <= |b|
    ensures n < 4294967296
  {
    (b[a] as int) * 16777216 + (b[a + 1] as int) * 65536 + (b[a + 2] as int) * 256 + b[a + 3]
  }

  function At16(b: seq<byte>, a: nat): (n: nat)
    requires a + 2 <= |b|
    ensures n < 65536
  {
    (b[a] as int) * 256 + b[a + 1]
  }

  lemma WordAt(b: seq<byte>, k: nat)
    requires 4 * k + 4 <= |b|
    ensures GetWord(b, k) == At32(b, 4 * k) == At16(b, 4 * k) * 65536 + At16(b, 4 * k + 2)
  {
  }

  lemma Halves(h: nat, l: nat)
    requires l < 65536
    ensures (h * 65536 + l) / 65536 == h && (h * 65536 + l) % 65536 == l
  {
  }

  /** struct sfs_inode: size, type, link count, 15 direct pointers, the indirect pointer. */
  lemma InodeBytes(i: Inode)
    ensures var b := EncodeInode(i);
            && At32(b, 0) == i.size && At16(b, 4) == i.typ && At16(b, 6) == i.links && At32(b, 68) == i.indirect
            && forall k | 0 <= k < 15 :: At32(b, 8 + 4 * k) == i.direct[k]
  {
    hide EncodeInode;
    hide GetWord;
    hide At32;
    hide At16;
    var b := EncodeInode(i);
    DecodeEncode(i);
    WordAt(b, 0);
    WordAt(b, 1);
    WordAt(b, 17);
    Halves(At16(b, 4), At16(b, 6));
    forall k | 0 <= k < 15
      ensures At32(b, 8 + 4 * k) == i.direct[k]
    {
      WordAt(b, 2 + k);
      assert DecodeInode(b).direct[k] == GetWord(b, 2 + k);
    }
  }

  /** Block k of a file is at direct pointer k, or at word k - 15 of the indirect block, or is a hole. */
  lemma PointerBytes(disk: seq<Block>, i: Inode, k: nat)
    requires k < 143 && i.indirect < |disk|
    ensures Ptrs(disk, i)[k] == if k < 15 then At32(EncodeInode(i), 8 + 4 * k)
                                else if i.indirect == 0 then 0
                                else At32(disk[i.indirect], 4 * (k - 15))
  {
    hide EncodeInode;
    hide GetWord;
    hide At32;
    InodeBytes(i);
    if k >= 15 && i.indirect != 0 {
      WordAt(disk[i.indirect], k - 15);
      assert Pointers(disk[i.indirect])[k - 15] == GetWord(disk[i.indirect], k - 15);
    }
  }

  lemma AtStart(w: seq<byte>, rest: seq<byte>)
    requires |w| == 4
    ensures At32(w + rest, 0) == At32(w, 0)
  {
    var b := w + rest;
    assert b[0] == w[0] && b[1] == w[1] && b[2] == w[2] && b[3] == w[3];
  }

  /** struct sfs_dir: the inode number, and the name with zeros up to the end of its 60 bytes. */
  lemma EntryBytes(sd: Slot)
    requires |sd.name| < 60
    ensures var b := EncodeSlot(sd);
            && |b| == 64 && At32(b, 0) == sd.ino && b[4..4 + |sd.name|] == sd.name
            && forall k | 4 + |sd.name| <= k < 64 :: b[k] == 0
  {
    hide PutWords;
    hide At32;
    var b, w := EncodeSlot(sd), PutWords([sd.ino]);
    GetPut([sd.ino], 0);
    assert b == w + (sd.name + Zeros(NAMELEN - |sd.name|));
    AtStart(w, sd.name + Zeros(NAMELEN - |sd.name|));
    WordAt(w, 0);
  }

  /** Slot s of a directory is the 64 bytes from 64 * s on. */
  lemma SlotBytes(f: seq<byte>, s: nat)
    requires 64 * s + 64 <= |f|
    ensures SlotAt(f, s).ino == At32(f, 64 * s) && SlotAt(f, s).name == CStr(f[64 * s + 4..64 * s + 63])
  {
    SubSlice(f, 64 * s, 4, 63);
    WordAt(f[64 * s..64 * s + 64], 0);
    hide CStr;
  }

  lemma SubSlice(f: seq<byte>, at: nat, lo: nat, hi: nat)
    requires at + 64 <= |f| && lo <= hi <= 64
    ensures f[at..at + 64][lo..hi] == f[at + lo..at + hi]
    ensures At32(f[at..at + 64], 0) == At32(f, at)
  {
    var b := f[at..at + 64];
    assert b[0] == f[at] && b[1] == f[at + 1] && b[2] == f[at + 2] && b[3] == f[at + 3];
    assert |b[lo..hi]| == |f[at + lo..at + hi]|;
    forall k | 0 <= k < hi - lo
      ensures b[lo..hi][k] == f[at + lo..at + hi][k]
    {
      assert b[lo..hi][k] == b[lo + k] == f[at + lo + k];
    }
  }

  /** struct sfs_super: the magic number and the number of blocks. */
  lemma SuperBytes(b: Block, nblocks: nat)
    ensures SuperOk(b, nblocks) <==> At32(b, 0) == 0xabadf001 && At32(b, 4) == nblocks
  {
    hide GetWord;
    hide At32;
    WordAt(b, 0);
    WordAt(b, 1);
  }

  /** The free map: block b's bit is bit b % 8, counted from the low end, of byte b / 8 from block 2 on. */
  lemma MapBytes(disk: seq<Block>, b: nat)
    requires 2 + BitBlocks(|disk|) <= |disk| && b < 4096 * BitBlocks(|disk|)
    ensures BitsOf(MapOf(disk))[b] <==> (disk[2 + b / 4096][b % 4096 / 8] as bv8) & (1 << (b % 8)) != 0
  {
    hide BitBlocks;
    hide BitsOf;
    hide Bit;
    var n := b / 8;
    assert n / 512 == b / 4096 && n % 512 == b % 4096 / 8;
    assert MapOf(disk)[n] == disk[2 + n / 512][n % 512] as bv8;
    BitIs(MapOf(disk), b);
  }

  lemma BitIs(v: seq<bv8>, b: nat)
    requires b < 8 * |v|
    ensures BitsOf(v)[b] <==> v[b / 8] & (1 << (b % 8)) != 0
  {
  }
}
