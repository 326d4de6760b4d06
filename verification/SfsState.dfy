/** The in-memory structures of a mounted SFS (struct sfs_vnode, struct sfs_fs) and block allocation. */
module SfsState {
  import opened Bytes
  import opened Bitmaps
  import opened SfsLayout
  import opened SfsVolume
  import opened SfsSteps

  /** struct sfs_vnode with the reference count of its struct vnode. */
  class Vnode {
    const ino: nat
    var inode: Inode
    var dirty: bool
    var refs: nat

    constructor (ino: nat, inode: Inode, dirty: bool)
      ensures this.ino == ino && this.inode == inode && this.dirty == dirty && refs == 1
    {
      this.ino, this.inode, this.dirty, this.refs := ino, inode, dirty, 1;
    }
  }

  /** What sfs_domount checks of a superblock, and the size it takes from it. */
  predicate SuperOk(super: Block, nblocks: nat) {
    GetWord(super, 0) == MAGIC && GetWord(super, 1) == nblocks
  }

  predicate Distinct(vnodes: seq<Vnode>) {
    forall i, j | 0 <= i < j < |vnodes| :: vnodes[i] != vnodes[j]
  }

  /** struct sfs_fs, with the contents of its device. */
  class Sfs {
    const super: Block
    const nblocks: nat
    const freemap: Bitmap
    var disk: seq<Block>
    var freemapdirty: bool
    var vnodes: seq<Vnode>
    ghost var table: map<nat, Vnode>  // the loaded vnode of each inode number
    ghost var own: Owners             // what each allocated block is used for
    ghost var fs: Fs                  // the state as a value
    ghost const base: nat             // the links of the root directory that no slot accounts for

    constructor (disk: seq<Block>, freemap: Bitmap, ghost own: Owners, ghost base: nat)
      requires freemap.Valid() && freemap.nbits == BitmapSize(|disk|) && MapSaved(disk, freemap.bits)
      requires |disk| > 0 && SuperOk(disk[SB_LOCATION], |disk|)
      ensures Shape() && fs == Fs(disk, freemap.bits, map[]) && this.own == own && this.base == base
      ensures nblocks == |disk| && this.freemap == freemap && !freemapdirty && vnodes == []
    {
      super, nblocks, this.freemap, this.disk := disk[SB_LOCATION], |disk|, freemap, disk;
      freemapdirty, vnodes := false, [];
      table, this.own, fs, this.base := map[], own, Fs(disk, freemap.bits, map[]), base;
    }

    /**
     * fs describes the fields, the vnode array holds each loaded inode exactly once, and the free map on disk
     * is current unless marked dirty; the superblock on disk is the one in memory.
     */
    ghost predicate Shape()
      reads this`disk, this`freemapdirty, this`vnodes, this`table, this`fs, freemap, freemap.v, vnodes
    {
      && freemap.Valid() && |disk| == nblocks && |freemap.bits| == freemap.nbits == BitmapSize(nblocks)
      && fs.disk == disk && fs.bits == freemap.bits && fs.cache.Keys == table.Keys
      && (forall v | v in vnodes :: v.ino in table && table[v.ino] == v)
      && (forall i | i in table :: table[i] in vnodes && table[i].ino == i)
      && (forall i | i in table :: fs.cache[i] == Vn(table[i].inode, table[i].dirty, table[i].refs))
      && Distinct(vnodes)
      && |disk| > 0 && disk[SB_LOCATION] == super && SuperOk(super, nblocks)
      && (freemapdirty || MapSaved(disk, fs.bits))
    }

    ghost predicate Valid()
      reads this, freemap, freemap.v, vnodes
    {
      Shape() && VolInv(fs, own)
    }
  }

  /** sfs_wblock. */
  method WriteBlock(sfs: Sfs, b: nat, data: Block)
    requires sfs.Shape() && 0 < b < sfs.nblocks && (sfs.freemapdirty || !Reserved(sfs.nblocks, b))
    modifies sfs`disk, sfs`fs
    ensures sfs.Shape() && sfs.fs == old(sfs.fs).(disk := old(sfs.fs).disk[b := data])
  {
    hide MapSaved;
    hide SuperOk;
    hide Reserved;
    hide Bitmap.Valid;
    if !sfs.freemapdirty {
      MapFrame(sfs.disk, b, data, sfs.fs.bits);
    }
    sfs.disk := sfs.disk[b := data];
    sfs.fs := sfs.fs.(disk := sfs.disk);
  }

  /** sfs_bfree. */
  method Bfree(sfs: Sfs, b: nat)
    requires sfs.Shape() && b < |sfs.fs.bits| && sfs.fs.bits[b]
    modifies sfs`freemapdirty, sfs`fs, sfs.freemap, sfs.freemap.v
    ensures sfs.Shape() && sfs.freemapdirty
    ensures sfs.fs == old(sfs.fs).(bits := old(sfs.fs).bits[b := false])
  {
    hide MapSaved;
    hide SuperOk;
    sfs.freemap.Unmark(b);
    sfs.fs := sfs.fs.(bits := sfs.freemap.bits);
    sfs.freemapdirty := true;
  }

  ghost predicate Full(fs: Fs) {
    forall b | 0 <= b < |fs.bits| :: fs.bits[b]
  }

  /** The free blocks. */
  ghost function Free(fs: Fs): set<nat> {
    set b | 0 <= b < |fs.bits| && !fs.bits[b]
  }

  lemma FullIsNoneFree(fs: Fs)
    ensures Full(fs) <==> |Free(fs)| == 0
  {
    if !Full(fs) {
      var b :| 0 <= b < |fs.bits| && !fs.bits[b];
      assert b in Free(fs);
    } else {
      assert Free(fs) == {};
    }
  }

  lemma OneLessFree(fs: Fs, fs1: Fs, b: nat)
    requires b < |fs.bits| && !fs.bits[b] && fs1.bits == fs.bits[b := true]
    ensures |Free(fs)| == |Free(fs1)| + 1
  {
    assert Free(fs) == Free(fs1) + {b};
  }

  /** sfs_balloc: the lowest free block, cleared; fails exactly when no block is free. */
  method Balloc(sfs: Sfs) returns (err: Errno, b: nat)
    requires sfs.Valid()
    modifies sfs`disk, sfs`freemapdirty, sfs`fs, sfs.freemap, sfs.freemap.v
    ensures sfs.Shape()
    ensures err.Success? || err.ENOSPC?
    ensures err.ENOSPC? ==> sfs.fs == old(sfs.fs) && Full(sfs.fs)
    ensures err.Success? ==> 0 < b < |old(sfs.fs).disk| && b < |old(sfs.fs).bits| && !old(sfs.fs).bits[b]
    ensures err.Success? ==> forall c | 0 <= c < b :: old(sfs.fs).bits[c]
    ensures err.Success? ==> sfs.fs == Grab(old(sfs.fs), b) && sfs.freemapdirty
  {
    hide VolInv;
    hide Bitmap.Valid;
    hide MapSaved;
    hide SuperOk;
    var ok;
    ok, b := sfs.freemap.Alloc();
    if !ok {
      return ENOSPC, 0;
    }
    ClearIsFree(sfs.fs, sfs.own, b);
    sfs.fs := sfs.fs.(bits := sfs.freemap.bits);
    sfs.freemapdirty := true;
    WriteBlock(sfs, b, ZeroBlock);
    err := Success;
  }

  /** sfs_bused on a block that is in range. */
  method Bused(sfs: Sfs, b: nat) returns (used: bool)
    requires sfs.Shape() && b < |sfs.fs.bits|
    ensures b < |sfs.fs.bits| && used == sfs.fs.bits[b]
  {
    used := sfs.freemap.IsSet(b);
  }

  /** What the state value says about a loaded vnode. */
  lemma Loaded(sfs: Sfs, sv: Vnode)
    requires sfs.Valid() && sv in sfs.vnodes
    ensures sv.ino in sfs.fs.cache && sfs.fs.cache[sv.ino] == Vn(sv.inode, sv.dirty, sv.refs)
    ensures Live(sfs.own, sv.ino) && sv.ino < |sfs.fs.disk| == sfs.nblocks <= 0x80_0000
    ensures sfs.fs.disk == sfs.disk
    ensures |sfs.fs.bits| == BitmapSize(sfs.nblocks) >= sfs.nblocks
  {
    hide Bitmap.Valid;
    hide InodeInv;
    hide MapSaved;
    hide SuperOk;
  }

  /** Assign the in-memory inode and mark it dirty. */
  method SetVnode(sfs: Sfs, sv: Vnode, inode: Inode)
    requires sfs.Shape() && sv in sfs.vnodes
    modifies sv`inode, sv`dirty, sfs`fs
    ensures sfs.Shape() && sv.inode == inode && sv.dirty
    ensures sv.ino in old(sfs.fs).cache && sfs.fs == SetInode(old(sfs.fs), sv.ino, inode)
  {
    hide Bitmap.Valid;
    hide MapSaved;
    hide SuperOk;
    hide Distinct;
    sv.inode := inode;
    sv.dirty := true;
    sfs.fs := SetInode(sfs.fs, sv.ino, inode);
  }
}
