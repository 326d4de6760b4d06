/** Whole-volume operations: sync, unmount and mount (kern/fs/sfs/sfs_fs.c). */
module SfsFs {
  import opened Bytes
  import opened Bitmaps
  import opened SfsLayout
  import opened SfsVolume
  import opened SfsSteps
  import opened SfsState
  import opened SfsDirSpec
  import opened SfsDirSteps
  import opened SfsVnode
  import opened SfsNames

  /** One block of the in-memory free map, as bytes. */
  function MapBlock(v: seq<bv8>, j: nat): (b: Block)
    requires BLOCKSIZE * j + BLOCKSIZE <= |v|
  {
    seq(BLOCKSIZE, k requires 0 <= k < BLOCKSIZE => v[BLOCKSIZE * j + k] as int)
  }

  lemma MapBuilt(disk: seq<Block>, v: seq<bv8>)
    requires MAP_LOCATION + BitBlocks(|disk|) <= |disk| && |v| == BLOCKSIZE * BitBlocks(|disk|)
    requires forall j | 0 <= j < BitBlocks(|disk|) :: disk[MAP_LOCATION + j] == MapBlock(v, j)
    ensures MapOf(disk) == v
  {
    hide BitBlocks;
    forall b | 0 <= b < |v|
      ensures MapOf(disk)[b] == v[b]
    {
      var j, k := b / BLOCKSIZE, b % BLOCKSIZE;
      assert disk[MAP_LOCATION + j] == MapBlock(v, j);
      assert MapBlock(v, j)[k] == v[b] as int;
    }
  }

  /** The free map has no spare bits: its size is a whole number of blocks. */
  lemma WholeMap(map_: Bitmap, nblocks: nat)
    requires map_.Valid() && map_.nbits == BitmapSize(nblocks)
    ensures map_.v.Length == BLOCKSIZE * BitBlocks(nblocks) && BitsOf(map_.v[..]) == map_.bits
  {
    hide BitsOf;
    hide BitBlocks;
  }

  lemma ReservedUnowned(fs: Fs, own: Owners, b: nat)
    requires VolInv(fs, own) && MAP_LOCATION <= b < MAP_LOCATION + BitBlocks(|fs.disk|)
    ensures b < |fs.disk| && b !in own
  {
    hide InodeInv;
    hide BitsInv;
    hide CacheInv;
  }

  /** sfs_mapio writing: the free map on disk becomes the one in memory; nothing a file holds changes. */
  method MapWrite(sfs: Sfs)
    requires Sound(sfs) && sfs.freemapdirty
    modifies sfs`disk, sfs`fs
    ensures Sound(sfs) && MapSaved(sfs.disk, sfs.fs.bits)
    ensures sfs.fs.bits == old(sfs.fs).bits && sfs.fs.cache == old(sfs.fs).cache
         && SameCur(old(sfs.fs), sfs.own, sfs.fs)
  {
    hide VolInv;
    hide DirInv;
    hide Sfs.Shape;
    hide View;
    hide BitBlocks;
    hide DecodeInode;
    ghost var fs, own := sfs.fs, sfs.own;
    ShapeDisk(sfs);
    ShapeMap(sfs);
    VolSize(fs, own);
    var mapsize := BitBlocks(sfs.nblocks);
    var bitdata := sfs.freemap.v[..];
    WholeMap(sfs.freemap, sfs.nblocks);
    for j := 0 to mapsize
      invariant sfs.Shape() && FsInv(sfs.fs, own, sfs.base)
      invariant sfs.fs.bits == fs.bits && sfs.fs.cache == fs.cache && SameCur(fs, own, sfs.fs)
      invariant |sfs.fs.disk| == sfs.nblocks
      invariant forall k | 0 <= k < j :: sfs.fs.disk[MAP_LOCATION + k] == MapBlock(bitdata, k)
    {
      ghost var fs1 := sfs.fs;
      ReservedUnowned(fs1, own, MAP_LOCATION + j);
      WriteBlock(sfs, MAP_LOCATION + j, MapBlock(bitdata, j));
      MapBlockWritten(fs, own, fs1, sfs.fs, MAP_LOCATION + j, MapBlock(bitdata, j), sfs.base);
    }
    MapBuilt(sfs.fs.disk, bitdata);
    ShapeDisk(sfs);
  }

  lemma MapBlockWritten(fs: Fs, own: Owners, fs1: Fs, fs2: Fs, b: nat, data: Block, base: nat)
    requires FsInv(fs1, own, base) && b < |fs1.disk| && b !in own && fs2 == fs1.(disk := fs1.disk[b := data])
    requires SameCur(fs, own, fs1)
    ensures FsInv(fs2, own, base) && SameCur(fs, own, fs2)
  {
    hide VolInv;
    hide View;
    hide Slots;
    hide Named;
    hide UniqueNames;
    hide DecodeInode;
    Facts(fs1, own);
    UnownedStep(fs1, own, fs2, b, data);
    Facts(fs2, own);
    DirFrame(fs1, own, fs2, own, base);
  }

  lemma ShapeMap(sfs: Sfs)
    requires sfs.Shape()
    ensures sfs.freemap.Valid() && sfs.freemap.nbits == BitmapSize(sfs.nblocks) && sfs.freemap.bits == sfs.fs.bits
  {
    hide MapSaved;
    hide SuperOk;
  }

  lemma VolSize(fs: Fs, own: Owners)
    requires VolInv(fs, own)
    ensures MAP_LOCATION + BitBlocks(|fs.disk|) <= |fs.disk|
  {
  }

  lemma SyncKeeps(fs: Fs, own: Owners, fs1: Fs, fs2: Fs, i: nat, base: nat)
    requires i in fs1.cache && i < |fs1.disk| && |fs2.disk| == |fs1.disk| && View(fs2, i) == View(fs1, i)
    requires fs2.cache == fs1.cache[i := fs1.cache[i].(dirty := false)]
    requires SameCur(fs, own, fs1) && FileStep(fs1, own, fs2, own, i) && FsInv(fs1, own, base)
    ensures FsInv(fs2, own, base) && SameCur(fs, own, fs2)
  {
    hide VolInv;
    hide View;
    hide Slots;
    hide Named;
    hide UniqueNames;
    hide DecodeInode;
    Facts(fs1, own);
    Facts(fs2, own);
    SyncFrame(fs1, own, fs2, i, base);
  }

  lemma SyncFrame(fs: Fs, own: Owners, fs': Fs, i: nat, base: nat)
    requires OwnersInv(|fs.disk|, own) && i in fs.cache && i < |fs.disk| == |fs'.disk| && View(fs', i) == View(fs, i)
    requires fs'.cache == fs.cache[i := fs.cache[i].(dirty := false)]
    requires OthersSame(fs, own, fs', i) && DirInv(fs, own, base)
    ensures DirInv(fs', own, base) && SameCur(fs, own, fs')
  {
    hide View;
    hide Slots;
    hide Named;
    hide UniqueNames;
    hide DecodeInode;
    DirFrame(fs, own, fs', own, base);
  }

  method MarkSaved(sfs: Sfs)
    requires sfs.Shape() && MapSaved(sfs.disk, sfs.fs.bits)
    modifies sfs`freemapdirty
    ensures sfs.Shape() && !sfs.freemapdirty
  {
    hide MapSaved;
    hide SuperOk;
    hide Bitmap.Valid;
    sfs.freemapdirty := false;
  }

  /** Nothing in memory differs from what the disk says. */
  ghost predicate AllSaved(fs: Fs) {
    MapSaved(fs.disk, fs.bits) && forall i | i in fs.cache :: !fs.cache[i].dirty
  }

  lemma TableCovers(sfs: Sfs, i: nat)
    requires sfs.Shape() && i in sfs.fs.cache
    ensures exists k :: 0 <= k < |sfs.vnodes| && sfs.vnodes[k].ino == i
  {
    hide MapSaved;
    hide SuperOk;
    hide Bitmap.Valid;
    var v := sfs.table[i];
    assert v in sfs.vnodes;
  }

  lemma ShapeSaved(sfs: Sfs)
    requires sfs.Shape() && !sfs.freemapdirty
    ensures MapSaved(sfs.fs.disk, sfs.fs.bits) && sfs.fs.disk == sfs.disk
  {
    hide MapSaved;
    hide SuperOk;
    hide Bitmap.Valid;
  }

  /** sfs_sync: afterwards memory and disk agree, and every file looks the same. */
  method Sync(sfs: Sfs)
    requires Sound(sfs)
    modifies sfs`disk, sfs`fs, sfs`freemapdirty, sfs.vnodes
    ensures Sound(sfs) && !sfs.freemapdirty && AllSaved(sfs.fs) && SameRefs(old(sfs.fs), sfs.fs)
    ensures sfs.fs.bits == old(sfs.fs).bits && SameCur(old(sfs.fs), sfs.own, sfs.fs)
  {
    hide VolInv;
    hide DirInv;
    hide Sfs.Shape;
    hide View;
    hide DecodeInode;
    hide MapSaved;
    ghost var fs, own := sfs.fs, sfs.own;
    for k := 0 to |sfs.vnodes|
      invariant sfs.Shape() && FsInv(sfs.fs, own, sfs.base)
      invariant sfs.fs.bits == fs.bits && SameRefs(fs, sfs.fs) && SameCur(fs, own, sfs.fs)
      invariant forall j | 0 <= j < k :: sfs.vnodes[j].ino in sfs.fs.cache && !sfs.fs.cache[sfs.vnodes[j].ino].dirty
    {
      ghost var fs1 := sfs.fs;
      SyncInode(sfs, sfs.vnodes[k]);
      SyncKeeps(fs, own, fs1, sfs.fs, sfs.vnodes[k].ino, sfs.base);
    }
    forall i | i in sfs.fs.cache
      ensures !sfs.fs.cache[i].dirty
    {
      TableCovers(sfs, i);
    }
    if sfs.freemapdirty {
      ghost var fs1 := sfs.fs;
      MapWrite(sfs);
      MarkSaved(sfs);
    }
    ShapeSaved(sfs);
  }

  /**
   * Durability: once everything is saved, the volume read back from disk alone satisfies the ownership invariant
   * with the same owners, and every file has the inode, size and contents it had in memory.
   */
  lemma {:induction false} SavedDisk(fs: Fs, own: Owners)
    requires VolInv(fs, own) && AllSaved(fs)
    ensures fs.bits == BitsOf(MapOf(fs.disk))
    ensures VolInv(fs.(cache := map[]), own) && SameCur(fs, own, fs.(cache := map[]))
    decreases |fs.cache|
  {
    hide VolInv;
    hide View;
    hide DecodeInode;
    hide BitsOf;
    VolSize(fs, own);
    if fs.cache.Keys == {} {
      assert fs.cache == map[];
      assert fs.(cache := map[]) == fs;
    } else {
      var i :| i in fs.cache;
      var fs1 := fs.(cache := fs.cache - {i});
      Uncached(fs, own, fs1, i);
      SavedDisk(fs1, own);
      assert fs.(cache := map[]) == fs1.(cache := map[]);
    }
  }

  lemma Uncached(fs: Fs, own: Owners, fs1: Fs, i: nat)
    requires VolInv(fs, own) && i in fs.cache && !fs.cache[i].dirty && fs1 == fs.(cache := fs.cache - {i})
    ensures VolInv(fs1, own) && SameCur(fs, own, fs1) && |fs1.cache| < |fs.cache|
  {
    hide VolInv;
    hide View;
    hide DecodeInode;
    CleanOnDisk(fs, own, i);
    Facts(fs, own);
    assert fs1.cache - {i} == fs.cache - {i};
    assert fs.cache.Keys == fs1.cache.Keys + {i};
    CacheStep(fs, own, fs1, i);
  }

  /** sfs_unmount: refused exactly while inodes are loaded. */
  method Unmount(sfs: Sfs) returns (err: Errno)
    requires Sound(sfs) && !sfs.freemapdirty
    ensures err == if sfs.fs.cache == map[] then Success else EBUSY
    ensures err == Success ==> sfs.fs == Fs(sfs.disk, BitsOf(MapOf(sfs.disk)), map[])
  {
    hide MapOf;
    hide BitsOf;
    hide Bitmap.Valid;
    hide FsInv;
    if |sfs.vnodes| > 0 {
      assert sfs.vnodes[0].ino in sfs.fs.cache;
      return EBUSY;
    }
    assert sfs.fs.cache.Keys == {};
    assert sfs.fs.cache == map[];
    return Success;
  }

  /** sfs_mapio reading. */
  method MapRead(freemap: Bitmap, disk: seq<Block>)
    requires freemap.Valid() && freemap.nbits == BitmapSize(|disk|) && MAP_LOCATION + BitBlocks(|disk|) <= |disk|
    modifies freemap, freemap.v
    ensures freemap.Valid() && freemap.bits == BitsOf(MapOf(disk))
  {
    hide BitsOf;
    hide BitBlocks;
    WholeMap(freemap, |disk|);
    var mapsize := BitBlocks(|disk|);
    for j := 0 to mapsize
      invariant forall b | 0 <= b < BLOCKSIZE * j :: freemap.v[b] == MapOf(disk)[b]
    {
      for k := 0 to BLOCKSIZE
        invariant forall b | 0 <= b < BLOCKSIZE * j + k :: freemap.v[b] == MapOf(disk)[b]
      {
        freemap.v[BLOCKSIZE * j + k] := disk[MAP_LOCATION + j][k] as bv8;
      }
    }
    assert freemap.v[..] == MapOf(disk);
    freemap.bits := BitsOf(freemap.v[..]);
    assert freemap.bits[..freemap.nbits] == freemap.bits;
  }

  /**
   * sfs_domount of a volume on a device at least as large: reads the free map and starts with no inode loaded. The
   * volume is as long as its superblock says; the rest of the device is not looked at.
   */
  method Mount(device: seq<Block>, blocksize: nat, ghost own: Owners, ghost base: nat) returns (err: Errno, sfs: Sfs?)
    requires |device| > 0
    requires GetWord(device[SB_LOCATION], 0) == MAGIC ==>
               var n := GetWord(device[SB_LOCATION], 1); MAP_LOCATION + BitBlocks(n) <= n <= |device|
    ensures err == ENXIO <==> blocksize != BLOCKSIZE
    ensures err == EINVAL <==> blocksize == BLOCKSIZE && GetWord(device[SB_LOCATION], 0) != MAGIC
    ensures err in {Success, ENXIO, EINVAL}
    ensures err == Success ==>
              && sfs != null && fresh(sfs) && fresh(sfs.freemap) && fresh(sfs.freemap.v)
              && sfs.Shape() && !sfs.freemapdirty && sfs.vnodes == []
              && GetWord(device[SB_LOCATION], 1) <= |device|
              && var disk := device[..GetWord(device[SB_LOCATION], 1)];
                 && MAP_LOCATION + BitBlocks(|disk|) <= |disk| && sfs.fs == Fs(disk, BitsOf(MapOf(disk)), map[])
                 && sfs.own == own && sfs.base == base
  {
    hide MapOf;
    hide BitsOf;
    if blocksize != BLOCKSIZE {
      return ENXIO, null;
    }
    if GetWord(device[SB_LOCATION], 0) != MAGIC {
      return EINVAL, null;
    }
    var disk := device[..GetWord(device[SB_LOCATION], 1)];
    assert disk[SB_LOCATION] == device[SB_LOCATION];
    var freemap := new Bitmap(BitmapSize(|disk|));
    MapRead(freemap, disk);
    sfs := new Sfs(disk, freemap, own, base);
    err := Success;
  }

  /**
   * The sync and unmount of vfs_unmount, and a later mount of the same disk: refused exactly when a file is in
   * use; otherwise the new volume is sound and has the same files with the same contents under the same names.
   */
  method Remount(sfs: Sfs) returns (err: Errno, again: Sfs?)
    requires Sound(sfs)
    modifies sfs`disk, sfs`fs, sfs`freemapdirty, sfs.vnodes
    ensures err == if old(sfs.fs).cache == map[] then Success else EBUSY
    ensures err == Success ==>
              && again != null && fresh(again) && Sound(again) && again.own == old(sfs.own)
              && SameCur(old(sfs.fs), old(sfs.own), again.fs) && Dir(again.fs) == Dir(old(sfs.fs))
              && again.fs.bits == old(sfs.fs).bits && again.fs.cache == map[]
  {
    hide VolInv;
    hide DirInv;
    hide Sfs.Shape;
    hide View;
    hide DecodeInode;
    hide Dir;
    hide MapOf;
    hide BitsOf;
    ghost var fs, own := sfs.fs, sfs.own;
    Sync(sfs);
    err := Unmount(sfs);
    if err != Success {
      return err, null;
    }
    Mountable(sfs);
    DirKept(fs, own, sfs.fs, own, sfs.base);
    assert sfs.disk[..|sfs.disk|] == sfs.disk;
    err, again := Mount(sfs.disk, BLOCKSIZE, sfs.own, sfs.base);
  }

  lemma Mountable(sfs: Sfs)
    requires sfs.Shape() && FsInv(sfs.fs, sfs.own, sfs.base)
    ensures |sfs.disk| > 0 && SuperOk(sfs.disk[SB_LOCATION], |sfs.disk|)
    ensures MAP_LOCATION + BitBlocks(|sfs.disk|) <= |sfs.disk|
  {
    hide MapSaved;
    hide Bitmap.Valid;
    hide DirInv;
    hide CacheInv;
    hide InodeInv;
    hide BitsInv;
    hide OwnersInv;
  }
}
