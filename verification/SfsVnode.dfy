/** Loading, syncing, creating and releasing in-memory inodes (kern/fs/sfs/sfs_vnode.c, kern/vfs/vnode.c). */
module SfsVnode {
  import opened Bytes
  import opened Bitmaps
  import opened SfsLayout
  import opened SfsVolume
  import opened SfsSteps
  import opened SfsState
  import opened SfsTruncate
  import opened SfsDirSpec
  import opened SfsDirSteps

  /** A mounted volume between operations: block ownership and the directory are both consistent. */
  ghost predicate Sound(sfs: Sfs)
    reads sfs, sfs.freemap, sfs.freemap.v, sfs.vnodes
  {
    sfs.Shape() && FsInv(sfs.fs, sfs.own, sfs.base)
  }

  /** The in-memory inode sfs_loadvnode hands back. */
  function LoadVn(fs: Fs, i: nat, forcetype: half): Vn
    requires i < |fs.disk|
  {
    if i in fs.cache then fs.cache[i].(refs := fs.cache[i].refs + 1)
    else if forcetype == TYPE_INVAL then Vn(DecodeInode(fs.disk[i]), false, 1)
    else Vn(DecodeInode(fs.disk[i]).(typ := forcetype), true, 1)
  }

  /** vnode_incref. */
  method IncRef(sfs: Sfs, sv: Vnode)
    requires sfs.Shape() && sv in sfs.vnodes
    modifies sfs`fs, sv`refs
    ensures sfs.Shape() && sv.refs == old(sv.refs) + 1 && sv.ino in old(sfs.fs).cache
    ensures sfs.fs == old(sfs.fs).(cache := old(sfs.fs).cache[sv.ino := Vn(sv.inode, sv.dirty, sv.refs)])
  {
    hide Bitmap.Valid;
    hide MapSaved;
    hide SuperOk;
    sv.refs := sv.refs + 1;
    sfs.fs := sfs.fs.(cache := sfs.fs.cache[sv.ino := Vn(sv.inode, sv.dirty, sv.refs)]);
  }

  /** Append a vnode to the table of loaded ones. */
  method AddVnode(sfs: Sfs, sv: Vnode)
    requires sfs.Shape() && sv.ino !in sfs.table
    modifies sfs`vnodes, sfs`table, sfs`fs
    ensures sfs.Shape() && sfs.vnodes == old(sfs.vnodes) + [sv]
    ensures sfs.fs == old(sfs.fs).(cache := old(sfs.fs).cache[sv.ino := Vn(sv.inode, sv.dirty, sv.refs)])
  {
    hide Bitmap.Valid;
    hide MapSaved;
    hide SuperOk;
    sfs.vnodes := sfs.vnodes + [sv];
    sfs.table := sfs.table[sv.ino := sv];
    sfs.fs := sfs.fs.(cache := sfs.fs.cache[sv.ino := Vn(sv.inode, sv.dirty, sv.refs)]);
  }

  lemma ShapeVn(sfs: Sfs, sv: Vnode)
    requires sfs.Shape() && sv in sfs.vnodes
    ensures sv.ino in sfs.fs.cache && sfs.fs.cache[sv.ino] == Vn(sv.inode, sv.dirty, sv.refs)
  {
    hide Bitmap.Valid;
    hide MapSaved;
    hide SuperOk;
  }

  lemma ShapeMiss(sfs: Sfs, ino: nat)
    requires sfs.Shape() && forall v | v in sfs.vnodes :: v.ino != ino
    ensures ino !in sfs.table && ino !in sfs.fs.cache && sfs.fs.disk == sfs.disk && |sfs.disk| == sfs.nblocks
  {
    hide Bitmap.Valid;
    hide MapSaved;
    hide SuperOk;
  }

  /** The linear search of the vnode table; every inode in memory is in an allocated block. */
  method FindVnode(sfs: Sfs, ino: nat) returns (found: bool, sv: Vnode?)
    requires sfs.Shape()
    requires forall v | v in sfs.vnodes :: v.ino < |sfs.fs.bits| && sfs.fs.bits[v.ino]
    ensures found <==> ino in sfs.fs.cache
    ensures if found then sv != null && sv in sfs.vnodes && sv.ino == ino else ino !in sfs.table
  {
    hide Sfs.Shape;
    for i := 0 to |sfs.vnodes|
      invariant forall k | 0 <= k < i :: sfs.vnodes[k].ino != ino
    {
      sv := sfs.vnodes[i];
      var used := Bused(sfs, sv.ino);
      assert used;
      if sv.ino == ino {
        ShapeVn(sfs, sv);
        return true, sv;
      }
    }
    ShapeMiss(sfs, ino);
    return false, null;
  }

  /**
   * sfs_loadvnode. None of its panics can happen: loaded inodes and the requested one are in allocated blocks,
   * a forced type is only asked for an inode that is not loaded, and the type is a known one.
   */
  method LoadVnode(sfs: Sfs, ino: nat, forcetype: half) returns (sv: Vnode)
    requires sfs.Shape() && ino < |sfs.fs.disk| && ino < |sfs.fs.bits| && sfs.fs.bits[ino]
    requires forall v | v in sfs.vnodes :: v.ino < |sfs.fs.bits| && sfs.fs.bits[v.ino]
    requires ino in sfs.fs.cache ==> forcetype == TYPE_INVAL
    requires ino !in sfs.fs.cache && forcetype != TYPE_INVAL ==> DecodeInode(sfs.fs.disk[ino]).typ == TYPE_INVAL
    requires ino !in sfs.fs.cache ==> LoadVn(sfs.fs, ino, forcetype).inode.typ in {TYPE_FILE, TYPE_DIR}
    modifies sfs`vnodes, sfs`table, sfs`fs, sfs.vnodes
    ensures sfs.Shape() && sv in sfs.vnodes && sv.ino == ino
    ensures sfs.vnodes == old(sfs.vnodes) || (sfs.vnodes == old(sfs.vnodes) + [sv] && fresh(sv))
    ensures sfs.fs == old(sfs.fs).(cache := old(sfs.fs).cache[ino := LoadVn(old(sfs.fs), ino, forcetype)])
  {
    hide Sfs.Shape;
    hide DecodeInode;
    ShapeDisk(sfs);
    var found, v := FindVnode(sfs, ino);
    if found {
      sv := v;
      assert forcetype == TYPE_INVAL;
      ShapeVn(sfs, sv);
      IncRef(sfs, sv);
      return;
    }
    var used := Bused(sfs, ino);
    assert used;
    var inode := DecodeInode(sfs.disk[ino]);
    var dirty := false;
    if forcetype != TYPE_INVAL {
      assert inode.typ == TYPE_INVAL;
      inode := inode.(typ := forcetype);
      dirty := true;
    }
    assert inode.typ == TYPE_FILE || inode.typ == TYPE_DIR;
    sv := new Vnode(ino, inode, dirty);
    AddVnode(sfs, sv);
  }

  lemma ShapeDisk(sfs: Sfs)
    requires sfs.Shape()
    ensures sfs.fs.disk == sfs.disk && |sfs.disk| == sfs.nblocks && |sfs.fs.bits| == BitmapSize(sfs.nblocks)
  {
    hide MapSaved;
    hide SuperOk;
  }

  method Clean(sfs: Sfs, sv: Vnode)
    requires sfs.Shape() && sv in sfs.vnodes
    modifies sfs`fs, sv`dirty
    ensures sfs.Shape() && !sv.dirty
    ensures sfs.fs == old(sfs.fs).(cache := old(sfs.fs).cache[sv.ino := Vn(sv.inode, false, sv.refs)])
  {
    hide Bitmap.Valid;
    hide MapSaved;
    hide SuperOk;
    sv.dirty := false;
    sfs.fs := sfs.fs.(cache := sfs.fs.cache[sv.ino := Vn(sv.inode, false, sv.refs)]);
  }

  /** sfs_sync_inode: afterwards the disk block holds the in-memory inode. */
  method SyncInode(sfs: Sfs, sv: Vnode)
    requires sfs.Valid() && sv in sfs.vnodes
    modifies sfs`disk, sfs`fs, sv`dirty
    ensures sfs.Valid() && FileStep(old(sfs.fs), sfs.own, sfs.fs, sfs.own, sv.ino)
    ensures sv.ino in old(sfs.fs).cache && sv.ino < |sfs.fs.disk| == |old(sfs.fs).disk|
    ensures sfs.fs.cache == old(sfs.fs).cache[sv.ino := old(sfs.fs).cache[sv.ino].(dirty := false)]
    ensures sfs.fs.bits == old(sfs.fs).bits && View(sfs.fs, sv.ino) == View(old(sfs.fs), sv.ino)
    ensures DecodeInode(sfs.fs.disk[sv.ino]) == sv.inode
  {
    hide Bitmap.Valid;
    hide MapSaved;
    hide SuperOk;
    hide DecodeInode;
    hide EncodeInode;
    hide VolInv;
    hide View;
    hide Sfs.Shape;
    hide Reserved;
    Loaded(sfs, sv);
    ghost var fs := sfs.fs;
    CleanOnDisk(fs, sfs.own, sv.ino);
    if sv.dirty {
      DecodeEncode(sv.inode);
      WriteBlock(sfs, sv.ino, EncodeInode(sv.inode));
      Clean(sfs, sv);
      SyncStep(fs, sfs.own, sfs.fs, sv.ino);
    }
  }

  lemma CleanOnDisk(fs: Fs, own: Owners, i: nat)
    requires VolInv(fs, own) && i in fs.cache
    ensures 0 < i < |fs.disk| && (!fs.cache[i].dirty ==> DecodeInode(fs.disk[i]) == fs.cache[i].inode)
    ensures FileStep(fs, own, fs, own, i) && !Reserved(|fs.disk|, i)
  {
    hide Reserved;
    hide DecodeInode;
    hide View;
    hide BitsInv;
    hide InodeInv;
  }

  /**
   * One reference to inode i was dropped. With the last reference the inode leaves memory; if it has no links
   * either, the file and all its blocks are gone (no block is owned by an inode that is not live). Every other
   * file, and a file that stays, has the same inode, looks the same and keeps its blocks.
   */
  ghost predicate Released(fs: Fs, own: Owners, fs': Fs, own': Owners, i: nat) {
    && i in fs.cache && |fs'.disk| == |fs.disk| && OwnersInv(|fs.disk|, own) && OwnersInv(|fs.disk|, own')
    && Live(own, i)
    && fs'.cache == (if fs.cache[i].refs > 1 then fs.cache[i := fs.cache[i].(refs := fs.cache[i].refs - 1)]
                     else fs.cache - {i})
    && (forall j :: Live(own', j) <==> Live(own, j) && (j != i || fs.cache[i].refs > 1 || View(fs, i).links > 0))
    && SameCur(fs, own', fs') && AgreeOff(own, own', i) && (Live(own', i) ==> own' == own)
  }

  lemma RootHasLinks(fs: Fs, own: Owners, base: nat)
    requires OwnersInv(|fs.disk|, own) && DirInv(fs, own, base)
    ensures View(fs, ROOT_LOCATION).links > 0
  {
    hide View;
    hide Slots;
    hide Named;
    hide UniqueNames;
  }

  /** Inode i was left without blocks; other files look the same. */
  ghost predicate Emptied(fs: Fs, own: Owners, fs': Fs, own': Owners, i: nat) {
    && i < |fs.disk| == |fs'.disk| && SameLive(own, own')
    && i in fs.cache && i in fs'.cache && fs'.cache - {i} == fs.cache - {i}
    && Cur(fs', i).indirect == 0 && Cur(fs', i).direct == seq(NDIRECT, _ => 0)
    && OthersSame(fs, own, fs', i) && VolInv(fs', own') && AgreeOff(own, own', i)
  }

  lemma TruncateEmpties(fs: Fs, own: Owners, fs1: Fs, own1: Owners, fs2: Fs, i: nat)
    requires Truncated(fs, own, fs1, own1, i, 0) && FileStep(fs1, own1, fs2, own1, i) && Live(own, i)
    requires fs2.cache == fs1.cache[i := fs1.cache[i].(dirty := false)]
    requires VolInv(fs, own)
    ensures Emptied(fs, own, fs2, own1, i)
  {
    hide VolInv;
    hide View;
    hide Kept;
    hide Keep;
    hide Ptrs;
    hide NoSlotKept;
    hide BlockLen;
    Facts(fs, own);
    TruncateToZero(fs, own, fs1, own1, i);
    assert fs2.cache - {i} == fs.cache - {i};
    forall j | Live(own, j) && j != i
      ensures Cur(fs2, j) == Cur(fs, j) && View(fs2, j) == View(fs, j)
    {
      assert Live(own1, j);
      assert View(fs1, j) == View(fs, j);
    }
  }

  lemma EmptiedReleased(fs: Fs, own: Owners, fs2: Fs, own2: Owners, fs3: Fs, own3: Owners, i: nat)
    requires Emptied(fs, own, fs2, own2, i) && View(fs, i).links == 0 && fs.cache[i].refs == 1 && Live(own, i)
    requires |fs3.disk| == |fs2.disk| && fs3.cache == fs2.cache - {i} && own3 == own2 - {i}
    requires OthersSame(fs2, own2, fs3, i) && forall j :: Live(own3, j) <==> Live(own2, j) && j != i
    requires OwnersInv(|fs.disk|, own) && OwnersInv(|fs.disk|, own3)
    ensures Released(fs, own, fs3, own3, i)
  {
    hide VolInv;
    hide View;
    hide DecodeInode;
    hide OwnersInv;
  }

  /** Dropping the last reference to a file without links. */
  lemma ReclaimFree(fs: Fs, own: Owners, fs2: Fs, own2: Owners, fs3: Fs, own3: Owners, i: nat, base: nat)
    requires Emptied(fs, own, fs2, own2, i) && View(fs, i).links == 0 && fs.cache[i].refs == 1 && i < |fs2.bits|
    requires fs3 == fs2.(bits := fs2.bits[i := false], cache := fs2.cache - {i}) && own3 == own2 - {i}
    requires FsInv(fs, own, base)
    ensures FsInv(fs3, own3, base) && Released(fs, own, fs3, own3, i)
  {
    hide VolInv;
    hide View;
    hide DirInv;
    hide Released;
    hide OthersSame;
    hide AgreeOff;
    hide OwnersInv;
    Facts(fs, own);
    RootHasLinks(fs, own, base);
    FreeInodeStep(fs2, own2, fs3, own3, i);
    Facts(fs3, own3);
    EmptiedReleased(fs, own, fs2, own2, fs3, own3, i);
    ReleasedDir(fs, own, fs3, own3, i, base);
  }

  lemma ReleasedDir(fs: Fs, own: Owners, fs': Fs, own': Owners, i: nat, base: nat)
    requires OwnersInv(|fs.disk|, own) && DirInv(fs, own, base) && Released(fs, own, fs', own', i)
    ensures DirInv(fs', own', base) && Slots(fs') == Slots(fs)
  {
    hide View;
    hide Slots;
    hide Named;
    hide UniqueNames;
    DirFrame(fs, own, fs', own', base);
  }

  /** Dropping the last reference to a file that still has links, once its inode is on disk. */
  lemma ReclaimKeep(fs: Fs, own: Owners, fs2: Fs, fs3: Fs, i: nat, base: nat)
    requires i in fs.cache && i < |fs.disk| && View(fs, i).links > 0 && fs.cache[i].refs == 1
    requires FileStep(fs, own, fs2, own, i) && View(fs2, i) == View(fs, i)
    requires fs2.cache == fs.cache[i := fs.cache[i].(dirty := false)]
    requires DecodeInode(fs2.disk[i]) == fs.cache[i].inode
    requires fs3 == fs2.(cache := fs2.cache - {i})
    requires FsInv(fs, own, base)
    ensures FsInv(fs3, own, base) && Released(fs, own, fs3, own, i)
  {
    hide VolInv;
    hide View;
    hide DirInv;
    hide DecodeInode;
    Facts(fs, own);
    Facts(fs2, own);
    assert fs3.cache - {i} == fs2.cache - {i};
    CacheStep(fs2, own, fs3, i);
    assert fs3.cache == fs.cache - {i};
    ReleasedDir(fs, own, fs3, own, i, base);
  }

  lemma DropRef(fs: Fs, own: Owners, fs': Fs, i: nat, base: nat)
    requires i in fs.cache && fs.cache[i].refs > 1 && FsInv(fs, own, base)
    requires fs' == fs.(cache := fs.cache[i := fs.cache[i].(refs := fs.cache[i].refs - 1)])
    ensures FsInv(fs', own, base) && Released(fs, own, fs', own, i)
  {
    hide VolInv;
    hide View;
    hide DirInv;
    hide DecodeInode;
    Facts(fs, own);
    assert fs'.cache - {i} == fs.cache - {i};
    CacheStep(fs, own, fs', i);
    ReleasedDir(fs, own, fs', own, i, base);
  }

  lemma RemoveAt(vs: seq<Vnode>, vs': seq<Vnode>, ix: nat)
    requires ix < |vs| && vs' == vs[..ix] + vs[ix + 1..]
    requires Distinct(vs)
    ensures Distinct(vs')
    ensures forall v :: v in vs' <==> v in vs && v != vs[ix]
  {
    forall v | v in vs && v != vs[ix]
      ensures v in vs'
    {
      var k :| 0 <= k < |vs| && vs[k] == v;
      assert v == if k < ix then vs'[k] else vs'[k - 1];
    }
  }

  /** The table search and vnodearray_remove at the end of sfs_reclaim; the panic cannot happen. */
  method Without(vnodes: seq<Vnode>, sv: Vnode) returns (vs: seq<Vnode>)
    requires sv in vnodes && Distinct(vnodes)
    ensures Distinct(vs)
    ensures forall v :: v in vs <==> v in vnodes && v != sv
  {
    var num := |vnodes|;
    var ix := num;
    for i := 0 to num
      invariant ix == num && sv !in vnodes[..i]
    {
      if vnodes[i] == sv {
        ix := i;
        break;
      }
    }
    assert ix != num;
    vs := vnodes[..ix] + vnodes[ix + 1..];
    RemoveAt(vnodes, vs, ix);
  }

  method RemoveVnode(sfs: Sfs, sv: Vnode)
    requires sfs.Shape() && sv in sfs.vnodes
    modifies sfs`vnodes, sfs`table, sfs`fs
    ensures sfs.Shape() && sfs.fs == old(sfs.fs).(cache := old(sfs.fs).cache - {sv.ino})
    ensures forall v :: v in sfs.vnodes <==> v in old(sfs.vnodes) && v != sv
  {
    hide Bitmap.Valid;
    hide MapSaved;
    hide SuperOk;
    hide Distinct;
    var vs := Without(sfs.vnodes, sv);
    sfs.vnodes := vs;
    sfs.table := sfs.table - {sv.ino};
    sfs.fs := sfs.fs.(cache := sfs.fs.cache - {sv.ino});
  }

  /** vnode_decref's decrement of a count above one. */
  method LowerRef(sfs: Sfs, sv: Vnode)
    requires sfs.Shape() && sv in sfs.vnodes && sv.refs > 1
    modifies sfs`fs, sv`refs
    ensures sfs.Shape() && sv.ino in old(sfs.fs).cache
    ensures sfs.fs == old(sfs.fs).(cache := old(sfs.fs).cache[sv.ino := Vn(sv.inode, sv.dirty, sv.refs)])
    ensures sv.refs == old(sv.refs) - 1
  {
    hide Bitmap.Valid;
    hide MapSaved;
    hide SuperOk;
    hide Distinct;
    sv.refs := sv.refs - 1;
    sfs.fs := sfs.fs.(cache := sfs.fs.cache[sv.ino := Vn(sv.inode, sv.dirty, sv.refs)]);
  }

  /** sfs_reclaim: reports EBUSY and only drops its reference when someone else holds one. */
  method Reclaim(sfs: Sfs, sv: Vnode) returns (err: Errno)
    requires Sound(sfs) && sv in sfs.vnodes
    modifies sfs, sfs.freemap, sfs.freemap.v, sv
    ensures Sound(sfs) && Released(old(sfs.fs), old(sfs.own), sfs.fs, sfs.own, sv.ino)
    ensures err == if old(sv.refs) == 1 then Success else EBUSY
    ensures forall v | v in sfs.vnodes :: v in old(sfs.vnodes)
    ensures forall v | v in old(sfs.vnodes) && v != sv :: v in sfs.vnodes
    ensures old(sv.refs) > 1 ==> sfs.vnodes == old(sfs.vnodes) && sv.refs == old(sv.refs) - 1
  {
    hide VolInv;
    hide Sfs.Shape;
    hide DirInv;
    hide View;
    hide Released;
    hide FileStep;
    hide Truncated;
    hide DecodeInode;
    hide BitmapSize;
    hide Emptied;
    Loaded(sfs, sv);
    RefsPositive(sfs.fs, sfs.own, sfs.base, sv.ino);
    ghost var fs, own := sfs.fs, sfs.own;
    if sv.refs != 1 {
      LowerRef(sfs, sv);
      DropRef(fs, own, sfs.fs, sv.ino, sfs.base);
      return EBUSY;
    }
    ViewMeta(fs, sv.ino);
    if sv.inode.links == 0 {
      Truncate(sfs, sv, 0);
      ghost var fs1, own1 := sfs.fs, sfs.own;
      SyncInode(sfs, sv);
      Loaded(sfs, sv);
      ghost var fs2 := sfs.fs;
      StillUsed(fs2, own1, sv.ino);
      Bfree(sfs, sv.ino);
      RemoveVnode(sfs, sv);
      sfs.own := sfs.own - {sv.ino};
      TruncateEmpties(fs, own, fs1, own1, fs2, sv.ino);
      ReclaimFree(fs, own, fs2, own1, sfs.fs, sfs.own, sv.ino, sfs.base);
    } else {
      SyncInode(sfs, sv);
      ghost var fs2 := sfs.fs;
      RemoveVnode(sfs, sv);
      ReclaimKeep(fs, own, fs2, sfs.fs, sv.ino, sfs.base);
    }
    err := Success;
  }

  lemma RefsPositive(fs: Fs, own: Owners, base: nat, i: nat)
    requires FsInv(fs, own, base) && i in fs.cache
    ensures fs.cache[i].refs > 0
  {
    hide View;
    hide Slots;
    hide Named;
    hide UniqueNames;
  }

  lemma StillUsed(fs: Fs, own: Owners, i: nat)
    requires VolInv(fs, own) && Live(own, i)
    ensures i < |fs.bits| && fs.bits[i] && i < |fs.disk|
  {
    hide InodeInv;
    hide CacheInv;
  }

  /** vnode_decref. */
  method DecRef(sfs: Sfs, sv: Vnode)
    requires Sound(sfs) && sv in sfs.vnodes
    modifies sfs, sfs.freemap, sfs.freemap.v, sv
    ensures Sound(sfs) && Released(old(sfs.fs), old(sfs.own), sfs.fs, sfs.own, sv.ino)
    ensures forall v | v in sfs.vnodes :: v in old(sfs.vnodes)
    ensures forall v | v in old(sfs.vnodes) && (v != sv || old(v.refs) > 1) :: v in sfs.vnodes
  {
    hide VolInv;
    hide Sfs.Shape;
    hide DirInv;
    hide View;
    hide Released;
    Loaded(sfs, sv);
    RefsPositive(sfs.fs, sfs.own, sfs.base, sv.ino);
    assert sv.refs > 0;
    if sv.refs > 1 {
      ghost var fs := sfs.fs;
      LowerRef(sfs, sv);
      DropRef(fs, sfs.own, sfs.fs, sv.ino, sfs.base);
    } else {
      var err := Reclaim(sfs, sv);
    }
  }

  ghost predicate SameViews(fs: Fs, own: Owners, fs': Fs) {
    |fs'.disk| == |fs.disk| && forall j: nat | Live(own, j) && j < |fs.disk| :: View(fs', j) == View(fs, j)
  }

  /** Every file has the same inode and looks the same. */
  ghost predicate SameCur(fs: Fs, own: Owners, fs': Fs) {
    && SameViews(fs, own, fs')
    && forall j: nat | Live(own, j) && j < |fs.disk| :: Cur(fs', j) == Cur(fs, j)
  }

  /** The slots are those of the root's contents. */
  lemma SlotsKept(fs: Fs, own: Owners, fs': Fs, own': Owners, base: nat)
    requires FsInv(fs, own, base) && FsInv(fs', own', base) && SameViews(fs, own, fs')
    ensures Slots(fs') == Slots(fs)
  {
    hide View;
    hide Named;
    hide UniqueNames;
    SlotsSame(fs, fs');
  }

  lemma LoadStep(fs: Fs, own: Owners, fs': Fs, i: nat, base: nat)
    requires FsInv(fs, own, base) && Live(own, i) && i < |fs.disk|
    requires fs' == fs.(cache := fs.cache[i := LoadVn(fs, i, TYPE_INVAL)])
    ensures FsInv(fs', own, base) && SameViews(fs, own, fs')
  {
    hide VolInv;
    hide View;
    hide DecodeInode;
    hide Slots;
    hide Named;
    hide UniqueNames;
    Facts(fs, own);
    assert fs'.cache - {i} == fs.cache - {i};
    CleanLoad(fs, own, i);
    CacheStep(fs, own, fs', i);
    DirFrame(fs, own, fs', own, base);
  }

  lemma CleanLoad(fs: Fs, own: Owners, i: nat)
    requires VolInv(fs, own) && Live(own, i) && i < |fs.disk|
    ensures var vn := LoadVn(fs, i, TYPE_INVAL);
            vn.inode == Cur(fs, i) && (!vn.dirty ==> DecodeInode(fs.disk[i]) == vn.inode)
  {
    hide DecodeInode;
    hide BitsInv;
    hide InodeInv;
  }

  /** What loading an inode of a mounted volume needs, from the invariant. */
  lemma Loadable(sfs: Sfs, i: nat)
    requires Sound(sfs) && Live(sfs.own, i)
    ensures i < |sfs.fs.disk| && i < |sfs.fs.bits| && sfs.fs.bits[i]
    ensures forall v | v in sfs.vnodes :: v.ino < |sfs.fs.bits| && sfs.fs.bits[v.ino]
    ensures i !in sfs.fs.cache ==> LoadVn(sfs.fs, i, TYPE_INVAL).inode.typ in {TYPE_FILE, TYPE_DIR}
  {
    hide Sfs.Shape;
    hide VolInv;
    hide View;
    hide Slots;
    hide Named;
    hide UniqueNames;
    hide DecodeInode;
    StillUsed(sfs.fs, sfs.own, i);
    ViewMeta(sfs.fs, i);
    forall v | v in sfs.vnodes
      ensures v.ino < |sfs.fs.bits| && sfs.fs.bits[v.ino]
    {
      Loaded(sfs, v);
      StillUsed(sfs.fs, sfs.own, v.ino);
    }
  }

  /** sfs_loadvnode of an existing file: no file looks different afterwards. */
  method GetVnode(sfs: Sfs, ino: nat) returns (sv: Vnode)
    requires Sound(sfs) && Live(sfs.own, ino)
    modifies sfs`vnodes, sfs`table, sfs`fs, sfs.vnodes
    ensures Sound(sfs) && sv in sfs.vnodes && sv.ino == ino && ino < |old(sfs.fs).disk|
    ensures sfs.vnodes == old(sfs.vnodes) || (sfs.vnodes == old(sfs.vnodes) + [sv] && fresh(sv))
    ensures sfs.fs == old(sfs.fs).(cache := old(sfs.fs).cache[ino := LoadVn(old(sfs.fs), ino, TYPE_INVAL)])
  {
    hide Sfs.Shape;
    hide FsInv;
    hide LoadVn;
    Loadable(sfs, ino);
    ghost var fs := sfs.fs;
    sv := LoadVnode(sfs, ino, TYPE_INVAL);
    LoadStep(fs, sfs.own, sfs.fs, ino, sfs.base);
  }

  /** A new empty file b, unnamed and loaded once; all else is as before. */
  ghost predicate Created(fs: Fs, own: Owners, fs': Fs, own': Owners, b: nat) {
    && 0 < b < |fs.disk| == |fs'.disk| && OwnersInv(|fs.disk|, own) && OwnersInv(|fs'.disk|, own')
    && !Live(own, b) && Live(own', b) && (forall j | j != b :: Live(own, j) <==> Live(own', j))
    && SameViews(fs, own, fs') && View(fs', b) == EmptyFile()
    && b !in fs.cache && b in fs'.cache && fs'.cache[b].refs == 1 && fs'.cache - {b} == fs.cache
    && b !in own && own' == own[b := InodeOf(b)]
    && b < |fs.bits| && !fs.bits[b] && fs'.bits == fs.bits[b := true] && fs'.disk == fs.disk[b := ZeroBlock]
  }

  lemma NewCreated(fs: Fs, own: Owners, fs': Fs, own': Owners, b: nat)
    requires b < |fs.bits| && !fs.bits[b] && 0 < b < |fs.disk|
    requires fs' == Grab(fs, b).(cache := fs.cache[b := Vn(NewInode(), true, 1)]) && own' == own[b := InodeOf(b)]
    requires VolInv(fs, own)
    ensures VolInv(fs', own') && Created(fs, own, fs', own', b)
  {
    hide VolInv;
    hide View;
    hide CacheInv;
    hide NewInode;
    hide EmptyFile;
    hide Live;
    hide OwnersInv;
    hide Cur;
    FreshInode(fs, own, b);
    Facts(fs, own);
    NewIsUnused(fs, own, b);
    NewInodeStep(fs, own, fs', own', b);
    Facts(fs', own');
    assert fs'.cache - {b} == fs.cache;
  }

  lemma CreatedDir(fs: Fs, own: Owners, fs': Fs, own': Owners, b: nat, base: nat)
    requires Created(fs, own, fs', own', b) && DirInv(fs, own, base)
    ensures DirInv(fs', own', base)
  {
    hide View;
    hide DirInv;
    DirNewObject(fs, own, fs', own', base, b);
  }

  /** sfs_makeobj of a regular file; fails exactly when the volume is full. */
  method MakeObj(sfs: Sfs) returns (err: Errno, sv: Vnode?)
    requires Sound(sfs)
    modifies sfs, sfs.freemap, sfs.freemap.v, sfs.vnodes
    ensures Sound(sfs)
    ensures err.Success? || err.ENOSPC?
    ensures err.ENOSPC? ==> sfs.fs == old(sfs.fs) && sfs.own == old(sfs.own)
                            && sfs.vnodes == old(sfs.vnodes) && Full(sfs.fs)
    ensures err.Success? ==> sv != null && sfs.vnodes == old(sfs.vnodes) + [sv] && fresh(sv)
    ensures err.Success? ==> Created(old(sfs.fs), old(sfs.own), sfs.fs, sfs.own, sv.ino)
    ensures err.Success? ==>
              && sv.inode.size == 0 && sv.inode.typ == 1 && sv.inode.links == 0
              && sv.inode.direct == seq(15, _ => 0) && sv.inode.indirect == 0
  {
    hide Sfs.Shape;
    hide VolInv;
    hide DirInv;
    hide Created;
    hide DecodeInode;
    hide OwnersInv;
    ghost var fs, own := sfs.fs, sfs.own;
    RootLive(fs, own);
    Loadable(sfs, ROOT_LOCATION);
    var b;
    err, b := Balloc(sfs);
    if err != Success {
      return err, null;
    }
    FreshInode(fs, own, b);
    DecodeZero();
    sv := LoadVnode(sfs, b, TYPE_FILE);
    ShapeVn(sfs, sv);
    sfs.own := sfs.own[b := InodeOf(b)];
    NewCreated(fs, own, sfs.fs, sfs.own, b);
    CreatedDir(fs, own, sfs.fs, sfs.own, b, sfs.base);
  }

  lemma RootLive(fs: Fs, own: Owners)
    requires VolInv(fs, own)
    ensures Live(own, ROOT_LOCATION)
  {
  }

  lemma FreshInode(fs: Fs, own: Owners, b: nat)
    requires VolInv(fs, own) && b < |fs.bits| && !fs.bits[b]
    ensures b !in fs.cache
  {
    hide InodeInv;
    hide DecodeInode;
  }
}
