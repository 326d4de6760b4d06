/** The name operations of SFS: lookup, create, link, remove and rename (kern/fs/sfs/sfs_vnode.c:757-783, 1251-1540). */
module SfsNames {
  import opened Bytes
  import opened SfsLayout
  import opened SfsVolume
  import opened SfsSteps
  import opened SfsState
  import opened SfsTruncate
  import opened SfsDirSpec
  import opened SfsDir
  import opened SfsDirSteps
  import opened SfsVnode

  /** The directory of a volume as a map from names to inode numbers. */
  ghost function Dir(fs: Fs): map<seq<byte>, nat> {
    if DirOk(fs) then Names(Slots(fs)) else map[]
  }

  /** Every slot of a directory of the largest size is in use. */
  ghost predicate DirFull(fs: Fs) {
    DirOk(fs) && NoSlot(Slots(fs))
  }

  lemma SoundDirOk(fs: Fs, own: Owners, base: nat)
    requires FsInv(fs, own, base)
    ensures DirOk(fs) && Live(own, ROOT_LOCATION) && Dir(fs) == Names(Slots(fs))
  {
    hide View;
    hide Slots;
    hide Named;
    hide UniqueNames;
    hide InodeInv;
    hide BitsInv;
    hide CacheInv;
  }

  /** The same inodes are loaded, with the same reference counts. */
  ghost predicate SameRefs(fs: Fs, fs': Fs) {
    fs'.cache.Keys == fs.cache.Keys && forall j | j in fs.cache :: fs'.cache[j].refs == fs.cache[j].refs
  }

  /** No file but the root changed its size, type or data. */
  ghost predicate SameData(fs: Fs, own: Owners, fs': Fs) {
    && |fs'.disk| == |fs.disk|
    && forall j: nat | Live(own, j) && j != ROOT_LOCATION && j < |fs.disk| :: SameButLinks(View(fs, j), View(fs', j))
  }

  /** Only the directory and link counts changed, and blocks of the root; the directory is now m'. */
  ghost predicate NameStep(fs: Fs, own: Owners, fs': Fs, own': Owners, m': map<seq<byte>, nat>) {
    && SameLive(own, own') && SameRefs(fs, fs') && SameData(fs, own, fs') && Dir(fs') == m'
    && AgreeOff(own, own', ROOT_LOCATION)
  }

  lemma NameStepTrans(fs: Fs, own: Owners, fs1: Fs, own1: Owners, fs2: Fs, own2: Owners,
                      m1: map<seq<byte>, nat>, m2: map<seq<byte>, nat>)
    requires NameStep(fs, own, fs1, own1, m1) && NameStep(fs1, own1, fs2, own2, m2)
    ensures NameStep(fs, own, fs2, own2, m2)
  {
    hide View;
    hide Dir;
    hide Live;
  }

  /** sfs_dir_link and the increment of the link count. */
  lemma NameAdded(fs: Fs, own: Owners, fs1: Fs, own1: Owners, fs2: Fs, s: nat, sd: Slot, links: half, base: nat)
    requires FsInv(fs, own, base) && DirOk(fs) && s <= |Slots(fs)| && (s < |Slots(fs)| ==> Slots(fs)[s].ino == NOINO)
    requires Absent(Slots(fs), sd.name) && sd.ino != NOINO && Live(own, sd.ino) && sd.ino in fs.cache
          && sd.ino < |fs.disk|
    requires DirWrote(fs, own, fs1, own1, Place(Slots(fs), s, sd)) && sd.ino < |fs1.disk| && sd.ino in fs1.cache
    requires Cur(fs, sd.ino).links + 1 == links && fs2 == SetInode(fs1, sd.ino, Cur(fs1, sd.ino).(links := links))
    ensures FsInv(fs2, own1, base) && NameStep(fs, own, fs2, own1, Dir(fs)[sd.name := sd.ino])
    ensures sd.ino in fs2.cache && sd.ino < |fs2.disk| && Cur(fs2, sd.ino).links == links
  {
    hide VolInv;
    hide DirInv;
    hide View;
    hide Slots;
    hide Names;
    hide DirWrote;
    var sl := Slots(fs);
    ViewMeta(fs, sd.ino);
    DirThenLinks(fs, own, fs1, own1, fs2, sd.ino, links, Place(sl, s, sd));
    DirAddName(fs, own, fs2, own1, base, sl, s, sd, links - 1);
    SoundDirOk(fs, own, base);
    SoundDirOk(fs2, own1, base);
  }

  /** sfs_dir_unlink and the decrement of the link count. */
  lemma NameDropped(fs: Fs, own: Owners, fs1: Fs, own1: Owners, fs2: Fs, s: nat, sd: Slot, i: nat, links: half,
                    base: nat)
    requires FsInv(fs, own, base) && DirOk(fs) && s < |Slots(fs)| && Slots(fs)[s].ino == i != NOINO && i in fs.cache
    requires sd.ino == NOINO && i < |fs.disk|
    requires DirWrote(fs, own, fs1, own1, Slots(fs)[s := sd]) && i < |fs1.disk| && i in fs1.cache
    requires Cur(fs, i).links == links + 1 && fs2 == SetInode(fs1, i, Cur(fs1, i).(links := links))
    ensures FsInv(fs2, own1, base) && NameStep(fs, own, fs2, own1, Dir(fs) - {Slots(fs)[s].name})
    ensures i in fs2.cache && i < |fs2.disk| && Cur(fs2, i).links == links
  {
    hide VolInv;
    hide DirInv;
    hide View;
    hide Slots;
    hide Names;
    hide DirWrote;
    var sl := Slots(fs);
    ViewMeta(fs, i);
    DirThenLinks(fs, own, fs1, own1, fs2, i, links, sl[s := sd]);
    DirDropName(fs, own, fs2, own1, base, sl, s, sd, links);
    SoundDirOk(fs, own, base);
    SoundDirOk(fs2, own1, base);
  }

  /** A failed sfs_dir_link leaves the directory as it was. */
  lemma NothingAdded(fs: Fs, own: Owners, fs': Fs, own': Owners, base: nat)
    requires FsInv(fs, own, base) && DirOk(fs) && DirWrote(fs, own, fs', own', Slots(fs))
    ensures FsInv(fs', own', base) && NameStep(fs, own, fs', own', Dir(fs))
    ensures forall j | j in fs.cache && j != ROOT_LOCATION :: j in fs'.cache && fs'.cache[j] == fs.cache[j]
  {
    hide VolInv;
    hide DirInv;
    hide View;
    hide Slots;
    hide Names;
    hide UniqueNames;
    DirRewritten(fs, own, fs', own', base);
    SoundDirOk(fs, own, base);
    SoundDirOk(fs', own', base);
  }

  /**
   * A whole operation on file i: the directory became m', and file i went away when gone holds; the loaded
   * inodes and their reference counts are as before, and no remaining file changed its data.
   */
  ghost predicate Finished(fs: Fs, own: Owners, fs': Fs, own': Owners, i: nat, m': map<seq<byte>, nat>, gone: bool) {
    && SameRefs(fs, fs') && SameData(fs, own', fs') && Dir(fs') == m'
    && forall j :: Live(own', j) <==> Live(own, j) && !(j == i && gone)
  }

  lemma DirKept(fs: Fs, own: Owners, fs': Fs, own': Owners, base: nat)
    requires FsInv(fs, own, base) && FsInv(fs', own', base) && (SameViews(fs, own, fs') || SameViews(fs, own', fs'))
    ensures Dir(fs') == Dir(fs) && (DirFull(fs') <==> DirFull(fs))
  {
    hide VolInv;
    hide DirInv;
    hide View;
    hide Slots;
    hide Names;
    hide UniqueNames;
    SoundDirOk(fs, own, base);
    SoundDirOk(fs', own', base);
    SlotsSame(fs, fs');
  }

  /** Releasing a file that stays frees no block. */
  lemma StillFull(fs: Fs, own: Owners, fs': Fs, own': Owners, i: nat)
    requires Released(fs, own, fs', own', i) && Live(own', i) && Full(fs)
    requires VolInv(fs, own) && VolInv(fs', own')
    ensures Full(fs')
  {
    hide InodeInv;
    hide CacheInv;
    hide Reserved;
    hide View;
  }

  /** Loading an inode and releasing it at the end leaves memory as it was, unless the file lost its last link. */
  lemma LoadedReleased(fs: Fs, own: Owners, fs1: Fs, fs2: Fs, own2: Owners, fs3: Fs, own3: Owners, i: nat,
                       m': map<seq<byte>, nat>, base: nat)
    requires FsInv(fs, own, base) && Live(own, i) && i < |fs.disk|
    requires fs1 == fs.(cache := fs.cache[i := LoadVn(fs, i, TYPE_INVAL)])
    requires NameStep(fs1, own, fs2, own2, m') && FsInv(fs2, own2, base) && i < |fs2.disk|
    requires Released(fs2, own2, fs3, own3, i) && FsInv(fs3, own3, base)
    ensures Finished(fs, own, fs3, own3, i, m', i !in fs.cache && View(fs2, i).links == 0)
  {
    hide VolInv;
    hide DirInv;
    hide View;
    hide Dir;
    hide DecodeInode;
    hide OwnersInv;
    RefsAt(fs, own, i, base);
    LoadStep(fs, own, fs1, i, base);
    DirKept(fs2, own2, fs3, own3, base);
    ReleasedRefs(fs, fs2, fs3, i);
  }

  lemma RefsAt(fs: Fs, own: Owners, i: nat, base: nat)
    requires FsInv(fs, own, base)
    ensures i in fs.cache ==> fs.cache[i].refs > 0
  {
    hide VolInv;
    hide DirInv;
    if i in fs.cache {
      RefsPositive(fs, own, base, i);
    }
  }

  lemma ReleasedRefs(fs: Fs, fs2: Fs, fs3: Fs, i: nat)
    requires i in fs.cache ==> fs.cache[i].refs > 0
    requires fs2.cache.Keys == fs.cache.Keys + {i}
    requires forall j | j in fs2.cache ::
               fs2.cache[j].refs == (if j in fs.cache then fs.cache[j].refs else 0) + (if j == i then 1 else 0)
    requires fs3.cache == (if fs2.cache[i].refs > 1 then fs2.cache[i := fs2.cache[i].(refs := fs2.cache[i].refs - 1)]
                           else fs2.cache - {i})
    ensures SameRefs(fs, fs3)
  {
  }

  ghost predicate SlotHolds(fs: Fs, slot: nat, ino: nat, name: seq<byte>) {
    DirOk(fs) && slot < |Slots(fs)| && Slots(fs)[slot].ino == ino != NOINO && Slots(fs)[slot].name == name
  }

  /** sfs_lookonce: the panic about a zero link count cannot happen. */
  method LookOnce(sfs: Sfs, dv: Vnode, name: seq<byte>) returns (err: Errno, sv: Vnode?, slot: nat)
    requires Sound(sfs) && dv in sfs.vnodes && dv.ino == ROOT_LOCATION
    modifies sfs, sfs.freemap, sfs.freemap.v, sfs.vnodes
    ensures Sound(sfs) && sfs.own == old(sfs.own) && err in {Success, ENOENT}
    ensures err == ENOENT <==> name !in Dir(old(sfs.fs))
    ensures err == ENOENT ==> sfs.fs == old(sfs.fs) && sfs.vnodes == old(sfs.vnodes)
    ensures err == Success ==>
              && sv != null && sv in sfs.vnodes && sv.ino == Dir(old(sfs.fs))[name] && Live(sfs.own, sv.ino)
              && sv.ino < |old(sfs.fs).disk| && sv.inode.links > 0
              && sfs.fs == old(sfs.fs).(cache := old(sfs.fs).cache[sv.ino := LoadVn(old(sfs.fs), sv.ino, TYPE_INVAL)])
              && (sfs.vnodes == old(sfs.vnodes) || (sfs.vnodes == old(sfs.vnodes) + [sv] && fresh(sv)))
    ensures err == Success ==> SlotHolds(sfs.fs, slot, sv.ino, name)
  {
    hide VolInv;
    hide DirInv;
    hide Sfs.Shape;
    hide View;
    hide Slots;
    hide Names;
    hide UniqueNames;
    hide LoadVn;
    ghost var fs, own := sfs.fs, sfs.own;
    SoundDirOk(fs, own, sfs.base);
    var ino, empty;
    err, ino, slot, empty := FindName(sfs, dv, name);
    AbsentIff(Slots(fs), name);
    if err != Success {
      return err, null, 0;
    }
    NameAt(Slots(fs), slot);
    SlotLive(fs, own, sfs.base, slot);
    sv := GetVnode(sfs, ino);
    LoadStep(fs, own, sfs.fs, ino, sfs.base);
    SlotsKept(fs, own, sfs.fs, own, sfs.base);
    SoundDirOk(sfs.fs, own, sfs.base);
    SlotLive(sfs.fs, own, sfs.base, slot);
    ShapeVn(sfs, sv);
    ViewMeta(sfs.fs, ino);
    assert sv.inode.links != 0;
  }

  lemma SlotLive(fs: Fs, own: Owners, base: nat, s: nat)
    requires FsInv(fs, own, base) && DirOk(fs) && s < |Slots(fs)| && Slots(fs)[s].ino != NOINO
    ensures Live(own, Slots(fs)[s].ino) && Slots(fs)[s].ino < |fs.disk| && View(fs, Slots(fs)[s].ino).links > 0
  {
    hide View;
    hide Slots;
    hide UniqueNames;
    hide Named;
    hide CacheInv;
    hide BitsInv;
    hide InodeInv;
    NamedHasLinks(fs, own, base, s);
  }

  lemma DirWroteLinks(fs: Fs, own: Owners, fs1: Fs, own1: Owners, sl': seq<Slot>, i: nat, base: nat)
    requires FsInv(fs, own, base) && DirWrote(fs, own, fs1, own1, sl') && i in fs.cache && i < |fs.disk|
    ensures i in fs1.cache && i < |fs1.disk| && Cur(fs1, i).links == Cur(fs, i).links < 0xffff && Live(own, i)
  {
    hide VolInv;
    hide DirInv;
    hide View;
    hide Slots;
    Facts(fs, own);
    LinksBounded(fs, own, base, i);
    ViewMeta(fs, i);
    ViewMeta(fs1, i);
  }

  /** Slots in use keep their contents when another one is filled. */
  lemma UsedSlotsStay(fs: Fs, fs': Fs, s: nat, sd: Slot, slot: nat, ino: nat, name: seq<byte>)
    requires SlotHolds(fs, slot, ino, name) && s <= |Slots(fs)| && (s < |Slots(fs)| ==> Slots(fs)[s].ino == NOINO)
    requires DirOk(fs') && Slots(fs') == Place(Slots(fs), s, sd)
    ensures SlotHolds(fs', slot, ino, name)
  {
    hide View;
    hide Slots;
    hide UniqueNames;
  }

  /** sfs_dir_link followed, on success, by the increment of the link count, as link, creat and rename do. */
  method LinkCounted(sfs: Sfs, dv: Vnode, name: seq<byte>, f: Vnode) returns (err: Errno)
    requires Sound(sfs) && dv in sfs.vnodes && dv.ino == ROOT_LOCATION && f in sfs.vnodes && IsName(name)
    modifies sfs`disk, sfs`freemapdirty, sfs`own, sfs`fs, sfs.freemap, sfs.freemap.v, dv, f
    ensures Sound(sfs)
    ensures err == EEXIST <==> name in Dir(old(sfs.fs))
    ensures err == ENAMETOOLONG <==> name !in Dir(old(sfs.fs)) && |name| + 1 > NAMELEN
    ensures err == EFBIG <==> name !in Dir(old(sfs.fs)) && |name| + 1 <= NAMELEN && DirFull(old(sfs.fs))
    ensures err == ENOSPC <==> name !in Dir(old(sfs.fs)) && |name| + 1 <= NAMELEN && NoSpaceForName(old(sfs.fs), 0)
    ensures err == ENOSPC ==> Full(sfs.fs)
    ensures err in {Success, EEXIST, ENAMETOOLONG, ENOSPC, EFBIG}
    ensures NameStep(old(sfs.fs), old(sfs.own), sfs.fs, sfs.own,
                     if err == Success then Dir(old(sfs.fs))[name := f.ino] else Dir(old(sfs.fs)))
    ensures f.inode.links == old(f.inode.links) + if err == Success then 1 else 0
    ensures err == Success ==>
              forall s, i, n | SlotHolds(old(sfs.fs), s, i, n) :: SlotHolds(sfs.fs, s, i, n)
  {
    hide VolInv;
    hide DirInv;
    hide Sfs.Shape;
    hide View;
    hide Slots;
    hide Names;
    hide UniqueNames;
    hide DirWrote;
    hide NameStep;
    hide SetInode;
    hide SlotHolds;
    ghost var fs, own := sfs.fs, sfs.own;
    SoundDirOk(fs, own, sfs.base);
    AbsentIff(Slots(fs), name);
    Loaded(sfs, f);
    InoNotZero(fs, own, f.ino);
    var slot;
    err, slot := DirLink(sfs, dv, name, f.ino);
    ghost var fs1, own1 := sfs.fs, sfs.own;
    Loaded(sfs, f);
    if err != Success {
      DirWroteLinks(fs, own, fs1, own1, Slots(fs), f.ino, sfs.base);
      NothingAdded(fs, own, fs1, own1, sfs.base);
      return;
    }
    ghost var sd := Slot(f.ino, name);
    DirWroteLinks(fs, own, fs1, own1, Place(Slots(fs), slot, sd), f.ino, sfs.base);
    SetVnode(sfs, f, f.inode.(links := f.inode.links + 1));
    NameAdded(fs, own, fs1, own1, sfs.fs, slot, sd, f.inode.links, sfs.base);
    SlotsAfter(fs, own, fs1, own1, sfs.fs, f.ino, f.inode.links, slot, sd, sfs.base);
    forall s, i, n | SlotHolds(fs, s, i, n)
      ensures SlotHolds(sfs.fs, s, i, n)
    {
      UsedSlotsStay(fs, sfs.fs, slot, sd, s, i, n);
    }
  }

  lemma SlotsAfter(fs: Fs, own: Owners, fs1: Fs, own1: Owners, fs2: Fs, i: nat, links: half, s: nat, sd: Slot,
                   base: nat)
    requires DirOk(fs) && s <= |Slots(fs)| && DirWrote(fs, own, fs1, own1, Place(Slots(fs), s, sd))
    requires i in fs1.cache && i < |fs1.disk| && FsInv(fs2, own1, base) && VolInv(fs1, own1)
    requires fs2 == SetInode(fs1, i, Cur(fs1, i).(links := links))
    ensures DirOk(fs2) && Slots(fs2) == Place(Slots(fs), s, sd)
  {
    hide VolInv;
    hide DirInv;
    hide View;
    hide Slots;
    hide UniqueNames;
    hide SetInode;
    SoundDirOk(fs2, own1, base);
    LinksOnly(fs1, own1, fs2, i, links);
    SlotsByContent(fs1, fs2);
  }

  lemma InoNotZero(fs: Fs, own: Owners, i: nat)
    requires VolInv(fs, own) && Live(own, i)
    ensures 0 < i < 0x1_0000_0000
  {
    hide InodeInv;
    hide BitsInv;
    hide CacheInv;
  }

  /** sfs_dir_unlink and the decrement of the link count, as remove and rename do; it cannot fail. */
  method UnlinkCounted(sfs: Sfs, dv: Vnode, slot: nat, f: Vnode, ghost name: seq<byte>)
    requires Sound(sfs) && dv in sfs.vnodes && dv.ino == ROOT_LOCATION && f in sfs.vnodes
    requires SlotHolds(sfs.fs, slot, f.ino, name)
    modifies sfs`disk, sfs`freemapdirty, sfs`own, sfs`fs, sfs.freemap, sfs.freemap.v, dv, f
    ensures Sound(sfs) && old(f.inode.links) > 0 && f.inode.links == old(f.inode.links) - 1
    ensures NameStep(old(sfs.fs), old(sfs.own), sfs.fs, sfs.own, Dir(old(sfs.fs)) - {name})
  {
    hide VolInv;
    hide DirInv;
    hide Sfs.Shape;
    hide View;
    hide Slots;
    hide Names;
    hide UniqueNames;
    hide DirWrote;
    hide NameStep;
    hide SetInode;
    ghost var fs, own := sfs.fs, sfs.own;
    SlotLive(fs, own, sfs.base, slot);
    Loaded(sfs, f);
    ViewMeta(fs, f.ino);
    var err := DirUnlink(sfs, dv, slot);
    assert err == Success;
    ghost var fs1, own1 := sfs.fs, sfs.own;
    ghost var sd := Slot(NOINO, []);
    DirWroteLinks(fs, own, fs1, own1, Slots(fs)[slot := sd], f.ino, sfs.base);
    Loaded(sfs, f);
    assert f.inode.links > 0;
    SetVnode(sfs, f, f.inode.(links := f.inode.links - 1));
    NameDropped(fs, own, fs1, own1, sfs.fs, slot, sd, f.ino, f.inode.links, sfs.base);
  }

  lemma LoadKeeps(fs: Fs, own: Owners, fs1: Fs, i: nat, base: nat)
    requires FsInv(fs, own, base) && Live(own, i) && i < |fs.disk|
    requires fs1 == fs.(cache := fs.cache[i := LoadVn(fs, i, TYPE_INVAL)])
    ensures FsInv(fs1, own, base) && Dir(fs1) == Dir(fs) && (DirFull(fs1) <==> DirFull(fs)) && Cur(fs1, i) == Cur(fs, i)
    ensures NoSpaceForName(fs1, 0) <==> NoSpaceForName(fs, 0)
    ensures fs1.cache[i].refs == (if i in fs.cache then fs.cache[i].refs else 0) + 1
    ensures i in fs.cache ==> fs.cache[i].refs > 0
  {
    hide VolInv;
    hide DirInv;
    hide View;
    hide Dir;
    hide DecodeInode;
    hide NoSpaceForName;
    hide Ptrs;
    RefsAt(fs, own, i, base);
    LoadStep(fs, own, fs1, i, base);
    DirKept(fs, own, fs1, own, base);
    RootIndirect(fs, own);
    SpaceKept(fs, own, 0, fs1, own, 0, base);
  }

  lemma NameStepRefs(fs: Fs, own: Owners, fs': Fs, own': Owners, m': map<seq<byte>, nat>, i: nat)
    requires NameStep(fs, own, fs', own', m') && i in fs.cache
    ensures i in fs'.cache && fs'.cache[i].refs == fs.cache[i].refs
  {
    hide View;
    hide Dir;
  }

  lemma NameStepDir(fs: Fs, own: Owners, fs': Fs, own': Owners, m': map<seq<byte>, nat>)
    requires NameStep(fs, own, fs', own', m')
    ensures Dir(fs') == m'
  {
    hide View;
    hide Dir;
  }

  /** Only the root is a directory. */
  lemma FileType(fs: Fs, own: Owners, base: nat, i: nat)
    requires FsInv(fs, own, base) && Live(own, i) && i != ROOT_LOCATION
    ensures i < |fs.disk| && Cur(fs, i).typ == TYPE_FILE
  {
    hide View;
    hide Slots;
    hide Named;
    hide UniqueNames;
    hide InodeInv;
    hide BitsInv;
    hide CacheInv;
    hide DecodeInode;
    ViewMeta(fs, i);
  }

  lemma AllLoaded(sfs: Sfs)
    requires sfs.Shape()
    ensures forall v | v in sfs.vnodes :: v.ino in sfs.fs.cache
  {
    hide Sfs.Shape;
    forall v | v in sfs.vnodes
      ensures v.ino in sfs.fs.cache
    {
      ShapeVn(sfs, v);
    }
  }

  /**
   * sfs_remove: the name goes away. The file goes with it exactly when that was its only link and nobody has it
   * loaded; otherwise it keeps its data, and stays until its last reference is dropped.
   */
  method Remove(sfs: Sfs, dv: Vnode, name: seq<byte>) returns (err: Errno)
    requires Sound(sfs) && dv in sfs.vnodes && dv.ino == ROOT_LOCATION
    modifies sfs, sfs.freemap, sfs.freemap.v, sfs.vnodes
    ensures Sound(sfs) && err in {Success, ENOENT}
    ensures err == ENOENT <==> name !in Dir(old(sfs.fs))
    ensures err == ENOENT ==> sfs.fs == old(sfs.fs) && sfs.own == old(sfs.own)
    ensures err == Success ==>
              var i := Dir(old(sfs.fs))[name];
              && i < |old(sfs.fs).disk|
              && Finished(old(sfs.fs), old(sfs.own), sfs.fs, sfs.own, i, Dir(old(sfs.fs)) - {name},
                          i !in old(sfs.fs).cache && Cur(old(sfs.fs), i).links == 1)
    ensures forall v | v in old(sfs.vnodes) :: v in sfs.vnodes
    ensures forall v | v in sfs.vnodes :: v in old(sfs.vnodes) || fresh(v)
  {
    hide VolInv;
    hide DirInv;
    hide Sfs.Shape;
    hide View;
    hide Dir;
    hide LoadVn;
    hide NameStep;
    hide Released;
    hide SlotHolds;
    hide Finished;
    ghost var fs, own := sfs.fs, sfs.own;
    AllLoaded(sfs);
    var victim, slot;
    err, victim, slot := LookOnce(sfs, dv, name);
    if err != Success {
      return;
    }
    ghost var fs1 := sfs.fs;
    LoadKeeps(fs, own, fs1, victim.ino, sfs.base);
    Loaded(sfs, victim);
    UnlinkCounted(sfs, dv, slot, victim, name);
    ghost var fs2, own2 := sfs.fs, sfs.own;
    Loaded(sfs, victim);
    ViewMeta(fs2, victim.ino);
    NameStepRefs(fs1, own, fs2, own2, Dir(fs) - {name}, victim.ino);
    DecRef(sfs, victim);
    LoadedReleased(fs, own, fs1, fs2, own2, sfs.fs, sfs.own, victim.ino, Dir(fs) - {name}, sfs.base);
  }

  /** sfs_link. */
  method Link(sfs: Sfs, dv: Vnode, name: seq<byte>, f: Vnode) returns (err: Errno)
    requires Sound(sfs) && dv in sfs.vnodes && dv.ino == ROOT_LOCATION && f in sfs.vnodes && IsName(name)
    modifies sfs`disk, sfs`freemapdirty, sfs`own, sfs`fs, sfs.freemap, sfs.freemap.v, dv, f
    ensures Sound(sfs)
    ensures err == EEXIST <==> name in Dir(old(sfs.fs))
    ensures err == ENAMETOOLONG <==> name !in Dir(old(sfs.fs)) && |name| + 1 > NAMELEN
    ensures err == EFBIG <==> name !in Dir(old(sfs.fs)) && |name| + 1 <= NAMELEN && DirFull(old(sfs.fs))
    ensures err == ENOSPC <==> name !in Dir(old(sfs.fs)) && |name| + 1 <= NAMELEN && NoSpaceForName(old(sfs.fs), 0)
    ensures err == ENOSPC ==> Full(sfs.fs)
    ensures err in {Success, EEXIST, ENAMETOOLONG, ENOSPC, EFBIG}
    ensures NameStep(old(sfs.fs), old(sfs.own), sfs.fs, sfs.own,
                     if err == Success then Dir(old(sfs.fs))[name := f.ino] else Dir(old(sfs.fs)))
  {
    hide *;
    err := LinkCounted(sfs, dv, name, f);
  }

  /**
   * sfs_rename: on success the file has exactly the new name in place of the old one, and no file looks
   * different; on failure the directory is unchanged. The recovery path for a failing sfs_dir_unlink is dead,
   * since unlinking a slot in use cannot fail.
   */
  method Rename(sfs: Sfs, dv: Vnode, n1: seq<byte>, n2: seq<byte>) returns (err: Errno)
    requires Sound(sfs) && dv in sfs.vnodes && dv.ino == ROOT_LOCATION && IsName(n2)
    requires n1 in Dir(sfs.fs) ==> Dir(sfs.fs)[n1] != ROOT_LOCATION
    modifies sfs, sfs.freemap, sfs.freemap.v, sfs.vnodes
    ensures Sound(sfs) && err in {Success, ENOENT, EEXIST, ENAMETOOLONG, ENOSPC, EFBIG}
    ensures err == ENOENT <==> n1 !in Dir(old(sfs.fs))
    ensures err == EEXIST <==> n1 in Dir(old(sfs.fs)) && n2 in Dir(old(sfs.fs))
    ensures err == ENAMETOOLONG <==> n1 in Dir(old(sfs.fs)) && n2 !in Dir(old(sfs.fs)) && |n2| + 1 > NAMELEN
    ensures err == EFBIG <==>
              n1 in Dir(old(sfs.fs)) && n2 !in Dir(old(sfs.fs)) && |n2| + 1 <= NAMELEN && DirFull(old(sfs.fs))
    ensures err == ENOSPC <==>
              n1 in Dir(old(sfs.fs)) && n2 !in Dir(old(sfs.fs)) && |n2| + 1 <= NAMELEN && NoSpaceForName(old(sfs.fs), 0)
    ensures err == ENOSPC ==> Full(sfs.fs)
    ensures err == ENOENT ==> sfs.fs == old(sfs.fs) && sfs.own == old(sfs.own)
    ensures err != ENOENT ==>
              Finished(old(sfs.fs), old(sfs.own), sfs.fs, sfs.own, Dir(old(sfs.fs))[n1],
                       if err == Success then Dir(old(sfs.fs))[n2 := Dir(old(sfs.fs))[n1]] - {n1} else Dir(old(sfs.fs)),
                       false)
    ensures forall v | v in old(sfs.vnodes) :: v in sfs.vnodes
    ensures forall v | v in sfs.vnodes :: v in old(sfs.vnodes) || fresh(v)
  {
    hide VolInv;
    hide DirInv;
    hide Sfs.Shape;
    hide View;
    hide Dir;
    hide LoadVn;
    hide NameStep;
    hide Released;
    hide SlotHolds;
    hide Finished;
    hide DirFull;
    hide Full;
    hide NoSpaceForName;
    ghost var fs, own := sfs.fs, sfs.own;
    AllLoaded(sfs);
    var g1, slot1;
    err, g1, slot1 := LookOnce(sfs, dv, n1);
    if err != Success {
      return;
    }
    ghost var fs1 := sfs.fs;
    LoadKeeps(fs, own, fs1, g1.ino, sfs.base);
    FileType(fs1, own, sfs.base, g1.ino);
    ShapeVn(sfs, g1);
    assert g1.inode.typ == TYPE_FILE;
    err := LinkCounted(sfs, dv, n2, g1);
    ghost var fs2, own2 := sfs.fs, sfs.own;
    ghost var m := Dir(fs);
    if err == Success {
      NameStepDir(fs1, own, fs2, own2, m[n2 := g1.ino]);
      UnlinkCounted(sfs, dv, slot1, g1, n1);
      NameStepTrans(fs1, own, fs2, own2, sfs.fs, sfs.own, m[n2 := g1.ino], m[n2 := g1.ino] - {n1});
      m := m[n2 := g1.ino] - {n1};
    }
    ghost var fs3, own3 := sfs.fs, sfs.own;
    Loaded(sfs, g1);
    ViewMeta(fs3, g1.ino);
    NameStepRefs(fs1, own, fs3, own3, m, g1.ino);
    DecRef(sfs, g1);
    LoadedReleased(fs, own, fs1, fs3, own3, sfs.fs, sfs.own, g1.ino, m, sfs.base);
    if err == ENOSPC {
      StaysLive(fs, own, sfs.fs, sfs.own, g1.ino, m);
      StillFull(fs3, own3, sfs.fs, sfs.own, g1.ino);
    }
  }

  lemma StaysLive(fs: Fs, own: Owners, fs': Fs, own': Owners, i: nat, m': map<seq<byte>, nat>)
    requires Finished(fs, own, fs', own', i, m', false) && Live(own, i)
    ensures Live(own', i)
  {
    hide View;
    hide Dir;
  }

  /** A new empty file b came into being under the directory m', loaded with one reference. */
  ghost predicate Made(fs: Fs, own: Owners, fs': Fs, own': Owners, b: nat, m': map<seq<byte>, nat>) {
    && b < |fs.disk| && b !in fs.cache && !Live(own, b) && (forall j :: Live(own', j) <==> Live(own, j) || j == b)
    && b !in own && AgreeOff(own[b := InodeOf(b)], own', ROOT_LOCATION)
    && SameData(fs, own, fs') && SameButLinks(EmptyFile(), View(fs', b)) && Dir(fs') == m'
    && fs'.cache.Keys == fs.cache.Keys + {b} && fs'.cache[b].refs == 1
    && forall j | j in fs.cache :: fs'.cache[j].refs == fs.cache[j].refs
  }

  lemma CreatedNamed(fs: Fs, own: Owners, fs1: Fs, own1: Owners, fs2: Fs, own2: Owners, b: nat, m': map<seq<byte>, nat>)
    requires Created(fs, own, fs1, own1, b) && NameStep(fs1, own1, fs2, own2, m')
    ensures Made(fs, own, fs2, own2, b, m')
  {
    hide View;
    hide Dir;
    hide EmptyFile;
    hide OwnersInv;
    RootNotNew(fs, own, b);
    CreatedCache(fs, fs1, b);
  }

  lemma RootNotNew(fs: Fs, own: Owners, b: nat)
    requires OwnersInv(|fs.disk|, own) && !Live(own, b)
    ensures b != ROOT_LOCATION
  {
  }

  lemma CreatedCache(fs: Fs, fs1: Fs, b: nat)
    requires b !in fs.cache && b in fs1.cache && fs1.cache - {b} == fs.cache
    ensures fs1.cache.Keys == fs.cache.Keys + {b} && forall j | j in fs.cache :: fs1.cache[j] == fs.cache[j]
  {
    assert forall j | j in fs.cache :: j in fs1.cache - {b};
  }

  /** Releasing a new file that got no name leaves nothing behind. */
  lemma CreatedReleased(fs: Fs, own: Owners, fs2: Fs, own2: Owners, fs3: Fs, own3: Owners, b: nat, base: nat)
    requires Made(fs, own, fs2, own2, b, Dir(fs)) && FsInv(fs2, own2, base) && b < |fs2.disk| && Cur(fs2, b).links == 0
    requires Released(fs2, own2, fs3, own3, b) && FsInv(fs3, own3, base) && OwnersInv(|fs.disk|, own)
    ensures NameStep(fs, own, fs3, own3, Dir(fs))
  {
    hide VolInv;
    hide DirInv;
    hide View;
    hide Dir;
    hide EmptyFile;
    hide OwnersInv;
    hide AgreeOff;
    ViewMeta(fs2, b);
    DirKept(fs2, own2, fs3, own3, base);
    RootNotNew(fs, own, b);
    UnmadeAgrees(|fs.disk|, own, own2, own3, b);
  }

  lemma UnmadeAgrees(n: nat, own: Owners, own2: Owners, own3: Owners, b: nat)
    requires OwnersInv(n, own) && OwnersInv(n, own3) && !Live(own, b) && !Live(own3, b) && b !in own
    requires AgreeOff(own[b := InodeOf(b)], own2, ROOT_LOCATION) && AgreeOff(own2, own3, b)
    ensures AgreeOff(own, own3, ROOT_LOCATION)
  {
  }

  /**
   * sfs_creat. A failed creation of a new file leaves no file, no name and no inode block behind. It needs a block
   * for the inode before it looks at the name, and then whatever blocks the directory needs for the new slot.
   */
  method Creat(sfs: Sfs, dv: Vnode, name: seq<byte>, excl: bool) returns (err: Errno, sv: Vnode?)
    requires Sound(sfs) && dv in sfs.vnodes && dv.ino == ROOT_LOCATION && IsName(name)
    modifies sfs, sfs.freemap, sfs.freemap.v, sfs.vnodes
    ensures Sound(sfs) && err in {Success, EEXIST, ENAMETOOLONG, ENOSPC, EFBIG}
    ensures err == EEXIST <==> name in Dir(old(sfs.fs)) && excl
    ensures err == ENAMETOOLONG <==> name !in Dir(old(sfs.fs)) && !Full(old(sfs.fs)) && |name| + 1 > NAMELEN
    ensures err == EFBIG <==>
              name !in Dir(old(sfs.fs)) && !Full(old(sfs.fs)) && |name| + 1 <= NAMELEN && DirFull(old(sfs.fs))
    ensures err == ENOSPC <==>
              && name !in Dir(old(sfs.fs))
              && (Full(old(sfs.fs)) || (|name| + 1 <= NAMELEN && NoSpaceForName(old(sfs.fs), 1)))
    ensures err != Success ==> NameStep(old(sfs.fs), old(sfs.own), sfs.fs, sfs.own, Dir(old(sfs.fs)))
    ensures err == Success ==> sv != null && sv in sfs.vnodes
    ensures err == Success && name in Dir(old(sfs.fs)) ==>
              && sv.ino == Dir(old(sfs.fs))[name] && sv.ino < |old(sfs.fs).disk| && sfs.own == old(sfs.own)
              && sfs.fs == old(sfs.fs).(cache := old(sfs.fs).cache[sv.ino := LoadVn(old(sfs.fs), sv.ino, TYPE_INVAL)])
    ensures err == Success && name !in Dir(old(sfs.fs)) ==>
              && |name| < NAMELEN
              && Made(old(sfs.fs), old(sfs.own), sfs.fs, sfs.own, sv.ino, Dir(old(sfs.fs))[name := sv.ino])
              && sv.inode.size == 0 && sv.inode.typ == 1 && sv.inode.links == 1
              && sv.inode.direct == seq(15, _ => 0) && sv.inode.indirect == 0
    ensures forall v | v in old(sfs.vnodes) :: v in sfs.vnodes
    ensures forall v | v in sfs.vnodes :: v in old(sfs.vnodes) || fresh(v)
  {
    hide VolInv;
    hide DirInv;
    hide Sfs.Shape;
    hide View;
    hide Slots;
    hide Names;
    hide UniqueNames;
    hide LoadVn;
    hide NameStep;
    hide Released;
    hide Created;
    hide Made;
    hide DirFull;
    hide Full;
    hide NoSpaceForName;
    hide OwnersInv;
    hide CacheInv;
    ghost var fs, own := sfs.fs, sfs.own;
    SoundDirOk(fs, own, sfs.base);
    AbsentIff(Slots(fs), name);
    NoNameStep(fs, own);
    var ino, slot, empty;
    err, ino, slot, empty := FindName(sfs, dv, name);
    if err == Success {
      NameAt(Slots(fs), slot);
      if excl {
        return EEXIST, null;
      }
      SlotLive(fs, own, sfs.base, slot);
      sv := GetVnode(sfs, ino);
      return;
    }
    err, sv := MakeObj(sfs);
    if err != Success {
      return;
    }
    ghost var fs1, own1 := sfs.fs, sfs.own;
    Facts(fs, own);
    CreatedKeeps(fs, own, fs1, own1, sv.ino, sfs.base);
    ShapeVn(sfs, sv);
    err := LinkCounted(sfs, dv, name, sv);
    ghost var m := if err == Success then Dir(fs)[name := sv.ino] else Dir(fs);
    CreatedNamed(fs, own, fs1, own1, sfs.fs, sfs.own, sv.ino, m);
    if err != Success {
      ghost var fs2, own2 := sfs.fs, sfs.own;
      Loaded(sfs, sv);
      DecRef(sfs, sv);
      CreatedReleased(fs, own, fs2, own2, sfs.fs, sfs.own, sv.ino, sfs.base);
      sv := null;
    } else {
      Loaded(sfs, sv);
      MadeIsEmpty(fs, own, sfs.fs, sfs.own, sv.ino, m);
    }
  }

  /** A file just made has size 0 and no blocks. */
  lemma MadeIsEmpty(fs: Fs, own: Owners, fs': Fs, own': Owners, b: nat, m: map<seq<byte>, nat>)
    requires Made(fs, own, fs', own', b, m) && OwnersInv(|fs.disk|, own) && VolInv(fs', own')
    ensures b < |fs'.disk| && Cur(fs', b).size == 0 && Cur(fs', b).typ == 1
    ensures Cur(fs', b).direct == seq(15, _ => 0) && Cur(fs', b).indirect == 0
  {
    hide VolInv;
    hide Dir;
    hide Ptrs;
    hide View;
    ViewMeta(fs', b);
    FileOwners(fs', own', b);
    PtrsDirect(fs'.disk, Cur(fs', b));
    OwnsOnlyItself(|fs.disk|, own, own', b);
    assert forall k | 0 <= k < MAXFILEBLOCKS :: Ptrs(fs'.disk, Cur(fs', b))[k] == 0;
  }

  lemma OwnsOnlyItself(n: nat, own: Owners, own': Owners, b: nat)
    requires OwnersInv(n, own) && !Live(own, b) && AgreeOff(own[b := InodeOf(b)], own', ROOT_LOCATION)
    ensures forall x | x in own' && own'[x].ino == b :: own'[x].InodeOf?
  {
  }

  lemma NoNameStep(fs: Fs, own: Owners)
    ensures NameStep(fs, own, fs, own, Dir(fs))
  {
    hide View;
    hide Dir;
  }

  lemma CreatedKeeps(fs: Fs, own: Owners, fs1: Fs, own1: Owners, b: nat, base: nat)
    requires FsInv(fs, own, base) && FsInv(fs1, own1, base) && Created(fs, own, fs1, own1, b)
    ensures Dir(fs1) == Dir(fs) && (DirFull(fs1) <==> DirFull(fs)) && Cur(fs1, b).links == 0 && b in fs1.cache
    ensures !Full(fs) && (NoSpaceForName(fs1, 0) <==> NoSpaceForName(fs, 1))
  {
    hide VolInv;
    hide DirInv;
    hide View;
    hide Dir;
    hide OwnersInv;
    hide DirFull;
    hide NoSpaceForName;
    hide Ptrs;
    DirKept(fs, own, fs1, own1, base);
    ViewMeta(fs1, b);
    RootNotNew(fs, own, b);
    CreatedCache(fs, fs1, b);
    OneLessFree(fs, fs1, b);
    RootIndirect(fs, own);
    PtrsFrame(fs.disk, fs1.disk, Cur(fs, ROOT_LOCATION));
    SpaceKept(fs, own, 1, fs1, own1, 0, base);
  }

  /** The root's indirect block, if any, is in use. */
  lemma RootIndirect(fs: Fs, own: Owners)
    requires VolInv(fs, own)
    ensures ROOT_LOCATION < |fs.disk|
    ensures Cur(fs, ROOT_LOCATION).indirect == 0 || Cur(fs, ROOT_LOCATION).indirect in own
  {
    hide Ptrs;
    hide BitsInv;
    hide CacheInv;
    assert InodeInv(fs, own, ROOT_LOCATION);
  }

  /** Room for a new name depends on the directory, its pointers and the number of free blocks. */
  lemma SpaceKept(fs: Fs, own: Owners, taken: nat, fs': Fs, own': Owners, taken': nat, base: nat)
    requires FsInv(fs, own, base) && FsInv(fs', own', base) && (SameViews(fs, own, fs') || SameViews(fs, own', fs'))
    requires ROOT_LOCATION < |fs.disk| == |fs'.disk| && Cur(fs', ROOT_LOCATION) == Cur(fs, ROOT_LOCATION)
    requires Ptrs(fs'.disk, Cur(fs', ROOT_LOCATION)) == Ptrs(fs.disk, Cur(fs, ROOT_LOCATION))
    requires |Free(fs')| + taken == |Free(fs)| + taken'
    ensures NoSpaceForName(fs', taken') <==> NoSpaceForName(fs, taken)
  {
    hide VolInv;
    hide DirInv;
    hide View;
    hide Slots;
    hide NewSlot;
    hide UniqueNames;
    hide Ptrs;
    hide Cur;
    SoundDirOk(fs, own, base);
    SoundDirOk(fs', own', base);
    SlotsSame(fs, fs');
  }
}
