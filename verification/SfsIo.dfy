/** sfs_partialio, sfs_blockio and sfs_io: unaligned file I/O (kern/fs/sfs/sfs_vnode.c:306-542). */
module SfsIo {
  import opened Common
  import opened Bytes
  import opened Bitmaps
  import opened Uios
  import opened SfsLayout
  import opened SfsVolume
  import opened SfsSteps
  import opened SfsState
  import opened SfsBmap
  import opened SfsContent

  /** How a transfer can end: completely, at the largest file size, or before a hole on a full volume. */
  ghost predicate Ending(fs': Fs, i: nat, rw: Direction, err: Errno, pos: nat) {
    match err
    case Success => true
    case EFBIG => pos >= MAXFILESIZE
    case ENOSPC =>
      && rw.UioWrite? && Full(fs') && pos < MAXFILESIZE && i < |fs'.disk|
      && View(fs', i).blocks[pos / BLOCKSIZE] == ZeroBlock
    case _ => false
  }

  /** A transfer cannot even start: its first block is past the last one, or a hole that cannot be filled. */
  ghost predicate Stuck(fs: Fs, i: nat, rw: Direction, k: nat) {
    k >= MAXFILEBLOCKS || (rw.UioWrite? && NoRoom(fs, i, k))
  }

  lemma MappedUnlessStuck(fs: Fs, own: Owners, fs': Fs, own': Owners, i: nat, k: nat, rw: Direction, err: Errno, p: nat)
    requires Mapped(fs, own, fs', own', i, k, rw.UioWrite?, err, p)
    requires err == ENOSPC <==> rw.UioWrite? && NoRoom(fs, i, k)
    ensures err == Success <==> !Stuck(fs, i, rw, k)
  {
    hide FileStep;
    hide View;
    hide Ptrs;
  }

  lemma WriteMoved(fs: Fs, own: Owners, fs1: Fs, own1: Owners, fs2: Fs, i: nat, k: nat, p: nat,
                   skip: nat, data: seq<byte>)
    requires VolInv(fs, own) && VolInv(fs1, own1) && Mapped(fs, own, fs1, own1, i, k, true, Success, p)
    requires skip + |data| <= BLOCKSIZE && p < |fs1.disk|
    requires fs2 == fs1.(disk := fs1.disk[p := Patch(fs1.disk[p], skip, data)])
    ensures VolInv(fs2, own1) && Moved(fs, own, fs2, own1, i, UioWrite, BLOCKSIZE * k + skip, data)
  {
    hide VolInv;
    hide Ptrs;
    hide Flat;
    hide Overlay;
    hide InodeInv;
    hide BitsInv;
    hide FileInv;
    hide Blocks;
    VolParts(fs, own, i);
    VolParts(fs1, own1, i);
    MappedFetch(fs1, i, k, p);
    WriteDataStep(fs1, own1, fs2, i, k, p, Patch(fs1.disk[p], skip, data));
    FlatPatch(View(fs, i).blocks, k, skip, data);
  }

  lemma MappedFetch(fs: Fs, i: nat, k: nat, p: nat)
    requires i < |fs.disk| && k < MAXFILEBLOCKS && p == Ptrs(fs.disk, Cur(fs, i))[k]
    ensures View(fs, i).blocks[k] == if p == 0 || p >= |fs.disk| then ZeroBlock else fs.disk[p]
  {
  }

  lemma ReadMoved(fs: Fs, own: Owners, i: nat, k: nat, p: nat, skip: nat, len: nat)
    requires VolInv(fs, own) && Mapped(fs, own, fs, own, i, k, false, Success, p) && skip + len <= BLOCKSIZE
    ensures Moved(fs, own, fs, own, i, UioRead, BLOCKSIZE * k + skip, Fetch(fs.disk, p)[skip..skip + len])
  {
    hide Ptrs;
    hide Blocks;
    hide Flat;
    hide VolInv;
    MappedFetch(fs, i, k, p);
    FlatSlice(View(fs, i).blocks, k, skip, len);
  }

  lemma FailMoved(fs: Fs, own: Owners, fs1: Fs, own1: Owners, i: nat, k: nat, rw: Direction, err: Errno, p: nat,
                  off: nat)
    requires Mapped(fs, own, fs1, own1, i, k, rw.UioWrite?, err, p) && err != Success && k == off / BLOCKSIZE
    ensures Moved(fs, own, fs1, own1, i, rw, off, []) && Ending(fs1, i, rw, err, off)
  {
    hide View;
    hide Ptrs;
    hide Flat;
    hide Overlay;
    hide VolInv;
    hide OthersSame;
    OverlayEmpty(Content(fs, i), off);
    if err == ENOSPC {
      MappedFetch(fs1, i, k, 0);
    }
  }

  /** I/O that covers part of one block. */
  method PartialIo(sfs: Sfs, sv: Vnode, uio: Uio, skip: nat, len: nat) returns (err: Errno, ghost data: seq<byte>)
    requires sfs.Valid() && sv in sfs.vnodes && uio.Valid()
    requires skip == uio.offset % BLOCKSIZE && skip + len <= BLOCKSIZE && len <= uio.resid
    modifies sfs`disk, sfs`freemapdirty, sfs`own, sfs`fs, sfs.freemap, sfs.freemap.v, sv, uio
    ensures sfs.Valid() && uio.Valid() && UioStep(uio.rw, old(uio.State()), uio.State(), data)
    ensures Moved(old(sfs.fs), old(sfs.own), sfs.fs, sfs.own, sv.ino, uio.rw, Pos(old(uio.offset)), data)
    ensures Ending(sfs.fs, sv.ino, uio.rw, err, Pos(uio.offset))
    ensures if err == Success then |data| == len else data == []
    ensures err == Success <==> !Stuck(old(sfs.fs), sv.ino, uio.rw, Pos(old(uio.offset)) / BLOCKSIZE)
  {
    hide VolInv;
    hide Mapped;
    hide NoRoom;
    hide Stuck;
    hide Pos;
    hide Moved;
    hide Ptrs;
    hide Rest;
    hide Sfs.Shape;
    ghost var fs, own, i, off, u := sfs.fs, sfs.own, sv.ino, uio.offset, uio.State();
    var fileblock := uio.offset / BLOCKSIZE % 0x1_0000_0000;
    PosBlock(off);
    var diskblock;
    err, diskblock := Bmap(sfs, sv, fileblock, uio.rw.UioWrite?);
    ghost var fs1, own1 := sfs.fs, sfs.own;
    MappedUnlessStuck(fs, own, fs1, own1, i, fileblock, uio.rw, err, diskblock);
    if err != Success {
      data := [];
      FailMoved(fs, own, fs1, own1, i, fileblock, uio.rw, err, diskblock, Pos(off));
      return;
    }
    Loaded(sfs, sv);
    MappedInRange(fs, own, fs1, own1, i, fileblock, uio.rw.UioWrite?, diskblock);
    var iobuf := Fetch(sfs.disk, diskblock);
    var after := uio.Move(iobuf[skip..skip + len]);
    data := after;
    match uio.rw {
      case UioRead =>
        ReadMoved(fs, own, i, fileblock, diskblock, skip, len);
      case UioWrite =>
        WriteBlock(sfs, diskblock, Patch(iobuf, skip, after));
        WriteMoved(fs, own, fs1, own1, sfs.fs, i, fileblock, diskblock, skip, after);
    }
  }

  lemma MappedInRange(fs: Fs, own: Owners, fs': Fs, own': Owners, i: nat, k: nat, doalloc: bool, p: nat)
    requires Mapped(fs, own, fs', own', i, k, doalloc, Success, p)
    ensures p < |fs'.disk| && (doalloc ==> p != 0) && (!doalloc ==> fs' == fs && own' == own)
    ensures doalloc ==> !Reserved(|fs'.disk|, p)
  {
    hide Ptrs;
    hide Pointers;
    hide BitsInv;
    hide View;
    hide Reserved;
    hide DecodeInode;
    var ino := Cur(fs', i);
    assert InodeInv(fs', own', i);
    if doalloc {
      DataOwnedBy(own', i, ino.indirect, Ptrs(fs'.disk, ino), k);
    }
  }

  /** The device transfer of sfs_rwblock: one whole sector at a sector-aligned device offset. */
  method RwBlock(sfs: Sfs, uio: Uio) returns (ghost data: Block)
    requires sfs.Shape() && uio.Valid() && uio.resid == BLOCKSIZE && uio.offset % BLOCKSIZE == 0
    requires 0 < uio.offset / BLOCKSIZE < sfs.nblocks
    requires uio.rw.UioWrite? ==> !Reserved(sfs.nblocks, uio.offset / BLOCKSIZE)
    modifies sfs`disk, sfs`fs, uio
    ensures sfs.Shape() && uio.Valid() && UioStep(uio.rw, old(uio.State()), uio.State(), data)
    ensures var b := old(uio.offset) / BLOCKSIZE;
            && |old(sfs.fs).disk| == sfs.nblocks
            && (uio.rw.UioRead? ==> sfs.fs == old(sfs.fs) && data == old(sfs.fs).disk[b])
            && (uio.rw.UioWrite? ==> sfs.fs == old(sfs.fs).(disk := old(sfs.fs).disk[b := data]))
  {
    hide Rest;
    hide Bitmap.Valid;
    hide MapSaved;
    hide SuperOk;
    hide Reserved;
    var b := uio.offset / BLOCKSIZE;
    var after := uio.Move(sfs.disk[b]);
    data := after;
    if uio.rw.UioWrite? {
      WriteBlock(sfs, b, after);
    }
  }

  /** Block diskblock transferred with the uio's own offset and residue put aside meanwhile. */
  method DeviceIo(sfs: Sfs, uio: Uio, diskblock: nat) returns (ghost data: Block)
    requires sfs.Shape() && uio.Valid() && uio.resid >= BLOCKSIZE && 0 < diskblock < sfs.nblocks
    requires uio.rw.UioWrite? ==> !Reserved(sfs.nblocks, diskblock)
    modifies sfs`disk, sfs`fs, uio
    ensures sfs.Shape() && uio.Valid() && UioStep(uio.rw, old(uio.State()), uio.State(), data)
    ensures |old(sfs.fs).disk| == sfs.nblocks
    ensures uio.rw.UioRead? ==> sfs.fs == old(sfs.fs) && data == old(sfs.fs).disk[diskblock]
    ensures uio.rw.UioWrite? ==> sfs.fs == old(sfs.fs).(disk := old(sfs.fs).disk[diskblock := data])
  {
    hide Rest;
    hide Sfs.Shape;
    var saveoff, saveres, diskoff := uio.offset, uio.resid, diskblock * BLOCKSIZE;
    uio.offset, uio.resid := diskoff, BLOCKSIZE;
    data := RwBlock(sfs, uio);
    uio.offset := (uio.offset - diskoff) + saveoff;
    uio.resid := uio.resid + (saveres - BLOCKSIZE);
  }

  lemma WholeBlock(b: Block, data: seq<byte>)
    requires |data| == BLOCKSIZE
    ensures Patch(b, 0, data) == data && b[0..BLOCKSIZE] == b
  {
  }

  /** I/O of one whole block, done directly between the device and the caller's buffers. */
  method BlockIo(sfs: Sfs, sv: Vnode, uio: Uio) returns (err: Errno, ghost data: seq<byte>)
    requires sfs.Valid() && sv in sfs.vnodes && uio.Valid()
    requires uio.offset % BLOCKSIZE == 0 && uio.resid >= BLOCKSIZE
    modifies sfs`disk, sfs`freemapdirty, sfs`own, sfs`fs, sfs.freemap, sfs.freemap.v, sv, uio
    ensures sfs.Valid() && uio.Valid() && UioStep(uio.rw, old(uio.State()), uio.State(), data)
    ensures Moved(old(sfs.fs), old(sfs.own), sfs.fs, sfs.own, sv.ino, uio.rw, Pos(old(uio.offset)), data)
    ensures Ending(sfs.fs, sv.ino, uio.rw, err, Pos(uio.offset))
    ensures if err == Success then |data| == BLOCKSIZE else data == []
    ensures err == Success <==> !Stuck(old(sfs.fs), sv.ino, uio.rw, Pos(old(uio.offset)) / BLOCKSIZE)
  {
    hide VolInv;
    hide Mapped;
    hide NoRoom;
    hide Stuck;
    hide Pos;
    hide Moved;
    hide Ptrs;
    hide Rest;
    hide Patch;
    hide Sfs.Shape;
    ghost var fs, own, i, off, u := sfs.fs, sfs.own, sv.ino, uio.offset, uio.State();
    var fileblock := uio.offset / BLOCKSIZE % 0x1_0000_0000;
    PosBlock(off);
    var diskblock;
    err, diskblock := Bmap(sfs, sv, fileblock, uio.rw.UioWrite?);
    ghost var fs1, own1 := sfs.fs, sfs.own;
    MappedUnlessStuck(fs, own, fs1, own1, i, fileblock, uio.rw, err, diskblock);
    if err != Success {
      data := [];
      FailMoved(fs, own, fs1, own1, i, fileblock, uio.rw, err, diskblock, Pos(off));
      return;
    }
    Loaded(sfs, sv);
    MappedInRange(fs, own, fs1, own1, i, fileblock, uio.rw.UioWrite?, diskblock);
    if diskblock == 0 {
      data := ZeroBlock;
      WholeBlock(data, data);
      ReadMoved(fs, own, i, fileblock, diskblock, 0, BLOCKSIZE);
      uio.MoveZeros(BLOCKSIZE);
      return;
    }
    data := DeviceIo(sfs, uio, diskblock);
    WholeBlock(fs1.disk[diskblock], data);
    match uio.rw {
      case UioRead =>
        ReadMoved(fs, own, i, fileblock, diskblock, 0, BLOCKSIZE);
      case UioWrite =>
        WriteMoved(fs, own, fs1, own1, sfs.fs, i, fileblock, diskblock, 0, data);
    }
  }

  lemma StepsTrans(fs: Fs, own: Owners, fs1: Fs, own1: Owners, fs2: Fs, own2: Owners, i: nat, rw: Direction,
                   u: UioState, u1: UioState, u2: UioState, d1: seq<byte>, d2: seq<byte>)
    requires VolInv(fs, own) && UioStep(rw, u, u1, d1) && UioStep(rw, u1, u2, d2)
    requires Moved(fs, own, fs1, own1, i, rw, Pos(u.offset), d1)
    requires Moved(fs1, own1, fs2, own2, i, rw, Pos(u1.offset), d2)
    ensures Moved(fs, own, fs2, own2, i, rw, Pos(u.offset), d1 + d2) && UioStep(rw, u, u2, d1 + d2)
  {
    hide VolInv;
    hide Moved;
    hide Pos;
    if d1 != [] {
      MovedBound(fs, own, fs1, own1, i, rw, Pos(u.offset), d1);
      PosNext(u.offset, |d1|);
    }
    MovedTrans(fs, own, fs1, own1, fs2, own2, i, rw, Pos(u.offset), d1, d2);
    UioTrans(rw, u, u1, u2, d1, d2);
  }

  lemma MovedBound(fs: Fs, own: Owners, fs': Fs, own': Owners, i: nat, rw: Direction, off: nat, data: seq<byte>)
    requires Moved(fs, own, fs', own', i, rw, off, data) && data != []
    ensures off + |data| <= MAXFILESIZE
  {
    hide FileStep;
    hide View;
  }

  lemma NoSteps(fs: Fs, own: Owners, i: nat, rw: Direction, u: UioState)
    requires VolInv(fs, own) && i in fs.cache
    ensures Moved(fs, own, fs, own, i, rw, Pos(u.offset), []) && UioStep(rw, u, u, [])
  {
    hide VolInv;
    hide Moved;
    MovedNone(fs, own, i, rw, Pos(u.offset));
  }

  /** The loop over whole blocks. */
  method WholeBlocks(sfs: Sfs, sv: Vnode, uio: Uio) returns (err: Errno, ghost data: seq<byte>)
    requires sfs.Valid() && sv in sfs.vnodes && uio.Valid() && uio.offset % BLOCKSIZE == 0
    modifies sfs`disk, sfs`freemapdirty, sfs`own, sfs`fs, sfs.freemap, sfs.freemap.v, sv, uio
    ensures sfs.Valid() && uio.Valid() && UioStep(uio.rw, old(uio.State()), uio.State(), data)
    ensures Moved(old(sfs.fs), old(sfs.own), sfs.fs, sfs.own, sv.ino, uio.rw, Pos(old(uio.offset)), data)
    ensures Ending(sfs.fs, sv.ino, uio.rw, err, Pos(uio.offset))
    ensures uio.offset % BLOCKSIZE == 0 && (err == Success <==> uio.resid < BLOCKSIZE)
    ensures old(uio.resid) < BLOCKSIZE ==> err == Success && sfs.fs == old(sfs.fs)
    ensures data == [] <==>
              old(uio.resid) < BLOCKSIZE || Stuck(old(sfs.fs), sv.ino, uio.rw, Pos(old(uio.offset)) / BLOCKSIZE)
  {
    hide VolInv;
    hide Stuck;
    hide Pos;
    hide Moved;
    hide Rest;
    hide UioStep;
    hide Sfs.Shape;
    ghost var fs, own, i, u := sfs.fs, sfs.own, sv.ino, uio.State();
    Loaded(sfs, sv);
    NoSteps(fs, own, i, uio.rw, u);
    var nblocks := uio.resid / BLOCKSIZE;
    data := [];
    err := Success;
    var n := 0;
    while n < nblocks
      invariant 0 <= n <= nblocks && err == Success
      invariant sfs.Valid() && uio.Valid() && UioStep(uio.rw, u, uio.State(), data)
      invariant Moved(fs, own, sfs.fs, sfs.own, i, uio.rw, Pos(u.offset), data)
      invariant uio.offset % BLOCKSIZE == 0 && uio.resid == u.resid - BLOCKSIZE * n
      invariant if n == 0 then data == [] && sfs.fs == fs && uio.offset == u.offset
                else data != [] && !Stuck(fs, i, uio.rw, Pos(u.offset) / BLOCKSIZE)
    {
      ghost var fs1, own1, u1 := sfs.fs, sfs.own, uio.State();
      ghost var d;
      err, d := BlockIo(sfs, sv, uio);
      UioCounts(uio.rw, u1, uio.State(), d);
      StepsTrans(fs, own, fs1, own1, sfs.fs, sfs.own, i, uio.rw, u, u1, uio.State(), data, d);
      data := data + d;
      if err != Success {
        return;
      }
      n := n + 1;
    }
  }

  lemma UioCounts(rw: Direction, u: UioState, u': UioState, data: seq<byte>)
    requires UioStep(rw, u, u', data)
    ensures |data| <= u.resid && u'.resid == u.resid - |data| && u'.offset == u.offset + |data|
  {
  }

  /** Lines 476-526 of sfs_io: leading partial block, whole blocks, trailing partial block. */
  method Transfer(sfs: Sfs, sv: Vnode, uio: Uio) returns (err: Errno, ghost data: seq<byte>)
    requires sfs.Valid() && sv in sfs.vnodes && uio.Valid()
    modifies sfs`disk, sfs`freemapdirty, sfs`own, sfs`fs, sfs.freemap, sfs.freemap.v, sv, uio
    ensures sfs.Valid() && uio.Valid() && UioStep(uio.rw, old(uio.State()), uio.State(), data)
    ensures Moved(old(sfs.fs), old(sfs.own), sfs.fs, sfs.own, sv.ino, uio.rw, Pos(old(uio.offset)), data)
    ensures Ending(sfs.fs, sv.ino, uio.rw, err, Pos(uio.offset))
    ensures err == Success ==> uio.resid == 0
    ensures err != Success ==> data == [] || (uio.offset % BLOCKSIZE == 0 && uio.resid > 0)
    ensures data == [] <==> old(uio.resid) == 0 || Stuck(old(sfs.fs), sv.ino, uio.rw, Pos(old(uio.offset)) / BLOCKSIZE)
  {
    hide VolInv;
    hide Stuck;
    hide Pos;
    hide Moved;
    hide Rest;
    hide UioStep;
    hide Sfs.Shape;
    ghost var fs, own, i, u := sfs.fs, sfs.own, sv.ino, uio.State();
    ghost var d;
    Loaded(sfs, sv);
    NoSteps(fs, own, i, uio.rw, u);
    data := [];
    var blkoff := uio.offset % BLOCKSIZE;
    if blkoff != 0 {
      var len := BLOCKSIZE - blkoff;
      if len > uio.resid {
        len := uio.resid;
      }
      err, data := PartialIo(sfs, sv, uio, blkoff, len);
      UioCounts(uio.rw, u, uio.State(), data);
      if err != Success {
        return;
      }
    }
    if uio.resid == 0 {
      err := Success;
      return;
    }
    assert uio.offset % BLOCKSIZE == 0;
    ghost var fs1, own1, u1 := sfs.fs, sfs.own, uio.State();
    err, d := WholeBlocks(sfs, sv, uio);
    UioCounts(uio.rw, u1, uio.State(), d);
    StepsTrans(fs, own, fs1, own1, sfs.fs, sfs.own, i, uio.rw, u, u1, uio.State(), data, d);
    data := data + d;
    if err == Success && uio.resid > 0 {
      fs1, own1, u1 := sfs.fs, sfs.own, uio.State();
      err, d := PartialIo(sfs, sv, uio, 0, uio.resid);
      UioCounts(uio.rw, u1, uio.State(), d);
      StepsTrans(fs, own, fs1, own1, sfs.fs, sfs.own, i, uio.rw, u, u1, uio.State(), data, d);
      data := data + d;
    }
  }

  // ---- sfs_io against a flat file: a size and MAXFILESIZE bytes ----

  /** The 32-bit size after a write that ended at end. */
  function NewSize(size: word, end: nat): word {
    if end > size then end % 0x1_0000_0000 else size
  }

  /**
   * A write of data at off: the bytes at the place off leads to are overlaid, the size follows the end of the write
   * if that lies beyond it (also when nothing could be written), and no other file changes.
   */
  ghost predicate Wrote(fs: Fs, own: Owners, fs': Fs, own': Owners, i: nat, off: nat, data: seq<byte>) {
    && i < |fs.disk| && FileStep(fs, own, fs', own', i) && SameLive(own, own')
    && i in fs.cache && i in fs'.cache && fs'.cache[i].refs == fs.cache[i].refs
    && (data != [] ==> Pos(off) + |data| <= MAXFILESIZE)
    && Content(fs', i) == Overlay(Content(fs, i), Pos(off), data)
    && View(fs', i).size == NewSize(View(fs, i).size, off + |data|)
    && View(fs', i).typ == View(fs, i).typ && View(fs', i).links == View(fs, i).links
  }

  /**
   * A read of up to n bytes at off delivers what lies below the size, and nothing changes; the only
   * failure is running past the last addressable block.
   */
  ghost predicate ReadOut(fs: Fs, i: nat, off: nat, n: nat, data: seq<byte>, err: Errno) {
    && i < |fs.disk| && (data != [] ==> off + |data| <= MAXFILESIZE && data == Content(fs, i)[off..off + |data|])
    && (off >= View(fs, i).size ==> data == [])
    && (off < View(fs, i).size ==> off + |data| <= off + n && off + |data| <= View(fs, i).size)
    && match err
       case Success => off >= View(fs, i).size || |data| == n || off + |data| == View(fs, i).size
       case EFBIG =>
         && off < View(fs, i).size && off + |data| >= MAXFILESIZE
         && (n == 0 || off + |data| < Min(off + n, View(fs, i).size))
       case _ => false
  }

  lemma SizeWrote(fs: Fs, own: Owners, fs1: Fs, own1: Owners, fs2: Fs, i: nat, off: nat, data: seq<byte>)
    requires i in fs1.cache && i < |fs1.disk|
    requires var ino, end := fs1.cache[i].inode, off + |data|;
             fs2 == if end > ino.size then SetInode(fs1, i, ino.(size := end % 0x1_0000_0000)) else fs1
    requires VolInv(fs1, own1) && Moved(fs, own, fs1, own1, i, UioWrite, Pos(off), data)
    ensures VolInv(fs2, own1) && Wrote(fs, own, fs2, own1, i, off, data)
    ensures fs2.bits == fs1.bits && View(fs2, i).blocks == View(fs1, i).blocks
  {
    hide VolInv;
    hide Ptrs;
    hide Blocks;
    hide Flat;
    hide Overlay;
    hide InodeInv;
    hide BitsInv;
    hide FileInv;
    VolParts(fs1, own1, i);
    var ino := fs1.cache[i].inode;
    if off + |data| > ino.size {
      SetMetaStep(fs1, own1, fs2, i, ino.(size := (off + |data|) % 0x1_0000_0000));
    }
  }

  lemma MovedRead(fs: Fs, own: Owners, fs': Fs, own': Owners, i: nat, off: nat, n: nat, data: seq<byte>, err: Errno)
    requires Moved(fs, own, fs', own', i, UioRead, off, data) && Ending(fs', i, UioRead, err, off + |data|)
    requires off < View(fs, i).size && off + |data| <= off + n && off + |data| <= View(fs, i).size
    requires if err == Success then |data| == n || off + |data| == View(fs, i).size
             else n == 0 || off + |data| < Min(off + n, View(fs, i).size)
    ensures fs' == fs && own' == own && ReadOut(fs, i, off, n, data, err)
  {
    hide View;
    hide Flat;
    hide VolInv;
    hide OthersSame;
  }

  method Io(sfs: Sfs, sv: Vnode, uio: Uio) returns (err: Errno, ghost data: seq<byte>)
    requires sfs.Valid() && sv in sfs.vnodes && uio.Valid()
    modifies sfs`disk, sfs`freemapdirty, sfs`own, sfs`fs, sfs.freemap, sfs.freemap.v, sv, uio
    ensures sfs.Valid() && uio.Valid() && UioStep(uio.rw, old(uio.State()), uio.State(), data)
    ensures uio.rw.UioRead? ==>
              && sfs.fs == old(sfs.fs) && sfs.own == old(sfs.own)
              && ReadOut(sfs.fs, sv.ino, old(uio.offset), old(uio.resid), data, err)
    ensures uio.rw.UioWrite? ==>
              && Wrote(old(sfs.fs), old(sfs.own), sfs.fs, sfs.own, sv.ino, old(uio.offset), data)
              && Ending(sfs.fs, sv.ino, UioWrite, err, Pos(uio.offset))
              && (if err == Success then uio.resid == 0
                  else data == [] || (uio.offset % BLOCKSIZE == 0 && uio.resid > 0))
              && (data == [] <==>
                  old(uio.resid) == 0
                  || Stuck(old(sfs.fs), sv.ino, UioWrite, Pos(old(uio.offset)) / BLOCKSIZE))
  {
    hide VolInv;
    hide Stuck;
    hide Moved;
    hide Rest;
    hide ReadOut;
    hide Wrote;
    hide Ending;
    hide Sfs.Shape;
    hide View;
    ghost var fs, own, i, off, n := sfs.fs, sfs.own, sv.ino, uio.offset, uio.resid;
    Loaded(sfs, sv);
    var extraresid := 0;
    if uio.rw.UioRead? {
      var size, endpos := sv.inode.size, uio.offset + uio.resid;
      if uio.offset >= size {
        data := [];
        ReadNothing(fs, own, i, off, n);
        return Success, [];
      }
      if endpos > size {
        extraresid := endpos - size;
        assert uio.resid > extraresid;
        uio.resid := uio.resid - extraresid;
      }
    }
    err, data := Transfer(sfs, sv, uio);
    if uio.rw.UioWrite? {
      Loaded(sfs, sv);
      SizeGrow(sfs, sv, uio.offset, fs, own, off, data);
    } else {
      SizeIs(fs, i);
      MovedRead(fs, own, sfs.fs, sfs.own, i, off, n, data, err);
    }
    uio.resid := uio.resid + extraresid;
  }

  lemma SizeIs(fs: Fs, i: nat)
    requires i < |fs.disk| && i in fs.cache
    ensures View(fs, i).size == fs.cache[i].inode.size
  {
  }

  lemma ReadNothing(fs: Fs, own: Owners, i: nat, off: nat, n: nat)
    requires i < |fs.disk| && i in fs.cache && off >= fs.cache[i].inode.size
    ensures ReadOut(fs, i, off, n, [], Success)
  {
    hide Ptrs;
    hide Blocks;
  }

  /** The end of sfs_io when writing: the size follows the offset. */
  method SizeGrow(sfs: Sfs, sv: Vnode, offset: nat, ghost fs: Fs, ghost own: Owners, ghost off: nat,
                  ghost data: seq<byte>)
    requires sfs.Valid() && sv in sfs.vnodes && offset == off + |data|
    requires Moved(fs, own, sfs.fs, sfs.own, sv.ino, UioWrite, Pos(off), data)
    modifies sv`inode, sv`dirty, sfs`fs
    ensures sfs.Valid() && Wrote(fs, own, sfs.fs, sfs.own, sv.ino, off, data)
    ensures forall err | Ending(old(sfs.fs), sv.ino, UioWrite, err, Pos(offset)) ::
              Ending(sfs.fs, sv.ino, UioWrite, err, Pos(offset))
  {
    hide VolInv;
    hide Moved;
    hide Wrote;
    hide Sfs.Shape;
    Loaded(sfs, sv);
    ghost var fs1 := sfs.fs;
    if offset > sv.inode.size {
      SetVnode(sfs, sv, sv.inode.(size := offset % 0x1_0000_0000));
    }
    SizeWrote(fs, own, fs1, sfs.own, sfs.fs, sv.ino, off, data);
  }
}
