/** sfs_bmap: from logical to disk blocks, allocating on demand (kern/fs/sfs/sfs_vnode.c:144-290). */
module SfsBmap {
  import opened Bytes
  import opened SfsLayout
  import opened SfsVolume
  import opened SfsSteps
  import opened SfsState

  /**
   * The outcome of mapping logical block k of inode i. Allocation is invisible: whatever the outcome, no
   * file changes. Blocks past the last pointer fail with EFBIG; allocation fails only for a hole on a
   * full volume.
   */
  ghost predicate Mapped(fs: Fs, own: Owners, fs': Fs, own': Owners,
                         i: nat, k: nat, doalloc: bool, err: Errno, p: nat) {
    && FileStep(fs, own, fs', own', i) && SameLive(own, own')
    && i in fs.cache && i in fs'.cache && fs'.cache[i].refs == fs.cache[i].refs
    && i < |fs.disk| && View(fs', i) == View(fs, i)
    && (!doalloc ==> fs' == fs && own' == own)
    && match err
       case Success =>
         k < MAXFILEBLOCKS && p == Ptrs(fs'.disk, Cur(fs', i))[k] && p < |fs'.disk| && (doalloc ==> p != 0)
       case EFBIG => k >= MAXFILEBLOCKS
       case ENOSPC => k < MAXFILEBLOCKS && doalloc && Full(fs') && Ptrs(fs'.disk, Cur(fs', i))[k] == 0
       case _ => false
  }

  /**
   * Logical block k of inode i is a hole that cannot be filled once `taken` more blocks are in use: it needs a free
   * block, and one more when there is no indirect block for it yet.
   */
  ghost predicate Short(fs: Fs, i: nat, k: nat, taken: nat) {
    && i < |fs.disk| && k < MAXFILEBLOCKS && Ptrs(fs.disk, Cur(fs, i))[k] == 0
    && |Free(fs)| <= taken + if k < NDIRECT || Cur(fs, i).indirect != 0 then 0 else 1
  }

  ghost predicate NoRoom(fs: Fs, i: nat, k: nat) {
    Short(fs, i, k, 0)
  }

  lemma NewIndirectEmpty(fs1: Fs, i: nat, k: nat, b: nat)
    requires i < |fs1.disk| && NDIRECT <= k < MAXFILEBLOCKS && 0 < b == Cur(fs1, i).indirect < |fs1.disk|
    requires fs1.disk[b] == ZeroBlock
    ensures Ptrs(fs1.disk, Cur(fs1, i))[k] == 0
  {
    hide Ptrs;
    SlotPtr(fs1.disk, Cur(fs1, i), k);
    PointersZero();
  }

  /** Doing nothing maps a block that is already there, or one that need not be. */
  lemma MappedNow(fs: Fs, own: Owners, i: nat, k: nat, doalloc: bool, p: nat)
    requires VolInv(fs, own) && i in fs.cache && k < MAXFILEBLOCKS && i < |fs.disk|
    requires p == Ptrs(fs.disk, Cur(fs, i))[k] && (doalloc ==> p != 0)
    ensures Mapped(fs, own, fs, own, i, k, doalloc, Success, p)
    ensures p != 0 ==> p < |fs.bits| && fs.bits[p]
  {
    hide Ptrs;
    hide Blocks;
    hide DecodeInode;
    assert InodeInv(fs, own, i);
  }

  lemma MappedFull(fs: Fs, own: Owners, i: nat, k: nat, p: nat)
    requires VolInv(fs, own) && i in fs.cache && k < MAXFILEBLOCKS && Full(fs)
    requires Ptrs(fs.disk, fs.cache[i].inode)[k] == 0
    ensures Mapped(fs, own, fs, own, i, k, true, ENOSPC, p)
  {
    hide Ptrs;
    hide View;
    hide InodeInv;
    hide BitsInv;
    assert Live(own, i);
  }

  lemma StepMapped(fs: Fs, own: Owners, fs': Fs, own': Owners, i: nat, k: nat, p: nat)
    requires i in fs.cache && i in fs'.cache && fs'.cache[i].refs == fs.cache[i].refs
    requires FileStep(fs, own, fs', own', i) && SameLive(own, own') && i < |fs.disk| && View(fs', i) == View(fs, i)
    requires k < MAXFILEBLOCKS && p == Ptrs(fs'.disk, Cur(fs', i))[k] && p != 0
    ensures Mapped(fs, own, fs', own', i, k, true, Success, p)
    ensures p < |fs'.bits| && fs'.bits[p]
  {
    hide View;
    hide Ptrs;
    MappedNow(fs', own', i, k, true, p);
  }

  lemma DirectMapped(fs: Fs, own: Owners, fs': Fs, own': Owners, i: nat, k: nat, b: nat)
    requires VolInv(fs, own) && i in fs.cache && k < NDIRECT && Cur(fs, i).direct[k] == 0
    requires b < |fs.bits| && !fs.bits[b] && b < |fs.disk|
    requires var ino := Cur(fs, i); fs' == SetInode(Grab(fs, b), i, ino.(direct := ino.direct[k := b]))
    requires own' == own[b := DataOf(i, k)]
    ensures VolInv(fs', own') && Mapped(fs, own, fs', own', i, k, true, Success, b)
    ensures b < |fs'.bits| && fs'.bits[b]
  {
    hide View;
    hide OthersSame;
    hide Ptrs;
    assert Live(own, i);
    hide VolInv;
    AddDirectStep(fs, own, fs', own', i, k, b);
    ClearIsFree(fs, own, b);
    DirectPtr(fs'.disk, Cur(fs', i), k);
    StepMapped(fs, own, fs', own', i, k, b);
  }

  lemma DirectPtr(disk: seq<Block>, ino: Inode, k: nat)
    requires k < NDIRECT
    ensures Ptrs(disk, ino)[k] == ino.direct[k]
  {
  }

  method BmapDirect(sfs: Sfs, sv: Vnode, k: nat, doalloc: bool) returns (err: Errno, block: nat)
    requires sfs.Valid() && sv in sfs.vnodes && k < NDIRECT
    modifies sfs`disk, sfs`freemapdirty, sfs`own, sfs`fs, sfs.freemap, sfs.freemap.v, sv
    ensures sfs.Valid()
    ensures Mapped(old(sfs.fs), old(sfs.own), sfs.fs, sfs.own, sv.ino, k, doalloc, err, block)
    ensures err == ENOSPC <==> doalloc && NoRoom(old(sfs.fs), sv.ino, k)
  {
    hide VolInv;
    hide Mapped;
    hide Ptrs;
    hide Sfs.Shape;
    ghost var fs, own, i := sfs.fs, sfs.own, sv.ino;
    Loaded(sfs, sv);
    FullIsNoneFree(fs);
    block := sv.inode.direct[k];
    err := Success;
    DirectPtr(fs.disk, sv.inode, k);
    if block == 0 && doalloc {
      err, block := Balloc(sfs);
      if err == Success {
        SetVnode(sfs, sv, sv.inode.(direct := sv.inode.direct[k := block]));
        sfs.own := sfs.own[block := DataOf(i, k)];
        DirectMapped(fs, own, sfs.fs, sfs.own, i, k, block);
      } else {
        MappedFull(fs, own, i, k, block);
        return;
      }
    } else {
      MappedNow(fs, own, i, k, doalloc, block);
    }
    if block != 0 {
      var used := Bused(sfs, block);
      assert used;
    }
  }

  lemma SlotPtr(disk: seq<Block>, ino: Inode, k: nat)
    requires NDIRECT <= k < MAXFILEBLOCKS
    ensures Ptrs(disk, ino)[k] ==
            if ino.indirect == 0 || ino.indirect >= |disk| then 0 else Pointers(disk[ino.indirect])[k - NDIRECT]
  {
    hide Pointers;
  }

  lemma SlotMapped(fs: Fs, own: Owners, fs': Fs, own': Owners, i: nat, k: nat, b: nat)
    requires VolInv(fs, own) && i in fs.cache && 0 < Cur(fs, i).indirect < |fs.disk|
    requires NDIRECT <= k < MAXFILEBLOCKS && Pointers(fs.disk[Cur(fs, i).indirect])[k - NDIRECT] == 0
    requires b < |fs.bits| && !fs.bits[b] && b < |fs.disk|
    requires var ind := Cur(fs, i).indirect; var fs1 := Grab(fs, b);
             fs' == fs1.(disk := fs1.disk[ind := PutWords(Pointers(fs.disk[ind])[k - NDIRECT := b])])
    requires own' == own[b := DataOf(i, k)]
    ensures VolInv(fs', own') && Mapped(fs, own, fs', own', i, k, true, Success, b)
    ensures b < |fs'.bits| && fs'.bits[b]
  {
    hide View;
    hide OthersSame;
    hide Ptrs;
    hide Pointers;
    hide PutWords;
    assert Live(own, i);
    hide VolInv;
    AddSlotStep(fs, own, fs', own', i, k, b);
    ClearIsFree(fs, own, b);
    var ind := Cur(fs, i).indirect;
    PointersPut(Pointers(fs.disk[ind])[k - NDIRECT := b]);
    SlotPtr(fs'.disk, Cur(fs', i), k);
    StepMapped(fs, own, fs', own', i, k, b);
  }

  lemma MappedTrans(fs: Fs, own: Owners, fs1: Fs, own1: Owners, fs2: Fs, own2: Owners,
                    i: nat, k: nat, err: Errno, p: nat)
    requires VolInv(fs, own) && i in fs.cache && i in fs1.cache && fs1.cache[i].refs == fs.cache[i].refs
    requires FileStep(fs, own, fs1, own1, i) && SameLive(own, own1) && i < |fs.disk| && View(fs1, i) == View(fs, i)
    requires Mapped(fs1, own1, fs2, own2, i, k, true, err, p)
    ensures Mapped(fs, own, fs2, own2, i, k, true, err, p)
  {
    hide View;
    hide Ptrs;
    hide VolInv;
  }

  lemma IndirectInRange(fs: Fs, own: Owners, i: nat)
    requires VolInv(fs, own) && i in fs.cache && i < |fs.disk|
    ensures Cur(fs, i).indirect < |fs.disk|
  {
    hide Ptrs;
    assert InodeInv(fs, own, i);
  }

  method BmapIndirect(sfs: Sfs, sv: Vnode, k: nat, doalloc: bool) returns (err: Errno, block: nat)
    requires sfs.Valid() && sv in sfs.vnodes && NDIRECT <= k < MAXFILEBLOCKS
    modifies sfs`disk, sfs`freemapdirty, sfs`own, sfs`fs, sfs.freemap, sfs.freemap.v, sv
    ensures sfs.Valid()
    ensures Mapped(old(sfs.fs), old(sfs.own), sfs.fs, sfs.own, sv.ino, k, doalloc, err, block)
    ensures err == ENOSPC <==> doalloc && NoRoom(old(sfs.fs), sv.ino, k)
  {
    hide VolInv;
    hide Mapped;
    hide Ptrs;
    hide Sfs.Shape;
    ghost var fs, own, i := sfs.fs, sfs.own, sv.ino;
    Loaded(sfs, sv);
    FullIsNoneFree(fs);
    IndirectInRange(fs, own, i);
    var idblock := sv.inode.indirect;
    SlotPtr(fs.disk, sv.inode, k);
    if idblock == 0 && !doalloc {
      MappedNow(fs, own, i, k, doalloc, 0);
      return Success, 0;
    }
    if idblock != 0 {
      err, block := BmapSlot(sfs, sv, k, doalloc);
    } else {
      var b;
      err, b := Balloc(sfs);
      if err != Success {
        MappedFull(fs, own, i, k, 0);
        return err, 0;
      }
      SetVnode(sfs, sv, sv.inode.(indirect := b));
      sfs.own := sfs.own[b := IndirectOf(i)];
      AddIndirectStep(fs, own, sfs.fs, sfs.own, i, b);
      ghost var fs1, own1 := sfs.fs, sfs.own;
      OneLessFree(fs, fs1, b);
      NewIndirectEmpty(fs1, i, k, b);
      err, block := BmapSlot(sfs, sv, k, doalloc);
      MappedTrans(fs, own, fs1, own1, sfs.fs, sfs.own, i, k, err, block);
    }
  }

  /** The part of sfs_bmap that works on the loaded indirect block. */
  method BmapSlot(sfs: Sfs, sv: Vnode, k: nat, doalloc: bool) returns (err: Errno, block: nat)
    requires sfs.Valid() && sv in sfs.vnodes && NDIRECT <= k < MAXFILEBLOCKS && 0 < sv.inode.indirect < sfs.nblocks
    modifies sfs`disk, sfs`freemapdirty, sfs`own, sfs`fs, sfs.freemap, sfs.freemap.v
    ensures sfs.Valid()
    ensures Mapped(old(sfs.fs), old(sfs.own), sfs.fs, sfs.own, sv.ino, k, doalloc, err, block)
    ensures err == ENOSPC <==> doalloc && NoRoom(old(sfs.fs), sv.ino, k)
  {
    hide VolInv;
    hide Mapped;
    hide Ptrs;
    hide Pointers;
    hide PutWords;
    hide Sfs.Shape;
    ghost var fs, own, i := sfs.fs, sfs.own, sv.ino;
    Loaded(sfs, sv);
    FullIsNoneFree(fs);
    var idblock := sv.inode.indirect;
    var idbuf := Pointers(sfs.disk[idblock]);
    block := idbuf[k - NDIRECT];
    err := Success;
    SlotPtr(fs.disk, sv.inode, k);
    if block == 0 && doalloc {
      err, block := Balloc(sfs);
      if err == Success {
        idbuf := idbuf[k - NDIRECT := block];
        WriteBlock(sfs, idblock, PutWords(idbuf));
        sfs.own := sfs.own[block := DataOf(i, k)];
        SlotMapped(fs, own, sfs.fs, sfs.own, i, k, block);
      } else {
        MappedFull(fs, own, i, k, block);
        return;
      }
    } else {
      MappedNow(fs, own, i, k, doalloc, block);
    }
    if block != 0 {
      var used := Bused(sfs, block);
      assert used;
    }
  }

  lemma MappedTooBig(fs: Fs, own: Owners, i: nat, k: nat, doalloc: bool, p: nat)
    requires VolInv(fs, own) && i in fs.cache && k >= MAXFILEBLOCKS
    ensures Mapped(fs, own, fs, own, i, k, doalloc, EFBIG, p)
  {
    hide View;
    hide InodeInv;
    hide BitsInv;
    assert Live(own, i);
  }

  method Bmap(sfs: Sfs, sv: Vnode, fileblock: nat, doalloc: bool) returns (err: Errno, diskblock: nat)
    requires sfs.Valid() && sv in sfs.vnodes
    modifies sfs`disk, sfs`freemapdirty, sfs`own, sfs`fs, sfs.freemap, sfs.freemap.v, sv
    ensures sfs.Valid()
    ensures Mapped(old(sfs.fs), old(sfs.own), sfs.fs, sfs.own, sv.ino, fileblock, doalloc, err, diskblock)
    ensures err == ENOSPC <==> doalloc && NoRoom(old(sfs.fs), sv.ino, fileblock)
  {
    hide VolInv;
    hide Mapped;
    hide Sfs.Shape;
    if fileblock < NDIRECT {
      err, diskblock := BmapDirect(sfs, sv, fileblock, doalloc);
    } else if (fileblock - NDIRECT) / DBPERIDB > 0 {
      Loaded(sfs, sv);
      MappedTooBig(sfs.fs, sfs.own, sv.ino, fileblock, doalloc, 0);
      err, diskblock := EFBIG, 0;
    } else {
      err, diskblock := BmapIndirect(sfs, sv, fileblock, doalloc);
    }
  }
}
