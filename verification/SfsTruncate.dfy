/** sfs_truncate (kern/fs/sfs/sfs_vnode.c:1126-1225). */
module SfsTruncate {
  import opened Bytes
  import opened Bitmaps
  import opened SfsLayout
  import opened SfsVolume
  import opened SfsSteps
  import opened SfsState
  import opened SfsBmap

  /**
   * The pointers of file i became ps', each kept or cleared. A cleared pointer leaves a hole, a kept one
   * its block; size, type and links are as before, and no other file changes.
   */
  ghost predicate Cut(fs: Fs, own: Owners, fs': Fs, own': Owners, i: nat, ps': seq<word>) {
    && i < |fs.disk| && FileStep(fs, own, fs', own', i) && SameLive(own, own')
    && i in fs.cache && i in fs'.cache && fs'.cache[i].refs == fs.cache[i].refs
    && View(fs', i) == View(fs, i).(blocks := View(fs', i).blocks)
    && Ptrs(fs'.disk, Cur(fs', i)) == ps' && Pruned(Ptrs(fs.disk, Cur(fs, i)), ps')
    && forall k | 0 <= k < MAXFILEBLOCKS ::
         View(fs', i).blocks[k] == if ps'[k] == 0 then ZeroBlock else View(fs, i).blocks[k]
  }

  lemma CutNone(fs: Fs, own: Owners, i: nat)
    requires VolInv(fs, own) && i in fs.cache
    ensures i < |fs.disk| && Cut(fs, own, fs, own, i, Ptrs(fs.disk, Cur(fs, i)))
  {
    hide Ptrs;
    hide InodeInv;
    hide BitsInv;
    assert Live(own, i);
    BlocksKeep(fs.disk, Ptrs(fs.disk, Cur(fs, i)));
  }

  lemma CutTrans(fs: Fs, own: Owners, fs1: Fs, own1: Owners, fs2: Fs, own2: Owners, i: nat,
                 ps1: seq<word>, ps2: seq<word>)
    requires VolInv(fs, own) && Cut(fs, own, fs1, own1, i, ps1) && Cut(fs1, own1, fs2, own2, i, ps2)
    ensures Cut(fs, own, fs2, own2, i, ps2)
  {
    hide Ptrs;
    hide View;
    hide VolInv;
  }

  lemma CutDirect(fs: Fs, own: Owners, fs': Fs, own': Owners, i: nat, k: nat, p: nat)
    requires VolInv(fs, own) && i in fs.cache && k < NDIRECT && p == Cur(fs, i).direct[k] != 0
    requires p < |fs.bits| && own' == own - {p}
    requires var ino := Cur(fs, i);
             fs' == SetInode(fs.(bits := fs.bits[p := false]), i, ino.(direct := ino.direct[k := 0]))
    ensures VolInv(fs', own') && i < |fs.disk| && Cut(fs, own, fs', own', i, Ptrs(fs.disk, Cur(fs, i))[k := 0])
  {
    hide Ptrs;
    hide InodeInv;
    hide BitsInv;
    assert Live(own, i);
    BlocksKeep(fs.disk, Ptrs(fs.disk, Cur(fs, i)));
    hide VolInv;
    hide Blocks;
    DropDirectStep(fs, own, fs', own', i, k, p);
    PtrsSetDirect(fs.disk, fs'.disk, Cur(fs, i), k, 0);
  }

  /** The block count sfs_truncate keeps: as written, one more in the range of the indirect block. */
  predicate Keep(blocklen: nat, k: nat) {
    if k < NDIRECT then k < blocklen else k <= blocklen
  }

  function Kept(ps: seq<word>, blocklen: nat, upto: nat): (ps': seq<word>)
    ensures |ps'| == |ps|
  {
    seq(|ps|, k requires 0 <= k < |ps| => if k < upto && !Keep(blocklen, k) then 0 else ps[k])
  }

  method TruncateDirect(sfs: Sfs, sv: Vnode, blocklen: nat)
    requires sfs.Valid() && sv in sfs.vnodes
    modifies sfs`freemapdirty, sfs`own, sfs`fs, sfs.freemap, sfs.freemap.v, sv
    ensures sfs.Valid() && sv.inode.indirect == old(sv.inode.indirect)
    ensures Cut(old(sfs.fs), old(sfs.own), sfs.fs, sfs.own, sv.ino,
                Kept(Ptrs(old(sfs.disk), old(sv.inode)), blocklen, NDIRECT))
  {
    hide VolInv;
    hide Cut;
    hide Ptrs;
    hide Keep;
    hide Sfs.Shape;
    ghost var fs, own, i, ps := sfs.fs, sfs.own, sv.ino, Ptrs(sfs.disk, sv.inode);
    Loaded(sfs, sv);
    CutNone(fs, own, i);
    assert Kept(ps, blocklen, 0) == ps;
    for k := 0 to NDIRECT
      invariant sfs.Valid() && sv.inode.indirect == old(sv.inode.indirect)
      invariant Cut(fs, own, sfs.fs, sfs.own, i, Kept(ps, blocklen, k))
    {
      ghost var fs1, own1, ps1 := sfs.fs, sfs.own, Kept(ps, blocklen, k);
      Loaded(sfs, sv);
      CutPtrs(fs, own, fs1, own1, i, ps1);
      DirectPtr(fs1.disk, sv.inode, k);
      var block := sv.inode.direct[k];
      KeptNext(ps, blocklen, k);
      assert block == 0 ==> ps1[k := 0] == ps1;
      if k >= blocklen && block != 0 {
        PtrUsed(fs1, own1, i, k);
        Bfree(sfs, block);
        SetVnode(sfs, sv, sv.inode.(direct := sv.inode.direct[k := 0]));
        sfs.own := sfs.own - {block};
        CutDirect(fs1, own1, sfs.fs, sfs.own, i, k, block);
        CutTrans(fs, own, fs1, own1, sfs.fs, sfs.own, i, ps1, ps1[k := 0]);
      }
    }
  }

  lemma KeptNext(ps: seq<word>, blocklen: nat, k: nat)
    requires k < NDIRECT && k < |ps|
    ensures Kept(ps, blocklen, k)[k] == ps[k]
    ensures Kept(ps, blocklen, k + 1) == if k >= blocklen then Kept(ps, blocklen, k)[k := 0] else Kept(ps, blocklen, k)
  {
  }

  lemma CutPtrs(fs: Fs, own: Owners, fs': Fs, own': Owners, i: nat, ps': seq<word>)
    requires Cut(fs, own, fs', own', i, ps')
    ensures i in fs'.cache && i < |fs'.disk| && Ptrs(fs'.disk, fs'.cache[i].inode) == ps'
  {
  }

  lemma PtrUsed(fs: Fs, own: Owners, i: nat, k: nat)
    requires VolInv(fs, own) && Live(own, i) && k < MAXFILEBLOCKS && Ptrs(fs.disk, Cur(fs, i))[k] != 0
    ensures var p := Ptrs(fs.disk, Cur(fs, i))[k];
            p < |fs.disk| && p < |fs.bits| && fs.bits[p] && p in own && own[p] == DataOf(i, k)
  {
    hide Ptrs;
    assert InodeInv(fs, own, i);
  }

  // ---- the indirect block ----

  function KeptSlots(ws: seq<word>, blocklen: nat, upto: nat): (ws': seq<word>)
    ensures |ws'| == |ws|
  {
    seq(|ws|, j requires 0 <= j < |ws| => if j < upto && !Keep(blocklen, NDIRECT + j) then 0 else ws[j])
  }

  /** The pointers in an indirect block are distinct allocated blocks. */
  ghost predicate SlotsOwned(bits: seq<bool>, own: Owners, i: nat, ws: seq<word>) {
    forall j | 0 <= j < |ws| && ws[j] != 0 ::
      ws[j] in own && own[ws[j]] == DataOf(i, NDIRECT + j) && ws[j] < |bits| && bits[ws[j]]
  }

  lemma SlotsAreOwned(fs: Fs, own: Owners, i: nat)
    requires VolInv(fs, own) && i in fs.cache && 0 < fs.cache[i].inode.indirect < |fs.disk|
    ensures SlotsOwned(fs.bits, own, i, Pointers(fs.disk[fs.cache[i].inode.indirect]))
    ensures var ind := fs.cache[i].inode.indirect;
            ind in own && own[ind] == IndirectOf(i) && ind < |fs.bits| && fs.bits[ind]
  {
    hide VolInv;
    hide Pointers;
    hide Ptrs;
    hide InodeInv;
    VolParts(fs, own, i);
    var ino := Cur(fs, i);
    var ws := Pointers(fs.disk[ino.indirect]);
    forall j | 0 <= j < |ws| && ws[j] != 0
      ensures ws[j] in own && own[ws[j]] == DataOf(i, NDIRECT + j) && ws[j] < |fs.bits| && fs.bits[ws[j]]
    {
      SlotPtr(fs.disk, ino, NDIRECT + j);
    }
  }

  /** Dropping slot j frees a bit that is still set: no block is freed twice. */
  lemma DropNext(bits: seq<bool>, own: Owners, i: nat, ws: seq<word>, blocklen: nat, j: nat)
    requires SlotsOwned(bits, own, i, ws) && j < |ws|
    requires ws[j] != 0 && !Keep(blocklen, NDIRECT + j)
    ensures var ds := Dropped(ws, KeptSlots(ws, blocklen, j));
            ws[j] < |bits| && ws[j] !in ds
            && ClearBits(bits, ds)[ws[j]]
            && ClearBits(bits, ds)[ws[j] := false] == ClearBits(bits, Dropped(ws, KeptSlots(ws, blocklen, j + 1)))
  {
    var ds, ds' := Dropped(ws, KeptSlots(ws, blocklen, j)), Dropped(ws, KeptSlots(ws, blocklen, j + 1));
    var ks, ks' := KeptSlots(ws, blocklen, j), KeptSlots(ws, blocklen, j + 1);
    assert ws[j] !in ds;
    assert ks' == ks[j := 0];
    forall x | x in ds'
      ensures x in ds + {ws[j] as nat}
    {
      var k :| 0 <= k < |ws| && ks'[k] != ws[k] && x == ws[k];
    }
    forall x | x in ds + {ws[j] as nat}
      ensures x in ds'
    {
      if x in ds {
        var k :| 0 <= k < |ws| && ks[k] != ws[k] && x == ws[k];
        assert ks'[k] != ws[k];
      } else {
        assert ks'[j] != ws[j];
      }
    }
    assert ds' == ds + {ws[j] as nat};
  }

  method PruneLoop(sfs: Sfs, blocklen: nat, ws: seq<word>, ghost i: nat)
    returns (idbuf: seq<word>, hasnonzero: bool, iddirty: bool)
    requires sfs.Shape() && |ws| == DBPERIDB && SlotsOwned(sfs.fs.bits, sfs.own, i, ws)
    modifies sfs`freemapdirty, sfs`fs, sfs.freemap, sfs.freemap.v
    ensures sfs.Shape() && idbuf == KeptSlots(ws, blocklen, DBPERIDB)
    ensures sfs.fs == old(sfs.fs).(bits := ClearBits(old(sfs.fs).bits, Dropped(ws, idbuf)))
    ensures !hasnonzero <==> idbuf == seq(DBPERIDB, _ => 0)
    ensures iddirty <==> idbuf != ws
    ensures iddirty ==> sfs.freemapdirty
  {
    hide Sfs.Shape;
    hide Dropped;
    hide ClearBits;
    hide Keep;
    ghost var fs, w := sfs.fs, 0;
    idbuf, hasnonzero, iddirty := ws, false, false;
    assert KeptSlots(ws, blocklen, 0) == ws;
    ClearNone(fs.bits, ws);
    for j := 0 to DBPERIDB
      invariant sfs.Shape() && idbuf == KeptSlots(ws, blocklen, j)
      invariant sfs.fs == fs.(bits := ClearBits(fs.bits, Dropped(ws, idbuf)))
      invariant !hasnonzero ==> forall k | 0 <= k < j :: idbuf[k] == 0
      invariant hasnonzero ==> 0 <= w < j && idbuf[w] != 0
      invariant iddirty <==> idbuf != ws
      invariant iddirty ==> sfs.freemapdirty
    {
      SlotStep(ws, blocklen, j);
      if blocklen < NDIRECT + j && idbuf[j] != 0 {
        DropNext(fs.bits, sfs.own, i, ws, blocklen, j);
        Bfree(sfs, idbuf[j]);
        idbuf := idbuf[j := 0];
        iddirty := true;
        assert idbuf[j] != ws[j];
      }
      if idbuf[j] != 0 {
        hasnonzero, w := true, j;
      }
    }
    if !hasnonzero {
      assert idbuf == seq(DBPERIDB, _ => 0);
    }
  }

  lemma SlotStep(ws: seq<word>, blocklen: nat, j: nat)
    requires j < |ws|
    ensures Keep(blocklen, NDIRECT + j) <==> !(blocklen < NDIRECT + j)
    ensures KeptSlots(ws, blocklen, j)[j] == ws[j]
    ensures KeptSlots(ws, blocklen, j + 1) ==
            if blocklen < NDIRECT + j then KeptSlots(ws, blocklen, j)[j := 0] else KeptSlots(ws, blocklen, j)
    ensures blocklen < NDIRECT + j && ws[j] == 0 ==> KeptSlots(ws, blocklen, j)[j := 0] == KeptSlots(ws, blocklen, j)
  {
  }

  lemma ClearNone(bits: seq<bool>, ws: seq<word>)
    ensures ClearBits(bits, Dropped(ws, ws)) == bits
  {
    assert Dropped(ws, ws) == {};
  }

  lemma CutSlots(fs: Fs, own: Owners, fs': Fs, own': Owners, i: nat, ind: nat, ws': seq<word>)
    requires VolInv(fs, own) && i in fs.cache && 0 < ind == Cur(fs, i).indirect < |fs.disk|
    requires |ws'| == DBPERIDB && Pruned(Pointers(fs.disk[ind]), ws')
    requires var ds := Dropped(Pointers(fs.disk[ind]), ws');
             own' == own - ds
             && fs' == fs.(disk := fs.disk[ind := PutWords(ws')], bits := ClearBits(fs.bits, ds))
    ensures VolInv(fs', own') && i < |fs.disk| && Cut(fs, own, fs', own', i, Cur(fs, i).direct + ws')
    ensures Cur(fs', i) == Cur(fs, i) && Pointers(fs'.disk[ind]) == ws'
  {
    hide VolInv;
    hide Ptrs;
    hide Pointers;
    hide PutWords;
    hide Dropped;
    hide ClearBits;
    hide InodeInv;
    hide BitsInv;
    hide FileInv;
    VolParts(fs, own, i);
    PtrsSetSlots(fs.disk, fs'.disk, Cur(fs, i), ws');
    PointersPut(ws');
    var ps := Ptrs(fs.disk, Cur(fs, i));
    BlocksKeep(fs.disk, ps);
    hide Blocks;
    PruneSlotsStep(fs, own, fs', own', i, ind, ws');
    assert Pruned(ps, Cur(fs, i).direct + ws');
    forall k | 0 <= k < MAXFILEBLOCKS
      ensures View(fs', i).blocks[k] == if (Cur(fs, i).direct + ws')[k] == 0 then ZeroBlock else View(fs, i).blocks[k]
    {
    }
  }

  /** Freeing the emptied indirect block, whose old contents stay behind on disk. */
  lemma CutIndirect(fs: Fs, own: Owners, fs1: Fs, own1: Owners, fs': Fs, own': Owners, i: nat, ind: nat)
    requires VolInv(fs1, own1) && i in fs1.cache && 0 < ind == Cur(fs1, i).indirect < |fs1.disk| == |fs.disk|
    requires ind < |fs1.bits| && Pointers(fs1.disk[ind]) == seq(DBPERIDB, _ => 0)
    requires own' == own1 - {ind}
    requires fs1.disk == fs.disk[ind := fs1.disk[ind]]
    requires fs' == SetInode(fs1.(disk := fs.disk, bits := fs1.bits[ind := false]), i, Cur(fs1, i).(indirect := 0))
    ensures VolInv(fs', own') && i < |fs1.disk| && Cut(fs1, own1, fs', own', i, Ptrs(fs1.disk, Cur(fs1, i)))
    ensures Cur(fs', i).indirect == 0
  {
    hide VolInv;
    hide Ptrs;
    hide Pointers;
    hide InodeInv;
    hide BitsInv;
    hide FileInv;
    VolParts(fs1, own1, i);
    BlocksKeep(fs1.disk, Ptrs(fs1.disk, Cur(fs1, i)));
    hide Blocks;
    var fs2 := SetInode(fs1.(bits := fs1.bits[ind := false]), i, Cur(fs1, i).(indirect := 0));
    FreeIndirectStep(fs1, own1, fs2, own', i, ind);
    PtrsDropIndirect(fs1.disk, Cur(fs1, i));
    assert fs' == fs2.(disk := fs2.disk[ind := fs.disk[ind]]);
    UnownedStep(fs2, own', fs', ind, fs.disk[ind]);
    PtrsFrame(fs2.disk, fs'.disk, Cur(fs', i));
  }

  /** The slots part of sfs_truncate: prune, then free or rewrite the indirect block. */
  method TruncateIndirect(sfs: Sfs, sv: Vnode, blocklen: nat)
    requires sfs.Valid() && sv in sfs.vnodes && 0 < sv.inode.indirect < sfs.nblocks
    modifies sfs`disk, sfs`freemapdirty, sfs`own, sfs`fs, sfs.freemap, sfs.freemap.v, sv
    ensures sfs.Valid()
    ensures |old(sfs.disk)| == sfs.nblocks
    ensures var ws' := KeptSlots(Pointers(old(sfs.disk)[old(sv.inode.indirect)]), blocklen, DBPERIDB);
            && Cut(old(sfs.fs), old(sfs.own), sfs.fs, sfs.own, sv.ino, old(sv.inode.direct) + ws')
            && sv.inode.indirect == if ws' == seq(DBPERIDB, _ => 0) then 0 else old(sv.inode.indirect)
  {
    hide VolInv;
    hide Cut;
    hide Ptrs;
    hide Pointers;
    hide PutWords;
    hide Dropped;
    hide ClearBits;
    hide Sfs.Shape;
    ghost var fs, own, i := sfs.fs, sfs.own, sv.ino;
    Loaded(sfs, sv);
    var idblock := sv.inode.indirect;
    var ws := Pointers(sfs.disk[idblock]);
    SlotsAreOwned(fs, own, i);
    var idbuf, hasnonzero, iddirty := PruneLoop(sfs, blocklen, ws, i);
    KeptPruned(ws, blocklen);
    ghost var ds := Dropped(ws, idbuf);
    ghost var fs1 := fs.(disk := fs.disk[idblock := PutWords(idbuf)], bits := ClearBits(fs.bits, ds));
    CutSlots(fs, own, fs1, own - ds, i, idblock, idbuf);
    if !hasnonzero {
      IndirectStays(fs.bits, own, i, ws, idbuf, idblock);
      Bfree(sfs, idblock);
      SetVnode(sfs, sv, sv.inode.(indirect := 0));
      sfs.own := sfs.own - ds - {idblock};
      CutIndirect(fs, own, fs1, own - ds, sfs.fs, sfs.own, i, idblock);
      CutPtrs(fs, own, fs1, own - ds, i, fs.cache[i].inode.direct + idbuf);
      CutTrans(fs, own, fs1, own - ds, sfs.fs, sfs.own, i,
               fs.cache[i].inode.direct + idbuf, fs.cache[i].inode.direct + idbuf);
    } else if iddirty {
      WriteBlock(sfs, idblock, PutWords(idbuf));
      sfs.own := sfs.own - ds;
    } else {
      ClearNone(fs.bits, ws);
      CutNone(fs, own, i);
      PtrsSplit(fs.disk, fs.cache[i].inode);
      assert sfs.fs == fs;
    }
  }

  lemma KeptPruned(ws: seq<word>, blocklen: nat)
    ensures Pruned(ws, KeptSlots(ws, blocklen, DBPERIDB))
  {
  }

  lemma PtrsSplit(disk: seq<Block>, ino: Inode)
    requires 0 < ino.indirect < |disk|
    ensures Ptrs(disk, ino) == ino.direct + Pointers(disk[ino.indirect])
  {
    hide Pointers;
  }

  lemma IndirectStays(bits: seq<bool>, own: Owners, i: nat, ws: seq<word>, ws': seq<word>, ind: nat)
    requires SlotsOwned(bits, own, i, ws) && Pruned(ws, ws')
    requires ind in own && own[ind] == IndirectOf(i) && ind < |bits| && bits[ind]
    ensures ind !in Dropped(ws, ws') && ClearBits(bits, Dropped(ws, ws'))[ind]
  {
  }

  /** Division of signed numbers as in C, toward zero. */
  function DivC(a: int, b: nat): int
    requires b > 0
  {
    if a >= 0 then a / b else -(-a / b)
  }

  /** The number of blocks that truncation to len keeps: the length in blocks, rounded up, in 32 bits. */
  function BlockLen(len: int): word {
    DivC(len + BLOCKSIZE - 1, BLOCKSIZE) % 0x1_0000_0000
  }

  /** The size that truncation to len sets, in 32 bits. */
  function NewLen(len: int): word {
    len % 0x1_0000_0000
  }

  /**
   * What truncating file i to len bytes does: the logical blocks that Keep rejects become holes and the
   * others stay as they are (the tail of the last kept block included); the indirect block goes when it
   * holds no pointer any more and the new length lies below its last block; no other file changes.
   */
  ghost predicate Truncated(fs: Fs, own: Owners, fs': Fs, own': Owners, i: nat, len: int) {
    var blocklen := BlockLen(len);
    && i < |fs.disk| && FileStep(fs, own, fs', own', i) && SameLive(own, own')
    && i in fs.cache && i in fs'.cache && fs'.cache[i].refs == fs.cache[i].refs && fs'.cache[i].dirty
    && Ptrs(fs'.disk, Cur(fs', i)) == Kept(Ptrs(fs.disk, Cur(fs, i)), blocklen, MAXFILEBLOCKS)
    && Cur(fs', i).indirect == (if blocklen < 142 && NoSlotKept(fs, i, blocklen) then 0 else Cur(fs, i).indirect)
    && View(fs', i).size == NewLen(len)
    && View(fs', i).typ == View(fs, i).typ && View(fs', i).links == View(fs, i).links
    && forall k | 0 <= k < MAXFILEBLOCKS ::
         View(fs', i).blocks[k] == if Keep(blocklen, k) then View(fs, i).blocks[k] else ZeroBlock
  }

  ghost predicate NoSlotKept(fs: Fs, i: nat, blocklen: nat)
    requires i < |fs.disk|
  {
    forall k | NDIRECT <= k < MAXFILEBLOCKS && Keep(blocklen, k) :: Ptrs(fs.disk, Cur(fs, i))[k] == 0
  }

  lemma KeptJoin(ps: seq<word>, direct: seq<word>, ws: seq<word>, blocklen: nat)
    requires |direct| == NDIRECT && |ws| == DBPERIDB && |ps| == MAXFILEBLOCKS
    requires Kept(ps, blocklen, NDIRECT) == direct + ws
    ensures direct + KeptSlots(ws, blocklen, DBPERIDB) == Kept(ps, blocklen, MAXFILEBLOCKS)
    ensures KeptSlots(ws, blocklen, DBPERIDB) == seq(DBPERIDB, _ => 0) <==>
            forall k | NDIRECT <= k < MAXFILEBLOCKS && Keep(blocklen, k) :: ps[k] == 0
  {
    var ks := KeptSlots(ws, blocklen, DBPERIDB);
    assert forall j | 0 <= j < DBPERIDB :: ws[j] == (direct + ws)[NDIRECT + j] == ps[NDIRECT + j];
    forall k | 0 <= k < MAXFILEBLOCKS
      ensures (direct + ks)[k] == Kept(ps, blocklen, MAXFILEBLOCKS)[k]
    {
      assert k < NDIRECT ==> (direct + ws)[k] == direct[k];
    }
    NoneKept(ps, ws, blocklen);
  }

  lemma NoneKept(ps: seq<word>, ws: seq<word>, blocklen: nat)
    requires |ws| == DBPERIDB && |ps| == MAXFILEBLOCKS && forall j | 0 <= j < DBPERIDB :: ws[j] == ps[NDIRECT + j]
    ensures KeptSlots(ws, blocklen, DBPERIDB) == seq(DBPERIDB, _ => 0) <==>
            forall k | NDIRECT <= k < MAXFILEBLOCKS && Keep(blocklen, k) :: ps[k] == 0
  {
    var ks := KeptSlots(ws, blocklen, DBPERIDB);
    if ks == seq(DBPERIDB, _ => 0) {
      forall k | NDIRECT <= k < MAXFILEBLOCKS && Keep(blocklen, k)
        ensures ps[k] == 0
      {
        assert ks[k - NDIRECT] == 0;
      }
    }
  }

  /** Without slots to prune: the new length reaches the last block, or there is no indirect block. */
  lemma KeptWhole(disk: seq<Block>, ino: Inode, blocklen: nat)
    requires blocklen >= 142 || ino.indirect == 0
    ensures Kept(Ptrs(disk, ino), blocklen, NDIRECT) == Kept(Ptrs(disk, ino), blocklen, MAXFILEBLOCKS)
  {
    hide Pointers;
  }

  lemma CutTruncated(fs: Fs, own: Owners, fs1: Fs, own1: Owners, fs2: Fs, i: nat, len: int)
    requires VolInv(fs1, own1) && i in fs1.cache && fs2 == SetInode(fs1, i, fs1.cache[i].inode.(size := NewLen(len)))
    requires i < |fs.disk|
          && Cut(fs, own, fs1, own1, i, Kept(Ptrs(fs.disk, Cur(fs, i)), BlockLen(len), MAXFILEBLOCKS))
    requires var blocklen := BlockLen(len);
             Cur(fs1, i).indirect == (if blocklen < 142 && NoSlotKept(fs, i, blocklen) then 0 else Cur(fs, i).indirect)
    ensures VolInv(fs2, own1) && Truncated(fs, own, fs2, own1, i, len)
  {
    hide Ptrs;
    hide InodeInv;
    hide BitsInv;
    hide Blocks;
    hide BlockLen;
    hide NoSlotKept;
    hide VolInv;
    hide OthersSame;
    var blocklen, ino, ino' := BlockLen(len), fs1.cache[i].inode, fs1.cache[i].inode.(size := NewLen(len));
    PtrsSame(fs1.disk, ino, ino');
    SetMetaStep(fs1, own1, fs2, i, ino');
    KeptBlocks(fs, i, View(fs1, i).blocks, blocklen);
    CutMeta(fs, own, fs1, own1, fs2, i);
  }

  lemma CutMeta(fs: Fs, own: Owners, fs1: Fs, own1: Owners, fs2: Fs, i: nat)
    requires FileStep(fs, own, fs1, own1, i) && SameLive(own, own1) && FileStep(fs1, own1, fs2, own1, i)
    ensures FileStep(fs, own, fs2, own1, i)
  {
    hide VolInv;
    hide View;
  }

  lemma PtrsSame(disk: seq<Block>, ino: Inode, ino': Inode)
    requires ino'.direct == ino.direct && ino'.indirect == ino.indirect
    ensures Ptrs(disk, ino') == Ptrs(disk, ino)
  {
    hide Pointers;
  }

  lemma KeptBlocks(fs: Fs, i: nat, bs': seq<Block>, blocklen: nat)
    requires i < |fs.disk| && |bs'| == MAXFILEBLOCKS
    requires forall k | 0 <= k < MAXFILEBLOCKS ::
               bs'[k] == if Kept(Ptrs(fs.disk, Cur(fs, i)), blocklen, MAXFILEBLOCKS)[k] == 0 then ZeroBlock
                         else View(fs, i).blocks[k]
    ensures forall k | 0 <= k < MAXFILEBLOCKS ::
              bs'[k] == if Keep(blocklen, k) then View(fs, i).blocks[k] else ZeroBlock
  {
    hide Ptrs;
    hide Keep;
    BlocksKeep(fs.disk, Ptrs(fs.disk, Cur(fs, i)));
  }

  method Truncate(sfs: Sfs, sv: Vnode, len: int)
    requires sfs.Valid() && sv in sfs.vnodes
    modifies sfs`disk, sfs`freemapdirty, sfs`own, sfs`fs, sfs.freemap, sfs.freemap.v, sv
    ensures sfs.Valid()
    ensures Truncated(old(sfs.fs), old(sfs.own), sfs.fs, sfs.own, sv.ino, len)
  {
    hide VolInv;
    hide Cut;
    hide Truncated;
    hide Ptrs;
    hide Pointers;
    hide NoSlotKept;
    hide Kept;
    hide KeptSlots;
    hide Sfs.Shape;
    ghost var fs, own, i := sfs.fs, sfs.own, sv.ino;
    Loaded(sfs, sv);
    IndirectInRange(fs, own, i);
    var blocklen := BlockLen(len);
    ghost var ps := Ptrs(fs.disk, sv.inode);
    TruncateDirect(sfs, sv, blocklen);
    Loaded(sfs, sv);
    ghost var fs1, own1, ps1 := sfs.fs, sfs.own, Kept(ps, blocklen, NDIRECT);
    CutPtrs(fs, own, fs1, own1, i, ps1);
    var highblock := NDIRECT + DBPERIDB - 1;
    if blocklen < highblock && sv.inode.indirect != 0 {
      PtrsSplit(fs1.disk, sv.inode);
      KeptJoin(ps, sv.inode.direct, Pointers(fs1.disk[sv.inode.indirect]), blocklen);
      NoSlotIff(fs, i, blocklen);
      TruncateIndirect(sfs, sv, blocklen);
      Loaded(sfs, sv);
      CutTrans(fs, own, fs1, own1, sfs.fs, sfs.own, i, ps1, Kept(ps, blocklen, MAXFILEBLOCKS));
    } else {
      KeptWhole(fs.disk, fs.cache[i].inode, blocklen);
    }
    ghost var fs2 := sfs.fs;
    SetVnode(sfs, sv, sv.inode.(size := NewLen(len)));
    CutTruncated(fs, own, fs2, sfs.own, sfs.fs, i, len);
  }

  lemma NoSlotIff(fs: Fs, i: nat, blocklen: nat)
    requires i < |fs.disk| && i in fs.cache
    ensures NoSlotKept(fs, i, blocklen) <==>
            forall k | NDIRECT <= k < MAXFILEBLOCKS && Keep(blocklen, k) :: Ptrs(fs.disk, fs.cache[i].inode)[k] == 0
  {
    hide Ptrs;
  }

  // ---- what that amounts to ----

  /** The file lost exactly its logical blocks from the new length on. */
  ghost predicate CutAtLength(fs: Fs, fs': Fs, i: nat, len: int)
    requires i < |fs.disk| && i < |fs'.disk|
  {
    forall k | 0 <= k < MAXFILEBLOCKS ::
      Ptrs(fs'.disk, Cur(fs', i))[k] == if k < BlockLen(len) then Ptrs(fs.disk, Cur(fs, i))[k] else 0
  }

  /**
   * After truncation exactly the logical blocks below the new length are left, if and only if the length ends
   * outside the range of the indirect block or the first block past it was a hole.
   */
  lemma SurvivorsExact(fs: Fs, own: Owners, fs': Fs, own': Owners, i: nat, len: int)
    requires Truncated(fs, own, fs', own', i, len)
    ensures |fs'.disk| == |fs.disk|
    ensures var blocklen := BlockLen(len);
            CutAtLength(fs, fs', i, len) <==>
              blocklen < NDIRECT || blocklen >= MAXFILEBLOCKS || Ptrs(fs.disk, Cur(fs, i))[blocklen] == 0
  {
    hide Ptrs;
    hide BlockLen;
    hide VolInv;
    hide OthersSame;
    hide NoSlotKept;
    var blocklen := BlockLen(len);
    if NDIRECT <= blocklen < MAXFILEBLOCKS {
      assert Keep(blocklen, blocklen);
    }
  }

  /**
   * The failing case: truncation to any length ending in the range of the indirect block keeps the block right
   * after the new end, with its contents, and every truncation with that block mapped leaves it owned by the file.
   */
  lemma OneBlockTooMany(fs: Fs, own: Owners, fs': Fs, own': Owners, i: nat, len: int)
    requires Truncated(fs, own, fs', own', i, len) && NDIRECT <= BlockLen(len) < MAXFILEBLOCKS
    ensures |fs'.disk| == |fs.disk|
    ensures var blocklen, p := BlockLen(len), Ptrs(fs.disk, Cur(fs, i))[BlockLen(len)];
            && Ptrs(fs'.disk, Cur(fs', i))[blocklen] == p
            && View(fs', i).blocks[blocklen] == View(fs, i).blocks[blocklen]
            && (p != 0 ==> p in own' && own'[p] == DataOf(i, blocklen) && !CutAtLength(fs, fs', i, len))
  {
    hide Ptrs;
    hide Blocks;
    hide BlockLen;
    hide BitsInv;
    hide OthersSame;
    hide NoSlotKept;
    hide DecodeInode;
    assert Live(own', i);
    assert InodeInv(fs', own', i);
  }

  /** A length taken apart: a times 2^41, v blocks, and w bytes. */
  lemma {:induction false} BlockLenIs(len: int, a: int, v: nat, w: nat)
    requires len == 0x200_0000_0000 * a + BLOCKSIZE * v + w && v < 0x1_0000_0000 && w < BLOCKSIZE
    ensures len % 0x200_0000_0000 == BLOCKSIZE * v + w && NewLen(len) == BLOCKSIZE * (v % 0x80_0000) + w
    ensures var more := if len > -BLOCKSIZE then (if w > 0 then 1 else 0) else (if w <= 1 then 1 else 2);
            BlockLen(len) == if v + more < 0x1_0000_0000 then v + more else v + more - 0x1_0000_0000
  {
    var more := if len > -BLOCKSIZE then (if w > 0 then 1 else 0) else (if w <= 1 then 1 else 2);
    Modulo(len, a, BLOCKSIZE * v + w, 0x200_0000_0000);
    Modulo(len, BLOCKSIZE * a + v / 0x80_0000, BLOCKSIZE * (v % 0x80_0000) + w, 0x1_0000_0000);
    var d := DivC(len + BLOCKSIZE - 1, BLOCKSIZE);
    assert d == 0x1_0000_0000 * a + v + more;
    if v + more < 0x1_0000_0000 {
      Modulo(d, a, v + more, 0x1_0000_0000);
    } else {
      Modulo(d, a + 1, v + more - 0x1_0000_0000, 0x1_0000_0000);
    }
  }

  lemma Modulo(x: int, q: int, r: nat, m: nat)
    requires r < m && x == m * q + r
    ensures x % m == r
  {
    var q', r' := x / m, x % m;
    assert x == m * q' + r';
    MultipleBelow(m, q' - q, r - r');
  }

  lemma MultipleBelow(m: int, d: int, t: int)
    requires m * d == t && -m < t < m
    ensures t == 0
  {
    if d > 0 {
      AtLeastOnce(m, d);
    } else if d < 0 {
      AtLeastOnce(m, -d);
    }
  }

  lemma {:induction false} AtLeastOnce(m: int, d: int)
    requires m > 0 && d > 0
    ensures m * d >= m
  {
    if d > 1 {
      AtLeastOnce(m, d - 1);
      assert m * d == m * (d - 1) + m;
    }
  }

  /** What truncation to len keeps of a length of v blocks and w bytes below 2^41. */
  lemma LengthParts(len: int) returns (v: nat, w: nat, more: nat)
    ensures len % 0x200_0000_0000 == BLOCKSIZE * v + w && v < 0x1_0000_0000 && w < BLOCKSIZE && len % BLOCKSIZE == w
    ensures NewLen(len) == BLOCKSIZE * (v % 0x80_0000) + w
    ensures more == if len > -BLOCKSIZE then (if w > 0 then 1 else 0) else (if w <= 1 then 1 else 2)
    ensures BlockLen(len) == if v + more < 0x1_0000_0000 then v + more else v + more - 0x1_0000_0000
    ensures -BLOCKSIZE < len < 0 ==> v == 0xFFFF_FFFF
  {
    hide BlockLen;
    hide NewLen;
    var a, u := len / 0x200_0000_0000, len % 0x200_0000_0000;
    v, w := u / BLOCKSIZE, u % BLOCKSIZE;
    more := if len > -BLOCKSIZE then (if w > 0 then 1 else 0) else (if w <= 1 then 1 else 2);
    BlockLenIs(len, a, v, w);
    Modulo(len, 0x1_0000_0000 * a + v, w, BLOCKSIZE);
  }

  lemma CeilingIs(q: nat, w: nat)
    requires w < BLOCKSIZE
    ensures DivRoundUp(BLOCKSIZE * q + w, BLOCKSIZE) == if w > 0 then q + 1 else q
  {
  }

  /**
   * The number of blocks kept is that of the new size, if and only if the length, as far as 41 bits show it, fits in
   * 32 (or is negative, where the division rounds the other way, and one past a block boundary).
   */
  lemma SizeFollows(len: int)
    ensures BlockLen(len) == DivRoundUp(NewLen(len), BLOCKSIZE) <==>
              len % 0x200_0000_0000 < 0x1_0000_0000 && (len >= 0 || len % BLOCKSIZE == 1)
  {
    hide BlockLen;
    hide NewLen;
    hide DivRoundUp;
    var v, w, more := LengthParts(len);
    var q := v % 0x80_0000;
    CeilingIs(q, w);
    assert q <= v && (q == v <==> v < 0x80_0000);
  }

  /** Truncating to length 0 gives back every block of the file: no pointer and no indirect block remain. */
  lemma TruncateToZero(fs: Fs, own: Owners, fs': Fs, own': Owners, i: nat)
    requires VolInv(fs, own) && Truncated(fs, own, fs', own', i, 0)
    ensures i < |fs'.disk| && Cur(fs', i).indirect == 0 && Cur(fs', i).direct == seq(NDIRECT, _ => 0)
    ensures forall b | b in own' && own'[b].ino == i :: b == i
  {
    hide VolInv;
    hide View;
    hide Ptrs;
    hide BlockLen;
    hide OthersSame;
    hide AgreeOff;
    assert BlockLen(0) == 0 by {
      ZeroBlocks();
    }
    var ino := Cur(fs', i);
    var ps := Ptrs(fs'.disk, ino);
    assert forall k | 0 <= k < MAXFILEBLOCKS :: ps[k] == 0;
    PtrsDirect(fs'.disk, ino);
    FileOwners(fs', own', i);
    OnlyInode(|fs'.disk|, own', i, ps);
  }

  lemma ZeroBlocks()
    ensures BlockLen(0) == 0
  {
  }

  lemma FileOwners(fs: Fs, own: Owners, i: nat)
    requires VolInv(fs, own) && i in fs.cache
    ensures i < |fs.disk| && OwnersInv(|fs.disk|, own)
    ensures FileInv(own, i, Cur(fs, i).indirect, Ptrs(fs.disk, Cur(fs, i)))
  {
    hide Ptrs;
    hide BitsInv;
    hide FileInv;
    hide DecodeInode;
    assert Live(own, i) && InodeInv(fs, own, i);
  }

  lemma PtrsDirect(disk: seq<Block>, ino: Inode)
    ensures ino.direct == Ptrs(disk, ino)[..NDIRECT]
  {
    hide Pointers;
  }

  lemma OnlyInode(n: nat, own: Owners, i: nat, ps: seq<word>)
    requires OwnersInv(n, own) && FileInv(own, i, 0, ps) && forall k | 0 <= k < |ps| :: ps[k] == 0
    ensures forall b | b in own && own[b].ino == i :: b == i
  {
  }
}
