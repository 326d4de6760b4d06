/** Directory I/O: reading, searching and rewriting slots (kern/fs/sfs/sfs_vnode.c:548-751). */
module SfsDir {
  import opened Bytes
  import opened Uios
  import opened SfsLayout
  import opened SfsVolume
  import opened SfsState
  import opened SfsBmap
  import opened SfsContent
  import opened SfsIo
  import opened SfsDirSpec

  /** The root inode holds a directory: whole slots within the addressable size, with unique names. */
  ghost predicate DirOk(fs: Fs) {
    && ROOT_LOCATION < |fs.disk| && View(fs, ROOT_LOCATION).typ == TYPE_DIR
    && View(fs, ROOT_LOCATION).size % DIRENTSIZE == 0 && View(fs, ROOT_LOCATION).size <= MAXFILESIZE
    && UniqueNames(Slots(fs))
  }

  /** sfs_dir_nentries, on a directory whose size is a whole number of slots. */
  method NEntries(sfs: Sfs, dv: Vnode) returns (n: nat)
    requires sfs.Valid() && dv in sfs.vnodes && dv.ino == ROOT_LOCATION && DirOk(sfs.fs)
    ensures n == |Slots(sfs.fs)| == View(sfs.fs, ROOT_LOCATION).size / DIRENTSIZE
    ensures DIRENTSIZE * n == dv.inode.size == View(sfs.fs, ROOT_LOCATION).size
  {
    hide VolInv;
    hide Sfs.Shape;
    hide Content;
    hide UniqueNames;
    Loaded(sfs, dv);
    SizeIs(sfs.fs, dv.ino);
    assert dv.inode.size % DIRENTSIZE == 0;
    n := dv.inode.size / DIRENTSIZE;
  }

  /** sfs_readdir never fails or comes up short on an existing slot. */
  method ReadDir(sfs: Sfs, dv: Vnode, slot: nat) returns (sd: seq<byte>)
    requires sfs.Valid() && dv in sfs.vnodes && dv.ino == ROOT_LOCATION && DirOk(sfs.fs) && slot < |Slots(sfs.fs)|
    modifies sfs`disk, sfs`freemapdirty, sfs`own, sfs`fs, sfs.freemap, sfs.freemap.v, dv
    ensures sfs.Valid() && sfs.fs == old(sfs.fs) && sfs.own == old(sfs.own)
    ensures |sd| == DIRENTSIZE && DecodeSlot(sd) == Slots(sfs.fs)[slot]
  {
    hide VolInv;
    hide Sfs.Shape;
    hide Rest;
    hide DecodeSlot;
    hide Content;
    hide View;
    hide UniqueNames;
    var actualpos := slot * DIRENTSIZE;
    var uio := new Uio(Zeros(DIRENTSIZE), actualpos, UioRead);
    ghost var fs := sfs.fs;
    var result;
    ghost var data;
    result, data := Io(sfs, dv, uio);
    assert result == Success;
    assert uio.resid == 0;
    sd := uio.iovs[0].buf[..uio.iovs[0].pos];
    assert sd == uio.Filled() == data;
  }

  /** The directory was rewritten to hold slots sl'; nothing else changed. */
  ghost predicate DirWrote(fs: Fs, own: Owners, fs': Fs, own': Owners, sl': seq<Slot>) {
    && FileStep(fs, own, fs', own', ROOT_LOCATION) && SameLive(own, own')
    && ROOT_LOCATION in fs.cache && ROOT_LOCATION in fs'.cache && ROOT_LOCATION < |fs.disk|
    && fs'.cache[ROOT_LOCATION].refs == fs.cache[ROOT_LOCATION].refs
    && View(fs', ROOT_LOCATION).typ == View(fs, ROOT_LOCATION).typ
    && View(fs', ROOT_LOCATION).links == View(fs, ROOT_LOCATION).links
    && View(fs', ROOT_LOCATION).size % DIRENTSIZE == 0 && View(fs', ROOT_LOCATION).size <= MAXFILESIZE
    && Slots(fs') == sl'
  }

  lemma SlotWritten(fs: Fs, own: Owners, fs': Fs, own': Owners, slot: nat, b: seq<byte>, sd: Slot)
    requires DirOk(fs) && slot <= |Slots(fs)| && |b| == DIRENTSIZE && DecodeSlot(b) == sd
    requires Wrote(fs, own, fs', own', ROOT_LOCATION, DIRENTSIZE * slot, b)
    ensures DirWrote(fs, own, fs', own', Place(Slots(fs), slot, sd))
  {
    hide VolInv;
    hide View;
    hide Content;
    hide DirSlots;
    hide DecodeSlot;
    hide Overlay;
    hide UniqueNames;
    DirSlotsWrite(Content(fs, ROOT_LOCATION), View(fs, ROOT_LOCATION).size, slot, b);
  }

  lemma NothingWritten(fs: Fs, own: Owners, fs': Fs, own': Owners, slot: nat)
    requires DirOk(fs) && slot <= |Slots(fs)|
    requires Wrote(fs, own, fs', own', ROOT_LOCATION, DIRENTSIZE * slot, [])
    ensures DirWrote(fs, own, fs', own', Slots(fs))
  {
    hide VolInv;
    hide View;
    hide Content;
    hide DirSlots;
    hide UniqueNames;
    hide Overlay;
    OverlayEmpty(Content(fs, ROOT_LOCATION), DIRENTSIZE * slot);
  }

  lemma ZeroSlot(b: seq<byte>, skip: nat)
    requires b == ZeroBlock && skip + DIRENTSIZE <= BLOCKSIZE
    ensures DecodeSlot(b[skip..skip + DIRENTSIZE]).ino == NOINO
  {
    hide CStr;
  }

  /** A slot in use lies in a block that is not all zeros, so rewriting it needs no allocation. */
  lemma UsedSlotMapped(fs: Fs, slot: nat)
    requires DirOk(fs) && slot < |Slots(fs)| && Slots(fs)[slot].ino != NOINO
    ensures View(fs, ROOT_LOCATION).blocks[DIRENTSIZE * slot / BLOCKSIZE] != ZeroBlock
  {
    hide Blocks;
    hide Ptrs;
    hide DecodeSlot;
    hide UniqueNames;
    hide Flat;
    var bs := View(fs, ROOT_LOCATION).blocks;
    var k, skip := DIRENTSIZE * slot / BLOCKSIZE, DIRENTSIZE * slot % BLOCKSIZE;
    FlatSlice(bs, k, skip, DIRENTSIZE);
    assert BLOCKSIZE * k + skip == DIRENTSIZE * slot;
    if bs[k] == ZeroBlock {
      ZeroSlot(bs[k], skip);
    }
  }

  /** sfs_writedir of a slot that exists or is the next one; a failed write leaves the slots alone. */
  method WriteDir(sfs: Sfs, dv: Vnode, b: seq<byte>, slot: nat) returns (err: Errno)
    requires sfs.Valid() && dv in sfs.vnodes && dv.ino == ROOT_LOCATION && DirOk(sfs.fs)
    requires slot <= |Slots(sfs.fs)| && |b| == DIRENTSIZE
    modifies sfs`disk, sfs`freemapdirty, sfs`own, sfs`fs, sfs.freemap, sfs.freemap.v, dv
    ensures sfs.Valid()
    ensures DirWrote(old(sfs.fs), old(sfs.own), sfs.fs, sfs.own,
                     if err == Success then Place(Slots(old(sfs.fs)), slot, DecodeSlot(b)) else Slots(old(sfs.fs)))
    ensures slot < |Slots(old(sfs.fs))| && Slots(old(sfs.fs))[slot].ino != NOINO ==> err == Success
    ensures err == Success || err == ENOSPC || err == EFBIG
    ensures err == ENOSPC ==> Full(sfs.fs)
    ensures err == EFBIG <==> slot == MAXSLOTS
    ensures err == ENOSPC <==> NoRoom(old(sfs.fs), ROOT_LOCATION, slot / 8)
  {
    hide VolInv;
    hide Sfs.Shape;
    hide Rest;
    hide DecodeSlot;
    hide DirSlots;
    hide Content;
    hide View;
    hide UniqueNames;
    hide DirWrote;
    hide Wrote;
    hide Stuck;
    hide NoRoom;
    var uio := new Uio(b, slot * DIRENTSIZE, UioWrite);
    ghost var fs, own := sfs.fs, sfs.own;
    ghost var data;
    SlotsBound(fs);
    SlotStuck(fs, slot);
    err, data := Io(sfs, dv, uio);
    WroteBound(fs, own, sfs.fs, sfs.own, slot * DIRENTSIZE, data);
    if err == Success {
      assert uio.resid == 0;
      assert data == b;
      SlotWritten(fs, own, sfs.fs, sfs.own, slot, b, DecodeSlot(b));
    } else {
      assert data == [];
      NothingWritten(fs, own, sfs.fs, sfs.own, slot);
      if slot < |Slots(fs)| && Slots(fs)[slot].ino != NOINO {
        UsedSlotMapped(fs, slot);
        SameBlocks(fs, own, sfs.fs, sfs.own, DIRENTSIZE * slot);
        assert false;
      }
    }
  }

  lemma SlotStuck(fs: Fs, slot: nat)
    requires slot <= MAXSLOTS
    ensures Stuck(fs, ROOT_LOCATION, UioWrite, slot * DIRENTSIZE / BLOCKSIZE) <==>
              slot == MAXSLOTS || NoRoom(fs, ROOT_LOCATION, slot / 8)
    ensures NoRoom(fs, ROOT_LOCATION, slot / 8) ==> slot < MAXSLOTS
  {
    hide Ptrs;
    hide Cur;
  }

  lemma SlotsBound(fs: Fs)
    requires DirOk(fs)
    ensures |Slots(fs)| <= MAXSLOTS
  {
    hide View;
    hide UniqueNames;
  }

  lemma WroteBound(fs: Fs, own: Owners, fs': Fs, own': Owners, off: nat, data: seq<byte>)
    requires Wrote(fs, own, fs', own', ROOT_LOCATION, off, data) && off < WRAP
    ensures data != [] ==> off + |data| <= MAXFILESIZE
  {
    hide View;
    hide Content;
    hide FileStep;
  }

  lemma SameBlocks(fs: Fs, own: Owners, fs': Fs, own': Owners, off: nat)
    requires Wrote(fs, own, fs', own', ROOT_LOCATION, off, [])
    ensures View(fs', ROOT_LOCATION).blocks == View(fs, ROOT_LOCATION).blocks
  {
    hide VolInv;
    hide Blocks;
    hide Ptrs;
    hide Flat;
    hide Overlay;
    OverlayEmpty(Content(fs, ROOT_LOCATION), Pos(off));
    FlatInjective(View(fs', ROOT_LOCATION).blocks, View(fs, ROOT_LOCATION).blocks);
  }

  /** The last free slot, or -1 when there is none. */
  ghost predicate IsLastFree(sl: seq<Slot>, s: int) {
    -1 <= s < |sl| && (s >= 0 ==> sl[s].ino == NOINO) && forall t | s < t < |sl| :: sl[t].ino != NOINO
  }

  /** Where a new name goes: the last free slot, or else one past the end. */
  ghost function NewSlot(sl: seq<Slot>): (s: nat)
    ensures if s < |sl| then IsLastFree(sl, s) else s == |sl| && IsLastFree(sl, -1)
  {
    if sl == [] then 0
    else if sl[|sl| - 1].ino == NOINO then |sl| - 1
    else
      var s := NewSlot(sl[..|sl| - 1]);
      if s < |sl| - 1 then s else |sl|
  }

  lemma LastFreeIsNew(sl: seq<Slot>, s: int)
    requires IsLastFree(sl, s)
    ensures NewSlot(sl) == if s >= 0 then s else |sl|
  {
    var t := NewSlot(sl);
    assert t < |sl| ==> sl[t].ino == NOINO;
  }

  /** The slot of a new name lies in a hole of the directory that cannot be filled once `taken` blocks are in use. */
  ghost predicate NoSpaceForName(fs: Fs, taken: nat) {
    DirOk(fs) && NewSlot(Slots(fs)) < MAXSLOTS && Short(fs, ROOT_LOCATION, NewSlot(Slots(fs)) / 8, taken)
  }

  /**
   * sfs_dir_findname: finds the name exactly when the directory holds it, and reports the last free slot.
   * That a second match is impossible (the assertion in the loop) follows from unique names.
   */
  method FindName(sfs: Sfs, dv: Vnode, name: seq<byte>) returns (err: Errno, ino: word, slot: nat, empty: int)
    requires sfs.Valid() && dv in sfs.vnodes && dv.ino == ROOT_LOCATION && DirOk(sfs.fs)
    modifies sfs`disk, sfs`freemapdirty, sfs`own, sfs`fs, sfs.freemap, sfs.freemap.v, dv
    ensures sfs.Valid() && sfs.fs == old(sfs.fs) && sfs.own == old(sfs.own)
    ensures err == Success || err == ENOENT
    ensures err == Success ==> slot < |Slots(sfs.fs)| && ino != NOINO && Slots(sfs.fs)[slot] == Slot(ino, name)
    ensures err == ENOENT ==> Absent(Slots(sfs.fs), name)
    ensures -1 <= empty < |Slots(sfs.fs)|
    ensures IsLastFree(Slots(sfs.fs), empty)
  {
    hide VolInv;
    hide Sfs.Shape;
    hide DecodeSlot;
    hide Slots;
    hide View;
    ghost var fs, own, sl := sfs.fs, sfs.own, Slots(sfs.fs);
    var nentries := NEntries(sfs, dv);
    var found := false;
    ino, slot, empty := 0, 0, -1;
    for i := 0 to nentries
      invariant sfs.Valid() && sfs.fs == fs && sfs.own == own
      invariant -1 <= empty < i
      invariant (empty >= 0 ==> sl[empty].ino == NOINO) && forall t | empty < t < i :: sl[t].ino != NOINO
      invariant found ==> slot < i && ino != NOINO && sl[slot] == Slot(ino, name)
      invariant !found ==> forall t | 0 <= t < i && sl[t].ino != NOINO :: sl[t].name != name
    {
      var b := ReadDir(sfs, dv, i);
      var tsd := DecodeSlot(b);
      if tsd.ino == NOINO {
        empty := i;
      } else if tsd.name == name {
        assert !found;
        found, slot, ino := true, i, tsd.ino;
      }
    }
    err := if found then Success else ENOENT;
  }

  /** The directory is as long as it can be, and every slot is in use. */
  ghost predicate NoSlot(sl: seq<Slot>) {
    |sl| == MAXSLOTS && forall t | 0 <= t < |sl| :: sl[t].ino != NOINO
  }

  /** sfs_dir_link: adds the name in a free slot or at the end; on failure the slots are unchanged. */
  method DirLink(sfs: Sfs, dv: Vnode, name: seq<byte>, ino: word) returns (err: Errno, slot: nat)
    requires sfs.Valid() && dv in sfs.vnodes && dv.ino == ROOT_LOCATION && DirOk(sfs.fs)
    requires IsName(name) && ino != NOINO
    modifies sfs`disk, sfs`freemapdirty, sfs`own, sfs`fs, sfs.freemap, sfs.freemap.v, dv
    ensures sfs.Valid()
    ensures err == EEXIST <==> !Absent(Slots(old(sfs.fs)), name)
    ensures err == ENAMETOOLONG <==> Absent(Slots(old(sfs.fs)), name) && |name| + 1 > NAMELEN
    ensures err == EFBIG <==> Absent(Slots(old(sfs.fs)), name) && |name| + 1 <= NAMELEN && NoSlot(Slots(old(sfs.fs)))
    ensures err == ENOSPC <==>
              Absent(Slots(old(sfs.fs)), name) && |name| + 1 <= NAMELEN && NoSpaceForName(old(sfs.fs), 0)
    ensures err == ENOSPC ==> Full(sfs.fs)
    ensures err in {Success, EEXIST, ENAMETOOLONG, ENOSPC, EFBIG}
    ensures err == Success ==> slot <= |Slots(old(sfs.fs))|
    ensures err == Success && slot < |Slots(old(sfs.fs))| ==> Slots(old(sfs.fs))[slot].ino == NOINO
    ensures DirWrote(old(sfs.fs), old(sfs.own), sfs.fs, sfs.own,
                     if err == Success then Place(Slots(old(sfs.fs)), slot, Slot(ino, name)) else Slots(old(sfs.fs)))
  {
    hide VolInv;
    hide Sfs.Shape;
    hide DecodeSlot;
    hide EncodeSlot;
    hide Slots;
    hide View;
    hide DirWrote;
    SlotsBound(sfs.fs);
    var result, i, s, empty := FindName(sfs, dv, name);
    DirSame(sfs, dv);
    if result == Success {
      return EEXIST, 0;
    }
    if |name| + 1 > NAMELEN {
      return ENAMETOOLONG, 0;
    }
    LastFreeIsNew(Slots(sfs.fs), empty);
    if empty < 0 {
      empty := NEntries(sfs, dv);
    }
    DecodeEncodeSlot(Slot(ino, name));
    slot := empty;
    err := WriteDir(sfs, dv, EncodeSlot(Slot(ino, name)), slot);
  }

  lemma DirSame(sfs: Sfs, dv: Vnode)
    requires sfs.Valid() && dv in sfs.vnodes && dv.ino == ROOT_LOCATION && DirOk(sfs.fs)
    ensures DirWrote(sfs.fs, sfs.own, sfs.fs, sfs.own, Slots(sfs.fs))
  {
    hide VolInv;
    hide Sfs.Shape;
    hide Slots;
    hide View;
    Loaded(sfs, dv);
  }

  lemma DecodeFree()
    ensures DecodeSlot(Zeros(DIRENTSIZE)) == Slot(NOINO, [])
  {
  }

  /** sfs_dir_unlink of a slot in use: cannot fail, since the slot's block is already allocated. */
  method DirUnlink(sfs: Sfs, dv: Vnode, slot: nat) returns (err: Errno)
    requires sfs.Valid() && dv in sfs.vnodes && dv.ino == ROOT_LOCATION && DirOk(sfs.fs)
    requires slot < |Slots(sfs.fs)| && Slots(sfs.fs)[slot].ino != NOINO
    modifies sfs`disk, sfs`freemapdirty, sfs`own, sfs`fs, sfs.freemap, sfs.freemap.v, dv
    ensures sfs.Valid() && err == Success
    ensures DirWrote(old(sfs.fs), old(sfs.own), sfs.fs, sfs.own, Slots(old(sfs.fs))[slot := Slot(NOINO, [])])
  {
    hide VolInv;
    hide Sfs.Shape;
    hide DecodeSlot;
    hide Slots;
    hide View;
    hide DirWrote;
    DecodeFree();
    err := WriteDir(sfs, dv, Zeros(DIRENTSIZE), slot);
  }
}
