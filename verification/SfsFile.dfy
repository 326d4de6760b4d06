/** Reading, writing and truncating a file of a mounted volume, and what the invariant says about its users. */
module SfsFile {
  import opened Common
  import opened Bytes
  import opened Uios
  import opened SfsLayout
  import opened SfsVolume
  import opened SfsSteps
  import opened SfsState
  import opened SfsContent
  import opened SfsIo
  import opened SfsTruncate
  import opened SfsDirSpec
  import opened SfsDir
  import opened SfsDirSteps
  import opened SfsVnode
  import opened SfsNames

  /** Changing the data of a regular file keeps the directory invariant. */
  lemma FileKeepsDir(fs: Fs, own: Owners, fs': Fs, own': Owners, i: nat, base: nat)
    requires i != ROOT_LOCATION && i < |fs.disk| && i in fs.cache && i in fs'.cache
    requires FileStep(fs, own, fs', own', i) && SameLive(own, own') && fs'.cache[i].refs == fs.cache[i].refs
    requires View(fs', i).links == View(fs, i).links && View(fs', i).typ == View(fs, i).typ
    requires FsInv(fs, own, base)
    ensures FsInv(fs', own', base) && Dir(fs') == Dir(fs)
  {
    hide VolInv;
    hide View;
    hide Slots;
    hide Named;
    hide UniqueNames;
    hide DecodeInode;
    Facts(fs, own);
    Facts(fs', own');
    DirFrame(fs, own, fs', own', base);
    SoundDirOk(fs, own, base);
    SoundDirOk(fs', own', base);
  }

  lemma NotRoot(fs: Fs, own: Owners, base: nat, i: nat)
    requires FsInv(fs, own, base) && i < |fs.disk| && Cur(fs, i).typ == TYPE_FILE
    ensures i != ROOT_LOCATION
  {
    hide Slots;
    hide Named;
    hide UniqueNames;
    hide Ptrs;
    hide Blocks;
    hide DecodeInode;
  }

  /** sfs_write on a regular file. */
  method Write(sfs: Sfs, sv: Vnode, uio: Uio) returns (err: Errno, ghost data: seq<byte>)
    requires Sound(sfs) && sv in sfs.vnodes && sv.inode.typ == TYPE_FILE
    requires uio.Valid() && uio.rw == UioWrite
    modifies sfs`disk, sfs`freemapdirty, sfs`own, sfs`fs, sfs.freemap, sfs.freemap.v, sv, uio
    ensures Sound(sfs) && Dir(sfs.fs) == Dir(old(sfs.fs)) && uio.Valid()
    ensures UioStep(UioWrite, old(uio.State()), uio.State(), data)
    ensures Wrote(old(sfs.fs), old(sfs.own), sfs.fs, sfs.own, sv.ino, old(uio.offset), data)
    ensures Ending(sfs.fs, sv.ino, UioWrite, err, Pos(uio.offset))
    ensures if err == Success then uio.resid == 0 else data == [] || (uio.offset % BLOCKSIZE == 0 && uio.resid > 0)
    ensures data == [] <==>
              old(uio.resid) == 0 || Stuck(old(sfs.fs), sv.ino, UioWrite, Pos(old(uio.offset)) / BLOCKSIZE)
    ensures data == [] ==> sv.inode.size == NewSize(old(sv.inode.size), old(uio.offset))
  {
    hide Stuck;
    hide VolInv;
    hide DirInv;
    hide Sfs.Shape;
    hide View;
    hide Content;
    hide Dir;
    hide Rest;
    hide Ending;
    hide FileStep;
    ghost var fs, own := sfs.fs, sfs.own;
    Loaded(sfs, sv);
    NotRoot(fs, own, sfs.base, sv.ino);
    SizeIs(fs, sv.ino);
    err, data := Io(sfs, sv, uio);
    Loaded(sfs, sv);
    SizeIs(sfs.fs, sv.ino);
    FileKeepsDir(fs, own, sfs.fs, sfs.own, sv.ino, sfs.base);
  }

  /** sfs_truncate on a regular file. */
  method TruncateFile(sfs: Sfs, sv: Vnode, len: int)
    requires Sound(sfs) && sv in sfs.vnodes && sv.inode.typ == TYPE_FILE
    modifies sfs`disk, sfs`freemapdirty, sfs`own, sfs`fs, sfs.freemap, sfs.freemap.v, sv
    ensures Sound(sfs) && Dir(sfs.fs) == Dir(old(sfs.fs))
    ensures Truncated(old(sfs.fs), old(sfs.own), sfs.fs, sfs.own, sv.ino, len)
  {
    hide VolInv;
    hide DirInv;
    hide Sfs.Shape;
    hide View;
    hide Dir;
    hide FileStep;
    hide Kept;
    hide Ptrs;
    hide NoSlotKept;
    ghost var fs, own := sfs.fs, sfs.own;
    Loaded(sfs, sv);
    NotRoot(fs, own, sfs.base, sv.ino);
    Truncate(sfs, sv, len);
    FileKeepsDir(fs, own, sfs.fs, sfs.own, sv.ino, sfs.base);
  }

  /** Reading back a range that was just written returns what was written there. */
  lemma ReadAfterWrite(fs: Fs, own: Owners, fs': Fs, own': Owners, i: nat, off: nat, data: seq<byte>, back: seq<byte>)
    requires Wrote(fs, own, fs', own', i, off, data) && data != []
    requires ReadOut(fs', i, Pos(off), |data|, back, Success)
    ensures back == data
  {
    hide FileStep;
    hide View;
    hide Content;
    EndWithin(View(fs, i).size, off, |data|);
  }

  /** A write that moved something ends within the size. */
  lemma EndWithin(size: word, off: nat, n: nat)
    requires n > 0 && Pos(off) + n <= MAXFILESIZE
    ensures Pos(off) + n <= NewSize(size, off + n)
  {
    var a := off / WRAP;
    assert off == WRAP * a + Pos(off);
    assert (off + n) % 0x1_0000_0000 == Pos(off) + n by { EndAt(off + n, a, Pos(off) + n); }
  }

  lemma EndAt(end: nat, a: nat, p: nat)
    requires end == WRAP * a + p && p < 0x1_0000_0000
    ensures end % 0x1_0000_0000 == p
  {
    assert end == 0x1_0000_0000 * (512 * a) + p;
  }

  /** A write leaves every byte outside its range as it was, as long as the size still covers it. */
  lemma ReadElsewhere(fs: Fs, own: Owners, fs': Fs, own': Owners, i: nat, off: nat, data: seq<byte>, at: nat, n: nat,
                      before: seq<byte>, after: seq<byte>)
    requires Wrote(fs, own, fs', own', i, off, data) && (at + n <= Pos(off) || Pos(off) + |data| <= at)
    requires at + n <= View(fs, i).size && at + n <= View(fs', i).size
    requires ReadOut(fs, i, at, n, before, Success) && ReadOut(fs', i, at, n, after, Success)
    ensures after == before
  {
    hide FileStep;
    hide View;
    hide Content;
    hide Pos;
    hide NewSize;
    if n > 0 {
      assert |before| == n && |after| == n;
      forall k | 0 <= k < n
        ensures after[k] == before[k]
      {
        assert after[k] == Content(fs', i)[at + k] && before[k] == Content(fs, i)[at + k];
      }
    }
  }

  /** A write leaves the size at the larger of the old one and its end, if and only if it starts below 4 gigabytes. */
  lemma SizeIsMax(fs: Fs, own: Owners, fs': Fs, own': Owners, i: nat, off: nat, data: seq<byte>)
    requires Wrote(fs, own, fs', own', i, off, data)
    ensures View(fs', i).size == Max(View(fs, i).size, off + |data|) <==> off < 0x1_0000_0000
  {
    hide FileStep;
    hide View;
    hide Content;
  }

  /** The failing case: a write at 4 gigabytes or more, but below the wrap-around, fails, and may cut the size down. */
  lemma HugeWriteShrinks(fs: Fs, own: Owners, fs': Fs, own': Owners, i: nat, off: nat, data: seq<byte>)
    requires Wrote(fs, own, fs', own', i, off, data) && 0x1_0000_0000 <= off < WRAP
    ensures data == [] && Content(fs', i) == Content(fs, i) && View(fs', i).size == off % 0x1_0000_0000
  {
    hide VolInv;
    hide OthersSame;
    hide AgreeOff;
    hide View;
    hide Content;
    hide Overlay;
    OverlayEmpty(Content(fs, i), Pos(off));
  }

  /** A write that moved something is found where it was aimed, if and only if that was below the wrap-around. */
  lemma WriteLands(fs: Fs, own: Owners, fs': Fs, own': Owners, i: nat, off: nat, data: seq<byte>)
    requires Wrote(fs, own, fs', own', i, off, data) && data != []
    ensures |fs'.disk| == |fs.disk|
    ensures off + |data| <= MAXFILESIZE && Content(fs', i)[off..off + |data|] == data <==> off < WRAP
    ensures Content(fs', i)[off % WRAP..off % WRAP + |data|] == data
  {
    hide VolInv;
    hide OthersSame;
    hide AgreeOff;
    hide View;
    hide Content;
    assert Content(fs', i)[Pos(off)..Pos(off) + |data|] == data;
  }

  /** Inode i is the root, is loaded, or has a name. */
  ghost predicate Reachable(fs: Fs, i: nat) {
    i == ROOT_LOCATION || i in fs.cache || (DirOk(fs) && IsNamed(Slots(fs), i))
  }

  ghost predicate IsNamed(sl: seq<Slot>, i: nat) {
    exists s :: 0 <= s < |sl| && sl[s].ino == i != NOINO
  }

  /** The inodes in use are those that can be reached from the directory or the vnode table. */
  lemma LiveIsReachable(fs: Fs, own: Owners, base: nat, i: nat)
    requires FsInv(fs, own, base)
    ensures Live(own, i) <==> Reachable(fs, i)
  {
    hide View;
    hide Slots;
    hide Named;
    hide UniqueNames;
    hide BitsInv;
    hide InodeInv;
    hide DecodeInode;
    SoundDirOk(fs, own, base);
    if Live(own, i) && i != ROOT_LOCATION && i !in fs.cache {
      InoNotZero(fs, own, i);
      NamedSlot(Slots(fs), i);
    }
  }

  lemma NamedSlot(sl: seq<Slot>, i: nat)
    requires Named(sl, i) > 0 && i != NOINO
    ensures IsNamed(sl, i)
  {
    assert i in Inos(sl);
  }

  /** A use of block b: as an inode, as an indirect block, or as data of an inode that can be reached. */
  ghost predicate UsedAs(fs: Fs, b: nat, o: Owner) {
    && o.ino < |fs.disk| && Reachable(fs, o.ino)
    && match o
       case InodeOf(i) => b == i
       case IndirectOf(i) => b == Cur(fs, i).indirect
       case DataOf(i, k) => k < MAXFILEBLOCKS && b == Ptrs(fs.disk, Cur(fs, i))[k]
  }

  /**
   * Every allocated block has exactly one use in what can be reached from the directory and the vnode table, and no
   * free block has any: no leak and no double use.
   */
  lemma BlocksAccountedFor(fs: Fs, own: Owners, base: nat, b: nat)
    requires FsInv(fs, own, base) && 0 < b < |fs.disk| && !Reserved(|fs.disk|, b) && b < |fs.bits|
    ensures fs.bits[b] <==> exists o :: UsedAs(fs, b, o)
    ensures forall o, o' | UsedAs(fs, b, o) && UsedAs(fs, b, o') :: o == o'
  {
    hide Ptrs;
    hide DecodeInode;
    hide Reserved;
    hide DirInv;
    hide Reachable;
    forall o | UsedAs(fs, b, o)
      ensures b in own && own[b] == o
    {
      LiveIsReachable(fs, own, base, o.ino);
      assert InodeInv(fs, own, o.ino);
    }
    if fs.bits[b] {
      assert b in own;
      LiveIsReachable(fs, own, base, own[b].ino);
      assert InodeInv(fs, own, own[b].ino);
      assert UsedAs(fs, b, own[b]);
    }
  }

  /** The names of inode i. */
  ghost function NamesOf(m: map<seq<byte>, nat>, i: nat): set<seq<byte>> {
    set n | n in m && m[n] == i
  }

  /** The number of slots naming an inode is the number of its names. */
  lemma {:induction false} NamedIsNames(sl: seq<Slot>, i: nat)
    requires UniqueNames(sl) && i != NOINO
    ensures Named(sl, i) == |NamesOf(Names(sl), i)|
  {
    hide Names;
    hide Named;
    if sl == [] {
      NoNames(i);
    } else {
      var init, last := sl[..|sl| - 1], sl[|sl| - 1];
      assert sl == init + [last];
      NamedIsNames(init, i);
      NamedAppend(init, last, i);
      if last.ino != NOINO {
        assert Place(init, |init|, last) == sl;
        assert Absent(init, last.name);
        NamesPlace(init, |init|, last);
        AbsentIff(init, last.name);
        NamesOfAdd(Names(init), last.name, last.ino, i);
      } else {
        FreeSlotLast(init, last);
      }
    }
  }

  lemma NoNames(i: nat)
    ensures Named([], i) == 0 && NamesOf(Names([]), i) == {}
  {
  }

  lemma NamesOfAdd(m: map<seq<byte>, nat>, n: seq<byte>, ino: nat, i: nat)
    requires n !in m
    ensures |NamesOf(m[n := ino], i)| == |NamesOf(m, i)| + if ino == i then 1 else 0
  {
    var s, s' := NamesOf(m, i), NamesOf(m[n := ino], i);
    assert s' == if ino == i then s + {n} else s;
  }

  lemma FreeSlotLast(init: seq<Slot>, last: Slot)
    requires UniqueNames(init) && UniqueNames(init + [last]) && last.ino == NOINO
    ensures Names(init + [last]) == Names(init)
  {
    hide Names;
    var m, m' := Names(init), Names(init + [last]);
    forall n | n in m
      ensures n in m' && m'[n] == m[n]
    {
      var t := NameSlot(init, n);
      NameAt(init + [last], t);
    }
    forall n | n in m'
      ensures n in m
    {
      var t := NameSlot(init + [last], n);
      NameAt(init, t);
    }
  }

  /** Link counts are exact: a regular file has as many links as names, and the root the same plus its own. */
  lemma LinkCountExact(fs: Fs, own: Owners, base: nat, i: nat)
    requires FsInv(fs, own, base) && Live(own, i)
    ensures i < |fs.disk| && Cur(fs, i).links == |NamesOf(Dir(fs), i)| + Extra(i, base)
  {
    hide View;
    hide Slots;
    hide Named;
    hide Names;
    hide UniqueNames;
    hide BitsInv;
    hide InodeInv;
    hide CacheInv;
    hide DecodeInode;
    SoundDirOk(fs, own, base);
    ViewMeta(fs, i);
    NamedIsNames(Slots(fs), i);
  }

  /** A write that moved nothing leaves the contents alone, but it leaves the size alone only up to the old end. */
  lemma NothingWrote(fs: Fs, own: Owners, fs': Fs, own': Owners, i: nat, off: nat)
    requires Wrote(fs, own, fs', own', i, off, [])
    ensures Content(fs', i) == Content(fs, i)
    ensures View(fs', i).size == View(fs, i).size <==>
              off <= View(fs, i).size || off % 0x1_0000_0000 == View(fs, i).size
  {
    hide FileStep;
    hide View;
    hide Content;
    OverlayEmpty(Content(fs, i), Pos(off));
  }

  /** An instance: a write at the largest file size, or past it, moves nothing and makes a smaller file that long. */
  lemma WritePastLimit(fs: Fs, own: Owners, fs': Fs, own': Owners, i: nat, off: nat, data: seq<byte>)
    requires Wrote(fs, own, fs', own', i, off, data) && MAXFILESIZE <= off < 0x1_0000_0000 && View(fs, i).size < off
    ensures data == [] && Content(fs', i) == Content(fs, i) && View(fs', i).size == off != View(fs, i).size
  {
    hide FileStep;
    hide View;
    hide Content;
    NothingWrote(fs, own, fs', own', i, off);
  }

  /** What truncation to len does to the flat contents: whole blocks are kept or zeroed. */
  function CutFlat(f: seq<byte>, len: int): (f': seq<byte>)
    ensures |f'| == |f|
  {
    seq(|f|, x requires 0 <= x < |f| => if Keep(BlockLen(len), x / BLOCKSIZE) then f[x] else 0)
  }

  lemma TruncatedContent(fs: Fs, own: Owners, fs': Fs, own': Owners, i: nat, len: int)
    requires Truncated(fs, own, fs', own', i, len)
    ensures |fs'.disk| == |fs.disk| && Content(fs', i) == CutFlat(Content(fs, i), len)
  {
    hide VolInv;
    hide OthersSame;
    hide AgreeOff;
    hide View;
    hide Keep;
    hide Kept;
    hide Ptrs;
    hide NoSlotKept;
    hide BlockLen;
    var f, f' := Content(fs, i), Content(fs', i);
    forall x | 0 <= x < MAXFILESIZE
      ensures f'[x] == CutFlat(f, len)[x]
    {
      var k := x / BLOCKSIZE;
      assert f[x] == View(fs, i).blocks[k][x % BLOCKSIZE] && f'[x] == View(fs', i).blocks[k][x % BLOCKSIZE];
    }
  }

  /**
   * The lengths that truncation cuts cleanly, so that no byte past the new size shares a kept block with one before
   * it: the size is the largest or beyond, or the length is, up to multiples of 2^41, that of some direct blocks.
   */
  predicate CleanCut(len: int) {
    NewLen(len) >= MAXFILESIZE || (len >= 0 && len % BLOCKSIZE == 0 && len % WRAP / BLOCKSIZE < NDIRECT)
  }

  lemma CutPastEnd(len: int, x: nat)
    requires CleanCut(len) && NewLen(len) <= x < MAXFILESIZE
    ensures !Keep(BlockLen(len), x / BLOCKSIZE)
  {
    hide BlockLen;
    hide NewLen;
    var v, w, more := LengthParts(len);
  }

  lemma KeptAtEnd(len: int)
    requires !CleanCut(len)
    ensures NewLen(len) < MAXFILESIZE && Keep(BlockLen(len), NewLen(len) / BLOCKSIZE)
  {
    hide BlockLen;
    hide NewLen;
    var v, w, more := LengthParts(len);
  }

  /** Truncation leaves only zeros past the new end of whatever file, if and only if the length is a clean one. */
  lemma TailIsZero(len: int)
    ensures CleanCut(len) <==>
              forall f: seq<byte>, x: nat | |f| == MAXFILESIZE && NewLen(len) <= x < |f| :: CutFlat(f, len)[x] == 0
  {
    hide Keep;
    hide BlockLen;
    if CleanCut(len) {
      forall f: seq<byte>, x: nat | |f| == MAXFILESIZE && NewLen(len) <= x < |f|
        ensures CutFlat(f, len)[x] == 0
      {
        CutPastEnd(len, x);
      }
    } else {
      KeptAtEnd(len);
      var f: seq<byte> := seq(MAXFILESIZE, _ => 1);
      assert CutFlat(f, len)[NewLen(len)] == 1;
    }
  }

  /** After a clean truncation the file reads as zeros past its new end, should it grow again. */
  lemma CleanTail(fs: Fs, own: Owners, fs': Fs, own': Owners, i: nat, len: int, x: nat)
    requires Truncated(fs, own, fs', own', i, len) && CleanCut(len) && NewLen(len) <= x < MAXFILESIZE
    ensures |fs'.disk| == |fs.disk| && Content(fs', i)[x] == 0
  {
    hide Truncated;
    hide Content;
    hide CleanCut;
    hide Keep;
    hide BlockLen;
    TruncatedContent(fs, own, fs', own', i, len);
    CutPastEnd(len, x);
  }

  /**
   * After any other truncation the byte at the new end is the one that was there before: a write that skips over
   * it makes it readable again.
   */
  lemma TailStays(fs: Fs, own: Owners, fs': Fs, own': Owners, i: nat, len: int)
    requires Truncated(fs, own, fs', own', i, len) && !CleanCut(len)
    ensures |fs'.disk| == |fs.disk|
    ensures var end := NewLen(len); end < MAXFILESIZE && Content(fs', i)[end] == Content(fs, i)[end]
  {
    hide Truncated;
    hide Content;
    hide CleanCut;
    hide Keep;
    hide BlockLen;
    TruncatedContent(fs, own, fs', own', i, len);
    KeptAtEnd(len);
  }

  /** The whole way there: truncate, write further on, and the old byte is read where a hole should be. */
  lemma OldByteReturns(fs: Fs, own: Owners, fs1: Fs, own1: Owners, fs2: Fs, own2: Owners, i: nat, len: int,
                       off: nat, data: seq<byte>, back: seq<byte>)
    requires Truncated(fs, own, fs1, own1, i, len) && !CleanCut(len)
    requires Wrote(fs1, own1, fs2, own2, i, off, data) && data != [] && NewLen(len) < off < WRAP
    requires ReadOut(fs2, i, NewLen(len), 1, back, Success)
    ensures i < |fs.disk| && NewLen(len) < MAXFILESIZE && back == [Content(fs, i)[NewLen(len)]]
  {
    hide Truncated;
    hide FileStep;
    hide Content;
    hide CleanCut;
    hide View;
    TailStays(fs, own, fs1, own1, i, len);
    InRange(fs, own, fs1, own1, i, len);
  }

  /** A truncation to 4 gigabytes or more, seen in 41 bits, frees nothing and yet sets whatever size 32 bits show. */
  lemma HugeTruncateKeeps(fs: Fs, own: Owners, fs': Fs, own': Owners, i: nat, len: int)
    requires Truncated(fs, own, fs', own', i, len) && 0x1_0000_0000 <= len % WRAP <= WRAP - 2 * BLOCKSIZE
    ensures |fs'.disk| == |fs.disk| && Content(fs', i) == Content(fs, i) && View(fs', i).size == len % 0x1_0000_0000
    ensures Ptrs(fs'.disk, Cur(fs', i)) == Ptrs(fs.disk, Cur(fs, i))
  {
    hide VolInv;
    hide OthersSame;
    hide AgreeOff;
    hide View;
    hide Ptrs;
    hide NoSlotKept;
    hide Content;
    hide BlockLen;
    var v, w, more := LengthParts(len);
    TruncatedContent(fs, own, fs', own', i, len);
  }

  lemma InRange(fs: Fs, own: Owners, fs': Fs, own': Owners, i: nat, len: int)
    requires Truncated(fs, own, fs', own', i, len)
    ensures i < |fs.disk|
  {
    hide FileStep;
    hide View;
    hide Ptrs;
    hide Kept;
  }

  /** A file just made is empty: a read delivers nothing, and any byte it may get to have is zero. */
  lemma NewFileReadsEmpty(fs: Fs, own: Owners, fs': Fs, own': Owners, b: nat, names: map<seq<byte>, nat>, off: nat,
                          n: nat, data: seq<byte>, err: Errno)
    requires Made(fs, own, fs', own', b, names) && OwnersInv(|fs.disk|, own) && VolInv(fs', own')
    requires ReadOut(fs', b, off, n, data, err)
    ensures data == [] && err == Success && Content(fs', b) == Zeros(MAXFILESIZE)
  {
    hide VolInv;
    hide Dir;
    hide OwnersInv;
    hide Content;
    MadeIsEmpty(fs, own, fs', own', b, names);
    NoBlocksZero(fs', b);
    ViewMeta(fs', b);
    hide View;
  }

  lemma NoBlocksZero(fs: Fs, i: nat)
    requires i < |fs.disk| && Cur(fs, i).direct == seq(15, _ => 0) && Cur(fs, i).indirect == 0
    ensures Content(fs, i) == Zeros(MAXFILESIZE)
  {
    hide Ptrs;
    PtrsNone(fs.disk, Cur(fs, i));
    forall x | 0 <= x < MAXFILESIZE
      ensures Content(fs, i)[x] == 0
    {
      assert View(fs, i).blocks[x / BLOCKSIZE] == ZeroBlock;
    }
  }

  /**
   * One step of a run, with its outcome: a write and the bytes that arrived; a truncation; a link, or a creation that
   * failed; a creation; a remove or rename about file i, which goes with it or not; the loading of an inode; the
   * dropping of a reference; a sync; a sync with an unmount, refused while an inode is loaded, and a mount.
   */
  datatype FileOp =
    | WriteOp(i: nat, off: nat, data: seq<byte>)
    | TruncateOp(i: nat, len: int)
    | LinkOp(names: map<seq<byte>, nat>)
    | CreatOp(b: nat, names: map<seq<byte>, nat>)
    | RenameOp(i: nat, names: map<seq<byte>, nat>, gone: bool)
    | LoadOp(i: nat)
    | ReleaseOp(i: nat)
    | SyncOp
    | RemountOp

  ghost predicate Did(fs: Fs, own: Owners, fs': Fs, own': Owners, op: FileOp) {
    match op
    case WriteOp(i, off, data) => Wrote(fs, own, fs', own', i, off, data)
    case TruncateOp(i, len) => Truncated(fs, own, fs', own', i, len)
    case LinkOp(names) => NameStep(fs, own, fs', own', names)
    case CreatOp(b, names) => Made(fs, own, fs', own', b, names)
    case RenameOp(i, names, gone) => Finished(fs, own, fs', own', i, names, gone)
    case LoadOp(i) =>
      own' == own && i < |fs.disk| && fs' == fs.(cache := fs.cache[i := LoadVn(fs, i, TYPE_INVAL)])
    case ReleaseOp(i) => Released(fs, own, fs', own', i)
    case SyncOp => own' == own && SameRefs(fs, fs') && SameCur(fs, own, fs')
    case RemountOp => own' == own && fs.cache == fs'.cache == map[] && SameCur(fs, own, fs')
  }

  /** A run of operations on the volume. */
  ghost predicate FileRun(fss: seq<Fs>, owns: seq<Owners>, ops: seq<FileOp>) {
    && |fss| == |owns| == |ops| + 1
    && forall k | 0 <= k < |ops| :: Did(fss[k], owns[k], fss[k + 1], owns[k + 1], ops[k])
  }

  /** The file exists throughout the run, and is not the root. */
  ghost predicate Stays(owns: seq<Owners>, i: nat) {
    i != ROOT_LOCATION && forall k | 0 <= k < |owns| :: Live(owns[k], i)
  }

  /** A file as a flat array and a size. */
  datatype FlatFile = FlatFile(bytes: seq<byte>, size: word)

  /** What an operation does to file i: only its own writes and truncations do anything. */
  function Do(f: FlatFile, op: FileOp, i: nat): FlatFile {
    match op
    case WriteOp(j, off, data) =>
      if j == i then FlatFile(Overlay(f.bytes, Pos(off), data), NewSize(f.size, off + |data|)) else f
    case TruncateOp(j, len) => if j == i then FlatFile(CutFlat(f.bytes, len), NewLen(len)) else f
    case _ => f
  }

  /** The flat file that the operations leave. */
  function Replay(f: FlatFile, ops: seq<FileOp>, i: nat): FlatFile {
    if ops == [] then f else Do(Replay(f, ops[..|ops| - 1], i), ops[|ops| - 1], i)
  }

  ghost function FlatOf(fs: Fs, i: nat): FlatFile
    requires i < |fs.disk|
  {
    FlatFile(Content(fs, i), View(fs, i).size)
  }

  lemma DidFlat(fs: Fs, own: Owners, fs': Fs, own': Owners, op: FileOp, i: nat)
    requires Did(fs, own, fs', own', op) && i < |fs.disk| && Live(own, i) && Live(own', i) && i != ROOT_LOCATION
    ensures |fs'.disk| == |fs.disk|
    ensures FlatOf(fs', i) == Do(FlatOf(fs, i), op, i)
  {
    hide View;
    hide VolInv;
    hide Flat;
    hide Overlay;
    hide CutFlat;
    hide Kept;
    hide Ptrs;
    hide NoSlotKept;
    hide Dir;
    hide EmptyFile;
    hide OwnersInv;
    hide AgreeOff;
    hide LoadVn;
    match op {
      case TruncateOp(j, len) => TruncatedContent(fs, own, fs', own', j, len);
      case LoadOp(j) => LoadLooks(fs, fs', j, i);
      case _ =>
    }
  }

  lemma LoadLooks(fs: Fs, fs': Fs, j: nat, i: nat)
    requires i < |fs.disk| && j < |fs.disk| && fs' == fs.(cache := fs.cache[j := LoadVn(fs, j, TYPE_INVAL)])
    ensures View(fs', i) == View(fs, i)
  {
    hide DecodeInode;
    hide Ptrs;
    hide Blocks;
  }

  /** An inode that left memory with its last reference and is loaded again is the same one, as long as it has links. */
  lemma ReclaimThenLoad(fs: Fs, own: Owners, fs1: Fs, own1: Owners, i: nat)
    requires Released(fs, own, fs1, own1, i) && fs.cache[i].refs == 1 && i < |fs.disk| && View(fs, i).links > 0
    ensures Live(own1, i) && LoadVn(fs1, i, TYPE_INVAL) == Vn(fs.cache[i].inode, false, 1)
  {
    hide View;
    hide DecodeInode;
    hide OwnersInv;
    hide AgreeOff;
  }

  /**
   * However operations on different files interleave, with creations, links, removals, renames, reclaims, syncs
   * and remounts among them, a file is the flat file its own writes and truncations make, for as long as it exists.
   */
  lemma {:induction false} RunRefinesFlat(fss: seq<Fs>, owns: seq<Owners>, ops: seq<FileOp>, i: nat)
    requires FileRun(fss, owns, ops) && i < |fss[0].disk| && Stays(owns, i)
    ensures |fss[|ops|].disk| == |fss[0].disk|
    ensures FlatOf(fss[|ops|], i) == Replay(FlatOf(fss[0], i), ops, i)
  {
    hide FlatOf;
    hide Did;
    hide Do;
    hide Live;
    if ops != [] {
      var n := |ops| - 1;
      assert FileRun(fss[..n + 1], owns[..n + 1], ops[..n]);
      assert Stays(owns[..n + 1], i);
      RunRefinesFlat(fss[..n + 1], owns[..n + 1], ops[..n], i);
      DidFlat(fss[n], owns[n], fss[n + 1], owns[n + 1], ops[n], i);
    }
  }

  /**
   * A read at the end of any such run delivers what the flat file holds from the offset on, up to what was asked for,
   * the size or the last byte a file can have, whichever comes first. It fails exactly when that byte comes first.
   */
  lemma RunReads(fss: seq<Fs>, owns: seq<Owners>, ops: seq<FileOp>, i: nat, off: nat, n: nat, data: seq<byte>,
                 err: Errno)
    requires FileRun(fss, owns, ops) && i < |fss[0].disk| && Stays(owns, i)
    requires ReadOut(fss[|ops|], i, off, n, data, err)
    ensures var f := Replay(FlatOf(fss[0], i), ops, i);
            if off >= f.size || off >= MAXFILESIZE then data == []
            else && off + |data| == Min(Min(off + n, f.size), MAXFILESIZE)
                 && |f.bytes| == MAXFILESIZE && data == f.bytes[off..off + |data|]
    ensures var f := Replay(FlatOf(fss[0], i), ops, i);
            && (err == Success || err == EFBIG)
            && (n > 0 ==> (err == EFBIG <==> off < f.size && Min(off + n, f.size) > MAXFILESIZE))
  {
    hide View;
    hide Content;
    hide Replay;
    hide Live;
    hide Did;
    RunRefinesFlat(fss, owns, ops, i);
  }
}
