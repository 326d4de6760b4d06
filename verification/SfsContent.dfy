/** The contents of a file as one flat byte array, and what a transfer does to it. */
module SfsContent {
  import opened Bytes
  import opened SfsLayout
  import opened SfsVolume
  import opened Uios

  /** The bytes of a file: byte p is byte p % 512 of logical block p / 512. */
  function Flat(bs: seq<Block>): (f: seq<byte>)
    ensures |f| == BLOCKSIZE * |bs|
  {
    seq(BLOCKSIZE * |bs|, p requires 0 <= p < BLOCKSIZE * |bs| => bs[p / BLOCKSIZE][p % BLOCKSIZE])
  }

  function Patch(b: Block, skip: nat, data: seq<byte>): Block
    requires skip + |data| <= BLOCKSIZE
  {
    b[..skip] + data + b[skip + |data|..]
  }

  lemma FlatPatch(bs: seq<Block>, k: nat, skip: nat, data: seq<byte>)
    requires k < |bs| && skip + |data| <= BLOCKSIZE
    ensures Flat(bs[k := Patch(bs[k], skip, data)]) == Overlay(Flat(bs), BLOCKSIZE * k + skip, data)
  {
    var bs' := bs[k := Patch(bs[k], skip, data)];
    forall p | 0 <= p < BLOCKSIZE * |bs|
      ensures Flat(bs')[p] == Overlay(Flat(bs), BLOCKSIZE * k + skip, data)[p]
    {
      assert p == BLOCKSIZE * (p / BLOCKSIZE) + p % BLOCKSIZE;
    }
  }

  lemma FlatSlice(bs: seq<Block>, k: nat, skip: nat, len: nat)
    requires k < |bs| && skip + len <= BLOCKSIZE
    ensures BLOCKSIZE * k + skip + len <= |Flat(bs)|
    ensures Flat(bs)[BLOCKSIZE * k + skip..BLOCKSIZE * k + skip + len] == bs[k][skip..skip + len]
  {
    assert BLOCKSIZE * k + BLOCKSIZE <= BLOCKSIZE * |bs|;
    var a, b := Flat(bs)[BLOCKSIZE * k + skip..BLOCKSIZE * k + skip + len], bs[k][skip..skip + len];
    forall j | 0 <= j < len
      ensures a[j] == b[j]
    {
      assert (BLOCKSIZE * k + skip + j) / BLOCKSIZE == k;
    }
  }

  lemma FlatInjective(bs: seq<Block>, bs': seq<Block>)
    requires |bs| == |bs'| && Flat(bs) == Flat(bs')
    ensures bs == bs'
  {
    hide Flat;
    forall k | 0 <= k < |bs|
      ensures bs[k] == bs'[k]
    {
      FlatSlice(bs, k, 0, BLOCKSIZE);
      FlatSlice(bs', k, 0, BLOCKSIZE);
      assert bs[k][0..BLOCKSIZE] == bs[k] && bs'[k][0..BLOCKSIZE] == bs'[k];
    }
  }

  ghost function Content(fs: Fs, i: nat): (f: seq<byte>)
    requires i < |fs.disk|
    ensures |f| == MAXFILESIZE
  {
    Flat(View(fs, i).blocks)
  }

  /** Block numbers within a file are kept in 32 bits, so offsets 2^41 apart are the same place. */
  const WRAP := 0x200_0000_0000

  /** The place in the file that offset off leads to. */
  function Pos(off: nat): (p: nat)
    ensures p < WRAP && (off < WRAP ==> p == off)
  {
    off % WRAP
  }

  lemma PosBlock(off: nat)
    ensures Pos(off) / BLOCKSIZE == off / BLOCKSIZE % 0x1_0000_0000 && Pos(off) % BLOCKSIZE == off % BLOCKSIZE
  {
    var q, r := off / BLOCKSIZE, off % BLOCKSIZE;
    var a, b := q / 0x1_0000_0000, q % 0x1_0000_0000;
    assert off == WRAP * a + (BLOCKSIZE * b + r);
    assert BLOCKSIZE * b + r < WRAP;
    PosIs(off, a, BLOCKSIZE * b + r);
    BlockOf(b, r);
  }

  lemma PosIs(off: nat, a: nat, p: nat)
    requires off == WRAP * a + p && p < WRAP
    ensures Pos(off) == p
  {
  }

  lemma BlockOf(b: nat, r: nat)
    requires r < BLOCKSIZE
    ensures (BLOCKSIZE * b + r) / BLOCKSIZE == b && (BLOCKSIZE * b + r) % BLOCKSIZE == r
  {
  }

  /** A transfer that stays within a file does not meet the wrap-around. */
  lemma PosNext(off: nat, n: nat)
    requires Pos(off) + n <= MAXFILESIZE
    ensures Pos(off + n) == Pos(off) + n
  {
    var a := off / WRAP;
    assert off == WRAP * a + Pos(off);
    PosIs(off + n, a, Pos(off) + n);
  }

  /**
   * data was transferred at offset off of file i, and nothing else happened: no other file changed, nor
   * this file's size, type or link count. A write overlays exactly [off, off + |data|); a read changes
   * nothing and delivered what the file holds there, holes as zeros.
   */
  ghost predicate Moved(fs: Fs, own: Owners, fs': Fs, own': Owners, i: nat, rw: Direction, off: nat, data: seq<byte>) {
    && i < |fs.disk| && FileStep(fs, own, fs', own', i) && SameLive(own, own')
    && i in fs.cache && i in fs'.cache && fs'.cache[i].refs == fs.cache[i].refs
    && View(fs', i) == View(fs, i).(blocks := View(fs', i).blocks)
    && (data != [] ==> off + |data| <= MAXFILESIZE)
    && match rw
       case UioWrite => Content(fs', i) == Overlay(Content(fs, i), off, data)
       case UioRead => fs' == fs && own' == own && (data != [] ==> data == Content(fs, i)[off..off + |data|])
  }

  lemma MovedNone(fs: Fs, own: Owners, i: nat, rw: Direction, off: nat)
    requires VolInv(fs, own) && i in fs.cache
    ensures Moved(fs, own, fs, own, i, rw, off, [])
  {
    hide InodeInv;
    hide BitsInv;
    hide View;
    hide Flat;
    assert Live(own, i);
  }

  lemma MovedTrans(fs: Fs, own: Owners, fs1: Fs, own1: Owners, fs2: Fs, own2: Owners,
                   i: nat, rw: Direction, off: nat, d1: seq<byte>, d2: seq<byte>)
    requires VolInv(fs, own)
    requires Moved(fs, own, fs1, own1, i, rw, off, d1) && Moved(fs1, own1, fs2, own2, i, rw, off + |d1|, d2)
    ensures Moved(fs, own, fs2, own2, i, rw, off, d1 + d2)
  {
    hide View;
    hide Flat;
    hide VolInv;
    hide Overlay;
    if rw.UioWrite? {
      OverlayAppend(Content(fs, i), off, d1, d2);
    } else if d1 == [] {
      assert d1 + d2 == d2;
    } else if d2 == [] {
      assert d1 + d2 == d1;
    }
  }
}
