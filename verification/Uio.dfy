/** kern/lib/uio.c: scatter/gather transfers between a kernel buffer and the buffers of a uio. */
module Uios {
  import opened Common
  import opened Bytes

  /** An iovec: the buffer it names and how far into it iov_base has advanced. */
  datatype Buffer = Buffer(buf: seq<byte>, pos: nat)
  type Iovec = v: Buffer | v.pos <= |v.buf| witness Buffer([], 0)

  /** The bytes of the buffers that iov_base has not passed yet, in transfer order. */
  function Rest(iovs: seq<Iovec>): seq<byte>
  {
    if iovs == [] then [] else iovs[0].buf[iovs[0].pos..] + Rest(iovs[1..])
  }

  datatype Direction = UioRead | UioWrite

  /**
   * A uio as a value: position, residual count, bytes still to be taken, bytes delivered or taken so far,
   * and whether it consists of a single iovec.
   */
  datatype UioState = UioState(offset: nat, resid: nat, source: seq<byte>, filled: seq<byte>, single: bool)

  /** data was transferred between u and u'; offset and resid account for every byte. */
  ghost predicate UioStep(rw: Direction, u: UioState, u': UioState, data: seq<byte>) {
    && |data| <= u.resid && |data| <= |u.source|
    && u'.resid == u.resid - |data| && u'.offset == u.offset + |data| && u'.source == u.source[|data|..]
    && (u.single ==> u'.single)
    && match rw
       case UioRead => u'.filled == u.filled + data
       case UioWrite => data == u.source[..|data|]
  }

  lemma UioTrans(rw: Direction, u: UioState, u1: UioState, u2: UioState, d1: seq<byte>, d2: seq<byte>)
    requires UioStep(rw, u, u1, d1) && UioStep(rw, u1, u2, d2)
    ensures UioStep(rw, u, u2, d1 + d2)
  {
  }

  lemma MinIs(a: int, b: int)
    ensures Min(a, b) == if a <= b then a else b
  {
  }

  lemma ZerosMore(m: nat, n: nat, d: nat)
    requires d <= n
    ensures Zeros(m) + Zeros(n)[..d] == Zeros(m + d)
  {
  }

  lemma Assoc(a: seq<byte>, b: seq<byte>, c: seq<byte>)
    ensures (a + b) + c == a + (b + c)
  {
  }

  lemma FirstInRest(iovs: seq<Iovec>)
    requires iovs != []
    ensures |iovs[0].buf| - iovs[0].pos <= |Rest(iovs)|
  {
  }

  class Uio {
    var iovs: seq<Iovec>
    var offset: nat
    var resid: nat
    const rw: Direction
    ghost var past: seq<byte>  // contents of the iovecs already stepped over

    ghost predicate Valid()
      reads this
    {
      && iovs != []
      && (forall i :: 0 < i < |iovs| ==> iovs[i].pos == 0)
      && resid <= |Rest(iovs)|
    }

    /** Bytes still to be transferred out of (or into) the caller's buffers. */
    ghost function Source(): seq<byte>
      reads this
      requires Valid()
    {
      Rest(iovs)
    }

    /** Everything that has been transferred so far, in order. */
    ghost function Filled(): seq<byte>
      reads this
      requires Valid()
    {
      past + iovs[0].buf[..iovs[0].pos]
    }

    ghost predicate Single()
      reads this
    {
      |iovs| == 1 && past == []
    }

    ghost function State(): UioState
      reads this
      requires Valid()
    {
      UioState(offset, resid, Source(), Filled(), Single())
    }

    /** uio_kinit: one kernel buffer. */
    constructor (buf: seq<byte>, pos: nat, rw: Direction)
      ensures Valid() && offset == pos && resid == |buf| && this.rw == rw
      ensures Source() == buf && Filled() == [] && Single()
    {
      iovs, offset, resid, this.rw := [Buffer(buf, 0)], pos, |buf|, rw;
      past := [];
      new;
      assert Rest(iovs) == buf + Rest([]);
    }

    /**
     * uiomove on the kernel region holding `region`: it is to fit in the residual count, or else that count is to
     * be the whole length of the buffers, and the transfer stops with them. `after` is what the region holds
     * afterwards. Reading delivers the region to the caller's buffers and leaves it alone; writing replaces it by
     * the next source bytes.
     */
    method Move(region: seq<byte>) returns (after: seq<byte>)
      requires Valid() && (|region| <= resid || resid == |Source()|)
      modifies this
      ensures var m := Min(|region|, old(resid));
              && Valid() && resid == old(resid) - m && offset == old(offset) + m
              && Source() == old(Source())[m..]
              && (rw.UioRead? ==> after == region && Filled() == old(Filled()) + region[..m])
              && (rw.UioWrite? ==> after == old(Source())[..m] + region[m..])
      ensures old(Single()) ==> Single()
    {
      hide Rest;
      hide Min;
      ghost var src, filled := Source(), Filled();
      MinIs(|region|, resid);
      var moved: seq<byte> := [];
      while |moved| < |region| && resid > 0
        invariant |moved| <= |region| && |moved| <= old(resid)
        invariant Valid() && resid == old(resid) - |moved| && offset == old(offset) + |moved|
        invariant Source() == src[|moved|..] && (old(Single()) ==> Single())
        invariant |region| - |moved| <= resid || resid == |Source()|
        invariant rw.UioRead? ==> moved == region[..|moved|] && Filled() == filled + moved
        invariant rw.UioWrite? ==> moved == src[..|moved|]
        decreases |region| - |moved|, |iovs|
      {
        var n := |region| - |moved|;
        var size := |iovs[0].buf| - iovs[0].pos;
        FirstInRest(iovs);
        if size > n {
          size := n;
        }
        if size == 0 {
          NextIovec();
        } else {
          SplitTake(src, |moved|, size);
          SplitTake(region, |moved|, size);
          var chunk := MoveWithin(region[|moved|..][..size]);
          Assoc(filled, moved, chunk);
          moved := moved + chunk;
        }
      }
      after := if rw.UioRead? then region else moved + region[|moved|..];
    }

    /** Step to the next iovec; there is one, since bytes remain to be moved. */
    method NextIovec()
      requires Valid() && resid > 0 && iovs[0].pos == |iovs[0].buf|
      modifies this
      ensures Valid() && resid == old(resid) && offset == old(offset)
      ensures Source() == old(Source()) && Filled() == old(Filled())
      ensures iovs == old(iovs)[1..] && !old(Single())
    {
      assert |iovs| == 1 ==> Rest(iovs) == [];
      past := past + iovs[0].buf;
      iovs := iovs[1..];
    }

    /** One memmove inside the current iovec. */
    method MoveWithin(region: seq<byte>) returns (after: seq<byte>)
      requires Valid() && 0 < |region| <= resid && iovs[0].pos + |region| <= |iovs[0].buf|
      modifies this
      ensures Valid() && resid == old(resid) - |region| && offset == old(offset) + |region|
      ensures Source() == old(Source())[|region|..] && |after| == |region|
      ensures rw.UioRead? ==> after == region && Filled() == old(Filled()) + region
      ensures rw.UioWrite? ==> after == old(Source())[..|region|]
      ensures old(Single()) ==> Single()
    {
      var iov := iovs[0];
      var pos := iov.pos + |region|;
      var buf := iov.buf;
      match rw {
        case UioRead =>
          after := region;
          buf := iov.buf[..iov.pos] + region + iov.buf[pos..];
        case UioWrite =>
          after := iov.buf[iov.pos..pos];
      }
      assert Rest(iovs)[|region|..] == iov.buf[pos..] + Rest(iovs[1..]);
      assert buf[pos..] == iov.buf[pos..];
      iovs := [Buffer(buf, pos)] + iovs[1..];
      assert iovs[1..] == old(iovs)[1..];
      resid := resid - |region|;
      offset := offset + |region|;
    }

    /** uiomovezeros: deliver n zero bytes, in chunks of at most 16, as far as there is room. */
    method MoveZeros(n: nat)
      requires Valid() && (n <= resid || resid == |Source()|) && rw.UioRead?
      modifies this
      ensures var m := Min(n, old(resid));
              && Valid() && resid == old(resid) - m && offset == old(offset) + m
              && Source() == old(Source())[m..] && Filled() == old(Filled()) + Zeros(m)
      ensures old(Single()) ==> Single()
    {
      hide Rest;
      hide Min;
      ghost var src, filled, room := Source(), Filled(), resid;
      var k: nat := 0;
      ghost var m: nat := 0;
      while k < n
        invariant k <= n && m <= k && m <= room && (m == k || m == room)
        invariant Valid() && resid == room - m && offset == old(offset) + m
        invariant Source() == src[m..] && Filled() == filled + Zeros(m)
        invariant (old(Single()) ==> Single()) && (n - k <= resid || resid == |Source()|)
      {
        var amt := 16;
        if amt > n - k {
          amt := n - k;
        }
        ghost var d := Min(amt, resid);
        MinIs(amt, resid);
        ZerosMore(m, amt, d);
        SplitTake(src, m, d);
        Assoc(filled, Zeros(m), Zeros(amt)[..d]);
        var _ := Move(Zeros(amt));
        k, m := k + amt, m + d;
      }
      MinIs(n, room);
    }
  }
}
