/** Bytes, big-endian 32-bit words and byte-range updates, as the kernel lays them out in memory and on disk. */
module Bytes {

  type byte = n: int | 0 <= n < 256
  type half = n: int | 0 <= n < 0x1_0000
  type word = n: int | 0 <= n < 0x1_0000_0000

  function Zeros(n: nat): (z: seq<byte>)
    ensures |z| == n && forall i :: 0 <= i < n ==> z[i] == 0
  {
    seq(n, _ => 0)
  }

  /** The k-th big-endian word of a buffer. */
  function GetWord(b: seq<byte>, k: nat): word
    requires 4 * k + 4 <= |b|
  {
    (b[4 * k] as int) * 0x100_0000 + (b[4 * k + 1] as int) * 0x1_0000
    + (b[4 * k + 2] as int) * 0x100 + b[4 * k + 3]
  }

  function ByteOf(w: word, j: nat): byte
    requires j < 4
  {
    if j == 0 then w / 0x100_0000
    else if j == 1 then w / 0x1_0000 % 0x100
    else if j == 2 then w / 0x100 % 0x100
    else w % 0x100
  }

  /** An array of words as the bytes it occupies. */
  function PutWords(ws: seq<word>): (b: seq<byte>)
    ensures |b| == 4 * |ws|
  {
    seq(4 * |ws|, i requires 0 <= i < 4 * |ws| => ByteOf(ws[i / 4], i % 4))
  }

  lemma WordOfBytes(w: word)
    ensures (ByteOf(w, 0) as int) * 0x100_0000 + (ByteOf(w, 1) as int) * 0x1_0000
            + (ByteOf(w, 2) as int) * 0x100 + ByteOf(w, 3) == w
  {
    assert w / 0x1_0000 == w / 0x100_0000 * 0x100 + w / 0x1_0000 % 0x100;
    assert w / 0x100 == w / 0x1_0000 * 0x100 + w / 0x100 % 0x100;
  }

  /** Reading a word back from a stored word array gives the word stored. */
  lemma GetPut(ws: seq<word>, k: nat)
    requires k < |ws|
    ensures GetWord(PutWords(ws), k) == ws[k]
  {
    var b := PutWords(ws);
    assert (4 * k) / 4 == k && (4 * k + 1) / 4 == k && (4 * k + 2) / 4 == k && (4 * k + 3) / 4 == k;
    assert b[4 * k] == ByteOf(ws[k], 0) && b[4 * k + 1] == ByteOf(ws[k], 1);
    assert b[4 * k + 2] == ByteOf(ws[k], 2) && b[4 * k + 3] == ByteOf(ws[k], 3);
    WordOfBytes(ws[k]);
  }

  /** Replace the bytes [off, off + |d|) of f by d; bytes of d falling outside f are dropped. */
  function Overlay(f: seq<byte>, off: nat, d: seq<byte>): (r: seq<byte>)
    ensures |r| == |f|
  {
    seq(|f|, p requires 0 <= p < |f| => if off <= p < off + |d| then d[p - off] else f[p])
  }

  lemma OverlayEmpty(f: seq<byte>, off: nat)
    ensures Overlay(f, off, []) == f
  {
  }

  lemma OverlayAppend(f: seq<byte>, off: nat, d: seq<byte>, e: seq<byte>)
    ensures Overlay(Overlay(f, off, d), off + |d|, e) == Overlay(f, off, d + e)
  {
  }

  lemma SplitTake<T>(s: seq<T>, m: nat, n: nat)
    requires m + n <= |s|
    ensures s[..m] + s[m..][..n] == s[..m + n] && s[m..][n..] == s[m + n..]
  {
  }
}
