/**
 * The state of a mounted SFS volume: disk, free map and inode cache, with the ownership invariant that
 * ties the free map to the blocks reachable from inodes, and what it means for a step to be about one file.
 */
module SfsVolume {
  import opened Bytes
  import opened Bitmaps
  import opened SfsLayout

  /** An in-memory inode (struct sfs_vnode): contents, dirty flag, reference count. */
  datatype Vn = Vn(inode: Inode, dirty: bool, refs: nat)

  datatype Fs = Fs(disk: seq<Block>, bits: seq<bool>, cache: map<nat, Vn>)

  /** What an allocated block is used for. */
  datatype Owner = InodeOf(ino: nat) | IndirectOf(ino: nat) | DataOf(ino: nat, k: nat)

  type Owners = map<nat, Owner>

  predicate Reserved(nblocks: nat, b: nat) {
    b == SB_LOCATION || MAP_LOCATION <= b < MAP_LOCATION + BitBlocks(nblocks)
  }

  /** The free map as it stands on disk. */
  function MapOf(disk: seq<Block>): (v: seq<bv8>)
    requires MAP_LOCATION + BitBlocks(|disk|) <= |disk|
    ensures |v| == BLOCKSIZE * BitBlocks(|disk|)
  {
    seq(BLOCKSIZE * BitBlocks(|disk|), b requires 0 <= b < BLOCKSIZE * BitBlocks(|disk|) =>
      disk[MAP_LOCATION + b / BLOCKSIZE][b % BLOCKSIZE] as bv8)
  }

  ghost predicate MapSaved(disk: seq<Block>, bits: seq<bool>) {
    MAP_LOCATION + BitBlocks(|disk|) <= |disk| && BitsOf(MapOf(disk)) == bits
  }

  lemma MapFrame(disk: seq<Block>, b: nat, data: Block, bits: seq<bool>)
    requires b < |disk| && !Reserved(|disk|, b) && MapSaved(disk, bits)
    ensures MapSaved(disk[b := data], bits)
  {
    hide BitsOf;
    assert MapOf(disk[b := data]) == MapOf(disk);
  }

  predicate Live(own: Owners, i: nat) {
    i in own && own[i] == InodeOf(i)
  }

  /** The current inode: the cached copy when loaded, else what the disk block holds. */
  function Cur(fs: Fs, i: nat): Inode
    requires i < |fs.disk|
  {
    if i in fs.cache then fs.cache[i].inode else DecodeInode(fs.disk[i])
  }

  /** A file as its users see it. */
  datatype File = File(size: word, typ: half, links: half, blocks: seq<Block>)

  function View(fs: Fs, i: nat): File
    requires i < |fs.disk|
  {
    var ino := Cur(fs, i);
    File(ino.size, ino.typ, ino.links, Blocks(fs.disk, Ptrs(fs.disk, ino)))
  }

  /** The pointers ps and the indirect block of inode i correspond one to one with the blocks it owns. */
  ghost predicate FileInv(own: Owners, i: nat, indirect: nat, ps: seq<word>) {
    && (indirect != 0 ==> indirect in own && own[indirect] == IndirectOf(i))
    && (forall k | 0 <= k < |ps| && ps[k] != 0 :: ps[k] in own && own[ps[k]] == DataOf(i, k))
    && (forall b | b in own && own[b] == IndirectOf(i) :: indirect == b)
    && (forall b | b in own && own[b].DataOf? && own[b].ino == i :: own[b].k < |ps| && ps[own[b].k] == b)
  }

  ghost predicate InodeInv(fs: Fs, own: Owners, i: nat)
    requires i < |fs.disk|
  {
    FileInv(own, i, Cur(fs, i).indirect, Ptrs(fs.disk, Cur(fs, i)))
  }

  ghost predicate BitsInv(fs: Fs, own: Owners) {
    && |fs.bits| == BitmapSize(|fs.disk|)
    && forall b | 0 <= b < |fs.bits| :: fs.bits[b] <==> b >= |fs.disk| || Reserved(|fs.disk|, b) || b in own
  }

  ghost predicate OwnersInv(nblocks: nat, own: Owners) {
    && Live(own, ROOT_LOCATION)
    && forall b | b in own ::
         && 0 < b < nblocks && !Reserved(nblocks, b) && Live(own, own[b].ino)
         && (own[b].InodeOf? ==> own[b].ino == b)
  }

  /** Loaded inodes are live, and a clean one equals its disk block. */
  ghost predicate CacheInv(fs: Fs, own: Owners)
    requires OwnersInv(|fs.disk|, own)
  {
    forall i | i in fs.cache ::
      Live(own, i) && (!fs.cache[i].dirty ==> DecodeInode(fs.disk[i]) == fs.cache[i].inode)
  }

  ghost predicate VolInv(fs: Fs, own: Owners) {
    && MAP_LOCATION + BitBlocks(|fs.disk|) <= |fs.disk| <= 0x80_0000
    && OwnersInv(|fs.disk|, own)
    && BitsInv(fs, own)
    && CacheInv(fs, own)
    && forall i | Live(own, i) :: InodeInv(fs, own, i)
  }

  ghost predicate SameLive(own: Owners, own': Owners) {
    forall j :: Live(own, j) <==> Live(own', j)
  }

  /** Every file other than i has the same inode and looks the same. */
  ghost predicate OthersSame(fs: Fs, own: Owners, fs': Fs, i: nat) {
    forall j: nat | Live(own, j) && j != i && j < |fs.disk| && j < |fs'.disk| ::
      Cur(fs', j) == Cur(fs, j) && View(fs', j) == View(fs, j)
  }

  /** Owners other than i are the same in both maps. */
  ghost predicate AgreeOff(own: Owners, own': Owners, i: nat) {
    && (forall b | b in own && own[b].ino != i :: b in own' && own'[b] == own[b])
    && (forall b | b in own' && own'[b].ino != i :: b in own && own[b] == own'[b])
  }

  /** A step on inode i alone: the invariant holds again, no other file can tell and no other file's blocks move. */
  ghost predicate FileStep(fs: Fs, own: Owners, fs': Fs, own': Owners, i: nat) {
    && VolInv(fs', own')
    && |fs'.disk| == |fs.disk|
    && OthersSame(fs, own, fs', i)
    && fs'.cache.Keys == fs.cache.Keys
    && (forall j | j in fs.cache && j != i :: fs'.cache[j] == fs.cache[j])
    && AgreeOff(own, own', i)
  }
}
