/** The primitive steps on a volume, each keeping the ownership invariant. */
module SfsSteps {
  import opened Bytes
  import opened SfsLayout
  import opened SfsVolume

  // ---- one file's pointers ----

  lemma FileAddData(own: Owners, i: nat, indirect: nat, ps: seq<word>, k: nat, b: word)
    requires FileInv(own, i, indirect, ps) && k < |ps| && ps[k] == 0 && b != 0 && b !in own && 0 !in own
    ensures FileInv(own[b := DataOf(i, k)], i, indirect, ps[k := b])
  {
  }

  lemma FileAddIndirect(own: Owners, i: nat, ps: seq<word>, b: nat)
    requires FileInv(own, i, 0, ps) && b != 0 && b !in own && 0 !in own
    ensures FileInv(own[b := IndirectOf(i)], i, b, ps)
  {
  }

  lemma IndirectOwnedBy(own: Owners, i: nat, indirect: nat, ps: seq<word>)
    requires FileInv(own, i, indirect, ps)
    ensures indirect == 0 || (indirect in own && own[indirect] == IndirectOf(i))
  {
  }

  lemma FileFrame(own: Owners, own': Owners, j: nat, indirect: nat, ps: seq<word>)
    requires FileInv(own, j, indirect, ps)
    requires forall b | b in own && own[b].ino == j :: b in own' && own'[b] == own[b]
    requires forall b | b in own' && own'[b].ino == j :: b in own && own[b] == own'[b]
    ensures FileInv(own', j, indirect, ps)
  {
  }

  /** Changing only blocks that a file does not own leaves its pointers and contents alone. */
  lemma ContentFrame(disk: seq<Block>, disk': seq<Block>, own: Owners, j: nat, ino: Inode)
    requires FileInv(own, j, ino.indirect, Ptrs(disk, ino)) && |disk'| == |disk|
    requires forall b | b in own && own[b].ino == j && b < |disk| :: disk'[b] == disk[b]
    ensures Ptrs(disk', ino) == Ptrs(disk, ino)
    ensures Blocks(disk', Ptrs(disk', ino)) == Blocks(disk, Ptrs(disk, ino))
  {
    hide Pointers;
    assert Ptrs(disk', ino) == Ptrs(disk, ino);
    var ps := Ptrs(disk, ino);
    forall k | 0 <= k < |ps|
      ensures Fetch(disk', ps[k]) == Fetch(disk, ps[k])
    {
      assert ps[k] != 0 ==> own[ps[k]].ino == j;
    }
  }

  /** Filling a hole with a cleared block leaves the contents alone. */
  lemma FillHole(disk: seq<Block>, own: Owners, i: nat, indirect: nat, ps: seq<word>, k: nat, b: word)
    requires FileInv(own, i, indirect, ps) && k < |ps| && ps[k] == 0 && b < |disk| && b !in own
    ensures Blocks(disk[b := ZeroBlock], ps[k := b]) == Blocks(disk, ps)
  {
    var disk', ps' := disk[b := ZeroBlock], ps[k := b];
    forall j | 0 <= j < |ps|
      ensures Fetch(disk', ps'[j]) == Fetch(disk, ps[j])
    {
      assert j != k && ps[j] != 0 ==> ps[j] in own;
    }
  }

  /** Changing blocks that hold no data leaves the contents reached through given pointers alone. */
  lemma BlocksFrame(disk: seq<Block>, disk': seq<Block>, own: Owners, i: nat, indirect: nat, ps: seq<word>)
    requires FileInv(own, i, indirect, ps) && |disk'| == |disk|
    requires forall b | b in own && own[b].DataOf? && b < |disk| :: disk'[b] == disk[b]
    ensures Blocks(disk', ps) == Blocks(disk, ps)
  {
    forall k | 0 <= k < |ps|
      ensures Fetch(disk', ps[k]) == Fetch(disk, ps[k])
    {
    }
  }

  lemma PtrsSetDirect(disk: seq<Block>, disk': seq<Block>, ino: Inode, k: nat, b: word)
    requires |disk'| == |disk| && k < NDIRECT
    requires 0 < ino.indirect < |disk| ==> disk'[ino.indirect] == disk[ino.indirect]
    ensures Ptrs(disk, ino)[k] == ino.direct[k]
    ensures Ptrs(disk', ino.(direct := ino.direct[k := b])) == Ptrs(disk, ino)[k := b]
  {
    hide Pointers;
  }

  // ---- one file of a volume ----

  lemma AgreeAdd(own: Owners, b: nat, o: Owner)
    requires b !in own
    ensures AgreeOff(own, own[b := o], o.ino)
  {
  }

  lemma AgreeDrop(own: Owners, bs: set<nat>, i: nat)
    requires forall b | b in bs && b in own :: own[b].ino == i
    ensures AgreeOff(own, own - bs, i)
  {
  }

  /** Blocks owned by other inodes than i, and cache entries of other inodes, are untouched. */
  ghost predicate Touches(fs: Fs, own: Owners, fs': Fs, i: nat) {
    && |fs'.disk| == |fs.disk|
    && (forall b | b in own && own[b].ino != i && b < |fs.disk| :: fs'.disk[b] == fs.disk[b])
    && (forall j | j != i :: j in fs'.cache <==> j in fs.cache)
    && (forall j | j != i && j in fs.cache :: fs'.cache[j] == fs.cache[j])
  }

  lemma OtherFile(fs: Fs, own: Owners, fs': Fs, own': Owners, i: nat, j: nat)
    requires Touches(fs, own, fs', i) && AgreeOff(own, own', i)
    requires Live(own, j) && j != i && j < |fs.disk| && InodeInv(fs, own, j)
    ensures Live(own', j) && Cur(fs', j) == Cur(fs, j)
    ensures InodeInv(fs', own', j) && View(fs', j) == View(fs, j)
  {
    hide Pointers;
    hide Ptrs;
    hide Blocks;
    hide DecodeInode;
    hide FileInv;
    var ino := Cur(fs, j);
    assert own[j].ino == j;
    ContentFrame(fs.disk, fs'.disk, own, j, ino);
    FileFrame(own, own', j, ino.indirect, Ptrs(fs.disk, ino));
  }

  /** What the invariant says about a loaded inode. */
  lemma VolParts(fs: Fs, own: Owners, i: nat)
    requires VolInv(fs, own) && i in fs.cache
    ensures OwnersInv(|fs.disk|, own) && BitsInv(fs, own) && Live(own, i) && 0 < i < |fs.disk| <= 0x80_0000 && 0 !in own
    ensures InodeInv(fs, own, i) && FileInv(own, i, Cur(fs, i).indirect, Ptrs(fs.disk, Cur(fs, i)))
    ensures !fs.cache[i].dirty ==> DecodeInode(fs.disk[i]) == fs.cache[i].inode
  {
    hide DecodeInode;
    hide BitsInv;
    hide FileInv;
    hide Ptrs;
    hide Reserved;
  }

  /** A step on inode i keeps the invariant when it does so for the free map, the owners and i itself. */
  lemma StepKeepsInv(fs: Fs, own: Owners, fs': Fs, own': Owners, i: nat)
    requires VolInv(fs, own) && Touches(fs, own, fs', i) && AgreeOff(own, own', i)
    requires OwnersInv(|fs.disk|, own') && BitsInv(fs', own')
    requires Live(own', i) ==> InodeInv(fs', own', i)
    requires i in fs'.cache ==>
               Live(own', i) && (!fs'.cache[i].dirty ==> DecodeInode(fs'.disk[i]) == fs'.cache[i].inode)
    ensures VolInv(fs', own') && OthersSame(fs, own, fs', i)
    ensures forall j | j != i :: Live(own, j) <==> Live(own', j)
  {
    hide Pointers;
    hide Ptrs;
    hide Blocks;
    hide DecodeInode;
    hide InodeInv;
    hide BitsInv;
    hide View;
    hide Cur;
    forall j | Live(own, j) && j != i
      ensures Live(own', j) && Cur(fs', j) == Cur(fs, j)
      ensures InodeInv(fs', own', j) && View(fs', j) == View(fs, j)
    {
      OtherFile(fs, own, fs', own', i, j);
    }
    forall j | Live(own', j) && j != i
      ensures Live(own, j)
    {
    }
    assert CacheInv(fs', own');
  }

  // ---- free map and owners ----

  lemma BitsAdd(fs: Fs, own: Owners, fs': Fs, b: nat, o: Owner)
    requires BitsInv(fs, own) && b < |fs.disk| && b < |fs.bits| && |fs'.disk| == |fs.disk|
    requires fs'.bits == fs.bits[b := true]
    ensures BitsInv(fs', own[b := o])
  {
  }

  lemma BitsDrop(fs: Fs, own: Owners, fs': Fs, b: nat)
    requires BitsInv(fs, own) && b in own && b < |fs.disk| && b < |fs.bits| && !Reserved(|fs.disk|, b)
    requires |fs'.disk| == |fs.disk| && fs'.bits == fs.bits[b := false]
    ensures BitsInv(fs', own - {b})
  {
  }

  /** A clear bit is an unowned, unreserved block of the volume. */
  lemma ClearIsFree(fs: Fs, own: Owners, b: nat)
    requires VolInv(fs, own) && b < |fs.bits| && !fs.bits[b]
    ensures 0 < b < |fs.disk| && b !in own && !Reserved(|fs.disk|, b)
  {
  }

  lemma OwnersAdd(n: nat, own: Owners, b: nat, o: Owner)
    requires OwnersInv(n, own) && 0 < b < n && !Reserved(n, b) && b !in own
    requires if o.InodeOf? then o.ino == b else Live(own, o.ino)
    ensures OwnersInv(n, own[b := o])
    ensures forall j | j != b :: Live(own, j) <==> Live(own[b := o], j)
  {
  }

  lemma OwnersDrop(n: nat, own: Owners, bs: set<nat>)
    requires OwnersInv(n, own) && forall b | b in bs && b in own :: !own[b].InodeOf?
    ensures OwnersInv(n, own - bs) && SameLive(own, own - bs)
  {
  }

  // ---- allocation: invisible to readers ----

  /** A freshly allocated block, cleared on disk. */
  function Grab(fs: Fs, b: nat): Fs
    requires b < |fs.disk| && b < |fs.bits|
  {
    fs.(disk := fs.disk[b := ZeroBlock], bits := fs.bits[b := true])
  }

  /** The in-memory inode i replaced and marked dirty. */
  function SetInode(fs: Fs, i: nat, ino: Inode): Fs
    requires i in fs.cache
  {
    fs.(cache := fs.cache[i := fs.cache[i].(inode := ino, dirty := true)])
  }

  lemma AddDirectStep(fs: Fs, own: Owners, fs': Fs, own': Owners, i: nat, k: nat, b: nat)
    requires i in fs.cache && i < |fs.disk| <= 0x80_0000 && k < NDIRECT && Cur(fs, i).direct[k] == 0
    requires b < |fs.bits| && !fs.bits[b] && b < |fs.disk|
    requires var ino := Cur(fs, i); fs' == SetInode(Grab(fs, b), i, ino.(direct := ino.direct[k := b]))
    requires own' == own[b := DataOf(i, k)] && VolInv(fs, own)
    ensures FileStep(fs, own, fs', own', i) && SameLive(own, own') && View(fs', i) == View(fs, i)
  {
    hide VolInv;
    hide CacheInv;
    hide Reserved;
    hide Ptrs;
    hide Blocks;
    hide DecodeInode;
    hide BitsInv;
    hide FileInv;
    hide AgreeOff;
    VolParts(fs, own, i);
    ClearIsFree(fs, own, b);
    var ino := Cur(fs, i);
    var ps := Ptrs(fs.disk, ino);
    PtrsSetDirect(fs.disk, fs'.disk, ino, k, b) by { IndirectOwnedBy(own, i, ino.indirect, ps); }
    FileAddData(own, i, ino.indirect, ps, k, b);
    FillHole(fs.disk, own, i, ino.indirect, ps, k, b);
    BitsAdd(fs, own, fs', b, DataOf(i, k));
    OwnersAdd(|fs.disk|, own, b, DataOf(i, k));
    AgreeAdd(own, b, DataOf(i, k));
    StepKeepsInv(fs, own, fs', own', i);
  }

  lemma PtrsAddIndirect(disk: seq<Block>, ino: Inode, b: word)
    requires b < |disk| && ino.indirect == 0
    ensures Ptrs(disk[b := ZeroBlock], ino.(indirect := b)) == Ptrs(disk, ino)
  {
    PointersZero();
  }

  lemma AddIndirectStep(fs: Fs, own: Owners, fs': Fs, own': Owners, i: nat, b: nat)
    requires VolInv(fs, own) && i in fs.cache && Cur(fs, i).indirect == 0
    requires b < |fs.bits| && !fs.bits[b] && b < |fs.disk|
    requires fs' == SetInode(Grab(fs, b), i, Cur(fs, i).(indirect := b)) && own' == own[b := IndirectOf(i)]
    ensures FileStep(fs, own, fs', own', i) && SameLive(own, own') && View(fs', i) == View(fs, i)
  {
    hide VolInv;
    hide CacheInv;
    hide Reserved;
    hide Ptrs;
    hide Blocks;
    hide DecodeInode;
    hide BitsInv;
    hide FileInv;
    hide AgreeOff;
    VolParts(fs, own, i);
    ClearIsFree(fs, own, b);
    var ino := Cur(fs, i);
    var ps := Ptrs(fs.disk, ino);
    PtrsAddIndirect(fs.disk, ino, b);
    FileAddIndirect(own, i, ps, b);
    BlocksFrame(fs.disk, fs'.disk, own, i, 0, ps);
    BitsAdd(fs, own, fs', b, IndirectOf(i));
    OwnersAdd(|fs.disk|, own, b, IndirectOf(i));
    AgreeAdd(own, b, IndirectOf(i));
    StepKeepsInv(fs, own, fs', own', i);
  }

  lemma PtrsSetSlots(disk: seq<Block>, disk': seq<Block>, ino: Inode, ws: seq<word>)
    requires 0 < ino.indirect < |disk| == |disk'| && |ws| == DBPERIDB
    requires disk'[ino.indirect] == PutWords(ws)
    ensures Ptrs(disk', ino) == ino.direct + ws
    ensures Ptrs(disk, ino) == ino.direct + Pointers(disk[ino.indirect])
  {
    hide Pointers;
    hide PutWords;
    PointersPut(ws);
  }

  lemma AddSlotFile(disk: seq<Block>, own: Owners, disk': seq<Block>, i: nat, ino: Inode, k: nat, b: word)
    requires 0 < ino.indirect < |disk| && FileInv(own, i, ino.indirect, Ptrs(disk, ino))
    requires NDIRECT <= k < MAXFILEBLOCKS && Pointers(disk[ino.indirect])[k - NDIRECT] == 0
    requires 0 < b < |disk| && b !in own && 0 !in own
    requires disk' == disk[b := ZeroBlock][ino.indirect := PutWords(Pointers(disk[ino.indirect])[k - NDIRECT := b])]
    ensures own[ino.indirect] == IndirectOf(i)
    ensures FileInv(own[b := DataOf(i, k)], i, ino.indirect, Ptrs(disk', ino))
    ensures Blocks(disk', Ptrs(disk', ino)) == Blocks(disk, Ptrs(disk, ino))
  {
    hide Ptrs;
    hide Blocks;
    hide Pointers;
    hide PutWords;
    hide FileInv;
    var ind, ps := ino.indirect, Ptrs(disk, ino);
    IndirectOwnedBy(own, i, ind, ps);
    PtrsSetSlots(disk, disk', ino, Pointers(disk[ind])[k - NDIRECT := b]);
    assert Ptrs(disk', ino) == ps[k := b];
    FileAddData(own, i, ind, ps, k, b);
    FillHole(disk, own, i, ind, ps, k, b);
    BlocksFrame(disk[b := ZeroBlock], disk', own[b := DataOf(i, k)], i, ind, ps[k := b]);
  }

  /** A block allocated for logical block k >= NDIRECT and recorded in the on-disk indirect block. */
  lemma AddSlotStep(fs: Fs, own: Owners, fs': Fs, own': Owners, i: nat, k: nat, b: nat)
    requires i in fs.cache && i < |fs.disk| <= 0x80_0000 && 0 < Cur(fs, i).indirect < |fs.disk|
    requires NDIRECT <= k < MAXFILEBLOCKS && Pointers(fs.disk[Cur(fs, i).indirect])[k - NDIRECT] == 0
    requires b < |fs.bits| && !fs.bits[b] && b < |fs.disk|
    requires var ind := Cur(fs, i).indirect; var fs1 := Grab(fs, b);
             fs' == fs1.(disk := fs1.disk[ind := PutWords(Pointers(fs.disk[ind])[k - NDIRECT := b])])
    requires own' == own[b := DataOf(i, k)] && VolInv(fs, own)
    ensures FileStep(fs, own, fs', own', i) && SameLive(own, own') && View(fs', i) == View(fs, i)
  {
    hide VolInv;
    hide CacheInv;
    hide Reserved;
    hide Ptrs;
    hide Blocks;
    hide Pointers;
    hide PutWords;
    hide DecodeInode;
    hide BitsInv;
    hide FileInv;
    hide AgreeOff;
    VolParts(fs, own, i);
    ClearIsFree(fs, own, b);
    AddSlotFile(fs.disk, own, fs'.disk, i, Cur(fs, i), k, b);
    BitsAdd(fs, own, fs', b, DataOf(i, k));
    OwnersAdd(|fs.disk|, own, b, DataOf(i, k));
    AgreeAdd(own, b, DataOf(i, k));
    StepKeepsInv(fs, own, fs', own', i);
  }

  // ---- changing a file ----

  /** A mapped block overwritten: exactly that logical block changes. */
  lemma WriteDataStep(fs: Fs, own: Owners, fs': Fs, i: nat, k: nat, p: nat, data: Block)
    requires VolInv(fs, own) && Live(own, i) && k < MAXFILEBLOCKS && p == Ptrs(fs.disk, Cur(fs, i))[k] != 0
    requires p < |fs.disk| && fs' == fs.(disk := fs.disk[p := data])
    ensures FileStep(fs, own, fs', own, i) && Cur(fs', i) == Cur(fs, i)
    ensures View(fs', i) == View(fs, i).(blocks := View(fs, i).blocks[k := data])
  {
    hide Ptrs;
    hide Blocks;
    hide DecodeInode;
    hide BitsInv;
    var ino := Cur(fs, i);
    var ps := Ptrs(fs.disk, ino);
    assert InodeInv(fs, own, i);
    assert own[p] == DataOf(i, k);
    PtrsFrame(fs.disk, fs'.disk, ino);
    BlocksOverwrite(fs.disk, own, i, ino.indirect, ps, k, data);
    AgreeDrop(own, {}, i);
    assert own - {} == own;
    assert BitsInv(fs', own) by { SameBits(fs, own, fs'); }
    StepKeepsInv(fs, own, fs', own, i);
  }

  lemma SameBits(fs: Fs, own: Owners, fs': Fs)
    requires BitsInv(fs, own) && |fs'.disk| == |fs.disk| && fs'.bits == fs.bits
    ensures BitsInv(fs', own)
  {
  }

  lemma PtrsFrame(disk: seq<Block>, disk': seq<Block>, ino: Inode)
    requires |disk'| == |disk| && (0 < ino.indirect < |disk| ==> disk'[ino.indirect] == disk[ino.indirect])
    ensures Ptrs(disk', ino) == Ptrs(disk, ino)
  {
    hide Pointers;
  }

  lemma BlocksOverwrite(disk: seq<Block>, own: Owners, i: nat, indirect: nat, ps: seq<word>, k: nat, data: Block)
    requires FileInv(own, i, indirect, ps) && k < |ps| && 0 < ps[k] < |disk|
    ensures Blocks(disk[ps[k] := data], ps) == Blocks(disk, ps)[k := data]
  {
    var disk' := disk[ps[k] := data];
    forall j | 0 <= j < |ps|
      ensures Fetch(disk', ps[j]) == if j == k then data else Fetch(disk, ps[j])
    {
      if j != k && ps[j] != 0 {
        assert own[ps[j]] == DataOf(i, j) && own[ps[k]] == DataOf(i, k);
      }
    }
  }

  /** Size, type and link count changed in memory; pointers and contents stay. */
  lemma SetMetaStep(fs: Fs, own: Owners, fs': Fs, i: nat, ino': Inode)
    requires VolInv(fs, own) && i in fs.cache && fs' == SetInode(fs, i, ino')
    requires ino'.direct == Cur(fs, i).direct && ino'.indirect == Cur(fs, i).indirect
    ensures FileStep(fs, own, fs', own, i)
    ensures View(fs', i) == File(ino'.size, ino'.typ, ino'.links, View(fs, i).blocks)
  {
    hide VolInv;
    hide CacheInv;
    hide Reserved;
    hide Pointers;
    hide Blocks;
    hide DecodeInode;
    hide BitsInv;
    hide FileInv;
    VolParts(fs, own, i);
    assert Ptrs(fs'.disk, ino') == Ptrs(fs.disk, Cur(fs, i));
    AgreeDrop(own, {}, i);
    assert own - {} == own;
    assert BitsInv(fs', own) by { SameBits(fs, own, fs'); }
    StepKeepsInv(fs, own, fs', own, i);
  }

  // ---- dropping blocks ----

  /** Pointers of a file that are nonzero in ps but not in ps'. */
  function Dropped(ps: seq<word>, ps': seq<word>): set<nat>
    requires |ps'| == |ps|
  {
    set k | 0 <= k < |ps| && ps'[k] != ps[k] :: ps[k] as nat
  }

  ghost predicate Pruned(ps: seq<word>, ps': seq<word>) {
    |ps'| == |ps| && forall k | 0 <= k < |ps| :: ps'[k] == ps[k] || ps'[k] == 0
  }

  lemma FilePrune(own: Owners, i: nat, indirect: nat, ps: seq<word>, ps': seq<word>)
    requires FileInv(own, i, indirect, ps) && Pruned(ps, ps') && 0 !in own
    ensures FileInv(own - Dropped(ps, ps'), i, indirect, ps')
    ensures forall b | b in Dropped(ps, ps') :: b in own && own[b].DataOf? && own[b].ino == i
  {
    var ds := Dropped(ps, ps');
    forall b | b in ds
      ensures b in own && own[b].DataOf? && own[b].ino == i
    {
      var k :| 0 <= k < |ps| && ps'[k] != ps[k] && b == ps[k];
    }
    forall b | b in own - ds && own[b].DataOf? && own[b].ino == i
      ensures ps'[own[b].k] == b
    {
      assert ps[own[b].k] == b;
    }
  }

  lemma BlocksPrune(disk: seq<Block>, disk': seq<Block>, own: Owners, i: nat, indirect: nat,
                    ps: seq<word>, ps': seq<word>)
    requires FileInv(own, i, indirect, ps) && Pruned(ps, ps') && |disk'| == |disk|
    requires forall b | b in own && own[b].DataOf? && b < |disk| :: disk'[b] == disk[b]
    ensures forall k | 0 <= k < |ps| ::
              Blocks(disk', ps')[k] == if ps'[k] == 0 then ZeroBlock else Blocks(disk, ps)[k]
  {
  }

  lemma BitsPrune(fs: Fs, own: Owners, fs': Fs, bs: set<nat>)
    requires BitsInv(fs, own) && OwnersInv(|fs.disk|, own) && |fs'.disk| == |fs.disk| && |fs'.bits| == |fs.bits|
    requires forall b | b in bs :: b in own
    requires forall b | 0 <= b < |fs.bits| :: fs'.bits[b] == (fs.bits[b] && b !in bs)
    ensures BitsInv(fs', own - bs)
  {
  }

  /** The direct block k freed: it leaves the free map and the owner map, and logical block k reads as zeros. */
  lemma DropDirectStep(fs: Fs, own: Owners, fs': Fs, own': Owners, i: nat, k: nat, p: nat)
    requires i in fs.cache && i < |fs.disk| && k < NDIRECT && p == Cur(fs, i).direct[k] != 0
    requires p < |fs.bits| && own' == own - {p}
    requires var ino := Cur(fs, i);
             fs' == SetInode(fs.(bits := fs.bits[p := false]), i, ino.(direct := ino.direct[k := 0]))
    requires VolInv(fs, own)
    ensures FileStep(fs, own, fs', own', i) && SameLive(own, own')
    ensures View(fs', i) == View(fs, i).(blocks := View(fs, i).blocks[k := ZeroBlock])
  {
    hide VolInv;
    hide CacheInv;
    hide Reserved;
    hide Ptrs;
    hide Blocks;
    hide DecodeInode;
    hide BitsInv;
    hide FileInv;
    hide AgreeOff;
    VolParts(fs, own, i);
    var ino := Cur(fs, i);
    var ps := Ptrs(fs.disk, ino);
    PtrsSetDirect(fs.disk, fs.disk, ino, k, 0);
    DropDirectFile(fs.disk, own, i, ino.indirect, ps, k);
    BitsDrop(fs, own, fs', p);
    OwnersDrop(|fs.disk|, own, {p});
    AgreeDrop(own, {p}, i);
    StepKeepsInv(fs, own, fs', own', i);
  }

  lemma DropDirectFile(disk: seq<Block>, own: Owners, i: nat, indirect: nat, ps: seq<word>, k: nat)
    requires FileInv(own, i, indirect, ps) && k < |ps| && ps[k] != 0 && 0 !in own
    ensures ps[k] in own && own[ps[k]] == DataOf(i, k)
    ensures FileInv(own - {ps[k]}, i, indirect, ps[k := 0])
    ensures Blocks(disk, ps[k := 0]) == Blocks(disk, ps)[k := ZeroBlock]
  {
    hide Blocks;
    hide FileInv;
    var ps' := ps[k := 0];
    assert ps[k] in own && own[ps[k]] == DataOf(i, k) by { DataOwnedBy(own, i, indirect, ps, k); }
    FilePrune(own, i, indirect, ps, ps');
    assert Dropped(ps, ps') == {ps[k]};
    BlocksPrune(disk, disk, own, i, indirect, ps, ps');
    BlocksKeep(disk, ps);
  }

  lemma DataOwnedBy(own: Owners, i: nat, indirect: nat, ps: seq<word>, k: nat)
    requires FileInv(own, i, indirect, ps) && k < |ps| && ps[k] != 0
    ensures ps[k] in own && own[ps[k]] == DataOf(i, k)
  {
  }

  lemma BlocksKeep(disk: seq<Block>, ps: seq<word>)
    ensures forall k | 0 <= k < |ps| && ps[k] == 0 :: Blocks(disk, ps)[k] == ZeroBlock
  {
  }

  function ClearBits(bits: seq<bool>, bs: set<nat>): (r: seq<bool>)
    ensures |r| == |bits|
  {
    seq(|bits|, b requires 0 <= b < |bits| => bits[b] && b !in bs)
  }

  lemma PruneSlotsFile(disk: seq<Block>, own: Owners, disk': seq<Block>, i: nat, ino: Inode, ws': seq<word>)
    requires 0 < ino.indirect < |disk| && FileInv(own, i, ino.indirect, Ptrs(disk, ino)) && 0 !in own
    requires |ws'| == DBPERIDB && Pruned(Pointers(disk[ino.indirect]), ws')
    requires disk' == disk[ino.indirect := PutWords(ws')]
    ensures own[ino.indirect] == IndirectOf(i)
    ensures forall b | b in Dropped(Pointers(disk[ino.indirect]), ws') :: b in own && own[b].DataOf? && own[b].ino == i
    ensures FileInv(own - Dropped(Pointers(disk[ino.indirect]), ws'), i, ino.indirect, Ptrs(disk', ino))
    ensures Ptrs(disk', ino) == ino.direct + ws'
    ensures forall k | 0 <= k < MAXFILEBLOCKS ::
              Blocks(disk', Ptrs(disk', ino))[k] ==
              if k >= NDIRECT && ws'[k - NDIRECT] == 0 then ZeroBlock else Blocks(disk, Ptrs(disk, ino))[k]
  {
    hide Ptrs;
    hide Blocks;
    hide Pointers;
    hide PutWords;
    hide FileInv;
    var ps, ws := Ptrs(disk, ino), Pointers(disk[ino.indirect]);
    IndirectOwnedBy(own, i, ino.indirect, ps);
    PtrsSetSlots(disk, disk', ino, ws');
    var ps' := ino.direct + ws';
    DroppedTail(ino.direct, ws, ws');
    FilePrune(own, i, ino.indirect, ps, ps');
    BlocksPrune(disk, disk', own, i, ino.indirect, ps, ps');
    BlocksKeep(disk, ps);
  }

  lemma DroppedTail(ds: seq<word>, ws: seq<word>, ws': seq<word>)
    requires |ws'| == |ws|
    ensures Dropped(ds + ws, ds + ws') == Dropped(ws, ws')
    ensures Pruned(ws, ws') ==> Pruned(ds + ws, ds + ws')
  {
    var a, b := Dropped(ds + ws, ds + ws'), Dropped(ws, ws');
    forall x | x in a
      ensures x in b
    {
      var k :| 0 <= k < |ds + ws| && (ds + ws')[k] != (ds + ws)[k] && x == (ds + ws)[k];
      assert ws'[k - |ds|] != ws[k - |ds|];
    }
    forall x | x in b
      ensures x in a
    {
      var k :| 0 <= k < |ws| && ws'[k] != ws[k] && x == ws[k];
      assert (ds + ws')[k + |ds|] != (ds + ws)[k + |ds|];
    }
  }

  /** Slots of the indirect block cleared and written back: exactly those logical blocks become holes. */
  lemma PruneSlotsStep(fs: Fs, own: Owners, fs': Fs, own': Owners, i: nat, ind: nat, ws': seq<word>)
    requires VolInv(fs, own) && i in fs.cache && 0 < ind == Cur(fs, i).indirect < |fs.disk|
    requires |ws'| == DBPERIDB && Pruned(Pointers(fs.disk[ind]), ws')
    requires var ds := Dropped(Pointers(fs.disk[ind]), ws');
             own' == own - ds
             && fs' == fs.(disk := fs.disk[ind := PutWords(ws')], bits := ClearBits(fs.bits, ds))
    ensures FileStep(fs, own, fs', own', i) && SameLive(own, own') && Cur(fs', i) == Cur(fs, i)
    ensures forall k | 0 <= k < MAXFILEBLOCKS ::
              View(fs', i).blocks[k] ==
              if k >= NDIRECT && ws'[k - NDIRECT] == 0 then ZeroBlock else View(fs, i).blocks[k]
  {
    hide VolInv;
    hide CacheInv;
    hide Reserved;
    hide Ptrs;
    hide Blocks;
    hide Pointers;
    hide PutWords;
    hide Dropped;
    hide DecodeInode;
    hide BitsInv;
    hide FileInv;
    hide AgreeOff;
    VolParts(fs, own, i);
    var ino := Cur(fs, i);
    var ds := Dropped(Pointers(fs.disk[ind]), ws');
    PruneSlotsFile(fs.disk, own, fs'.disk, i, ino, ws');
    BitsPrune(fs, own, fs', ds);
    OwnersDrop(|fs.disk|, own, ds);
    AgreeDrop(own, ds, i);
    StepKeepsInv(fs, own, fs', own', i);
  }

  lemma PtrsDropIndirect(disk: seq<Block>, ino: Inode)
    requires 0 < ino.indirect < |disk| && Pointers(disk[ino.indirect]) == seq(DBPERIDB, _ => 0)
    ensures Ptrs(disk, ino.(indirect := 0)) == Ptrs(disk, ino)
  {
  }

  lemma FileDropIndirect(own: Owners, i: nat, ind: nat, ps: seq<word>)
    requires FileInv(own, i, ind, ps) && ind != 0
    ensures ind in own && own[ind] == IndirectOf(i) && FileInv(own - {ind}, i, 0, ps)
  {
  }

  /** An indirect block without pointers freed. */
  lemma FreeIndirectStep(fs: Fs, own: Owners, fs': Fs, own': Owners, i: nat, ind: nat)
    requires VolInv(fs, own) && i in fs.cache && 0 < ind == Cur(fs, i).indirect < |fs.disk| && ind < |fs.bits|
    requires Pointers(fs.disk[ind]) == seq(DBPERIDB, _ => 0)
    requires fs' == SetInode(fs.(bits := fs.bits[ind := false]), i, Cur(fs, i).(indirect := 0)) && own' == own - {ind}
    ensures FileStep(fs, own, fs', own', i) && SameLive(own, own') && View(fs', i) == View(fs, i)
    ensures ind !in own'
  {
    hide VolInv;
    hide CacheInv;
    hide Reserved;
    hide Blocks;
    hide Ptrs;
    hide Pointers;
    hide DecodeInode;
    hide BitsInv;
    hide FileInv;
    hide AgreeOff;
    VolParts(fs, own, i);
    var ino := Cur(fs, i);
    PtrsDropIndirect(fs.disk, ino);
    FileDropIndirect(own, i, ind, Ptrs(fs.disk, ino));
    BitsDrop(fs, own, fs', ind);
    OwnersDrop(|fs.disk|, own, {ind});
    AgreeDrop(own, {ind}, i);
    StepKeepsInv(fs, own, fs', own', i);
  }

  /** What an unowned, unreserved block holds does not matter. */
  lemma UnownedStep(fs: Fs, own: Owners, fs': Fs, b: nat, data: Block)
    requires VolInv(fs, own) && b < |fs.disk| && b !in own && fs' == fs.(disk := fs.disk[b := data])
    ensures VolInv(fs', own) && |fs'.disk| == |fs.disk|
    ensures forall j | Live(own, j) :: Cur(fs', j) == Cur(fs, j) && View(fs', j) == View(fs, j)
  {
    hide Ptrs;
    hide Blocks;
    hide DecodeInode;
    hide BitsInv;
    hide FileInv;
    hide View;
    assert BitsInv(fs', own) by { SameBits(fs, own, fs'); }
    assert own - {} == own;
    AgreeDrop(own, {}, b);
    StepKeepsInv(fs, own, fs', own, b);
  }

  // ---- inodes coming and going ----

  function NewInode(): Inode {
    EmptyInode().(typ := TYPE_FILE)
  }

  function EmptyFile(): File {
    File(0, TYPE_FILE, 0, seq(MAXFILEBLOCKS, _ => ZeroBlock))
  }

  lemma PtrsNone(disk: seq<Block>, ino: Inode)
    requires ino.indirect == 0 && ino.direct == seq(NDIRECT, _ => 0)
    ensures forall k | 0 <= k < MAXFILEBLOCKS :: Ptrs(disk, ino)[k] == 0
  {
  }

  lemma FileNone(own: Owners, i: nat, ps: seq<word>)
    requires forall b | b in own :: own[b].ino != i || own[b].InodeOf?
    requires forall k | 0 <= k < |ps| :: ps[k] == 0
    ensures FileInv(own, i, 0, ps)
  {
  }

  /** sfs_makeobj: a free block becomes a loaded, dirty, empty inode that nothing else refers to. */
  lemma NewInodeStep(fs: Fs, own: Owners, fs': Fs, own': Owners, b: nat)
    requires VolInv(fs, own) && b < |fs.bits| && !fs.bits[b] && b < |fs.disk|
    requires fs' == Grab(fs, b).(cache := fs.cache[b := Vn(NewInode(), true, 1)]) && own' == own[b := InodeOf(b)]
    ensures VolInv(fs', own') && OthersSame(fs, own, fs', b) && !Live(own, b) && Live(own', b)
    ensures forall j | j != b :: Live(own, j) <==> Live(own', j)
    ensures View(fs', b) == EmptyFile()
  {
    hide VolInv;
    hide CacheInv;
    hide Reserved;
    hide Ptrs;
    hide Blocks;
    hide DecodeInode;
    hide BitsInv;
    hide FileInv;
    hide AgreeOff;
    hide EmptyFile;
    NewIsUnused(fs, own, b);
    BitsAdd(fs, own, fs', b, InodeOf(b));
    OwnersAdd(|fs.disk|, own, b, InodeOf(b));
    AgreeAdd(own, b, InodeOf(b));
    PtrsNone(fs'.disk, NewInode());
    FileNone(own', b, Ptrs(fs'.disk, NewInode()));
    StepKeepsInv(fs, own, fs', own', b);
    ViewNew(fs', b);
  }

  lemma NewIsUnused(fs: Fs, own: Owners, b: nat)
    requires VolInv(fs, own) && b < |fs.bits| && !fs.bits[b]
    ensures OwnersInv(|fs.disk|, own) && BitsInv(fs, own)
    ensures 0 < b < |fs.disk| && b !in own && !Reserved(|fs.disk|, b) && b !in fs.cache
  {
    hide InodeInv;
    hide DecodeInode;
  }

  lemma ViewNew(fs: Fs, b: nat)
    requires b < |fs.disk| && b in fs.cache && fs.cache[b].inode == NewInode()
    ensures View(fs, b) == EmptyFile()
  {
    hide Ptrs;
    PtrsNone(fs.disk, NewInode());
    assert Blocks(fs.disk, Ptrs(fs.disk, NewInode())) == seq(MAXFILEBLOCKS, _ => ZeroBlock);
  }

  lemma OwnersDropInode(n: nat, own: Owners, i: nat, ps: seq<word>)
    requires OwnersInv(n, own) && Live(own, i) && i != ROOT_LOCATION
    requires FileInv(own, i, 0, ps) && forall k | 0 <= k < |ps| :: ps[k] == 0
    ensures OwnersInv(n, own - {i})
    ensures forall j :: Live(own - {i}, j) <==> Live(own, j) && j != i
  {
    forall b | b in own && own[b].ino == i
      ensures b == i
    {
    }
  }

  /** An inode without blocks discarded together with its disk block. */
  lemma FreeInodeStep(fs: Fs, own: Owners, fs': Fs, own': Owners, i: nat)
    requires VolInv(fs, own) && i in fs.cache && i != ROOT_LOCATION && i < |fs.bits|
    requires Cur(fs, i).indirect == 0 && Cur(fs, i).direct == seq(NDIRECT, _ => 0)
    requires fs' == fs.(bits := fs.bits[i := false], cache := fs.cache - {i}) && own' == own - {i}
    ensures VolInv(fs', own') && OthersSame(fs, own, fs', i)
    ensures forall j :: Live(own', j) <==> Live(own, j) && j != i
  {
    hide Ptrs;
    hide DecodeInode;
    hide BitsInv;
    hide FileInv;
    hide AgreeOff;
    assert Live(own, i) && InodeInv(fs, own, i);
    PtrsNone(fs.disk, Cur(fs, i));
    OwnersDropInode(|fs.disk|, own, i, Ptrs(fs.disk, Cur(fs, i)));
    BitsDrop(fs, own, fs', i);
    AgreeDrop(own, {i}, i);
    StepKeepsInv(fs, own, fs', own', i);
  }

  /** sfs_sync_inode: the inode written to its block and marked clean. */
  lemma SyncStep(fs: Fs, own: Owners, fs': Fs, i: nat)
    requires VolInv(fs, own) && i in fs.cache && i < |fs.disk|
    requires fs' == fs.(disk := fs.disk[i := EncodeInode(Cur(fs, i))],
                        cache := fs.cache[i := fs.cache[i].(dirty := false)])
    ensures FileStep(fs, own, fs', own, i) && Cur(fs', i) == Cur(fs, i) && View(fs', i) == View(fs, i)
  {
    hide VolInv;
    hide CacheInv;
    hide Reserved;
    hide Ptrs;
    hide Blocks;
    hide DecodeInode;
    hide EncodeInode;
    hide BitsInv;
    hide FileInv;
    VolParts(fs, own, i);
    var ino := Cur(fs, i);
    var ps := Ptrs(fs.disk, ino);
    IndirectOwnedBy(own, i, ino.indirect, ps);
    DecodeEncode(ino);
    PtrsFrame(fs.disk, fs'.disk, ino);
    BlocksFrame(fs.disk, fs'.disk, own, i, ino.indirect, ps);
    assert BitsInv(fs', own) by { SameBits(fs, own, fs'); }
    assert own - {} == own;
    AgreeDrop(own, {}, i);
    StepKeepsInv(fs, own, fs', own, i);
  }

  /** A cache entry added (as the disk holds it), removed (when clean) or re-counted: no file changes. */
  lemma CacheStep(fs: Fs, own: Owners, fs': Fs, i: nat)
    requires VolInv(fs, own) && Live(own, i) && i < |fs.disk| && fs'.disk == fs.disk && fs'.bits == fs.bits
    requires fs'.cache - {i} == fs.cache - {i}
    requires Cur(fs', i) == Cur(fs, i)
    requires i in fs'.cache && !fs'.cache[i].dirty ==> DecodeInode(fs.disk[i]) == fs'.cache[i].inode
    ensures VolInv(fs', own)
    ensures forall j | Live(own, j) :: Cur(fs', j) == Cur(fs, j) && View(fs', j) == View(fs, j)
  {
    hide Ptrs;
    hide Blocks;
    hide DecodeInode;
    hide BitsInv;
    hide FileInv;
    assert InodeInv(fs, own, i);
    assert forall j | j != i :: j in fs'.cache <==> j in fs'.cache - {i};
    assert forall j | j != i :: j in fs.cache <==> j in fs.cache - {i};
    assert forall j | j != i && j in fs.cache :: fs.cache[j] == (fs.cache - {i})[j];
    assert forall j | j != i && j in fs'.cache :: fs'.cache[j] == (fs'.cache - {i})[j];
    assert BitsInv(fs', own) by { SameBits(fs, own, fs'); }
    assert own - {} == own;
    AgreeDrop(own, {}, i);
    StepKeepsInv(fs, own, fs', own, i);
  }
}
