/** Directories: entries stored in the bytes of the root file, and the invariant on names and links. */
module SfsDirSpec {
  import opened Bytes
  import opened SfsLayout
  import opened SfsVolume
  import opened SfsContent

  /** A directory slot; inode number NOINO marks a free one. */
  datatype Slot = Slot(ino: word, name: seq<byte>)

  /** The C string in a buffer: the bytes before the first NUL. */
  function CStr(b: seq<byte>): seq<byte> {
    if b == [] || b[0] == 0 then [] else [b[0]] + CStr(b[1..])
  }

  /** What a caller passes as a file name: a C string. */
  predicate IsName(name: seq<byte>) {
    forall k | 0 <= k < |name| :: name[k] != 0
  }

  lemma {:induction false} CStrOfName(name: seq<byte>, rest: seq<byte>)
    requires IsName(name) && (rest == [] || rest[0] == 0)
    ensures CStr(name + rest) == name
  {
    if name == [] {
      assert name + rest == rest;
    } else {
      assert (name + rest)[1..] == name[1..] + rest;
      CStrOfName(name[1..], rest);
    }
  }

  /** struct sfs_dir read with its last name byte forced to NUL, and as sfs_dir_link fills it in. */
  function DecodeSlot(b: seq<byte>): Slot
    requires |b| == DIRENTSIZE
  {
    Slot(GetWord(b, 0), CStr(b[4..DIRENTSIZE - 1]))
  }

  function EncodeSlot(sd: Slot): (b: seq<byte>)
    requires |sd.name| < NAMELEN
    ensures |b| == DIRENTSIZE
  {
    PutWords([sd.ino]) + sd.name + Zeros(NAMELEN - |sd.name|)
  }

  lemma DecodeEncodeSlot(sd: Slot)
    requires IsName(sd.name) && |sd.name| < NAMELEN
    ensures DecodeSlot(EncodeSlot(sd)) == sd
  {
    hide PutWords;
    var b := EncodeSlot(sd);
    GetPut([sd.ino], 0);
    var w := PutWords([sd.ino]);
    assert GetWord(b, 0) == GetWord(w, 0);
    var rest := Zeros(NAMELEN - 1 - |sd.name|);
    assert b[4..DIRENTSIZE - 1] == sd.name + rest;
    CStrOfName(sd.name, rest);
  }

  function SlotAt(f: seq<byte>, s: nat): Slot
    requires DIRENTSIZE * s + DIRENTSIZE <= |f|
  {
    DecodeSlot(f[DIRENTSIZE * s..DIRENTSIZE * s + DIRENTSIZE])
  }

  function DirSlots(f: seq<byte>, size: nat): (sl: seq<Slot>)
    requires size <= |f|
    ensures |sl| == size / DIRENTSIZE
  {
    seq(size / DIRENTSIZE, s requires 0 <= s < size / DIRENTSIZE => SlotAt(f, s))
  }

  /** Overwriting the bytes of one slot, or appending one, changes exactly that slot. */
  lemma DirSlotsWrite(f: seq<byte>, size: nat, s: nat, b: seq<byte>)
    requires size % DIRENTSIZE == 0 && DIRENTSIZE * s <= size && DIRENTSIZE * s + DIRENTSIZE <= |f| && size <= |f|
    requires |b| == DIRENTSIZE
    ensures var size' := if DIRENTSIZE * s == size then size + DIRENTSIZE else size;
            var sl, sl' := DirSlots(f, size), DirSlots(Overlay(f, DIRENTSIZE * s, b), size');
            sl' == if s < |sl| then sl[s := DecodeSlot(b)] else sl + [DecodeSlot(b)]
  {
    hide DecodeSlot;
    var size' := if DIRENTSIZE * s == size then size + DIRENTSIZE else size;
    var f' := Overlay(f, DIRENTSIZE * s, b);
    assert size' <= |f'|;
    var sl' := DirSlots(f', size');
    forall t | 0 <= t < |sl'|
      ensures sl'[t] == if t == s then DecodeSlot(b) else SlotAt(f, t)
    {
      OverlaySlice(f, DIRENTSIZE * s, b, DIRENTSIZE * t);
    }
  }

  lemma OverlaySlice(f: seq<byte>, off: nat, d: seq<byte>, at: nat)
    requires at + |d| <= |f| && (at == off || at + |d| <= off || off + |d| <= at)
    ensures Overlay(f, off, d)[at..at + |d|] == if at == off then d else f[at..at + |d|]
  {
  }

  ghost function Slots(fs: Fs): seq<Slot>
    requires ROOT_LOCATION < |fs.disk| && View(fs, ROOT_LOCATION).size <= MAXFILESIZE
  {
    DirSlots(Content(fs, ROOT_LOCATION), View(fs, ROOT_LOCATION).size)
  }

  function Inos(sl: seq<Slot>): seq<nat> {
    seq(|sl|, s requires 0 <= s < |sl| => sl[s].ino)
  }

  /** How many slots name inode i. */
  function Named(sl: seq<Slot>, i: nat): nat {
    multiset(Inos(sl))[i]
  }

  predicate UniqueNames(sl: seq<Slot>) {
    forall s, t | 0 <= s < t < |sl| && sl[s].ino != NOINO && sl[t].ino != NOINO :: sl[s].name != sl[t].name
  }

  /** The links a file of this inode number has beyond the slots naming it: the root's own. */
  function Extra(i: nat, base: nat): nat {
    if i == ROOT_LOCATION then base else 0
  }

  /**
   * The root is a directory of whole slots with unique names; every slot in use names a live inode; each
   * link count equals the number of slots naming the inode; an inode with no name is still loaded, and every
   * loaded inode is referenced.
   */
  ghost predicate DirInv(fs: Fs, own: Owners, base: nat)
    requires OwnersInv(|fs.disk|, own)
  {
    && 0 < base < 0x8000 && View(fs, ROOT_LOCATION).typ == TYPE_DIR
    && View(fs, ROOT_LOCATION).size % DIRENTSIZE == 0 && View(fs, ROOT_LOCATION).size <= MAXFILESIZE
    && UniqueNames(Slots(fs))
    && (forall s | 0 <= s < |Slots(fs)| && Slots(fs)[s].ino != NOINO :: Live(own, Slots(fs)[s].ino))
    && (forall i | Live(own, i) :: View(fs, i).links == Named(Slots(fs), i) + Extra(i, base))
    && (forall i | Live(own, i) && i != ROOT_LOCATION :: View(fs, i).typ == TYPE_FILE)
    && (forall i | Live(own, i) && i != ROOT_LOCATION && i !in fs.cache :: Named(Slots(fs), i) > 0)
    && (forall i | i in fs.cache :: fs.cache[i].refs > 0)
  }

  /** The invariant of a mounted volume. */
  ghost predicate FsInv(fs: Fs, own: Owners, base: nat) {
    VolInv(fs, own) && DirInv(fs, own, base)
  }

  lemma {:induction false} NamedBound(sl: seq<Slot>, i: nat)
    ensures Named(sl, i) <= |sl|
  {
    if sl != [] {
      NamedBound(sl[..|sl| - 1], i);
      var last := sl[|sl| - 1].ino as nat;
      assert Inos(sl) == Inos(sl[..|sl| - 1]) + [last];
    }
  }

  /** Link counts never exceed the number of slots a directory can hold, plus the root's own links. */
  lemma LinksBounded(fs: Fs, own: Owners, base: nat, i: nat)
    requires OwnersInv(|fs.disk|, own) && DirInv(fs, own, base) && Live(own, i)
    ensures View(fs, i).links <= MAXSLOTS + Extra(i, base) < 0xffff
  {
    hide View;
    hide DirSlots;
    NamedBound(Slots(fs), i);
  }

  lemma NamedSet(sl: seq<Slot>, s: nat, sd: Slot, i: nat)
    requires s < |sl|
    ensures Named(sl[s := sd], i) == Named(sl, i) - (if sl[s].ino == i then 1 else 0) + (if sd.ino == i then 1 else 0)
  {
    var old_, new_ := sl[s].ino as nat, sd.ino as nat;
    assert Inos(sl[s := sd]) == Inos(sl)[s := new_];
    assert multiset(Inos(sl)[s := new_]) == multiset(Inos(sl)) - multiset{old_} + multiset{new_};
    assert old_ == Inos(sl)[s];
    assert old_ in multiset(Inos(sl));
  }

  lemma NamedAppend(sl: seq<Slot>, sd: Slot, i: nat)
    ensures Named(sl + [sd], i) == Named(sl, i) + (if sd.ino == i then 1 else 0)
  {
    assert Inos(sl + [sd]) == Inos(sl) + [sd.ino as nat];
  }

  lemma NamedNonzero(sl: seq<Slot>, s: nat)
    requires s < |sl|
    ensures Named(sl, sl[s].ino) > 0
  {
    assert Inos(sl)[s] == sl[s].ino;
  }

  /** The directory as a map from names to inode numbers. */
  function Names(sl: seq<Slot>): map<seq<byte>, nat>
    requires UniqueNames(sl)
  {
    map s | 0 <= s < |sl| && sl[s].ino != NOINO :: sl[s].name := sl[s].ino
  }

  predicate Absent(sl: seq<Slot>, name: seq<byte>) {
    forall s | 0 <= s < |sl| && sl[s].ino != NOINO :: sl[s].name != name
  }

  lemma AbsentIff(sl: seq<Slot>, name: seq<byte>)
    requires UniqueNames(sl)
    ensures Absent(sl, name) <==> name !in Names(sl)
  {
    if !Absent(sl, name) {
      var s :| 0 <= s < |sl| && sl[s].ino != NOINO && sl[s].name == name;
      assert sl[s].name in Names(sl);
    }
  }

  lemma NameAt(sl: seq<Slot>, s: nat)
    requires UniqueNames(sl) && s < |sl| && sl[s].ino != NOINO
    ensures sl[s].name in Names(sl) && Names(sl)[sl[s].name] == sl[s].ino
  {
  }

  /** Write slot s, which exists or is the next one. */
  function Place(sl: seq<Slot>, s: nat, sd: Slot): seq<Slot>
    requires s <= |sl|
  {
    if s < |sl| then sl[s := sd] else sl + [sd]
  }

  lemma NameSlot(sl: seq<Slot>, n: seq<byte>) returns (s: nat)
    requires UniqueNames(sl) && n in Names(sl)
    ensures s < |sl| && sl[s].ino != NOINO && sl[s].name == n && Names(sl)[n] == sl[s].ino
  {
    s :| s < |sl| && sl[s].ino != NOINO && sl[s].name == n;
  }

  lemma UniquePlace(sl: seq<Slot>, s: nat, sd: Slot)
    requires UniqueNames(sl) && s <= |sl| && (sd.ino == NOINO || Absent(sl, sd.name))
    ensures UniqueNames(Place(sl, s, sd))
  {
  }

  /** Filling a free slot, or one at the end, with a new name adds that name and no other. */
  lemma NamesPlace(sl: seq<Slot>, s: nat, sd: Slot)
    requires UniqueNames(sl) && s <= |sl| && (s < |sl| ==> sl[s].ino == NOINO)
    requires sd.ino != NOINO && Absent(sl, sd.name)
    ensures UniqueNames(Place(sl, s, sd)) && Names(Place(sl, s, sd)) == Names(sl)[sd.name := sd.ino]
  {
    hide Names;
    UniquePlace(sl, s, sd);
    var sl' := Place(sl, s, sd);
    var m, m' := Names(sl)[sd.name := sd.ino], Names(sl');
    NameAt(sl', s);
    forall n | n in m
      ensures n in m' && m'[n] == m[n]
    {
      if n != sd.name {
        var t := NameSlot(sl, n);
        NameAt(sl', t);
      }
    }
    forall n | n in m'
      ensures n in m
    {
      var t := NameSlot(sl', n);
      if t != s {
        NameAt(sl, t);
      }
    }
  }

  /** Freeing a slot in use removes its name and no other. */
  lemma NamesErase(sl: seq<Slot>, s: nat, sd: Slot)
    requires UniqueNames(sl) && s < |sl| && sl[s].ino != NOINO && sd.ino == NOINO
    ensures UniqueNames(sl[s := sd]) && Names(sl[s := sd]) == Names(sl) - {sl[s].name}
  {
    hide Names;
    UniquePlace(sl, s, sd);
    var sl' := sl[s := sd];
    var m, m' := Names(sl) - {sl[s].name}, Names(sl');
    forall n | n in m
      ensures n in m' && m'[n] == m[n]
    {
      var t := NameSlot(sl, n);
      NameAt(sl', t);
    }
    forall n | n in m'
      ensures n in m
    {
      var t := NameSlot(sl', n);
      NameAt(sl, t);
    }
  }
}
