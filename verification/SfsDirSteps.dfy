/** How each kind of change to the volume keeps the directory invariant. */
module SfsDirSteps {
  import opened Bytes
  import opened SfsLayout
  import opened SfsVolume
  import opened SfsSteps
  import opened SfsDirSpec
  import opened SfsDir

  lemma SlotsSame(fs: Fs, fs': Fs)
    requires ROOT_LOCATION < |fs.disk| && ROOT_LOCATION < |fs'.disk|
          && View(fs', ROOT_LOCATION) == View(fs, ROOT_LOCATION)
    requires View(fs, ROOT_LOCATION).size <= MAXFILESIZE
    ensures Slots(fs') == Slots(fs)
  {
  }

  /** Files may change their data, come into memory or leave it, and unnamed ones may go away. */
  lemma DirFrame(fs: Fs, own: Owners, fs': Fs, own': Owners, base: nat)
    requires OwnersInv(|fs.disk|, own) && OwnersInv(|fs'.disk|, own') && DirInv(fs, own, base)
    requires |fs'.disk| == |fs.disk| && View(fs', ROOT_LOCATION) == View(fs, ROOT_LOCATION)
    requires forall j | Live(own', j) :: Live(own, j)
               && View(fs', j).links == View(fs, j).links && View(fs', j).typ == View(fs, j).typ
    requires forall j | Live(own, j) && !Live(own', j) :: Named(Slots(fs), j) == 0
    requires forall j | Live(own', j) && j != ROOT_LOCATION && j !in fs'.cache ::
               j !in fs.cache || Named(Slots(fs), j) > 0
    requires forall j | j in fs'.cache :: fs'.cache[j].refs > 0
    ensures DirInv(fs', own', base) && Slots(fs') == Slots(fs)
  {
    hide View;
    hide Slots;
    hide Named;
    hide UniqueNames;
    SlotsSame(fs, fs');
    var sl := Slots(fs);
    forall s | 0 <= s < |sl| && sl[s].ino != NOINO
      ensures Live(own', sl[s].ino)
    {
      NamedNonzero(sl, s);
    }
  }

  lemma Unnamed(fs: Fs, own: Owners, base: nat, i: nat)
    requires OwnersInv(|fs.disk|, own) && DirInv(fs, own, base) && !Live(own, i) && i != NOINO
    ensures Named(Slots(fs), i) == 0
  {
    hide View;
    hide Slots;
    hide UniqueNames;
    var sl := Slots(fs);
    forall s | 0 <= s < |sl|
      ensures Inos(sl)[s] != i
    {
      assert Inos(sl)[s] == sl[s].ino;
    }
  }

  /** A new object has no name and no links, and stays until its last reference goes. */
  lemma DirNewObject(fs: Fs, own: Owners, fs': Fs, own': Owners, base: nat, b: nat)
    requires OwnersInv(|fs.disk|, own) && OwnersInv(|fs'.disk|, own') && DirInv(fs, own, base)
    requires |fs'.disk| == |fs.disk| && !Live(own, b) && b < |fs.disk| && b > 0
    requires forall j: nat | Live(own, j) && j < |fs.disk| :: View(fs', j) == View(fs, j)
    requires forall j | j != b :: Live(own, j) <==> Live(own', j)
    requires View(fs', b).links == 0 && View(fs', b).typ == TYPE_FILE
    requires b in fs'.cache && fs'.cache[b].refs > 0 && fs'.cache - {b} == fs.cache
    ensures DirInv(fs', own', base) && Slots(fs') == Slots(fs)
  {
    hide View;
    hide Slots;
    hide Named;
    hide UniqueNames;
    SlotsSame(fs, fs');
    Unnamed(fs, own, base, b);
    forall j | j in fs'.cache
      ensures fs'.cache[j].refs > 0
    {
      if j != b {
        assert fs'.cache[j] == (fs'.cache - {b})[j];
      }
    }
    assert forall j | j != b && j !in fs'.cache :: j !in fs'.cache - {b};
  }

  /** The metadata of a file but its link count, and its data. */
  ghost predicate SameButLinks(f: File, f': File) {
    f'.size == f.size && f'.typ == f.typ && f'.blocks == f.blocks
  }

  /**
   * The directory holds slots sl' and file i has the link count links'; no other file changed, and no file
   * changed its data.
   */
  ghost predicate Relinked(fs: Fs, own: Owners, fs': Fs, own': Owners, i: nat, links': nat, sl': seq<Slot>) {
    && VolInv(fs, own) && VolInv(fs', own') && |fs'.disk| == |fs.disk| && SameLive(own, own')
    && fs'.cache.Keys == fs.cache.Keys && (forall j | j in fs.cache :: fs'.cache[j].refs == fs.cache[j].refs)
    && (forall j | Live(own, j) && j != ROOT_LOCATION :: SameButLinks(View(fs, j), View(fs', j)))
    && (forall j | Live(own, j) :: View(fs', j).links == if j == i then links' else View(fs, j).links)
    && View(fs', ROOT_LOCATION).typ == View(fs, ROOT_LOCATION).typ
    && View(fs', ROOT_LOCATION).size % DIRENTSIZE == 0 && View(fs', ROOT_LOCATION).size <= MAXFILESIZE
    && Slots(fs') == sl' && AgreeOff(own, own', ROOT_LOCATION)
  }

  /** Updating one link count. */
  lemma LinksOnly(fs: Fs, own: Owners, fs': Fs, i: nat, links': half)
    requires VolInv(fs, own) && i in fs.cache && i < |fs.disk|
    requires fs' == SetInode(fs, i, Cur(fs, i).(links := links'))
    ensures VolInv(fs', own) && |fs'.disk| == |fs.disk| && MAP_LOCATION < |fs.disk| && OwnersInv(|fs.disk|, own)
    ensures fs'.cache.Keys == fs.cache.Keys && forall j | j in fs.cache :: fs'.cache[j].refs == fs.cache[j].refs
    ensures forall j | Live(own, j) ::
              && SameButLinks(View(fs, j), View(fs', j))
              && View(fs', j).links == if j == i then links' else View(fs, j).links
    ensures SameContent(fs, fs')
  {
    hide VolInv;
    hide View;
    Facts(fs, own);
    SetMetaStep(fs, own, fs', i, Cur(fs, i).(links := links'));
    ViewMeta(fs, i);
  }

  /** sfs_dir_link or sfs_dir_unlink followed by an update of the link count. */
  lemma DirThenLinks(fs: Fs, own: Owners, fs1: Fs, own1: Owners, fs2: Fs, i: nat, links': half, sl': seq<Slot>)
    requires VolInv(fs, own) && DirWrote(fs, own, fs1, own1, sl') && i in fs1.cache && i < |fs1.disk|
    requires fs2 == SetInode(fs1, i, Cur(fs1, i).(links := links'))
    ensures Relinked(fs, own, fs2, own1, i, links', sl')
  {
    hide VolInv;
    hide View;
    hide Slots;
    hide SetInode;
    hide AgreeOff;
    Facts(fs, own);
    LinksOnly(fs1, own1, fs2, i, links');
    SlotsByContent(fs1, fs2);
    forall j | Live(own, j)
      ensures j != ROOT_LOCATION ==> SameButLinks(View(fs, j), View(fs2, j))
      ensures View(fs2, j).links == if j == i then links' else View(fs, j).links
    {
      assert Live(own1, j);
    }
  }

  ghost predicate SameContent(fs: Fs, fs': Fs) {
    && ROOT_LOCATION < |fs.disk| && ROOT_LOCATION < |fs'.disk|
    && View(fs', ROOT_LOCATION).size == View(fs, ROOT_LOCATION).size
    && View(fs', ROOT_LOCATION).blocks == View(fs, ROOT_LOCATION).blocks
  }

  lemma SlotsByContent(fs: Fs, fs': Fs)
    requires SameContent(fs, fs') && View(fs, ROOT_LOCATION).size <= MAXFILESIZE
    ensures Slots(fs') == Slots(fs)
  {
  }

  lemma ViewMeta(fs: Fs, i: nat)
    requires i < |fs.disk|
    ensures View(fs, i).size == Cur(fs, i).size && View(fs, i).typ == Cur(fs, i).typ
         && View(fs, i).links == Cur(fs, i).links
  {
  }

  lemma Facts(fs: Fs, own: Owners)
    requires VolInv(fs, own)
    ensures OwnersInv(|fs.disk|, own) && CacheInv(fs, own) && MAP_LOCATION < |fs.disk|
  {
  }

  /** Adding a name together with a link keeps every link count equal to the number of names. */
  lemma DirAddName(fs: Fs, own: Owners, fs': Fs, own': Owners, base: nat, sl: seq<Slot>, s: nat, sd: Slot, links: nat)
    requires VolInv(fs, own) && DirInv(fs, own, base) && sl == Slots(fs)
    requires Live(own, sd.ino) && sd.ino != NOINO && sd.ino in fs.cache
    requires s <= |sl| && (s < |sl| ==> sl[s].ino == NOINO) && Absent(sl, sd.name)
    requires sd.ino < |fs.disk| && View(fs, sd.ino).links == links
    requires Relinked(fs, own, fs', own', sd.ino, links + 1, Place(sl, s, sd))
    ensures DirInv(fs', own', base) && Names(Slots(fs')) == Names(sl)[sd.name := sd.ino]
  {
    hide VolInv;
    hide View;
    hide Slots;
    hide Named;
    hide Names;
    Facts(fs, own);
    Facts(fs', own');
    NamesPlace(sl, s, sd);
    forall j | Live(own', j)
      ensures Named(Place(sl, s, sd), j) == Named(sl, j) + (if j == sd.ino then 1 else 0)
    {
      if s < |sl| {
        NamedSet(sl, s, sd, j);
      } else {
        NamedAppend(sl, sd, j);
      }
    }
  }

  /** Removing a name together with a link keeps the invariant; the file stays while it is loaded. */
  lemma DirDropName(fs: Fs, own: Owners, fs': Fs, own': Owners, base: nat, sl: seq<Slot>, s: nat, sd: Slot, links: nat)
    requires VolInv(fs, own) && DirInv(fs, own, base) && sd.ino == NOINO && sl == Slots(fs)
    requires s < |sl| && sl[s].ino != NOINO && sl[s].ino in fs.cache
    requires sl[s].ino < |fs.disk| && View(fs, sl[s].ino).links == links + 1
    requires Relinked(fs, own, fs', own', sl[s].ino, links, sl[s := sd])
    ensures DirInv(fs', own', base) && Names(Slots(fs')) == Names(sl) - {sl[s].name}
  {
    hide VolInv;
    hide View;
    hide Slots;
    hide Named;
    hide Names;
    Facts(fs, own);
    Facts(fs', own');
    NamesErase(sl, s, sd);
    forall j | Live(own', j)
      ensures Named(sl[s := sd], j) == Named(sl, j) - (if j == sl[s].ino then 1 else 0)
    {
      NamedSet(sl, s, sd, j);
    }
  }

  /** A name in the directory always leads to a file with a positive link count. */
  lemma NamedHasLinks(fs: Fs, own: Owners, base: nat, s: nat)
    requires OwnersInv(|fs.disk|, own) && DirInv(fs, own, base)
    requires s < |Slots(fs)| && Slots(fs)[s].ino != NOINO
    ensures Live(own, Slots(fs)[s].ino) && View(fs, Slots(fs)[s].ino).links > 0
  {
    hide View;
    hide Slots;
    hide Named;
    NamedNonzero(Slots(fs), s);
  }

  /** Rewriting the directory with the slots it had. */
  lemma DirRewritten(fs: Fs, own: Owners, fs': Fs, own': Owners, base: nat)
    requires FsInv(fs, own, base) && DirOk(fs) && DirWrote(fs, own, fs', own', Slots(fs))
    ensures FsInv(fs', own', base)
  {
    hide VolInv;
    hide View;
    hide Slots;
    hide Named;
    hide UniqueNames;
    hide CacheInv;
    Facts(fs, own);
    Facts(fs', own');
    forall j | Live(own', j)
      ensures Live(own, j) && View(fs', j).links == View(fs, j).links && View(fs', j).typ == View(fs, j).typ
    {
    }
    assert forall j | j in fs'.cache :: fs'.cache[j].refs > 0;
  }
}
