/** Directories of kernel/fat.cpp: searching paths, finding room for entries, creating files. */
module Directories {
  import opened Common
  import opened FatChains
  import opened FileBytes
  import opened ShortNames

  const DIRECTORY: nat := 0x10
  const UNUSED: Byte := 0xe5

  datatype Entry = Entry(name: Name, attr: nat, firstCluster: nat, fileSize: nat)

  const ZERO_ENTRY: Entry := Entry([0, 0, 0, 0, 0, 0, 0, 0, 0, 0, 0], 0, 0, 0)

  /** A pointer to an entry: the index-th of those in a cluster. */
  datatype Slot = Slot(cluster: Cluster, index: nat)

  /** The volume as far as directories go; tree holds the chain of every directory, by its first cluster. */
  datatype Disk = Disk(fat: seq<nat>, dirs: seq<seq<Entry>>, root: Cluster, perCluster: nat,
                       tree: map<Cluster, seq<Cluster>>)

  /** Paths are ASCII C strings. */
  predicate Text(s: seq<Byte>) {
    forall i :: 0 <= i < |s| ==> 0 < s[i] < 0x80
  }

  predicate IsFree(e: Entry) {
    e.name[0] == 0 || e.name[0] == UNUSED
  }

  /** Behind the first end mark there are only end marks. */
  predicate Closed(es: seq<Entry>) {
    forall i, j :: 0 <= i < j < |es| && es[i].name[0] == 0 ==> es[j].name[0] == 0
  }

  ghost predicate OnDisk(d: Disk) {
    && Family(d.fat, d.tree) && |d.dirs| == |d.fat| && Clusters(d.dirs, d.perCluster) && d.root in d.tree
  }

  lemma ChainOnDisk(d: Disk, h: Cluster)
    requires OnDisk(d) && h in d.tree
    ensures IsChain(d.fat, d.tree[h]) && d.tree[h][0] == h >= 2 && Within(d.dirs, d.tree[h]) && d.perCluster > 0
    ensures forall i, j :: 0 <= i < j < |d.tree[h]| ==> d.tree[h][i] != d.tree[h][j]
  {
    Acyclic(d.fat, d.tree[h]);
  }

  /** All entries of a directory, in order. */
  ghost function Entries(d: Disk, h: Cluster): seq<Entry>
    requires OnDisk(d) && h in d.tree
  {
    ChainOnDisk(d, h);
    Flat(d.dirs, d.tree[h], d.perCluster)
  }

  /** Directories are in use, and lead to directories; 0 stands for the root. */
  ghost predicate Leads(d: Disk, es: seq<Entry>) {
    forall i :: 0 <= i < |es| && es[i].attr == DIRECTORY ==>
      !IsFree(es[i]) && (es[i].firstCluster == 0 || es[i].firstCluster in d.tree)
  }

  ghost predicate WellFormed(d: Disk) {
    OnDisk(d) && forall h :: h in d.tree ==> Closed(Entries(d, h)) && Leads(d, Entries(d, h))
  }

  // ----- looking up a name in one directory

  /** The first entry of that name before the end mark. */
  function Lookup(es: seq<Entry>, name: Name, i: nat): Option<nat>
    decreases |es| - i
  {
    if i >= |es| || es[i].name[0] == 0 then None
    else if es[i].name == name then Some(i)
    else Lookup(es, name, i + 1)
  }

  lemma {:induction false} LookupIs(es: seq<Entry>, name: Name, i: nat)
    ensures var r := Lookup(es, name, i);
            && (r.Some? ==> i <= r.value < |es| && es[r.value].name == name && es[r.value].name[0] != 0
                            && forall k :: i <= k < r.value ==> es[k].name != name && es[k].name[0] != 0)
            && (r.None? ==> forall k :: i <= k < |es| && (forall j :: i <= j <= k ==> es[j].name[0] != 0) ==>
                 es[k].name != name)
    decreases |es| - i
  {
    if i < |es| && es[i].name[0] != 0 && es[i].name != name {
      LookupIs(es, name, i + 1);
    }
  }

  ghost function SlotAt(d: Disk, h: Cluster, i: nat): Slot
    requires OnDisk(d) && h in d.tree && i < |Entries(d, h)|
  {
    ChainOnDisk(d, h);
    Position(i, |d.tree[h]|, d.perCluster);
    Slot(d.tree[h][i / d.perCluster], i % d.perCluster)
  }

  ghost predicate InDisk(d: Disk, s: Slot) {
    s.cluster < |d.dirs| && s.index < |d.dirs[s.cluster]|
  }

  function EntryOf(d: Disk, s: Slot): Entry
    requires InDisk(d, s)
  {
    d.dirs[s.cluster][s.index]
  }

  lemma SlotEntry(d: Disk, h: Cluster, i: nat)
    requires OnDisk(d) && h in d.tree && i < |Entries(d, h)|
    ensures InDisk(d, SlotAt(d, h, i)) && EntryOf(d, SlotAt(d, h, i)) == Entries(d, h)[i]
  {
    ChainOnDisk(d, h);
    Position(i, |d.tree[h]|, d.perCluster);
  }

  /** Where a name is, in the directory at h. */
  ghost function LookupIn(d: Disk, h: Cluster, name: Name): Option<Slot>
    requires OnDisk(d) && h in d.tree
  {
    LookupIs(Entries(d, h), name, 0);
    match Lookup(Entries(d, h), name, 0)
    case Some(i) => Some(SlotAt(d, h, i))
    case None => None
  }

  // ----- paths

  /** The place of the first slash. */
  function FirstSlash(path: seq<Byte>): (r: Option<nat>)
    ensures r.Some? ==> r.value < |path| && path[r.value] == SLASH && SLASH !in path[..r.value]
    ensures r.None? ==> SLASH !in path
  {
    if path == [] then None
    else if path[0] == SLASH then Some(0)
    else match FirstSlash(path[1..])
         case Some(k) =>
           assert path[..k + 1] == [path[0]] + path[1..][..k];
           Some(k + 1)
         case None => None
  }

  /** The first element of a path, and what is behind its slash if it has one. */
  datatype Element = Element(name: seq<Byte>, next: Option<seq<Byte>>) {
    predicate Last() {
      next.None? || next.value == []
    }
  }

  function NextPathElement(path: seq<Byte>): (r: Element)
    ensures r.next.Some? ==> |r.next.value| < |path| && path == r.name + [SLASH] + r.next.value
    ensures r.next.None? ==> r.name == path
    ensures SLASH !in r.name
  {
    match FirstSlash(path)
    case Some(k) =>
      Element(path[..k], Some(path[k + 1..]))
    case None => Element(path, None)
  }

  function Key(elem: seq<Byte>): Name {
    Expand(elem, 0, 0, BLANK)
  }

  /** A leading slash stands for the root, and so does cluster 0. */
  function Begin(d: Disk, path: seq<Byte>, cluster: nat): (seq<Byte>, Cluster) {
    if path != [] && path[0] == SLASH then (path[1..], d.root)
    else (path, if cluster == 0 then d.root else cluster)
  }

  /** What a path means: the entry, if any, and whether a slash follows it. */
  ghost function Resolve(d: Disk, path: seq<Byte>, cluster: nat): (Option<Slot>, bool)
    requires WellFormed(d) && Text(path) && (cluster == 0 || cluster in d.tree)
    decreases |path|
  {
    var (rest, h) := Begin(d, path, cluster);
    var elem := NextPathElement(rest);
    match LookupIn(d, h, Key(elem.name))
    case None => (None, elem.next.Some?)
    case Some(s) =>
      FoundEntry(d, h, elem.name);
      if EntryOf(d, s).attr == DIRECTORY && !elem.Last()
      then Resolve(d, elem.next.value, EntryOf(d, s).firstCluster)
      else (Some(s), elem.next.Some?)
  }

  /** The bytes of a name that is searched for are ASCII as well. */
  lemma {:induction false} KeyIsText(name: seq<Byte>, i: nat, i83: nat, name83: Name)
    requires Text(name) && Text(name83) && i <= |name|
    ensures Text(Expand(name, i, i83, name83))
    decreases |name| - i
  {
    if i < |name| && i83 < 11 {
      if name[i] == DOT {
        KeyIsText(name, i + 1, 8, name83);
      } else {
        KeyIsText(name, i + 1, i83 + 1, name83[i83 := Upper(name[i])]);
      }
    }
  }

  /** What is found is an entry in use, and leads on if it is a directory. */
  lemma FoundEntry(d: Disk, h: Cluster, elem: seq<Byte>)
    requires WellFormed(d) && h in d.tree && Text(elem) && LookupIn(d, h, Key(elem)).Some?
    ensures var s := LookupIn(d, h, Key(elem)).value;
            && InDisk(d, s) && EntryOf(d, s).name == Key(elem)
            && (EntryOf(d, s).attr == DIRECTORY ==>
                 EntryOf(d, s).firstCluster == 0 || EntryOf(d, s).firstCluster in d.tree)
  {
    KeyIsText(elem, 0, 0, BLANK);
    var es := Entries(d, h);
    LookupIs(es, Key(elem), 0);
    var i := Lookup(es, Key(elem), 0).value;
    SlotEntry(d, h, i);
    assert !IsFree(es[i]);
    assert Leads(d, es);
  }

  // ----- room for an entry

  /** The first entry that may be taken. */
  function FirstFree(es: seq<Entry>, i: nat): Option<nat>
    decreases |es| - i
  {
    if i >= |es| then None else if IsFree(es[i]) then Some(i) else FirstFree(es, i + 1)
  }

  lemma {:induction false} FirstFreeIs(es: seq<Entry>, i: nat)
    ensures var r := FirstFree(es, i);
            && (r.Some? ==> i <= r.value < |es| && IsFree(es[r.value])
                            && forall k :: i <= k < r.value ==> !IsFree(es[k]))
            && (r.None? ==> forall k :: i <= k < |es| ==> !IsFree(es[k]))
    decreases |es| - i
  {
    if i < |es| && !IsFree(es[i]) {
      FirstFreeIs(es, i + 1);
    }
  }

  function Zeros(n: nat): (r: seq<Entry>)
    ensures |r| == n && forall i :: 0 <= i < n ==> r[i] == ZERO_ENTRY
  {
    if n == 0 then [] else Zeros(n - 1) + [ZERO_ENTRY]
  }

  /** AllocateEntry: the i-th entry of the directory may be taken; perhaps it is in a new cluster of zeros. */
  ghost predicate MadeRoom(d: Disk, d': Disk, h: Cluster, i: nat)
    requires OnDisk(d) && h in d.tree
  {
    match FirstFree(Entries(d, h), 0)
    case Some(k) => i == k && d' == d
    case None =>
      var more := LowestFree(d.fat, 2, 1);
      && i == |Entries(d, h)| && |more| == 1 && more[0] < |d.dirs| && Linked(d.fat, d'.fat, d.tree[h], more)
      && d' == d.(fat := d'.fat, dirs := d.dirs[more[0] := Zeros(d.perCluster)], tree := d.tree[h := d.tree[h] + more])
  }

  lemma RoomOnDisk(d: Disk, d': Disk, h: Cluster, i: nat)
    requires OnDisk(d) && h in d.tree && MadeRoom(d, d', h, i)
    ensures OnDisk(d') && d'.tree.Keys == d.tree.Keys && d'.root == d.root && d'.perCluster == d.perCluster
  {
    hide Clusters;
    if FirstFree(Entries(d, h), 0).None? {
      LowestFreeAre(d.fat, 2, 1);
      LinkedFamily(d.fat, d'.fat, d.tree, h, LowestFree(d.fat, 2, 1));
      assert Clusters(d'.dirs, d.perCluster) by {
        ClustersKept(d.dirs, LowestFree(d.fat, 2, 1)[0], Zeros(d.perCluster), d.perCluster);
      }
    }
  }

  lemma ClustersKept(dirs: seq<seq<Entry>>, c: Cluster, es: seq<Entry>, n: nat)
    requires Clusters(dirs, n) && c < |dirs| && |es| == n
    ensures Clusters(dirs[c := es], n)
  {
  }

  lemma RoomElsewhere(d: Disk, d': Disk, h: Cluster, i: nat, k: Cluster)
    requires OnDisk(d) && OnDisk(d') && h in d.tree && MadeRoom(d, d', h, i) && k in d.tree && k in d'.tree && k != h
    ensures Entries(d', k) == Entries(d, k)
  {
    hide LowestFree, Linked;
    if FirstFree(Entries(d, h), 0).None? {
      var more := LowestFree(d.fat, 2, 1);
      LowestFreeAre(d.fat, 2, 1);
      ChainOnDisk(d, k);
      forall j | 0 <= j < |d.tree[k]| ensures d.tree[k][j] != more[0] {
        InUse(d.fat, d.tree[k], j);
      }
      FlatSame(d.dirs, d'.dirs, d.tree[k], d.perCluster);
    }
  }

  lemma RoomHere(d: Disk, d': Disk, h: Cluster, i: nat)
    requires OnDisk(d) && OnDisk(d') && h in d.tree && MadeRoom(d, d', h, i) && h in d'.tree
    ensures Entries(d', h) == Entries(d, h) + if FirstFree(Entries(d, h), 0).None? then Zeros(d.perCluster) else []
    ensures i < |Entries(d', h)|
  {
    hide LowestFree, Linked, Family, Flat, Clusters, IsChain, FirstFree;
    FirstFreeIs(Entries(d, h), 0);
    if FirstFree(Entries(d, h), 0).None? {
      var more, q := LowestFree(d.fat, 2, 1), d.tree[h];
      ChainOnDisk(d, h);
      NewNotInChain(d, h);
      assert more == [more[0]];
      NewCluster(d.dirs, q, more[0], Zeros(d.perCluster), d.perCluster);
    }
  }

  lemma NewNotInChain(d: Disk, h: Cluster)
    requires OnDisk(d) && h in d.tree && |LowestFree(d.fat, 2, 1)| == 1
    ensures LowestFree(d.fat, 2, 1)[0] !in d.tree[h]
  {
    hide LowestFree;
    LowestFreeAre(d.fat, 2, 1);
    forall j | 0 <= j < |d.tree[h]| ensures d.tree[h][j] != LowestFree(d.fat, 2, 1)[0] {
      InUse(d.fat, d.tree[h], j);
    }
  }

  /** One cluster more: the items it holds come behind those that were there. */
  lemma NewCluster(dirs: seq<seq<Entry>>, q: seq<Cluster>, c: Cluster, es: seq<Entry>, n: nat)
    requires Clusters(dirs, n) && Within(dirs, q) && c < |dirs| && |es| == n && c !in q
    ensures Clusters(dirs[c := es], n) && Within(dirs[c := es], q + [c])
    ensures Flat(dirs[c := es], q + [c], n) == Flat(dirs, q, n) + es && |Flat(dirs, q, n) + es| > |q| * n
  {
    hide Flat;
    var dirs' := dirs[c := es];
    FlatSame(dirs, dirs', q, n);
    FlatMore(dirs', q, [c], n);
    FlatChunk(dirs', q + [c], n, |q|, 0, n);
    assert (|q| + 1) * n == |q| * n + n;
    var flat := Flat(dirs', q + [c], n);
    assert flat == flat[..|q| * n] + flat[|q| * n..|q| * n + n];
  }

  /** The entry's new name and size; everything else of the entry stays. */
  function Renamed(e: Entry, name: Name): Entry {
    e.(name := name, fileSize := 0)
  }

  ghost function WithName(d: Disk, h: Cluster, i: nat, name: Name): Disk
    requires OnDisk(d) && h in d.tree && i < |Entries(d, h)|
  {
    SlotEntry(d, h, i);
    var s := SlotAt(d, h, i);
    d.(dirs := Stored(d.dirs, s.cluster, s.index, [Renamed(EntryOf(d, s), name)]))
  }

  lemma NamedHere(d: Disk, h: Cluster, i: nat, name: Name)
    requires OnDisk(d) && h in d.tree && i < |Entries(d, h)|
    ensures OnDisk(WithName(d, h, i, name))
    ensures Entries(WithName(d, h, i, name), h) == Entries(d, h)[i := Renamed(Entries(d, h)[i], name)]
  {
    SlotEntry(d, h, i);
    ChainOnDisk(d, h);
    var n, q, es := d.perCluster, d.tree[h], Entries(d, h);
    Position(i, |q|, n);
    var e := Renamed(es[i], name);
    FlatStore(d.dirs, q, n, i / n, i % n, [e]);
    assert es[i := e] == es[..i] + [e] + es[i + 1..];
  }

  lemma NamedElsewhere(d: Disk, h: Cluster, i: nat, name: Name, k: Cluster)
    requires OnDisk(d) && h in d.tree && i < |Entries(d, h)| && OnDisk(WithName(d, h, i, name)) && k in d.tree && k != h
    ensures Entries(WithName(d, h, i, name), k) == Entries(d, k)
  {
    SlotEntry(d, h, i);
    ChainOnDisk(d, h);
    ChainOnDisk(d, k);
    var q := d.tree[h];
    Position(i, |q|, d.perCluster);
    assert Disjoint(q, d.tree[k]);
    FlatSame(d.dirs, WithName(d, h, i, name).dirs, d.tree[k], d.perCluster);
  }

  /** CreateFile, once the directory is known. */
  ghost predicate Inserted(d: Disk, room: Disk, d': Disk, h: Cluster, i: nat, name: Name)
    requires OnDisk(d) && h in d.tree
  {
    && MadeRoom(d, room, h, i) && OnDisk(room) && h in room.tree && i < |Entries(room, h)|
    && d' == WithName(room, h, i, name)
  }

  // ----- what one entry more means for lookups

  /** The list of entries with room made at i. */
  predicate RoomAt(es: seq<Entry>, room: seq<Entry>, i: nat) {
    && i < |room| && |es| <= |room| && room[..|es|] == es
    && (forall k :: |es| <= k < |room| ==> room[k] == ZERO_ENTRY)
    && IsFree(room[i]) && (forall k :: 0 <= k < i ==> !IsFree(room[k])) && (|es| < |room| ==> i == |es|)
  }

  lemma RoomFound(d: Disk, d': Disk, h: Cluster, i: nat)
    requires OnDisk(d) && OnDisk(d') && h in d.tree && MadeRoom(d, d', h, i) && h in d'.tree
    ensures RoomAt(Entries(d, h), Entries(d', h), i)
  {
    RoomHere(d, d', h, i);
    FirstFreeIs(Entries(d, h), 0);
  }

  /** Inserting keeps the order of used entries and end marks. */
  lemma InsertCloses(es: seq<Entry>, room: seq<Entry>, i: nat, name: Name)
    requires Closed(es) && RoomAt(es, room, i) && name[0] != 0
    ensures Closed(room[i := Renamed(room[i], name)])
  {
  }

  /** The new name is found at i, and other names are where they were. */
  lemma InsertLookup(es: seq<Entry>, room: seq<Entry>, i: nat, name: Name, other: Name)
    requires Closed(es) && RoomAt(es, room, i) && !IsFree(Renamed(room[i], name)) && Lookup(es, name, 0) == None
    requires other[0] != 0 && other[0] != UNUSED
    ensures var es' := room[i := Renamed(room[i], name)];
            Lookup(es', other, 0) == if other == name then Some(i) else Lookup(es, other, 0)
    ensures Lookup(es, other, 0).Some? ==> Lookup(es, other, 0).value != i
  {
    hide Lookup;
    var es' := room[i := Renamed(room[i], name)];
    LookupIs(es, name, 0);
    LookupIs(es, other, 0);
    LookupIs(es', other, 0);
    if other == name {
      InsertFindsNew(es, room, i, name);
    } else {
      InsertKeepsOther(es, room, i, name, other);
    }
  }

  lemma InsertFindsNew(es: seq<Entry>, room: seq<Entry>, i: nat, name: Name)
    requires RoomAt(es, room, i) && !IsFree(Renamed(room[i], name)) && Lookup(es, name, 0) == None
    ensures Lookup(room[i := Renamed(room[i], name)], name, 0) == Some(i)
  {
    hide Lookup;
    var es' := room[i := Renamed(room[i], name)];
    LookupIs(es, name, 0);
    LookupIs(es', name, 0);
    forall k | 0 <= k < i ensures es'[k].name != name && es'[k].name[0] != 0 {
      assert es'[k] == room[k] == es[k];
    }
    assert es'[i].name == name && es'[i].name[0] != 0;
  }

  lemma InsertKeepsOther(es: seq<Entry>, room: seq<Entry>, i: nat, name: Name, other: Name)
    requires Closed(es) && RoomAt(es, room, i) && !IsFree(Renamed(room[i], name)) && other != name
    requires other[0] != 0 && other[0] != UNUSED
    ensures Lookup(room[i := Renamed(room[i], name)], other, 0) == Lookup(es, other, 0)
  {
    hide Lookup;
    var es' := room[i := Renamed(room[i], name)];
    var r, r' := Lookup(es, other, 0), Lookup(es', other, 0);
    LookupIs(es, other, 0);
    LookupIs(es', other, 0);
    if r.Some? {
      var k := r.value;
      assert room[k] == es[k];
      assert forall j :: 0 <= j < k ==> room[j] == es[j];
      assert forall j :: 0 <= j <= k ==> es'[j].name[0] != 0;
      assert es'[k].name == other;
      assert forall j :: 0 <= j < k ==> es'[j].name != other;
    } else {
      InsertAddsNoOther(es, room, i, name, other);
    }
  }

  lemma InsertAddsNoOther(es: seq<Entry>, room: seq<Entry>, i: nat, name: Name, other: Name)
    requires Closed(es) && RoomAt(es, room, i) && !IsFree(Renamed(room[i], name)) && other != name
    requires other[0] != 0 && other[0] != UNUSED
    ensures Lookup(room[i := Renamed(room[i], name)], other, 0).Some? ==> Lookup(es, other, 0).Some?
  {
    hide Lookup;
    var es' := room[i := Renamed(room[i], name)];
    var r' := Lookup(es', other, 0);
    LookupIs(es, other, 0);
    LookupIs(es', other, 0);
    if r'.Some? {
      var k := r'.value;
      assert k != i && es'[k] == room[k];
      assert k < |es|;
      assert forall j :: 0 <= j <= k ==> es[j] == room[j];
      assert forall j :: 0 <= j <= k && j != i ==> es'[j] == room[j] && es[j].name[0] != 0;
    }
  }

  // ----- what creating a file means for the volume

  lemma InsertedOnDisk(d: Disk, room: Disk, d': Disk, h: Cluster, i: nat, name: Name)
    requires OnDisk(d) && h in d.tree && Inserted(d, room, d', h, i, name)
    ensures OnDisk(room) && h in room.tree && i < |Entries(room, h)|
    ensures OnDisk(d') && d'.tree == room.tree && d'.tree.Keys == d.tree.Keys
    ensures d'.root == d.root && d'.perCluster == d.perCluster
  {
    hide Family, Clusters, Entries, Flat, MadeRoom;
    RoomOnDisk(d, room, h, i);
    NamedHere(room, h, i, name);
  }

  /** The directory h has the new entry at i; the other directories are as before. */
  lemma InsertedEntries(d: Disk, room: Disk, d': Disk, h: Cluster, i: nat, name: Name, k: Cluster)
    requires OnDisk(d) && h in d.tree && Inserted(d, room, d', h, i, name) && OnDisk(d') && k in d.tree && k in d'.tree
    requires k in room.tree
    ensures k != h ==> Entries(d', k) == Entries(d, k)
    ensures k == h ==> RoomAt(Entries(d, h), Entries(room, h), i)
                       && Entries(d', h) == Entries(room, h)[i := Renamed(Entries(room, h)[i], name)]
  {
    hide Family, Clusters, Entries, Flat, MadeRoom, RoomAt, WithName, OnDisk;
    if k == h {
      RoomFound(d, room, h, i);
      NamedHere(room, h, i, name);
    } else {
      RoomElsewhere(d, room, h, i, k);
      NamedElsewhere(room, h, i, name, k);
    }
  }

  /** The directories stay well formed, also when a cluster is added. */
  lemma InsertedWellFormed(d: Disk, room: Disk, d': Disk, h: Cluster, i: nat, name: Name)
    requires WellFormed(d) && h in d.tree && Inserted(d, room, d', h, i, name) && name[0] != 0 && name[0] != UNUSED
    ensures WellFormed(d') && d'.tree.Keys == d.tree.Keys && d'.root == d.root
  {
    hide Entries, Inserted, OnDisk;
    InsertedOnDisk(d, room, d', h, i, name);
    forall k | k in d'.tree ensures Closed(Entries(d', k)) && Leads(d', Entries(d', k)) {
      assert k in d.tree.Keys;
      InsertedEntries(d, room, d', h, i, name, k);
      assert Closed(Entries(d, k)) && Leads(d, Entries(d, k));
      if k == h {
        InsertCloses(Entries(d, h), Entries(room, h), i, name);
        InsertLeads(d, d', Entries(d, h), Entries(room, h), i, name);
      }
    }
  }

  lemma InsertLeads(d: Disk, d': Disk, es: seq<Entry>, room: seq<Entry>, i: nat, name: Name)
    requires Leads(d, es) && RoomAt(es, room, i) && d'.tree.Keys == d.tree.Keys
    ensures Leads(d', room[i := Renamed(room[i], name)])
  {
    var es' := room[i := Renamed(room[i], name)];
    forall k | 0 <= k < |es'| && es'[k].attr == DIRECTORY
      ensures !IsFree(es'[k]) && (es'[k].firstCluster == 0 || es'[k].firstCluster in d'.tree)
    {
      assert room[k].attr == DIRECTORY;
      assert k < |es| && es[k] == room[k];
      assert es[k].firstCluster in d.tree.Keys || es[k].firstCluster == 0;
    }
  }

  /** A directory's slots keep their places when it grows. */
  lemma SameSlot(d: Disk, d': Disk, k: Cluster, j: nat)
    requires OnDisk(d) && OnDisk(d') && k in d.tree && k in d'.tree && d.perCluster == d'.perCluster
    requires d.tree[k] <= d'.tree[k] && j < |Entries(d, k)|
    ensures j < |Entries(d', k)| && SlotAt(d', k, j) == SlotAt(d, k, j)
  {
    ChainOnDisk(d, k);
    ChainOnDisk(d', k);
    Position(j, |d.tree[k]|, d.perCluster);
    Times(|d.tree[k]|, |d'.tree[k]|, d.perCluster);
  }

  lemma InsertedChains(d: Disk, room: Disk, d': Disk, h: Cluster, i: nat, name: Name, k: Cluster)
    requires OnDisk(d) && h in d.tree && Inserted(d, room, d', h, i, name) && k in d.tree
    ensures k in d'.tree && d.tree[k] <= d'.tree[k]
  {
    hide OnDisk, Entries, Linked, FirstFree;
    InsertedOnDisk(d, room, d', h, i, name);
    assert k in d'.tree.Keys;
  }

  /** The new name is found in its directory; every other name, there and elsewhere, is where it was. */
  lemma InsertedLookup(d: Disk, room: Disk, d': Disk, h: Cluster, i: nat, name: Name, k: Cluster, other: Name)
    requires WellFormed(d) && h in d.tree && Inserted(d, room, d', h, i, name) && name[0] != 0 && name[0] != UNUSED
    requires LookupIn(d, h, name) == None && k in d.tree && other[0] != 0 && other[0] != UNUSED
    requires OnDisk(d') && k in d'.tree && h in d'.tree && i < |Entries(d', h)|
    ensures LookupIn(d', k, other) == if k == h && other == name then Some(SlotAt(d', h, i)) else LookupIn(d, k, other)
    ensures var s := LookupIn(d, k, other);
            s.Some? ==> InDisk(d, s.value) && InDisk(d', s.value) && EntryOf(d', s.value) == EntryOf(d, s.value)
  {
    hide OnDisk, Entries, SlotAt, Lookup, Inserted, RoomAt, IsFree;
    InsertedOnDisk(d, room, d', h, i, name);
    InsertedChains(d, room, d', h, i, name, k);
    assert k in room.tree.Keys && h in room.tree.Keys;
    InsertedEntries(d, room, d', h, i, name, k);
    LookupIs(Entries(d, k), other, 0);
    if k == h {
      assert Closed(Entries(d, h));
      InsertedFree(Entries(d, h), Entries(room, h), i, name);
      InsertLookup(Entries(d, h), Entries(room, h), i, name, other);
    }
    var r := Lookup(Entries(d, k), other, 0);
    if r.Some? {
      SameSlot(d, d', k, r.value);
      SlotEntry(d, k, r.value);
      SlotEntry(d', k, r.value);
      if k == h {
        RoomKeeps(Entries(d, h), Entries(room, h), i, r.value);
      }
    }
  }

  lemma InsertedFree(es: seq<Entry>, room: seq<Entry>, i: nat, name: Name)
    requires RoomAt(es, room, i) && name[0] != 0 && name[0] != UNUSED
    ensures i < |room| && !IsFree(Renamed(room[i], name))
  {
  }

  lemma RoomKeeps(es: seq<Entry>, room: seq<Entry>, i: nat, j: nat)
    requires RoomAt(es, room, i) && j < |es|
    ensures j < |room| && room[j] == es[j]
  {
  }

  // ----- what it means for paths

  /** One element of a path. */
  lemma ResolveStep(d: Disk, path: seq<Byte>, cluster: nat)
    requires WellFormed(d) && Text(path) && (cluster == 0 || cluster in d.tree)
    ensures OnDisk(d)
    ensures var (rest, k) := Begin(d, path, cluster); var elem := NextPathElement(rest);
            && k in d.tree && Text(elem.name) && Text(Key(elem.name)) && (elem.next.Some? ==> Text(elem.next.value))
            && match LookupIn(d, k, Key(elem.name)) {
                 case None => Resolve(d, path, cluster) == (None, elem.next.Some?)
                 case Some(s) =>
                   && InDisk(d, s)
                   && if EntryOf(d, s).attr == DIRECTORY && !elem.Last()
                      then (EntryOf(d, s).firstCluster == 0 || EntryOf(d, s).firstCluster in d.tree)
                           && Resolve(d, path, cluster) == Resolve(d, elem.next.value, EntryOf(d, s).firstCluster)
                      else Resolve(d, path, cluster) == (Some(s), elem.next.Some?)
               }
  {
    hide Entries, LookupIn, Expand, Lookup, SlotAt, Closed, Leads, EntryOf, InDisk;
    var (rest, k) := Begin(d, path, cluster);
    var elem := NextPathElement(rest);
    KeyIsText(elem.name, 0, 0, BLANK);
    if LookupIn(d, k, Key(elem.name)).Some? {
      FoundEntry(d, k, elem.name);
    }
  }

  /** Following the path, the name is looked for in the directory at h. */
  ghost predicate LeadsTo(d: Disk, path: seq<Byte>, cluster: nat, h: Cluster, name: Name)
    requires WellFormed(d) && Text(path) && (cluster == 0 || cluster in d.tree)
    decreases |path|
  {
    var (rest, k) := Begin(d, path, cluster);
    var elem := NextPathElement(rest);
    || (k == h && Key(elem.name) == name)
    || match LookupIn(d, k, Key(elem.name))
       case None => false
       case Some(s) =>
         FoundEntry(d, k, elem.name);
         && EntryOf(d, s).attr == DIRECTORY && !elem.Last()
         && LeadsTo(d, elem.next.value, EntryOf(d, s).firstCluster, h, name)
  }

  /** A created entry holds what its place held before, but for name and size; a place in a new cluster is zero. */
  ghost predicate KeepsPlace(d: Disk, room: Disk, d': Disk, h: Cluster, i: nat)
    requires OnDisk(d) && OnDisk(room) && OnDisk(d') && h in d.tree && h in room.tree && h in d'.tree
    requires i < |Entries(d', h)|
  {
    && i < |Entries(room, h)|
    && Entries(d', h)[i].attr == Entries(room, h)[i].attr
    && Entries(d', h)[i].firstCluster == Entries(room, h)[i].firstCluster
    && (i < |Entries(d, h)| ==> Entries(room, h)[i] == Entries(d, h)[i])
    && (i >= |Entries(d, h)| ==> Entries(d', h)[i].attr == 0 && Entries(d', h)[i].firstCluster == 0)
  }

  /** The entry taken is the first one that is an end mark or a removed entry, or else comes behind all entries. */
  predicate FirstPlace(es: seq<Entry>, i: nat) {
    && i <= |es|
    && (i < |es| ==> es[i].name[0] == 0 || es[i].name[0] == 0xe5)
    && forall k :: 0 <= k < i ==> es[k].name[0] != 0 && es[k].name[0] != 0xe5
  }

  lemma FirstPlaceTaken(d: Disk, room: Disk, h: Cluster, i: nat)
    requires OnDisk(d) && h in d.tree && MadeRoom(d, room, h, i)
    ensures FirstPlace(Entries(d, h), i)
  {
    FirstFreeIs(Entries(d, h), 0);
    hide Entries, OnDisk;
  }

  /** The assumptions of the theorems on paths: a file of that name has been created at slot i of h. */
  ghost predicate Creation(d: Disk, room: Disk, d': Disk, h: Cluster, i: nat, name: Name) {
    && WellFormed(d) && h in d.tree && Inserted(d, room, d', h, i, name) && name[0] != 0 && name[0] != UNUSED
    && LookupIn(d, h, name) == None
    && WellFormed(d') && d'.tree.Keys == d.tree.Keys && d'.root == d.root && i < |Entries(d', h)|
  }

  lemma Created(d: Disk, room: Disk, d': Disk, h: Cluster, i: nat, name: Name)
    requires WellFormed(d) && h in d.tree && Inserted(d, room, d', h, i, name) && name[0] != 0 && name[0] != UNUSED
    requires LookupIn(d, h, name) == None
    ensures Creation(d, room, d', h, i, name)
  {
    hide WellFormed, Entries, Inserted, LookupIn;
    InsertedWellFormed(d, room, d', h, i, name);
    CreatedIndex(d, room, d', h, i, name);
  }

  lemma CreatedIndex(d: Disk, room: Disk, d': Disk, h: Cluster, i: nat, name: Name)
    requires WellFormed(d) && WellFormed(d') && h in d.tree && h in d'.tree && Inserted(d, room, d', h, i, name)
    ensures i < |Entries(d', h)|
  {
    hide Entries, MadeRoom, Closed, Leads, OnDisk;
    InsertedOnDisk(d, room, d', h, i, name);
    InsertedEntries(d, room, d', h, i, name, h);
  }

  /**
   * A path means something else after the creation if and only if it leads to the new name in its directory. It was not
   * found before then, and now it is the new entry. All other paths are found at the same place, with the same
   * entry, or are not found, as before.
   */
  lemma {:induction false} PathsKept(d: Disk, room: Disk, d': Disk, h: Cluster, i: nat, name: Name,
                                     path: seq<Byte>, cluster: nat)
    requires Creation(d, room, d', h, i, name) && Text(path) && (cluster == 0 || cluster in d.tree)
    ensures (cluster == 0 || cluster in d'.tree) && h in d'.tree
    ensures Resolve(d', path, cluster) != Resolve(d, path, cluster) <==> LeadsTo(d, path, cluster, h, name)
    ensures LeadsTo(d, path, cluster, h, name) ==>
              && Resolve(d, path, cluster).0 == None
              && Resolve(d', path, cluster) == (Some(SlotAt(d', h, i)), Resolve(d, path, cluster).1)
    ensures var s := Resolve(d, path, cluster).0;
            s.Some? ==> InDisk(d, s.value) && InDisk(d', s.value) && EntryOf(d', s.value) == EntryOf(d, s.value)
    decreases |path|
  {
    hide WellFormed, Entries, Inserted, LookupIn, Expand, Lookup, SlotAt, Resolve, Key, OnDisk, FirstSlash, EntryOf,
      InDisk;
    assert cluster in d.tree.Keys <==> cluster in d'.tree.Keys;
    var (rest, k) := Begin(d, path, cluster);
    var elem := NextPathElement(rest);
    ResolveStep(d, path, cluster);
    ResolveStep(d', path, cluster);
    assert k in d'.tree.Keys && h in d'.tree.Keys;
    var s := LookupIn(d, k, Key(elem.name));
    LookupKept(d, room, d', h, i, name, k, Key(elem.name));
    NewEntry(d, room, d', h, i, name);
    if s.Some? && EntryOf(d, s.value).attr == DIRECTORY && !elem.Last() {
      PathsKept(d, room, d', h, i, name, elem.next.value, EntryOf(d, s.value).firstCluster);
    }
  }

  lemma LookupKept(d: Disk, room: Disk, d': Disk, h: Cluster, i: nat, name: Name, k: Cluster, other: Name)
    requires Creation(d, room, d', h, i, name) && k in d.tree && k in d'.tree && h in d'.tree && Text(other)
    ensures k == h && other == name ==>
              LookupIn(d', k, other) == Some(SlotAt(d', h, i)) && LookupIn(d, k, other) == None
    ensures !(k == h && other == name) ==> LookupIn(d', k, other) == LookupIn(d, k, other)
    ensures var s := LookupIn(d, k, other);
            s.Some? ==> InDisk(d, s.value) && InDisk(d', s.value) && EntryOf(d', s.value) == EntryOf(d, s.value)
  {
    hide Closed, Leads, Entries, Inserted, LookupIn, Lookup, SlotAt, OnDisk;
    InsertedLookup(d, room, d', h, i, name, k, other);
  }

  function Inside(parent: seq<Byte>, name: seq<Byte>): seq<Byte> {
    parent + [SLASH] + name
  }

  predicate EndsWithName(path: seq<Byte>) {
    path != [] && path[|path| - 1] != SLASH
  }

  /** A directory's path, a slash and a name: what that means is decided in the directory. */
  lemma {:induction false} ResolveInside(d: Disk, parent: seq<Byte>, name: seq<Byte>, cluster: nat)
    requires WellFormed(d) && Text(parent) && Text(name) && (cluster == 0 || cluster in d.tree)
    requires EndsWithName(parent) && name != [] && SLASH !in name
    requires var s := Resolve(d, parent, cluster).0;
             && s.Some? && InDisk(d, s.value) && EntryOf(d, s.value).attr == DIRECTORY
             && EntryOf(d, s.value).firstCluster in d.tree
    ensures Text(Inside(parent, name))
    ensures var s := Resolve(d, parent, cluster).0.value;
            Resolve(d, Inside(parent, name), cluster) == (LookupIn(d, EntryOf(d, s).firstCluster, Key(name)), false)
    decreases |parent|
  {
    hide Entries, LookupIn, Expand, Lookup, SlotAt, OnDisk, WellFormed, Resolve, Key, FirstSlash, EntryOf, Inside,
      EndsWithName, Text;
    BeginOfLonger(d, parent, name, cluster);
    var (rest, k) := Begin(d, parent, cluster);
    var elem := NextPathElement(rest);
    ElementOfLonger(rest, name);
    ResolveStep(d, parent, cluster);
    ResolveStep(d, Inside(parent, name), cluster);
    var s := LookupIn(d, k, Key(elem.name)).value;
    if elem.next.Some? {
      ResolveInside(d, elem.next.value, name, EntryOf(d, s).firstCluster);
    } else {
      ResolveName(d, name, EntryOf(d, s).firstCluster);
    }
  }

  lemma BeginOfLonger(d: Disk, parent: seq<Byte>, name: seq<Byte>, cluster: nat)
    requires Text(parent) && Text(name) && EndsWithName(parent)
    ensures var (rest, k) := Begin(d, parent, cluster);
            Begin(d, Inside(parent, name), cluster) == (Inside(rest, name), k) && EndsWithName(rest)
    ensures Text(Inside(parent, name))
  {
    if parent[0] == SLASH {
      assert Inside(parent, name)[1..] == Inside(parent[1..], name);
      assert parent[1..][|parent| - 2] == parent[|parent| - 1];
    }
  }

  /** The first element does not change when something is appended behind a slash. */
  lemma ElementOfLonger(rest: seq<Byte>, name: seq<Byte>)
    requires EndsWithName(rest)
    ensures var e, e' := NextPathElement(rest), NextPathElement(Inside(rest, name));
            && e'.name == e.name
            && e'.next == Some(if e.next.Some? then Inside(e.next.value, name) else name)
            && (e.next.Some? ==> EndsWithName(e.next.value) && !e.Last()) && (name != [] ==> !e'.Last())
  {
    var longer := Inside(rest, name);
    var e := NextPathElement(rest);
    assert longer[..|e.name|] == e.name;
    SlashAt(longer, |e.name|);
    if e.next.Some? {
      assert longer[|e.name| + 1..] == Inside(e.next.value, name);
      assert rest[|rest| - 1] == if e.next.value == [] then SLASH else e.next.value[|e.next.value| - 1];
    } else {
      assert longer[|e.name| + 1..] == name;
    }
  }

  lemma SlashAt(path: seq<Byte>, k: nat)
    requires k < |path| && path[k] == SLASH && SLASH !in path[..k]
    ensures FirstSlash(path) == Some(k)
  {
    assert FirstSlash(path).Some?;
  }

  lemma ResolveName(d: Disk, name: seq<Byte>, h: Cluster)
    requires WellFormed(d) && Text(name) && name != [] && SLASH !in name && h in d.tree
    ensures Resolve(d, name, h) == (LookupIn(d, h, Key(name)), false)
  {
    hide Entries, LookupIn, Expand, Lookup, SlotAt, OnDisk, Closed, Leads;
    assert name[0] != SLASH;
    HeadNotZero(d, h);
  }

  lemma HeadNotZero(d: Disk, h: Cluster)
    requires WellFormed(d) && h in d.tree
    ensures h != 0
  {
    ChainOnDisk(d, h);
  }

  /**
   * A slash behind a path finds the same entry and is always reported. Without it a slash is reported only where the
   * search ended early: at a name that is missing or is not a directory's.
   */
  lemma {:induction false} TrailingSlash(d: Disk, path: seq<Byte>, cluster: nat)
    requires WellFormed(d) && Text(path) && EndsWithName(path) && (cluster == 0 || cluster in d.tree)
    ensures Text(path + [SLASH])
    ensures Resolve(d, path + [SLASH], cluster) == (Resolve(d, path, cluster).0, true)
    ensures var (s, slash) := Resolve(d, path, cluster);
            && (s.Some? ==> InDisk(d, s.value))
            && (slash ==> SLASH in path && (s.Some? ==> EntryOf(d, s.value).attr != DIRECTORY))
    decreases |path|
  {
    hide Entries, LookupIn, Expand, Lookup, SlotAt, OnDisk, WellFormed, Resolve, Key, FirstSlash, EntryOf, InDisk,
      EndsWithName, Text;
    assert path + [SLASH] == Inside(path, []);
    NothingIsText();
    BeginOfLonger(d, path, [], cluster);
    var (rest, k) := Begin(d, path, cluster);
    var elem := NextPathElement(rest);
    ElementOfLonger(rest, []);
    ResolveStep(d, path, cluster);
    ResolveStep(d, path + [SLASH], cluster);
    var found := LookupIn(d, k, Key(elem.name));
    if elem.next.Some? {
      assert SLASH in rest && SLASH in path;
      assert elem.next.value + [SLASH] == Inside(elem.next.value, []);
      if found.Some? && EntryOf(d, found.value).attr == DIRECTORY {
        TrailingSlash(d, elem.next.value, EntryOf(d, found.value).firstCluster);
      }
    }
  }

  lemma NothingIsText()
    ensures Text([])
  {
  }

  /** Where CreateFile puts a file: its name is what is behind the last slash. */
  datatype Parent = NotAFile | NotFound | In(cluster: Cluster)

  function FileName(path: seq<Byte>): seq<Byte> {
    match LastOf(SLASH, path)
    case Some(k) => path[k + 1..]
    case None => path
  }

  ghost function ParentOf(d: Disk, path: seq<Byte>): Parent
    requires WellFormed(d) && Text(path)
  {
    match LastOf(SLASH, path)
    case None => In(d.root)
    case Some(k) =>
      if k == |path| - 1 then NotAFile
      else if k == 0 then In(d.root)
      else match Resolve(d, path[..k], 0).0
           case None => NotFound
           case Some(s) => if InDisk(d, s) then In(EntryOf(d, s).firstCluster) else NotFound
  }

  lemma {:induction false} ResolveInDisk(d: Disk, path: seq<Byte>, cluster: nat)
    requires WellFormed(d) && Text(path) && (cluster == 0 || cluster in d.tree)
    ensures var s := Resolve(d, path, cluster).0; s.Some? ==> InDisk(d, s.value)
    decreases |path|
  {
    hide Entries, LookupIn, Expand, Lookup, SlotAt, Closed, Leads, EntryOf, InDisk, Resolve;
    ResolveStep(d, path, cluster);
    var (rest, k) := Begin(d, path, cluster);
    var elem := NextPathElement(rest);
    var s := LookupIn(d, k, Key(elem.name));
    if s.Some? && EntryOf(d, s.value).attr == DIRECTORY && !elem.Last() {
      ResolveInDisk(d, elem.next.value, EntryOf(d, s.value).firstCluster);
    }
  }

  /** Every path is a name, or what is before the last slash and a name: the outcome for each kind of path. */
  lemma ParentCases(d: Disk, dir: seq<Byte>, name: seq<Byte>)
    requires WellFormed(d) && Text(dir) && Text(name) && SLASH !in name
    ensures ParentOf(d, name) == In(d.root) && Text(Inside(dir, name))
    ensures name == [] ==> ParentOf(d, Inside(dir, name)) == NotAFile
    ensures name != [] && dir == [] ==> ParentOf(d, Inside(dir, name)) == In(d.root)
    ensures name != [] && dir != [] ==>
              var s := Resolve(d, dir, 0).0;
              && (s.Some? ==> InDisk(d, s.value))
              && ParentOf(d, Inside(dir, name)) == if s.Some? then In(EntryOf(d, s.value).firstCluster) else NotFound
  {
    hide WellFormed, Resolve, EntryOf, InDisk;
    var path := Inside(dir, name);
    LastSlash(dir, name);
    assert path[..|dir|] == dir;
    ResolveInDisk(d, dir, 0);
  }

  lemma LastSlash(dir: seq<Byte>, name: seq<Byte>)
    requires SLASH !in name
    ensures LastOf(SLASH, Inside(dir, name)) == Some(|dir|) && LastOf(SLASH, name) == None
  {
    var path := Inside(dir, name);
    assert path[|dir|] == SLASH;
    assert forall i :: |dir| < i < |path| ==> path[i] == name[i - |dir| - 1];
  }

  /** The path of a file: in the root directory, or in the directory that `parent` leads to. */
  ghost predicate PathOf(d: Disk, path: seq<Byte>, parent: Option<seq<Byte>>, name: seq<Byte>, h: Cluster) {
    match parent
    case None => (path == name || path == [SLASH] + name) && h == d.root
    case Some(p) =>
      && path == Inside(p, name) && EndsWithName(p) && WellFormed(d) && Text(p)
      && var s := Resolve(d, p, 0).0;
         s.Some? && InDisk(d, s.value) && EntryOf(d, s.value).attr == DIRECTORY && EntryOf(d, s.value).firstCluster == h
  }

  /**
   * CreateFile, then FindFile: a file created under a valid name that was not there is found by its path, and its
   * entry shows the name in capitals; the directories are as well formed as before. The file is empty, and has the
   * cluster that its place had: none in a new cluster or an end mark of zeros, but that of the removed file otherwise.
   */
  lemma CreateThenFind(d: Disk, room: Disk, d': Disk, h: Cluster, i: nat, path: seq<Byte>, parent: Option<seq<Byte>>,
                       base: seq<Byte>, ext: seq<Byte>)
    requires WellFormed(d) && Text(path) && Valid(base, ext) && PathOf(d, path, parent, Join(base, ext), h)
    requires h in d.tree && LookupIn(d, h, NameFor(Join(base, ext))) == None
    requires Inserted(d, room, d', h, i, NameFor(FileName(path)))
    ensures ParentOf(d, path) == In(h) && Creation(d, room, d', h, i, NameFor(Join(base, ext)))
    ensures h in d'.tree && Resolve(d', path, 0) == (Some(SlotAt(d', h, i)), false)
    ensures InDisk(d', SlotAt(d', h, i)) && Format(EntryOf(d', SlotAt(d', h, i)).name) == Uppercase(Join(base, ext))
    ensures EntryOf(d', SlotAt(d', h, i)).fileSize == 0 && EntryOf(d', SlotAt(d', h, i)) == Entries(d', h)[i]
    ensures OnDisk(room) && h in room.tree && KeepsPlace(d, room, d', h, i) && FirstPlace(Entries(d, h), i)
  {
    hide WellFormed, Entries, LookupIn, SlotAt, EntryOf, InDisk, Resolve, Inserted, Valid, NameFor, Format, PathOf,
      Creation, Join;
    NameIsText(base, ext);
    PathDivided(d, path, parent, Join(base, ext), h);
    StoredBegins(base, ext);
    Created(d, room, d', h, i, NameFor(Join(base, ext)));
    CreatedIsFound(d, room, d', h, i, path, parent, base, ext);
  }

  lemma CreatedIsFound(d: Disk, room: Disk, d': Disk, h: Cluster, i: nat, path: seq<Byte>, parent: Option<seq<Byte>>,
                       base: seq<Byte>, ext: seq<Byte>)
    requires Valid(base, ext) && Creation(d, room, d', h, i, NameFor(Join(base, ext)))
    requires PathOf(d, path, parent, Join(base, ext), h)
    ensures Text(path) && h in d'.tree && Resolve(d', path, 0) == (Some(SlotAt(d', h, i)), false)
    ensures InDisk(d', SlotAt(d', h, i)) && Format(EntryOf(d', SlotAt(d', h, i)).name) == Uppercase(Join(base, ext))
    ensures EntryOf(d', SlotAt(d', h, i)).fileSize == 0 && EntryOf(d', SlotAt(d', h, i)) == Entries(d', h)[i]
    ensures OnDisk(room) && h in room.tree && KeepsPlace(d, room, d', h, i) && FirstPlace(Entries(d, h), i)
  {
    hide Entries, LookupIn, Expand, Lookup, SlotAt, OnDisk, Closed, Leads, EntryOf, InDisk, Resolve, Inserted, Valid,
      NameFor, Format;
    var name := Join(base, ext);
    NameIsText(base, ext);
    ExpandValid(base, ext);
    NameForValid(base, ext);
    assert h in d'.tree.Keys;
    assert Text(Key(name)) by {
      KeyIsText(name, 0, 0, BLANK);
    }
    LookupKept(d, room, d', h, i, NameFor(name), h, Key(name));
    ResolveName(d', name, h);
    if parent == None {
      RootPath(d', path, name, h);
    } else {
      PathsKept(d, room, d', h, i, NameFor(name), parent.value, 0);
      assert Resolve(d', parent.value, 0) == Resolve(d, parent.value, 0);
      ResolveInside(d', parent.value, name, 0);
    }
    FormatStored(base, ext);
    NewEntry(d, room, d', h, i, NameFor(name));
  }

  lemma NewEntry(d: Disk, room: Disk, d': Disk, h: Cluster, i: nat, name: Name)
    requires Creation(d, room, d', h, i, name) && h in d'.tree
    ensures InDisk(d', SlotAt(d', h, i))
    ensures EntryOf(d', SlotAt(d', h, i)).name == name && EntryOf(d', SlotAt(d', h, i)).fileSize == 0
    ensures EntryOf(d', SlotAt(d', h, i)).attr != DIRECTORY
    ensures EntryOf(d', SlotAt(d', h, i)) == Entries(d', h)[i]
    ensures OnDisk(room) && h in room.tree && KeepsPlace(d, room, d', h, i) && FirstPlace(Entries(d, h), i)
  {
    hide Entries, LookupIn, SlotAt, Closed, Leads, EntryOf, InDisk, OnDisk, MadeRoom, RoomAt;
    SlotEntry(d', h, i);
    assert h in room.tree.Keys by {
      InsertedOnDisk(d, room, d', h, i, name);
    }
    InsertedEntries(d, room, d', h, i, name, h);
    assert Leads(d, Entries(d, h));
    RoomIsNoDirectory(d, Entries(d, h), Entries(room, h), i);
    RoomHolds(Entries(d, h), Entries(room, h), i);
    FirstPlaceTaken(d, room, h, i);
  }

  lemma RoomHolds(es: seq<Entry>, room: seq<Entry>, i: nat)
    requires RoomAt(es, room, i)
    ensures i < |room| && room[i] == if i < |es| then es[i] else ZERO_ENTRY
  {
  }

  lemma RoomIsNoDirectory(d: Disk, es: seq<Entry>, room: seq<Entry>, i: nat)
    requires Leads(d, es) && RoomAt(es, room, i)
    ensures i < |room| && room[i].attr != DIRECTORY
  {
    if i < |es| {
      assert room[i] == es[i];
    }
  }

  lemma NameIsText(base: seq<Byte>, ext: seq<Byte>)
    requires Valid(base, ext)
    ensures var name := Join(base, ext); Text(name) && name != [] && SLASH !in name && name[0] != SLASH
  {
  }

  lemma RootPath(d: Disk, path: seq<Byte>, name: seq<Byte>, h: Cluster)
    requires WellFormed(d) && Text(name) && name != [] && SLASH !in name && h == d.root && h in d.tree
    requires path == name || path == [SLASH] + name
    ensures Text(path) && Resolve(d, path, 0) == Resolve(d, name, h)
  {
    hide Entries, LookupIn, Expand, Lookup, SlotAt, Closed, Leads, EntryOf, InDisk, OnDisk;
    assert name[0] != SLASH;
    HeadNotZero(d, h);
    if path != name {
      assert path[1..] == name;
    }
  }

  /** CreateFile divides such a path as it should. */
  lemma PathDivided(d: Disk, path: seq<Byte>, parent: Option<seq<Byte>>, name: seq<Byte>, h: Cluster)
    requires WellFormed(d) && Text(path) && PathOf(d, path, parent, name, h) && name != [] && SLASH !in name
    ensures FileName(path) == name && ParentOf(d, path) == In(h)
  {
    hide WellFormed, Resolve, EntryOf, InDisk;
    var k := LastOf(SLASH, path);
    if parent.Some? {
      assert path[|parent.value|] == SLASH && path[|parent.value| + 1..] == name;
      assert k == Some(|parent.value|);
      assert path[..k.value] == parent.value;
    } else if path == [SLASH] + name {
      assert path[0] == SLASH && path[1..] == name;
      assert k == Some(0);
    }
  }

  // ----- the code

  class DirectoryVolume {
    const fat: array<nat>
    const dirs: array<seq<Entry>>
    const root: Cluster
    const perCluster: nat

    constructor (fat: array<nat>, dirs: array<seq<Entry>>, root: Cluster, perCluster: nat)
      ensures this.fat == fat && this.dirs == dirs && this.root == root && this.perCluster == perCluster
    {
      this.fat, this.dirs, this.root, this.perCluster := fat, dirs, root, perCluster;
    }

    ghost function AsDisk(tree: map<Cluster, seq<Cluster>>): Disk
      reads fat, dirs
    {
      Disk(fat[..], dirs[..], root, perCluster, tree)
    }

    /** FindFile, which calls itself for the rest of the path. */
    method FindFile(path: seq<Byte>, directoryCluster: nat, ghost tree: map<Cluster, seq<Cluster>>)
      returns (found: Option<Slot>, postSlash: bool)
      requires WellFormed(AsDisk(tree)) && Text(path) && (directoryCluster == 0 || directoryCluster in tree)
      ensures (found, postSlash) == Resolve(AsDisk(tree), path, directoryCluster)
      decreases |path|
    {
      hide WellFormed, Entries, LookupIn, Expand, SlotAt, Resolve, OnDisk, Lookup, FirstSlash;
      var cluster, rest := directoryCluster, path;
      if path != [] && path[0] == SLASH {
        cluster := root;
        rest := path[1..];
      } else if directoryCluster == 0 {
        cluster := root;
      }
      ghost var d, h := AsDisk(tree), cluster;
      ResolveStep(d, path, directoryCluster);
      var elem := NextPathElement(rest);
      var pathLast := elem.Last();
      ghost var name := Key(elem.name);
      ghost var k: nat := 0;
      SearchStarts(d, h, name);
      while cluster != END_OF_CLUSTERCHAIN
        invariant Searching(d, h, name, k, 0, cluster)
        decreases |tree[h]| - k
      {
        for i := 0 to perCluster
          invariant Searching(d, h, name, k, i, cluster) && cluster != END_OF_CLUSTERCHAIN
        {
          SearchStep(d, h, name, k, i, cluster);
          var entry := dirs[cluster][i];
          if entry.name[0] == 0 {
            return None, elem.next.Some?;
          }
          var equal := NameIsEqual(entry.name, elem.name);
          if !equal {
            continue;
          }
          if entry.attr == DIRECTORY && !pathLast {
            found, postSlash := FindFile(elem.next.value, entry.firstCluster, tree);
            return;
          } else {
            return Some(Slot(cluster, i)), elem.next.Some?;
          }
        }
        SearchNext(d, h, name, k, cluster);
        cluster := NextCluster(fat, cluster);
        k := k + 1;
      }
      SearchEnds(d, h, name, k, cluster);
      return None, elem.next.Some?;
    }

    /** AllocateEntry: an entry that may be taken, in a new cluster of zeros if there is none. */
    method AllocateEntry(dirCluster: Cluster, ghost tree: map<Cluster, seq<Cluster>>)
      returns (slot: Slot, ghost room: Disk, ghost i: nat)
      requires OnDisk(AsDisk(tree)) && dirCluster in tree && FreeCount(fat[..], 2) >= 1
      modifies fat, dirs
      ensures MadeRoom(old(AsDisk(tree)), room, dirCluster, i) && OnDisk(room) && room == AsDisk(room.tree)
      ensures dirCluster in room.tree && i < |Entries(room, dirCluster)| && slot == SlotAt(room, dirCluster, i)
    {
      hide Entries, SlotAt, OnDisk, FirstFree, MadeRoom, LowestFree, FreeCount, IsChain;
      ghost var d, h := AsDisk(tree), dirCluster;
      var cluster: nat := dirCluster;
      ghost var k: nat := 0;
      RoomStarts(d, h);
      while true
        invariant LookingForRoom(d, h, k, 0, cluster) && d == AsDisk(tree)
        decreases |tree[h]| - k
      {
        for j := 0 to perCluster
          invariant LookingForRoom(d, h, k, j, cluster) && d == AsDisk(tree)
        {
          RoomStep(d, h, k, j, cluster);
          if dirs[cluster][j].name[0] == 0 || dirs[cluster][j].name[0] == UNUSED {
            slot, room, i := Slot(cluster, j), d, k * d.perCluster + j;
            return;
          }
        }
        RoomNext(d, h, k, cluster);
        var next := NextCluster(fat, cluster);
        if next == END_OF_CLUSTERCHAIN {
          break;
        }
        cluster := next;
        k := k + 1;
      }
      cluster := ExtendCluster(fat, cluster, 1, tree[h], k);
      var zeros := Zeros(perCluster);
      ClusterAdded(d, h, fat[..]);
      dirs[cluster] := zeros;
      i := |Entries(d, h)|;
      room := AsDisk(tree[h := tree[h] + [cluster]]);
      slot := Slot(cluster, 0);
      ExtendedRoom(d, room, h, cluster);
    }

    /** CreateFile: in the root directory, or in the one that the path in front of the last slash means. */
    method CreateFile(path: seq<Byte>, ghost tree: map<Cluster, seq<Cluster>>)
      returns (slot: Option<Slot>, error: Error, ghost room: Disk, ghost i: nat)
      requires WellFormed(AsDisk(tree)) && Text(path) && FreeCount(fat[..], 2) >= 1
      requires ParentOf(AsDisk(tree), path).In? ==> ParentOf(AsDisk(tree), path).cluster in tree
      modifies fat, dirs
      ensures error == match old(ParentOf(AsDisk(tree), path)) {
                         case NotAFile => Error.IsDirectory
                         case NotFound => NoSuchEntry
                         case In(_) => Success
                       }
      ensures error != Success ==> slot == None && AsDisk(tree) == old(AsDisk(tree))
      ensures error == Success ==>
                var h, d' := old(ParentOf(AsDisk(tree), path)).cluster, AsDisk(room.tree);
                && Inserted(old(AsDisk(tree)), room, d', h, i, NameFor(FileName(path)))
                && OnDisk(d') && h in d'.tree && i < |Entries(d', h)| && slot == Some(SlotAt(d', h, i))
    {
      hide Entries, SlotAt, FirstFree, MadeRoom, LowestFree, FreeCount, IsChain, Resolve, Leads, Closed, OnDisk,
        WithName, LastOf, NameFor;
      ghost var d := AsDisk(tree);
      room, i := d, 0;
      var parentDirCluster, filename := root, path;
      var slashPos := LastOf(SLASH, path);
      if slashPos.Some? {
        filename := path[slashPos.value + 1..];
        if filename == [] {
          return None, Error.IsDirectory, room, i;
        }
        var parentDirName := path[..slashPos.value];
        if parentDirName != [] {
          ResolveInDisk(d, parentDirName, 0);
          var parentDir, _ := FindFile(parentDirName, 0, tree);
          if parentDir == None {
            return None, NoSuchEntry, room, i;
          }
          parentDirCluster := dirs[parentDir.value.cluster][parentDir.value.index].firstCluster;
        }
      }
      var dir, r, k := AllocateEntry(parentDirCluster, tree);
      room, i := r, k;
      var name := SetFileName(filename);
      Naming(room, parentDirCluster, i, name, dir);
      var entry := dirs[dir.cluster][dir.index];
      dirs[dir.cluster] := dirs[dir.cluster][dir.index := entry.(name := name, fileSize := 0)];
      assert AsDisk(room.tree) == WithName(room, parentDirCluster, i, name);
      return Some(dir), Success, room, i;
    }
  }

  /** The loops of FindFile have come to the i-th entry of the k-th cluster, and not found the name yet. */
  ghost predicate Searching(d: Disk, h: Cluster, name: Name, k: nat, i: nat, cluster: nat) {
    && OnDisk(d) && h in d.tree && i <= d.perCluster
    && (if k < |d.tree[h]| then cluster == d.tree[h][k]
        else k == |d.tree[h]| && i == 0 && cluster == END_OF_CLUSTERCHAIN)
    && Lookup(Entries(d, h), name, k * d.perCluster + i) == Lookup(Entries(d, h), name, 0)
  }

  lemma SearchStarts(d: Disk, h: Cluster, name: Name)
    requires OnDisk(d) && h in d.tree
    ensures Searching(d, h, name, 0, 0, h)
  {
    ChainOnDisk(d, h);
  }

  lemma SearchStep(d: Disk, h: Cluster, name: Name, k: nat, i: nat, cluster: nat)
    requires Searching(d, h, name, k, i, cluster) && i < d.perCluster && cluster != END_OF_CLUSTERCHAIN
    ensures InDisk(d, Slot(cluster, i)) && k < |d.tree[h]|
    ensures var e := EntryOf(d, Slot(cluster, i));
            && (e.name[0] == 0 ==> LookupIn(d, h, name) == None)
            && (e.name[0] != 0 && e.name == name ==> LookupIn(d, h, name) == Some(Slot(cluster, i)))
            && (e.name[0] != 0 && e.name != name ==> Searching(d, h, name, k, i + 1, cluster))
  {
    ChainOnDisk(d, h);
    var q, n := d.tree[h], d.perCluster;
    Product(k, |q|, n);
    PositionOf(k, i, n);
    LookupIs(Entries(d, h), name, 0);
    SlotEntry(d, h, k * n + i);
  }

  lemma SearchNext(d: Disk, h: Cluster, name: Name, k: nat, cluster: nat)
    requires Searching(d, h, name, k, d.perCluster, cluster) && cluster != END_OF_CLUSTERCHAIN
    ensures k < |d.tree[h]| && cluster < |d.fat| && Searching(d, h, name, k + 1, 0, Next(d.fat, cluster))
  {
    hide Lookup, Entries;
    ChainOnDisk(d, h);
    Product(k, |d.tree[h]|, d.perCluster);
    NextInChain(d.fat, d.tree[h], k);
  }

  lemma SearchEnds(d: Disk, h: Cluster, name: Name, k: nat, cluster: nat)
    requires Searching(d, h, name, k, 0, cluster) && cluster == END_OF_CLUSTERCHAIN
    ensures LookupIn(d, h, name) == None
  {
    ChainOnDisk(d, h);
    ChainBounds(d.fat, d.tree[h]);
  }

  /** Writing the name into the entry that has been found. */
  lemma Naming(d: Disk, h: Cluster, i: nat, name: Name, s: Slot)
    requires OnDisk(d) && h in d.tree && i < |Entries(d, h)| && s == SlotAt(d, h, i)
    ensures InDisk(d, s) && OnDisk(WithName(d, h, i, name))
    ensures WithName(d, h, i, name)
            == d.(dirs := d.dirs[s.cluster := d.dirs[s.cluster][s.index := Renamed(EntryOf(d, s), name)]])
    ensures var d' := WithName(d, h, i, name); i < |Entries(d', h)| && SlotAt(d', h, i) == s
  {
    hide Entries, SlotAt, OnDisk;
    SlotEntry(d, h, i);
    NamedHere(d, h, i, name);
    var es, e := d.dirs[s.cluster], Renamed(EntryOf(d, s), name);
    assert es[..s.index] + [e] + es[s.index + 1..] == es[s.index := e];
    NamedSlot(d, h, i, name);
  }

  lemma NamedSlot(d: Disk, h: Cluster, i: nat, name: Name)
    requires OnDisk(d) && h in d.tree && i < |Entries(d, h)| && OnDisk(WithName(d, h, i, name))
    ensures var d' := WithName(d, h, i, name); i < |Entries(d', h)| && SlotAt(d', h, i) == SlotAt(d, h, i)
  {
    NamedHere(d, h, i, name);
  }

  /** The loops of AllocateEntry have come to the i-th entry of the k-th cluster, and found none to take. */
  ghost predicate LookingForRoom(d: Disk, h: Cluster, k: nat, i: nat, cluster: nat) {
    && OnDisk(d) && h in d.tree && i <= d.perCluster && k < |d.tree[h]| && cluster == d.tree[h][k]
    && FirstFree(Entries(d, h), k * d.perCluster + i) == FirstFree(Entries(d, h), 0)
  }

  lemma RoomStarts(d: Disk, h: Cluster)
    requires OnDisk(d) && h in d.tree
    ensures LookingForRoom(d, h, 0, 0, h)
  {
    ChainOnDisk(d, h);
  }

  lemma RoomStep(d: Disk, h: Cluster, k: nat, i: nat, cluster: nat)
    requires LookingForRoom(d, h, k, i, cluster) && i < d.perCluster
    ensures InDisk(d, Slot(cluster, i))
    ensures IsFree(EntryOf(d, Slot(cluster, i))) ==>
              var j := k * d.perCluster + i;
              MadeRoom(d, d, h, j) && j < |Entries(d, h)| && SlotAt(d, h, j) == Slot(cluster, i)
    ensures !IsFree(EntryOf(d, Slot(cluster, i))) ==> LookingForRoom(d, h, k, i + 1, cluster)
  {
    ChainOnDisk(d, h);
    var q, n := d.tree[h], d.perCluster;
    Product(k, |q|, n);
    PositionOf(k, i, n);
    SlotEntry(d, h, k * n + i);
  }

  lemma RoomNext(d: Disk, h: Cluster, k: nat, cluster: nat)
    requires LookingForRoom(d, h, k, d.perCluster, cluster)
    ensures cluster < |d.fat| && FatSize(d.fat) && IsChain(d.fat, d.tree[h])
    ensures k < |d.tree[h]| && d.tree[h][k] == cluster
    ensures Next(d.fat, cluster) != END_OF_CLUSTERCHAIN ==>
              k + 1 < |d.tree[h]| && LookingForRoom(d, h, k + 1, 0, Next(d.fat, cluster))
    ensures Next(d.fat, cluster) == END_OF_CLUSTERCHAIN ==> FirstFree(Entries(d, h), 0) == None
  {
    hide Entries;
    ChainOnDisk(d, h);
    ChainBounds(d.fat, d.tree[h]);
    Product(k, |d.tree[h]|, d.perCluster);
    NextInChain(d.fat, d.tree[h], k);
    assert (k + 1) * d.perCluster == k * d.perCluster + d.perCluster;
    assert |Entries(d, h)| == |d.tree[h]| * d.perCluster by {
      EntriesLength(d, h);
    }
  }

  lemma EntriesLength(d: Disk, h: Cluster)
    requires OnDisk(d) && h in d.tree
    ensures |Entries(d, h)| == |d.tree[h]| * d.perCluster
  {
  }

  lemma ClusterAdded(d: Disk, h: Cluster, fat: seq<nat>)
    requires OnDisk(d) && h in d.tree && Linked(d.fat, fat, d.tree[h], LowestFree(d.fat, 2, 1))
    requires |LowestFree(d.fat, 2, 1)| == 1
    ensures var c := (d.tree[h] + LowestFree(d.fat, 2, 1))[|d.tree[h]|]; c == LowestFree(d.fat, 2, 1)[0] < |d.dirs|
  {
    hide LowestFree;
    LowestFreeAre(d.fat, 2, 1);
  }

  lemma ExtendedRoom(d: Disk, room: Disk, h: Cluster, c: Cluster)
    requires OnDisk(d) && h in d.tree && Linked(d.fat, room.fat, d.tree[h], LowestFree(d.fat, 2, 1))
    requires |LowestFree(d.fat, 2, 1)| == 1
    requires FirstFree(Entries(d, h), 0) == None && c == LowestFree(d.fat, 2, 1)[0] < |d.dirs|
    requires room == d.(fat := room.fat, dirs := d.dirs[c := Zeros(d.perCluster)], tree := d.tree[h := d.tree[h] + [c]])
    ensures OnDisk(room) && h in room.tree && MadeRoom(d, room, h, |Entries(d, h)|)
    ensures |Entries(d, h)| < |Entries(room, h)|
    ensures SlotAt(room, h, |Entries(d, h)|) == Slot(c, 0)
  {
    hide LowestFree, Linked, FirstFree, Clusters, Family;
    assert LowestFree(d.fat, 2, 1) == [c];
    RoomOnDisk(d, room, h, |Entries(d, h)|);
    RoomHere(d, room, h, |Entries(d, h)|);
    EntriesLength(d, h);
    ChainOnDisk(d, h);
    PositionOf(|d.tree[h]|, 0, d.perCluster);
  }
}
