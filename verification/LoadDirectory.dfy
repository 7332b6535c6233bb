/** `list_into_table`: one listing pass, reconciled into the inode table (src/fs.rs), and why the
    handles it stores are the right ones. */
module DirectoryLoading {
  import opened Basics
  import opened InodeTables
  import opened InodeInvariants
  import opened TreeInvariants
  import opened DirectoryNames
  import opened Listings
  import opened MtpErrors
  import opened PathResolution

  function ChildOf(object': ListedObject): ChildInfo {
    ChildInfo(object'.handle, object'.filename, object'.isFolder, object'.size, object'.modified)
  }

  function ChildrenOf(objects: seq<ListedObject>): (children: seq<ChildInfo>)
    ensures |children| == |objects|
    ensures forall k :: 0 <= k < |objects| ==> children[k] == ChildOf(objects[k])
  {
    seq(|objects|, k requires 0 <= k < |objects| => ChildOf(objects[k]))
  }

  /** Replacing a directory leaves the way down to it as it was. */
  lemma {:induction false} AncestorsStay(
    t: Table, t': Table, parent: Inode, rank: map<Inode, nat>, i: Inode, n: nat, top: Inode)
    requires EntriesOk(t) && RankOk(t.entries, rank) && OthersSame(t, t', parent) && parent in t.entries
    requires Hangs(t.entries, i, n, top) && rank[i] <= rank[parent]
    requires top in t.entries && t.entries[top].kind.Storage?
    ensures Hangs(t'.entries, i, n, top) && PathTo(t'.entries, i, n) == PathTo(t.entries, i, n)
    ensures top in t'.entries && t'.entries[top] == t.entries[top]
    decreases n
  {
    if n > 0 {
      AncestorsStay(t, t', parent, rank, t.entries[i].parent, n - 1, top);
    }
  }

  /** A child of the replaced directory whose number is not new is the child it was. */
  lemma ChildWas(t: Table, t': Table, parent: Inode, children: seq<ChildInfo>, c: Inode)
    requires DirInv(t, parent) && Replaced(t, t', parent, children)
    requires c < t.next && c != ROOT && c in t'.entries && t'.entries[c].parent == parent
    ensures c in t.entries && t.entries[c].parent == parent && t.entries[c].name == t'.entries[c].name
  {
    var name := t'.entries[c].name;
    assert Named(t', c) && NameReplaced(t, t', parent, children, name);
    HolderHangsThere(t, parent, name);
  }

  /** A child of the replaced directory is a file or directory with the handle of the last report. */
  lemma ChildIsReported(t: Table, t': Table, parent: Inode, children: seq<ChildInfo>, c: Inode)
    requires Replaced(t, t', parent, children)
    requires c != ROOT && c in t'.entries && t'.entries[c].parent == parent
    ensures IsObject(t'.entries[c]) && Reports(children, t'.entries[c].name)
    ensures t'.entries[c].kind.handle == LastReport(children, t'.entries[c].name).value.handle
  {
    assert Named(t', c) && NameReplaced(t, t', parent, children, t'.entries[c].name);
  }

  /** The entry is at the place it was at, and all the same if it is not an object. */
  ghost predicate EntryWas(t: Table, t': Table, i: Inode) {
    && i in t.entries && i in t'.entries
    && t.entries[i].parent == t'.entries[i].parent < t.next
    && t.entries[i].name == t'.entries[i].name
    && (IsObject(t'.entries[i]) <==> IsObject(t.entries[i]))
    && (!IsObject(t.entries[i]) ==> t'.entries[i] == t.entries[i])
  }

  /** Entries whose numbers are not new are the ones they were. */
  ghost predicate OldEntriesWere(t: Table, t': Table) {
    forall i :: i in t'.entries && i < t.next ==> EntryWas(t, t', i)
  }

  lemma ReplacingKeepsOldEntries(t: Table, t': Table, parent: Inode, children: seq<ChildInfo>)
    requires DirInv(t, parent) && Replaced(t, t', parent, children) && parent != ROOT
    ensures OldEntriesWere(t, t')
  {
    forall i | i in t'.entries && i < t.next
      ensures EntryWas(t, t', i)
    {
      if i != ROOT && t'.entries[i].parent == parent {
        ChildWas(t, t', parent, children, i);
        ChildIsReported(t, t', parent, children, i);
      }
    }
  }

  /** Where an entry hangs afterwards it hung before, by the same names. */
  lemma {:induction false} PlaceWas(t: Table, t': Table, i: Inode, n: nat, top: Inode)
    requires OldEntriesWere(t, t') && Hangs(t'.entries, i, n, top) && i < t.next
    ensures Hangs(t.entries, i, n, top) && PathTo(t.entries, i, n) == PathTo(t'.entries, i, n)
    ensures top in t.entries && top in t'.entries && t.entries[top] == t'.entries[top]
    decreases n
  {
    assert EntryWas(t, t', i);
    if n > 0 {
      PlaceWas(t, t', t.entries[i].parent, n - 1, top);
    }
  }

  /** The first report under each name has the handle of the last: the walk takes the one, the table
      keeps the other. */
  ghost predicate FirstAndLastAgree(objects: seq<ListedObject>) {
    forall name :: AgreeOn(objects, name)
  }

  ghost predicate AgreeOn(objects: seq<ListedObject>, name: string) {
    Reports(ChildrenOf(objects), name) ==>
      FindNamed(objects, name) == Some(LastReport(ChildrenOf(objects), name).value.handle)
  }

  /** So it is where no name is reported twice. */
  lemma UniqueNamesAgree(objects: seq<ListedObject>)
    requires UniqueNames(objects)
    ensures FirstAndLastAgree(objects)
  {
    var children := ChildrenOf(objects);
    forall name
      ensures AgreeOn(objects, name)
    {
      if Reports(children, name) {
        var report := LastReport(children, name).value;
        var k :| 0 <= k < |children| && children[k] == report;
        assert Holds(objects, objects[k].handle, name);
        FindNamedUnique(objects, name, report.handle);
      }
    }
  }

  lemma DirectoryStays(t: Table, t': Table, parent: Inode, children: seq<ChildInfo>, n: nat, top: Inode)
    requires DirInv(t, parent) && Replaced(t, t', parent, children) && parent in t.entries
    requires Hangs(t.entries, parent, n, top) && top in t.entries && t.entries[top].kind.Storage?
    ensures Hangs(t'.entries, parent, n, top) && PathTo(t'.entries, parent, n) == PathTo(t.entries, parent, n)
    ensures top in t'.entries && t'.entries[top] == t.entries[top]
  {
    var rank :| RankOk(t.entries, rank);
    AncestorsStay(t, t', parent, rank, parent, n, top);
  }

  /** Resolving a child's path is finding its name in its directory. */
  lemma ChildPath(
    entries: map<Inode, Entry>, dev: DeviceTree, sid: StorageId, parent: Inode, n: nat, at: Location, c: Inode)
    requires c in entries && entries[c].parent == parent
    requires Resolve(dev, sid, PathTo(entries, parent, n)) == Some(at)
    ensures Resolve(dev, sid, PathTo(entries, c, n + 1)) ==
        match FindNamed(List(dev, sid, at), entries[c].name)
        case None => None
        case Some(handle) => Some(Some(handle))
  {
    var path := PathTo(entries, c, n + 1);
    assert path[..|path| - 1] == PathTo(entries, parent, n);
  }

  /** A child's handle is right exactly if the walk finds the report that the table kept. */
  lemma ChildResolves(
    t: Table, t': Table, dev: DeviceTree, sid: StorageId, parent: Inode, n: nat, top: Inode,
    at: Location, c: Inode)
    requires Replaced(t, t', parent, ChildrenOf(List(dev, sid, at)))
    requires Hangs(t'.entries, parent, n, top) && top in t'.entries && t'.entries[top].kind == Storage(sid)
    requires Resolve(dev, sid, PathTo(t'.entries, parent, n)) == Some(at)
    requires IsChildOf(t', parent, c)
    ensures Hangs(t'.entries, c, n + 1, top)
    ensures RightHandle(dev, t'.entries, c, n + 1, top) <==> AgreeOn(List(dev, sid, at), t'.entries[c].name)
  {
    ChildIsReported(t, t', parent, ChildrenOf(List(dev, sid, at)), c);
    ChildPath(t'.entries, dev, sid, parent, n, at, c);
  }

  /** Reconciling a directory with a listing of itself keeps every fresh handle right exactly if under
      each name the first report has the handle of the last. */
  lemma ListingRightIffAgreed(
    t: Table, t': Table, dev: DeviceTree, sid: StorageId, parent: Inode, n: nat, top: Inode, at: Location)
    requires DirInv(t, parent) && FreshRight(t, dev) && parent in t.entries && parent != ROOT
    requires Replaced(t, t', parent, ChildrenOf(List(dev, sid, at)))
    requires Hangs(t.entries, parent, n, top) && top in t.entries && t.entries[top].kind == Storage(sid)
    requires Resolve(dev, sid, PathTo(t.entries, parent, n)) == Some(at)
    ensures FreshRight(t', dev) <==> FirstAndLastAgree(List(dev, sid, at))
  {
    DirectoryStays(t, t', parent, ChildrenOf(List(dev, sid, at)), n, top);
    if FirstAndLastAgree(List(dev, sid, at)) {
      forall c | IsChildOf(t', parent, c)
        ensures Hangs(t'.entries, c, n + 1, top) && RightHandle(dev, t'.entries, c, n + 1, top)
      {
        ChildResolves(t, t', dev, sid, parent, n, top, at, c);
      }
      OthersResolve(t, t', dev, parent, ChildrenOf(List(dev, sid, at)));
      AllRight(t', dev, parent, n, top);
    }
    if FreshRight(t', dev) {
      RightMeansAgreed(t, t', dev, sid, parent, n, top, at);
    }
  }

  lemma RightMeansAgreed(
    t: Table, t': Table, dev: DeviceTree, sid: StorageId, parent: Inode, n: nat, top: Inode, at: Location)
    requires Replaced(t, t', parent, ChildrenOf(List(dev, sid, at))) && FreshRight(t', dev)
    requires Hangs(t'.entries, parent, n, top) && top in t'.entries && t'.entries[top].kind == Storage(sid)
    requires Resolve(dev, sid, PathTo(t'.entries, parent, n)) == Some(at)
    ensures FirstAndLastAgree(List(dev, sid, at))
  {
    var children := ChildrenOf(List(dev, sid, at));
    forall name
      ensures AgreeOn(List(dev, sid, at), name)
    {
      assert NameReplaced(t, t', parent, children, name);
      if Reports(children, name) {
        var c := Lookup(t', parent, name).value;
        assert NameOk(t', (parent, name));
        ChildResolves(t, t', dev, sid, parent, n, top, at, c);
      }
    }
  }

  predicate IsChildOf(t: Table, parent: Inode, c: Inode) {
    c != ROOT && c in t.entries && t.entries[c].parent == parent
  }

  lemma AllRight(t: Table, dev: DeviceTree, parent: Inode, n: nat, top: Inode)
    requires forall c | IsChildOf(t, parent, c) ::
        Hangs(t.entries, c, n + 1, top) && RightHandle(dev, t.entries, c, n + 1, top)
    requires OthersRight(t, dev, parent)
    ensures FreshRight(t, dev)
  {
    forall i, m, top' | Hangs(t.entries, i, m, top') && Fresh(t, i)
      ensures RightHandle(dev, t.entries, i, m, top')
    {
      if IsChildOf(t, parent, i) {
        RightAnyway(dev, t.entries, i, n + 1, top, m, top');
      }
    }
  }

  ghost predicate OthersRight(t: Table, dev: DeviceTree, parent: Inode) {
    forall i, m, top | Hangs(t.entries, i, m, top) && Fresh(t, i) && !IsChildOf(t, parent, i) ::
      RightHandle(dev, t.entries, i, m, top)
  }

  lemma RightAnyway(
    dev: DeviceTree, entries: map<Inode, Entry>, i: Inode, n: nat, top: Inode, n': nat, top': Inode)
    requires Hangs(entries, i, n, top) && RightHandle(dev, entries, i, n, top)
    requires Hangs(entries, i, n', top')
    ensures RightHandle(dev, entries, i, n', top')
  {
    PlaceUnique(entries, i, n, top, n', top');
  }

  lemma OthersResolve(t: Table, t': Table, dev: DeviceTree, parent: Inode, children: seq<ChildInfo>)
    requires DirInv(t, parent) && FreshRight(t, dev) && Replaced(t, t', parent, children) && parent != ROOT
    ensures OthersRight(t', dev, parent)
  {
    ReplacingKeepsOldEntries(t, t', parent, children);
    forall i, m, top | Hangs(t'.entries, i, m, top) && Fresh(t', i) && !IsChildOf(t', parent, i)
      ensures RightHandle(dev, t'.entries, i, m, top)
    {
      PlaceWas(t, t', i, m, top);
      assert RightHandle(dev, t.entries, i, m, top);
    }
  }

  lemma ShapeKeepsDir(t: Table, t': Table, p: Inode)
    requires DirNames(t, p) && SameShape(t, t')
    ensures DirNames(t', p)
  {
    forall i | i in t.entries
      ensures SameButHandle(t.entries[i], t'.entries[i])
    {
    }
    SameNamesKeepDir(t, t', p);
  }

  lemma ShapeKeepsTree(t: Table, t': Table)
    requires TreeOk(t) && SameShape(t, t')
    ensures TreeOk(t')
  {
    forall i | i in t.entries
      ensures SameButHandle(t.entries[i], t'.entries[i])
    {
    }
    FewerAcyclic(t.entries, t'.entries);
    SameParentsKeepKids(t, t');
  }

  /** What `parent_handle` answers is where the directory's path leads. */
  lemma PlaceResolves(t: Table, dev: DeviceTree, parent: Inode, n: nat, top: Inode, at: Location)
    requires FreshRight(t, dev) && Hangs(t.entries, parent, n, top) && Fresh(t, parent)
    requires at.None? ==> t.entries[parent].kind.Storage?
    requires at.Some? ==> t.entries[parent].kind == Directory(at.value)
    ensures top in t.entries
    ensures t.entries[top].kind.Storage? ==>
        Resolve(dev, t.entries[top].kind.storageId, PathTo(t.entries, parent, n)) == Some(at)
  {
    HangsTop(t.entries, parent, n, top);
    assert RightHandle(dev, t.entries, parent, n, top);
  }

  /** The directory's path ends there. */
  ghost predicate IsLocatedAt(
    t: Table, dev: DeviceTree, parent: Inode, n: nat, top: Inode, sid: StorageId, at: Location)
  {
    && Hangs(t.entries, parent, n, top) && top in t.entries && t.entries[top].kind == Storage(sid)
    && Resolve(dev, sid, PathTo(t.entries, parent, n)) == Some(at)
  }

  /** The storage and the place that a directory is to be found in. */
  method Locate(fs: Resolver, parent: Inode) returns (r: MtpResult<(StorageId, Location)>)
    requires Walkable(fs.inodes.View()) && FreshRight(fs.inodes.View(), fs.dev)
    modifies fs.inodes`entries, fs`calls
    ensures Kept(old(fs.inodes.View()), fs.inodes.View(), fs.dev) && fs.calls >= old(fs.calls)
    ensures r.Ok? ==> parent in fs.inodes.entries
    ensures r.Ok? ==> exists n: nat, top ::
        IsLocatedAt(fs.inodes.View(), fs.dev, parent, n, top, r.value.0, r.value.1)
    ensures AnsweredBy(
        fs.faults, old(fs.calls), fs.calls, FailureOf(r),
        !IsListable(old(fs.inodes.View()), fs.dev, fs.storages, parent))
  {
    ghost var start := fs.inodes.View();
    var location := fs.ParentHandle(parent);
    ghost var t := fs.inodes.View();
    ShapeKeepsWalking(start, t);
    assert SameShape(t, start) && t.entries.Keys == start.entries.Keys by {
      assert forall i :: i in t.entries ==> SameButHandle(start.entries[i], t.entries[i]);
    }
    ShapeKeepsStorage(start, t, fs.storages, parent);
    ShapeKeepsStorage(t, start, fs.storages, parent);
    if location.Err? {
      return Err(location.error);
    }
    var index := fs.FindStorageIndex(parent);
    if index.None? {
      return Err(NotFound);
    }
    LocatedWhere(t, fs.dev, parent, location.value, fs.storages, index.value);
    r := Ok((fs.storages[index.value], location.value));
  }

  /** What `parent_handle` and `find_storage_index` answer is where the directory's path ends. */
  lemma LocatedWhere(t: Table, dev: DeviceTree, parent: Inode, at: Location, storages: seq<StorageId>, index: nat)
    requires FreshRight(t, dev) && Fresh(t, parent) && index < |storages|
    requires exists n: nat, top :: Hangs(t.entries, parent, n, top)
    requires forall n: nat, top | Hangs(t.entries, parent, n, top) && top in t.entries ::
        Some(index) == StorageIndex(t.entries[top], storages)
    requires if at.Some? then t.entries[parent].kind == Directory(at.value) else t.entries[parent].kind.Storage?
    ensures exists n: nat, top :: IsLocatedAt(t, dev, parent, n, top, storages[index], at)
  {
    var n: nat, top :| Hangs(t.entries, parent, n, top);
    PlaceResolves(t, dev, parent, n, top, at);
    assert IsLocatedAt(t, dev, parent, n, top, storages[index], at);
  }

  /** A storage or directory of a storage that is there, with its handle known or to be found. */
  ghost predicate IsListable(t: Table, dev: DeviceTree, storages: seq<StorageId>, parent: Inode) {
    Reaches(t, dev, storages, parent) && HoldsObjects(t.entries[parent]) && InStorage(t, storages, parent)
  }

  /** A storage or directory whose path leads somewhere, and no call will fail. */
  ghost predicate CanBeListed(fs: Resolver, t: Table, parent: Inode, call: nat)
    reads fs
  {
    fs.Findable(t, parent, call) && HoldsObjects(t.entries[parent])
  }

  lemma ShapeKeepsWalking(t: Table, t': Table)
    requires Walkable(t) && SameShape(t, t')
    ensures Walkable(t')
  {
    assert forall i :: i in t.entries ==> SameButHandle(t.entries[i], t'.entries[i]);
    FewerAcyclic(t.entries, t'.entries);
  }

  /** Asks the device for the directory, then reconciles the table. Whatever an earlier flush
      has written behind the name index, the tree stays walkable and the names of no directory come
      out of agreement; and if those of this one were in agreement, it is replaced. */
  method ListIntoTable(fs: Resolver, parent: Inode) returns (r: MtpResult<()>)
    requires TreeOk(fs.inodes.View()) && FreshRight(fs.inodes.View(), fs.dev) && parent != ROOT
    modifies fs.inodes, fs`calls
    ensures TreeOk(fs.inodes.View()) && NamesKept(old(fs.inodes.View()), fs.inodes.View())
    ensures r.Err? ==> SameShape(old(fs.inodes.View()), fs.inodes.View()) && FreshRight(fs.inodes.View(), fs.dev)
    ensures r.Ok? && old(DirNames(fs.inodes.View(), parent)) ==>
        ListedFrom(old(fs.inodes.View()), fs.inodes.View(), fs.dev, parent)
    ensures CanBeListed(fs, old(fs.inodes.View()), parent, old(fs.calls)) ==> r.Ok?
    ensures AnsweredBy(
        fs.faults, old(fs.calls), fs.calls, FailureOf(r),
        !IsListable(old(fs.inodes.View()), fs.dev, fs.storages, parent))
  {
    ghost var start := fs.inodes.View();
    ListableIfResolvable(fs, start, parent, fs.calls);
    ghost var from, missing := fs.calls, !IsListable(start, fs.dev, fs.storages, parent);
    var located := Locate(fs, parent);
    ghost var t := fs.inodes.View();
    var objects := AskForListing(fs, located, from, missing);
    ShapeKeepsTree(start, t);
    ShapeKeepsNames(start, t);
    if objects.Err? {
      return Err(objects.error);
    }
    fs.inodes.SyncChildren(parent, ChildrenOf(objects.value));
    SyncedIs(start, t, fs.inodes.View(), fs.dev, located.value.0, parent, located.value.1);
    r := Ok(());
  }

  /** Has the device list a place. */
  method AskForListing(
    fs: Resolver, located: MtpResult<(StorageId, Location)>, ghost from: nat, ghost missing: bool)
    returns (r: MtpResult<seq<ListedObject>>)
    requires from <= fs.calls && AnsweredBy(fs.faults, from, fs.calls, FailureOf(located), missing)
    modifies fs`calls
    ensures r.Ok? ==> located.Ok? && r.value == List(fs.dev, located.value.0, located.value.1)
    ensures AnsweredBy(fs.faults, from, fs.calls, FailureOf(r), missing)
  {
    if located.Err? {
      return Err(located.error);
    }
    OneCallMore(fs.faults, from, fs.calls, missing);
    r := fs.ListObjects(located.value.0, located.value.1);
  }

  lemma ListableIfResolvable(fs: Resolver, t: Table, parent: Inode, call: nat)
    ensures CanBeListed(fs, t, parent, call) ==> IsListable(t, fs.dev, fs.storages, parent)
  {
    if CanBeListed(fs, t, parent, call) {
      var n, top :| ResolvesAt(t, fs.dev, fs.storages, parent, n, top);
      assert HangsInStorage(t, fs.storages, parent, n, top);
    }
  }

  /** What becomes of the table when what was listed is reconciled with it. */
  lemma SyncedIs(
    start: Table, t: Table, t': Table, dev: DeviceTree, sid: StorageId, parent: Inode, at: Location)
    requires TreeOk(t) && SameShape(start, t) && FreshRight(t, dev) && NamesKept(start, t)
    requires parent in t.entries && parent != ROOT
    requires exists n: nat, top :: IsLocatedAt(t, dev, parent, n, top, sid, at)
    requires t' == Synced(t, parent, ChildrenOf(List(dev, sid, at)))
    ensures TreeOk(t') && NamesKept(start, t')
    ensures DirNames(start, parent) ==> ListedFrom(start, t', dev, parent)
  {
    SyncedTree(t, parent, ChildrenOf(List(dev, sid, at)));
    SyncedKeepsNames(start, t, t', parent, ChildrenOf(List(dev, sid, at)));
    if DirNames(start, parent) {
      var n: nat, top :| IsLocatedAt(t, dev, parent, n, top, sid, at);
      SyncedIsListed(start, t, t', dev, sid, parent, n, top, at);
    }
  }

  lemma SyncedIsListed(
    start: Table, t: Table, t': Table, dev: DeviceTree, sid: StorageId, parent: Inode, n: nat, top: Inode,
    at: Location)
    requires DirNames(start, parent) && TreeOk(t) && SameShape(start, t) && FreshRight(t, dev)
    requires parent in t.entries && parent != ROOT
    requires Hangs(t.entries, parent, n, top) && top in t.entries && t.entries[top].kind == Storage(sid)
    requires Resolve(dev, sid, PathTo(t.entries, parent, n)) == Some(at)
    requires t' == Synced(t, parent, ChildrenOf(List(dev, sid, at)))
    ensures ListedFrom(start, t', dev, parent)
  {
    ShapeKeepsDir(start, t, parent);
    SyncReplacesDirectory(t, parent, ChildrenOf(List(dev, sid, at)));
    ListingRightIffAgreed(t, t', dev, sid, parent, n, top, at);
    ReplacedShows(t, t', parent, List(dev, sid, at));
    assert ListedAt(start, t, t', dev, parent, sid, n, top, at);
  }

  /** Where names agreed with entries they still do. */
  ghost predicate NamesKept(t: Table, t': Table) {
    forall p :: DirNames(t, p) ==> DirNames(t', p)
  }

  lemma ShapeKeepsNames(t: Table, t': Table)
    requires SameShape(t, t')
    ensures NamesKept(t, t')
  {
    forall p | DirNames(t, p)
      ensures DirNames(t', p)
    {
      ShapeKeepsDir(t, t', p);
    }
  }

  lemma SyncedKeepsNames(start: Table, t: Table, t': Table, parent: Inode, children: seq<ChildInfo>)
    requires NamesKept(start, t) && TreeOk(t) && parent < t.next && t' == Synced(t, parent, children)
    ensures NamesKept(start, t')
  {
    forall p | DirNames(start, p)
      ensures DirNames(t', p)
    {
      SyncedDir(t, parent, children, p);
    }
  }

  /** But for re-resolved handles, the table is the old one with the directory replaced by what the
      device has at the place its path leads to; and fresh handles are right exactly if no name of
      that listing has two objects to choose from. */
  ghost predicate ListedFrom(before: Table, t': Table, dev: DeviceTree, parent: Inode) {
    exists t, sid, n, top, at :: ListedAt(before, t, t', dev, parent, sid, n, top, at)
  }

  ghost predicate ListedAt(
    before: Table, t: Table, t': Table, dev: DeviceTree, parent: Inode,
    sid: StorageId, n: nat, top: Inode, at: Location)
  {
    && SameShape(before, t)
    && Hangs(t.entries, parent, n, top) && top in t.entries && t.entries[top].kind == Storage(sid)
    && Resolve(dev, sid, PathTo(t.entries, parent, n)) == Some(at)
    && Replaced(t, t', parent, ChildrenOf(List(dev, sid, at)))
    && (FreshRight(t', dev) <==> FirstAndLastAgree(List(dev, sid, at)))
    && ShowsListing(t, t', parent, List(dev, sid, at))
  }

  /** The directory's names are those listed; of each, what was listed last is what the entry says; and its
      number is the old one, if the name had one and whatever was listed under it is of the same kind. */
  ghost predicate ShowsListing(t: Table, t': Table, parent: Inode, objects: seq<ListedObject>) {
    && (forall name :: Lookup(t', parent, name).Some? <==> NameIn(objects, name))
    && forall k | 0 <= k < |objects| && IsLastOfName(objects, k) :: ShowsObject(t, t', parent, objects, k)
  }

  ghost predicate IsLastOfName(objects: seq<ListedObject>, k: nat)
    requires k < |objects|
  {
    forall j :: k < j < |objects| ==> objects[j].filename != objects[k].filename
  }

  ghost predicate ShowsObject(t: Table, t': Table, parent: Inode, objects: seq<ListedObject>, k: nat)
    requires k < |objects|
  {
    var found, o := Lookup(t', parent, objects[k].filename), objects[k];
    && found.Some? && found.value in t'.entries
    && var entry := t'.entries[found.value];
    && entry.parent == parent && entry.name == o.filename && entry.generation == t'.generation
    && entry.size == o.size && entry.mtime == o.modified
    && entry.kind == (if o.isFolder then Directory(o.handle) else File(o.handle))
    && (HadKind(t, parent, objects, o.filename) ==> found == Lookup(t, parent, o.filename))
  }

  /** The name was held by a file and no folder is listed under it, or the other way about. */
  ghost predicate HadKind(t: Table, parent: Inode, objects: seq<ListedObject>, name: string) {
    var held := Lookup(t, parent, name);
    && held.Some? && held.value in t.entries
    && forall j :: 0 <= j < |objects| && objects[j].filename == name ==>
         (objects[j].isFolder <==> !t.entries[held.value].kind.File?)
  }

  lemma {:induction false} LastReportIs(objects: seq<ListedObject>, k: nat)
    requires k < |objects| && IsLastOfName(objects, k)
    ensures LastReport(ChildrenOf(objects), objects[k].filename) == Some(ChildOf(objects[k]))
  {
    var n := |objects| - 1;
    assert ChildrenOf(objects)[..n] == ChildrenOf(objects[..n]);
    if k < n {
      assert objects[n].filename != objects[k].filename;
      assert forall j :: k < j < n ==> objects[..n][j] == objects[j];
      LastReportIs(objects[..n], k);
    }
  }

  lemma ReplacedShows(t: Table, t': Table, parent: Inode, objects: seq<ListedObject>)
    requires Replaced(t, t', parent, ChildrenOf(objects))
    ensures ShowsListing(t, t', parent, objects)
  {
    var children := ChildrenOf(objects);
    ReplacedNames(t, t', parent, objects);
    forall k | 0 <= k < |objects| && IsLastOfName(objects, k)
      ensures ShowsObject(t, t', parent, objects, k)
    {
      var name := objects[k].filename;
      LastReportIs(objects, k);
      assert children[k].name == name;
      assert NameReplaced(t, t', parent, children, name);
      if HadKind(t, parent, objects, name) {
        assert KeepsNumber(t, parent, children, name);
      }
    }
  }

  /** The names under the directory are then exactly those the device has there. */
  lemma ReplacedNames(t: Table, t': Table, parent: Inode, objects: seq<ListedObject>)
    requires Replaced(t, t', parent, ChildrenOf(objects))
    ensures forall name :: Lookup(t', parent, name).Some? <==> NameIn(objects, name)
  {
    var children := ChildrenOf(objects);
    forall name
      ensures Lookup(t', parent, name).Some? <==> NameIn(objects, name)
    {
      assert NameReplaced(t, t', parent, children, name);
      if Reports(children, name) {
        var k :| 0 <= k < |children| && children[k].name == name;
        assert objects[k].filename == name;
      }
      if NameIn(objects, name) {
        var k :| 0 <= k < |children| && objects[k].filename == name;
        assert children[k].name == name;
      }
    }
  }

  predicate NameIn(objects: seq<ListedObject>, name: string) {
    exists k :: 0 <= k < |objects| && objects[k].filename == name
  }
}
