/** Sessions: every step that changes the device's directories and the table along with them, and what holds
    after any number of them. */
module SessionRuns {
  import opened Basics
  import opened InodeTables
  import opened InodeInvariants
  import opened TreeInvariants
  import opened TableRuns
  import opened Listings
  import opened PathResolution
  import opened DirectoryLoading
  import opened DirectoryChanges
  import opened DirectoryFlushes
  import D = Devices

  /** No directory of the device has two objects of one name. */
  ghost predicate NamesOnce(dev: DeviceTree) {
    forall sid, at :: UniqueNames(List(dev, sid, at))
  }

  ghost predicate Orderly(dev: DeviceTree) {
    HandlesOnce(dev) && NamesOnce(dev)
  }

  // ---------------------------------------------------------------------------------------
  // The device stays in order

  lemma {:induction false} NameTaken(objects: seq<ListedObject>, k: nat, name: string)
    requires k < |objects| && objects[k].filename == name
    ensures FindNamed(objects, name).Some?
  {
    if objects[0].filename != name {
      assert objects[1..][k - 1] == objects[k];
      NameTaken(objects[1..], k - 1, name);
    }
  }

  lemma PutUnique(objects: seq<ListedObject>, pos: nat, object': ListedObject)
    requires UniqueNames(objects) && pos <= |objects| && FindNamed(objects, object'.filename) == None
    ensures UniqueNames(Put(objects, pos, object'))
  {
    forall k | 0 <= k < |objects|
      ensures objects[k].filename != object'.filename
    {
      if objects[k].filename == object'.filename {
        NameTaken(objects, k, object'.filename);
      }
    }
  }

  /** An object with a new handle, under a name that is free, keeps the device in order. */
  lemma PutKeepsOrder(
    dev: DeviceTree, sid: StorageId, at: Location, pos: nat, object': ListedObject)
    requires Orderly(dev) && pos <= |List(dev, sid, at)| && NewHandle(dev, object'.handle)
    requires FindNamed(List(dev, sid, at), object'.filename) == None
    ensures Orderly(Relisted(dev, sid, at, Put(List(dev, sid, at), pos, object')))
  {
    var dev' := Relisted(dev, sid, at, Put(List(dev, sid, at), pos, object'));
    PutUnique(List(dev, sid, at), pos, object');
    assert forall sid': StorageId, at' | (sid', at') != (sid, at) :: List(dev', sid', at') == List(dev, sid', at');
    forall sid1: StorageId, at1, k1: nat, sid2: StorageId, at2, k2: nat, h |
      IsAt(dev', sid1, at1, k1, h) && IsAt(dev', sid2, at2, k2, h)
      ensures sid1 == sid2 && at1 == at2 && k1 == k2
    {
      var was1 := WasAt(dev, sid, at, pos, object', sid1, at1, k1, h);
      var was2 := WasAt(dev, sid, at, pos, object', sid2, at2, k2, h);
    }
  }

  /** What is listed after an object has been put in is that object or was listed before. */
  lemma WasAt(
    dev: DeviceTree, sid: StorageId, at: Location, pos: nat, object': ListedObject,
    sid': StorageId, at': Location, k: nat, handle: ObjectHandle)
    returns (was: nat)
    requires pos <= |List(dev, sid, at)| && NewHandle(dev, object'.handle)
    requires IsAt(Relisted(dev, sid, at, Put(List(dev, sid, at), pos, object')), sid', at', k, handle)
    ensures if handle == object'.handle then (sid', at', k) == (sid, at, pos)
      else IsAt(dev, sid', at', was, handle) && k == if (sid', at') == (sid, at) then Shifted(was, pos) else was
  {
    if (sid', at') != (sid, at) {
      was := k;
      assert IsAt(dev, sid', at', k, handle);
    } else {
      was := if k < pos then k else if k == pos then 0 else k - 1;
      assert k != pos ==> IsAt(dev, sid, at, was, handle);
    }
  }

  lemma CutUnique(objects: seq<ListedObject>, k: nat)
    requires UniqueNames(objects) && k < |objects|
    ensures UniqueNames(Cut(objects, k))
  {
  }

  /** What is left was listed before and is not the object taken away. */
  lemma WasBeforeCut(
    dev: DeviceTree, sid: StorageId, at: Location, k: nat, sid': StorageId, at': Location, j: nat,
    handle: ObjectHandle)
    returns (was: nat)
    requires k < |List(dev, sid, at)| && IsAt(Deleted(dev, sid, at, k), sid', at', j, handle)
    ensures IsAt(dev, sid', at', was, handle) && (sid', at', was) != (sid, at, k)
    ensures was == if (sid', at') == (sid, at) then Shifted(j, k) else j
  {
    was := if (sid', at') == (sid, at) then Shifted(j, k) else j;
  }

  lemma CutKeepsHandles(dev: DeviceTree, sid: StorageId, at: Location, k: nat)
    requires HandlesOnce(dev) && k < |List(dev, sid, at)|
    ensures HandlesOnce(Deleted(dev, sid, at, k))
  {
    var dev' := Deleted(dev, sid, at, k);
    forall sid1: StorageId, at1, k1: nat, sid2: StorageId, at2, k2: nat, h |
      IsAt(dev', sid1, at1, k1, h) && IsAt(dev', sid2, at2, k2, h)
      ensures sid1 == sid2 && at1 == at2 && k1 == k2
    {
      var was1 := WasBeforeCut(dev, sid, at, k, sid1, at1, k1, h);
      var was2 := WasBeforeCut(dev, sid, at, k, sid2, at2, k2, h);
    }
  }

  /** A deletion keeps the device in order and frees the handle. */
  lemma CutKeepsOrder(dev: DeviceTree, sid: StorageId, at: Location, k: nat)
    requires Orderly(dev) && k < |List(dev, sid, at)|
    ensures Orderly(Deleted(dev, sid, at, k)) && NewHandle(Deleted(dev, sid, at, k), List(dev, sid, at)[k].handle)
  {
    var dev' := Deleted(dev, sid, at, k);
    CutUnique(List(dev, sid, at), k);
    CutKeepsHandles(dev, sid, at, k);
    forall sid': StorageId, at'
      ensures UniqueNames(List(dev', sid', at'))
    {
      assert UniqueNames(List(dev, sid', at'));
    }
    CutForgets(dev, sid, at, k);
  }

  // ---------------------------------------------------------------------------------------
  // The steps

  /** What changes the table, the device, or both. */
  datatype Change =
    | FindStorage(storageId: StorageId, storageName: string, now: Time)
    | NewSession(table: Table, dev: DeviceTree)
    | Resolve(node: Inode, n: nat, top: Inode, handle: ObjectHandle)
    | LoadDirectory(parent: Inode, sid: StorageId, at: Location)
    | Create(parent: Inode, sid: StorageId, at: Location, pos: nat, child: ChildInfo)
    | Delete(x: Inode, sid: StorageId, at: Location, k: nat)
    | Relocate(
        x: Inode, sid: StorageId, at: Location, k: nat, newParent: Inode, at': Location, pos: nat, name: string)
    | Flush(x: Inode, spot: Spot, k: nat, pos: nat, pos': nat, version: ListedObject, size: nat, mtime: Time)
    | FlushInPart(
        x: Inode, spot: Spot, k: nat, pos: nat, cleared: bool, version: ListedObject, size: nat, mtime: Time)

  datatype Mounted = Mounted(table: Table, dev: DeviceTree)

  /** The steps as they can happen. A session begins with whatever the device has become, in order and with
      its storages told apart. What is asked of our own steps beyond what the code sees to is that a new
      name, the temporary one included, is free; that a move stays within a storage; and that nothing is
      listed, created in or moved into a directory in which a flush that could not finish has left a file
      under another name. */
  ghost predicate Enabled(w: Mounted, c: Change) {
    var t, dev := w.table, w.dev;
    match c
    case FindStorage(storageId, _, _) => forall i | i in t.entries :: t.entries[i].kind != Storage(storageId)
    case NewSession(table, dev') =>
      SameButStorageIds(t, table) && UniqueStorages(table) && Orderly(dev')
    case Resolve(node, n, top, handle) =>
      && Hangs(t.entries, node, n, top) && IsObject(t.entries[node])
      && top in t.entries && t.entries[top].kind.Storage?
      && PathResolution.Resolve(dev, t.entries[top].kind.storageId, PathTo(t.entries, node, n)) == Some(Some(handle))
    case LoadDirectory(parent, sid, at) =>
      parent != ROOT && DirNames(t, parent) && Ends(t, dev, parent, sid, Some(at))
    case Create(parent, sid, at, pos, child) =>
      && DirNames(t, parent)
      && Ends(t, dev, parent, sid, Some(at)) && pos <= |List(dev, sid, at)| && NewHandle(dev, child.handle)
      && FindNamed(List(dev, sid, at), child.name) == None
    case Delete(x, sid, at, k) => Known(t, dev, x, sid, at, k) && x != ROOT
    case Relocate(x, sid, at, k, newParent, at', pos, name) =>
      && Relocates(t, dev, x, sid, at, k, newParent, sid, at', pos)
      && FindNamed(List(Deleted(dev, sid, at, k), sid, at'), name) == None
    case Flush(x, spot, k, pos, pos', version, _, _) =>
      && CanReplace(t, dev, x, spot, k, pos, version.handle)
      && pos' < |List(dev, spot.sid, spot.at)| && version.filename == spot.name
    case FlushInPart(x, spot, k, pos, _, version, _, _) =>
      && CanReplace(t, dev, x, spot, k, pos, version.handle) && version.filename == spot.name
      && NameIsFree(t, x, D.TempName(spot.name))
      && FindNamed(List(dev, spot.sid, spot.at), D.TempName(spot.name)) == None
  }

  function TableAfter(w: Mounted, c: Change): Table
  {
    match c
    case FindStorage(storageId, name, now) => StorageAdded(w.table, storageId, name, now)
    case NewSession(table, _) => Bumped(table)
    case Resolve(node, _, _, handle) => HandleSet(w.table, node, handle)
    case LoadDirectory(parent, sid, at) => Synced(w.table, parent, ChildrenOf(List(w.dev, sid, at)))
    case Create(parent, _, _, _, child) => ObjectAdded(w.table, parent, child)
    case Delete(x, _, _, _) => Removed(w.table, x)
    case Relocate(x, _, _, _, newParent, _, _, name) => Renamed(w.table, x, newParent, name)
    case Flush(x, spot, _, _, _, version, size, mtime) =>
      Overwritten(w.table, x, spot.name, version.handle, size, mtime)
    case FlushInPart(x, spot, _, _, _, version, size, mtime) =>
      Overwritten(w.table, x, D.TempName(spot.name), version.handle, size, mtime)
  }

  ghost function DeviceAfter(w: Mounted, c: Change): DeviceTree
    requires Enabled(w, c)
  {
    match c
    case NewSession(_, dev) => dev
    case Create(_, sid, at, pos, child) => Made(w.dev, sid, at, pos, child)
    case Delete(_, sid, at, k) => Deleted(w.dev, sid, at, k)
    case Relocate(_, sid, at, k, _, at', pos, name) => Relocated(w.dev, sid, at, k, at', pos, name)
    case Flush(_, spot, k, pos, pos', version, _, _) => Swapped(w.dev, spot, k, pos, pos', version)
    case FlushInPart(_, spot, k, pos, cleared, version, _, _) =>
      if cleared then Cleared(w.dev, spot, k, pos, version) else Uploaded(w.dev, spot, pos, version)
    case _ => w.dev
  }

  ghost function After(w: Mounted, c: Change): Mounted
    requires Enabled(w, c)
  {
    Mounted(TableAfter(w, c), DeviceAfter(w, c))
  }

  /** What holds throughout. */
  ghost predicate InOrder(w: Mounted) {
    Current(w.table, w.dev) && NamesOnce(w.dev) && NoneAhead(w.table)
  }

  // ---------------------------------------------------------------------------------------
  // Every step keeps everything in order

  lemma DeviceStaysOrderly(w: Mounted, c: Change)
    requires InOrder(w) && Enabled(w, c)
    ensures Orderly(DeviceAfter(w, c))
  {
    match c
    case Create(_, sid, at, pos, child) => PutKeepsOrder(w.dev, sid, at, pos, Reported(child));
    case Delete(_, sid, at, k) => CutKeepsOrder(w.dev, sid, at, k);
    case Relocate(_, sid, at, k, _, at', pos, name) =>
      CutKeepsOrder(w.dev, sid, at, k);
      PutKeepsOrder(Deleted(w.dev, sid, at, k), sid, at', pos, List(w.dev, sid, at)[k].(filename := name));
    case Flush(x, spot, k, pos, pos', version, _, _) => SwapKeepsOrder(w, x, spot, k, pos, pos', version);
    case FlushInPart(_, spot, k, pos, cleared, version, _, _) =>
      PutKeepsOrder(w.dev, spot.sid, spot.at, pos, version.(filename := D.TempName(spot.name)));
      if cleared {
        CutKeepsOrder(Uploaded(w.dev, spot, pos, version), spot.sid, spot.at, Shifted(k, pos));
      }
    case _ =>
  }

  lemma SwapKeepsOrder(
    w: Mounted, x: Inode, spot: Spot, k: nat, pos: nat, pos': nat, version: ListedObject)
    requires InOrder(w) && CanReplace(w.table, w.dev, x, spot, k, pos, version.handle)
    requires pos' < |List(w.dev, spot.sid, spot.at)| && version.filename == spot.name
    ensures Orderly(Swapped(w.dev, spot, k, pos, pos', version))
  {
    var cut := Deleted(w.dev, spot.sid, spot.at, k);
    VersionsAreInside(w.table, w.dev, x, spot, k, pos, version.handle);
    CutKeepsOrder(w.dev, spot.sid, spot.at, k);
    SwappedIsPutInCut(w.dev, spot, k, pos, pos', version);
    NameFreed(List(w.dev, spot.sid, spot.at), k);
    forall sid: StorageId, at, j: nat
      ensures !IsAt(cut, sid, at, j, version.handle)
    {
      if IsAt(cut, sid, at, j, version.handle) {
        var was := WasBeforeCut(w.dev, spot.sid, spot.at, k, sid, at, j, version.handle);
      }
    }
    PutKeepsOrder(cut, spot.sid, spot.at, pos', version);
  }

  lemma NameFreed(objects: seq<ListedObject>, k: nat)
    requires UniqueNames(objects) && k < |objects|
    ensures FindNamed(Cut(objects, k), objects[k].filename) == None
  {
    if FindNamed(Cut(objects, k), objects[k].filename).Some? {
      var j := FindNamedAt(Cut(objects, k), objects[k].filename);
    }
  }

  lemma SwappedIsPutInCut(
    dev: DeviceTree, spot: Spot, k: nat, pos: nat, pos': nat, version: ListedObject)
    requires k < |List(dev, spot.sid, spot.at)| && pos <= |List(dev, spot.sid, spot.at)|
    requires pos' < |List(dev, spot.sid, spot.at)| && version.filename == spot.name
    ensures Swapped(dev, spot, k, pos, pos', version)
        == Relisted(Deleted(dev, spot.sid, spot.at, k), spot.sid, spot.at,
                    Put(Cut(List(dev, spot.sid, spot.at), k), pos', version))
  {
    SwappedIs(dev, spot, k, pos, pos', version);
  }

  lemma EndsInTable(t: Table, dev: DeviceTree, i: Inode, sid: StorageId, end: Option<Location>)
    requires EntriesOk(t) && Ends(t, dev, i, sid, end)
    ensures i in t.entries && i < t.next
  {
  }

  /** Storages that are re-pointed stay where they are, and so does all below them. */
  lemma RepointedInOrder(t: Table, table: Table)
    requires TreeOk(t) && NoneAhead(t) && SiblingsDiffer(t) && SameButStorageIds(t, table)
    ensures TreeOk(table) && NoneAhead(table) && SiblingsDiffer(table)
  {
    FewerAcyclic(t.entries, table.entries);
    SameParentsKeepKids(t, table);
    forall i, j | Namesakes(table, i, j)
      ensures i == j
    {
      assert Namesakes(t, i, j);
    }
  }

  /** What a step does to the table, as one of its operations. */
  function OpOf(w: Mounted, c: Change): Op
  {
    match c
    case FindStorage(storageId, name, now) => AddStorage(storageId, name, now)
    case NewSession(_, _) => BumpGeneration
    case Resolve(node, _, _, handle) => SetHandle(node, handle)
    case LoadDirectory(parent, sid, at) => SyncChildren(parent, ChildrenOf(List(w.dev, sid, at)))
    case Create(parent, _, _, _, child) => AddObject(parent, child)
    case Delete(x, _, _, _) => Remove(x)
    case Relocate(x, _, _, _, newParent, _, _, name) => Rename(x, newParent, name)
    case Flush(x, spot, _, _, _, version, size, mtime) => Overwrite(x, spot.name, version.handle, size, mtime)
    case FlushInPart(x, spot, _, _, _, version, size, mtime) =>
      Overwrite(x, D.TempName(spot.name), version.handle, size, mtime)
  }

  /** The table that the operation is applied to: for a new session one whose storages have been
      re-pointed. */
  function TableBefore(w: Mounted, c: Change): Table {
    if c.NewSession? then c.table else w.table
  }

  lemma TableFollowsOp(w: Mounted, c: Change)
    ensures TableAfter(w, c) == TableRuns.Apply(TableBefore(w, c), OpOf(w, c))
  {
  }

  lemma StepIsAllowed(w: Mounted, c: Change)
    requires InOrder(w) && Enabled(w, c)
    ensures Allowed(TableBefore(w, c), OpOf(w, c))
    ensures TreeOk(TableBefore(w, c)) && NoneAhead(TableBefore(w, c))
  {
    match c
    case NewSession(table, _) => RepointedInOrder(w.table, table);
    case LoadDirectory(parent, sid, at) => EndsInTable(w.table, w.dev, parent, sid, Some(at));
    case Create(parent, sid, at, _, _) => EndsInTable(w.table, w.dev, parent, sid, Some(at));
    case Relocate(_, sid, _, _, newParent, at', _, _) => EndsInTable(w.table, w.dev, newParent, sid, Some(at'));
    case _ =>
  }

  lemma TreeStaysInOrder(w: Mounted, c: Change)
    requires InOrder(w) && Enabled(w, c)
    ensures TreeOk(After(w, c).table) && NoneAhead(After(w, c).table)
  {
    StepIsAllowed(w, c);
    TableFollowsOp(w, c);
    OpKeepsTree(TableBefore(w, c), OpOf(w, c));
    OpNoneAhead(TableBefore(w, c), OpOf(w, c));
  }

  // Siblings

  /** Entries that stay where they are under their names, one apart whose place nobody has. */
  lemma SiblingsStayApart(t: Table, t': Table, x: Inode)
    requires SiblingsDiffer(t)
    requires forall i | i in t'.entries && i != x ::
        && i in t.entries && t'.entries[i].parent == t.entries[i].parent && t'.entries[i].name == t.entries[i].name
        && (IsObject(t'.entries[i]) ==> IsObject(t.entries[i]))
    requires x in t'.entries && IsObject(t'.entries[x]) ==>
        forall i | i in t'.entries && i != x && IsObject(t'.entries[i]) && t'.entries[i].parent == t'.entries[x].parent ::
          t'.entries[i].name != t'.entries[x].name
    ensures SiblingsDiffer(t')
  {
    forall i, j | Namesakes(t', i, j)
      ensures i == j
    {
      assert i != x && j != x ==> Namesakes(t, i, j);
    }
  }

  lemma CreationSeparates(t: Table, parent: Inode, child: ChildInfo)
    requires DirInv(t, parent) && SiblingsDiffer(t)
    ensures SiblingsDiffer(ObjectAdded(t, parent, child))
  {
    var t' := ObjectAdded(t, parent, child);
    AdditionReplacesHolder(t, parent, child);
    forall i | i in t'.entries && i != t.next && IsObject(t'.entries[i]) && t'.entries[i].parent == parent
      ensures t'.entries[i].name != child.name
    {
      assert Named(t, i);
    }
    SiblingsStayApart(t, t', t.next);
  }

  lemma RelocationSeparates(t: Table, x: Inode, newParent: Inode, name: string)
    requires DirInv(t, newParent) && SiblingsDiffer(t) && x in t.entries && x != ROOT
    ensures SiblingsDiffer(Renamed(t, x, newParent, name))
  {
    var t' := Renamed(t, x, newParent, name);
    RenamedIs(t, x, newParent, name);
    forall i | i in t'.entries && i != x && IsObject(t'.entries[i]) && t'.entries[i].parent == newParent
      ensures t'.entries[i].name != name
    {
      assert Named(t, i) && MayStay(t, t', x, newParent, name, i);
    }
    SiblingsStayApart(t, t', x);
  }

  /** The listed directory's names agree, and the others are as they were. */
  lemma LoadingSeparates(t: Table, parent: Inode, children: seq<ChildInfo>)
    requires DirInv(t, parent) && SiblingsDiffer(t) && parent in t.entries && parent != ROOT
    ensures SiblingsDiffer(Synced(t, parent, children))
  {
    var t' := Synced(t, parent, children);
    SyncReplacesDirectory(t, parent, children);
    forall i, j | Namesakes(t', i, j)
      ensures i == j
    {
      if t'.entries[i].parent == parent {
        assert Named(t', i) && Named(t', j);
      } else {
        assert Namesakes(t, i, j);
      }
    }
  }

  lemma RewritingSeparates(t: Table, x: Inode, name: string, handle: ObjectHandle, size: nat, mtime: Time)
    requires SiblingsDiffer(t)
    ensures SiblingsDiffer(HandleSet(t, x, handle)) && SiblingsDiffer(Removed(t, x)) && SiblingsDiffer(Bumped(t))
    ensures x in t.entries && t.entries[x].kind.File? && NameIsFree(t, x, name) ==>
        SiblingsDiffer(Overwritten(t, x, name, handle, size, mtime))
  {
    SiblingsStayApart(t, Removed(t, x), x);
    forall i, j | Namesakes(HandleSet(t, x, handle), i, j) || Namesakes(Bumped(t), i, j)
      ensures i == j
    {
      assert Namesakes(t, i, j);
    }
    if x in t.entries && t.entries[x].kind.File? && NameIsFree(t, x, name) {
      SiblingsStayApart(t, Overwritten(t, x, name, handle, size, mtime), x);
    }
  }

  lemma StorageSeparates(t: Table, storageId: StorageId, name: string, now: Time)
    requires TreeOk(t) && SiblingsDiffer(t)
    ensures SiblingsDiffer(StorageAdded(t, storageId, name, now))
  {
    StorageAddition(t, storageId, name, now);
    SiblingsStayApart(t, StorageAdded(t, storageId, name, now), t.next);
  }

  lemma SiblingsStayInOrder(w: Mounted, c: Change)
    requires InOrder(w) && Enabled(w, c)
    ensures SiblingsDiffer(TableAfter(w, c))
  {
    var t := w.table;
    match c
    case FindStorage(storageId, name, now) => StorageSeparates(t, storageId, name, now);
    case NewSession(table, _) =>
      RepointedInOrder(t, table);
      RewritingSeparates(table, 0, "", 0, 0, 0);
    case Resolve(node, _, _, handle) => RewritingSeparates(t, node, "", handle, 0, 0);
    case LoadDirectory(parent, sid, at) =>
      EndsInTable(t, w.dev, parent, sid, Some(at));
      LoadingSeparates(t, parent, ChildrenOf(List(w.dev, sid, at)));
    case Create(parent, _, _, _, child) => CreationSeparates(t, parent, child);
    case Delete(x, _, _, _) => RewritingSeparates(t, x, "", 0, 0, 0);
    case Relocate(x, _, _, _, newParent, _, _, name) => RelocationSeparates(t, x, newParent, name);
    case Flush(x, spot, _, _, _, version, size, mtime) =>
      OwnNameIsFree(t, x);
      RewritingSeparates(t, x, spot.name, version.handle, size, mtime);
    case FlushInPart(x, spot, _, _, _, version, size, mtime) =>
      RewritingSeparates(t, x, D.TempName(spot.name), version.handle, size, mtime);
  }

  // Storages

  /** Every storage was there before. */
  ghost predicate NoNewStorage(t: Table, t': Table) {
    forall i | i in t'.entries && t'.entries[i].kind.Storage? :: i in t.entries && t.entries[i] == t'.entries[i]
  }

  lemma ListingAddsNoStorage(t: Table, parent: Inode, children: seq<ChildInfo>)
    requires DirInv(t, parent) && parent in t.entries && parent != ROOT
    ensures NoNewStorage(t, Synced(t, parent, children))
  {
    var t' := Synced(t, parent, children);
    SyncReplacesDirectory(t, parent, children);
    forall i | i in t'.entries && t'.entries[i].kind.Storage?
      ensures i in t.entries && t.entries[i] == t'.entries[i]
    {
      if i != ROOT && t'.entries[i].parent == parent {
        ChildIsReported(t, t', parent, children, i);
      }
    }
  }

  lemma StoragesStayUnique(w: Mounted, c: Change)
    requires InOrder(w) && Enabled(w, c)
    ensures UniqueStorages(After(w, c).table)
  {
    match c
    case FindStorage(storageId, name, now) => StorageAddition(w.table, storageId, name, now);
    case NewSession(_, _) =>
    case _ =>
      NoStorageAppears(w, c);
      StillUnique(w.table, After(w, c).table);
  }

  lemma StillUnique(t: Table, t': Table)
    requires UniqueStorages(t) && NoNewStorage(t, t')
    ensures UniqueStorages(t')
  {
  }

  lemma SameButAddsNone(t: Table, t': Table, x: Inode)
    requires SameBut(t, t', x) && (x in t'.entries ==> !t'.entries[x].kind.Storage?)
    ensures NoNewStorage(t, t')
  {
  }

  lemma AdditionAddsNone(t: Table, parent: Inode, child: ChildInfo)
    requires DirInv(t, parent)
    ensures NoNewStorage(t, ObjectAdded(t, parent, child))
  {
    AdditionReplacesHolder(t, parent, child);
    SameButAddsNone(t, ObjectAdded(t, parent, child), t.next);
  }

  lemma RenameAddsNone(t: Table, x: Inode, newParent: Inode, name: string)
    requires DirInv(t, newParent) && x in t.entries && x != ROOT && IsObject(t.entries[x])
    ensures NoNewStorage(t, Renamed(t, x, newParent, name))
  {
    RenamedIs(t, x, newParent, name);
    SameButAddsNone(t, Renamed(t, x, newParent, name), x);
  }

  lemma RewritingAddsNone(t: Table, x: Inode, name: string, handle: ObjectHandle, size: nat, mtime: Time)
    ensures NoNewStorage(t, Overwritten(t, x, name, handle, size, mtime))
    ensures NoNewStorage(t, HandleSet(t, x, handle))
    ensures NoNewStorage(t, Removed(t, x))
  {
  }

  lemma NoStorageAppears(w: Mounted, c: Change)
    requires InOrder(w) && Enabled(w, c) && !c.FindStorage? && !c.NewSession?
    ensures NoNewStorage(w.table, TableAfter(w, c))
  {
    var t := w.table;
    match c
    case Resolve(node, _, _, handle) => RewritingAddsNone(t, node, "", handle, 0, 0);
    case LoadDirectory(parent, sid, at) =>
      EndsInTable(t, w.dev, parent, sid, Some(at));
      ListingAddsNoStorage(t, parent, ChildrenOf(List(w.dev, sid, at)));
    case Create(parent, _, _, _, child) => AdditionAddsNone(t, parent, child);
    case Delete(x, _, _, _) => RewritingAddsNone(t, x, "", 0, 0, 0);
    case Relocate(x, _, _, _, newParent, _, _, name) => RenameAddsNone(t, x, newParent, name);
    case Flush(x, spot, _, _, _, version, size, mtime) =>
      RewritingAddsNone(t, x, spot.name, version.handle, size, mtime);
    case FlushInPart(x, spot, _, _, _, version, size, mtime) =>
      RewritingAddsNone(t, x, D.TempName(spot.name), version.handle, size, mtime);
  }

  /** A new storage takes its name's holder away and leaves all other entries. */
  lemma StorageAddition(t: Table, storageId: StorageId, name: string, now: Time)
    requires TreeOk(t)
    ensures SameBut(t, StorageAdded(t, storageId, name, now), t.next)
    ensures t.next in StorageAdded(t, storageId, name, now).entries
    ensures StorageAdded(t, storageId, name, now).entries[t.next].kind == Storage(storageId)
  {
    EvictedTree(t, ROOT, name, t.next);
  }

  // Handles

  /** The table alone changes, by entries that go and one that is no object. */
  lemma OthersStayPut(t: Table, dev: DeviceTree, t': Table, x: Inode)
    requires FreshRight(t, dev) && SameBut(t, t', x) && (x in t'.entries ==> !IsObject(t'.entries[x]))
    requires forall i | i in t'.entries && i != x :: t'.entries[i].parent != x
    ensures FreshRight(t', dev)
  {
    forall i | i in t'.entries
      ensures StepsAlike(t, dev, t', dev, x, i)
    {
      if i != x {
        ElsewhereStepsAlike(t, dev, t', dev, x, {}, i);
      }
    }
    RightIffChangedIs(t, dev, t', dev, x);
  }

  lemma LoadingKeepsRight(t: Table, dev: DeviceTree, parent: Inode, sid: StorageId, at: Location)
    requires Current(t, dev) && NamesOnce(dev) && parent != ROOT && DirNames(t, parent)
    requires Ends(t, dev, parent, sid, Some(at))
    ensures FreshRight(Synced(t, parent, ChildrenOf(List(dev, sid, at))), dev)
  {
    var n: nat, top :| Leads(t, dev, parent, n, top, sid, Some(at));
    SyncReplacesDirectory(t, parent, ChildrenOf(List(dev, sid, at)));
    ListingRightIffAgreed(t, Synced(t, parent, ChildrenOf(List(dev, sid, at))), dev, sid, parent, n, top, at);
    UniqueNamesAgree(List(dev, sid, at));
  }

  lemma StorageFoundKeepsRight(t: Table, dev: DeviceTree, storageId: StorageId, name: string, now: Time)
    requires Current(t, dev)
    ensures FreshRight(StorageAdded(t, storageId, name, now), dev)
  {
    StorageAddition(t, storageId, name, now);
    OthersStayPut(t, dev, StorageAdded(t, storageId, name, now), t.next);
  }

  lemma SessionStartsRight(t: Table, table: Table, dev: DeviceTree)
    requires TreeOk(t) && NoneAhead(t) && SiblingsDiffer(t) && SameButStorageIds(t, table)
    ensures FreshRight(Bumped(table), dev)
  {
    RepointedInOrder(t, table);
    BumpedIsRight(table, dev);
  }

  lemma CreationKeepsRight(w: Mounted, c: Change)
    requires InOrder(w) && Enabled(w, c) && c.Create?
    ensures FreshRight(After(w, c).table, After(w, c).dev)
  {
    PrefixFree(List(w.dev, c.sid, c.at), c.pos, c.child.name);
    CreationRightIff(w.table, w.dev, c.parent, c.sid, c.at, c.pos, c.child);
  }

  lemma RelocationKeepsRight(w: Mounted, c: Change)
    requires InOrder(w) && Enabled(w, c) && c.Relocate?
    ensures FreshRight(After(w, c).table, After(w, c).dev)
  {
    PrefixFree(List(Deleted(w.dev, c.sid, c.at, c.k), c.sid, c.at'), c.pos, c.name);
    RelocationRightIff(w.table, w.dev, c.x, c.sid, c.at, c.k, c.newParent, c.sid, c.at', c.pos, c.name);
  }

  lemma FlushKeepsRight(w: Mounted, c: Change)
    requires InOrder(w) && Enabled(w, c) && c.Flush?
    ensures FreshRight(After(w, c).table, After(w, c).dev)
  {
    var objects := List(w.dev, c.spot.sid, c.spot.at);
    VersionsAreInside(w.table, w.dev, c.x, c.spot, c.k, c.pos, c.version.handle);
    NameFreed(objects, c.k);
    PrefixFree(Cut(objects, c.k), c.pos', c.spot.name);
    FlushRightIff(w.table, w.dev, c.x, c.spot, c.k, c.pos, c.pos', c.version, c.size, c.mtime);
  }

  lemma PartialFlushKeepsRight(w: Mounted, c: Change)
    requires InOrder(w) && Enabled(w, c) && c.FlushInPart?
    ensures FreshRight(After(w, c).table, After(w, c).dev)
  {
    PrefixFree(List(w.dev, c.spot.sid, c.spot.at), c.pos, D.TempName(c.spot.name));
    UnfinishedFlushRightIff(w.table, w.dev, After(w, c).dev, c.x, c.spot, c.k, c.pos, c.version, c.size, c.mtime);
  }

  lemma HandlesStayRight(w: Mounted, c: Change)
    requires InOrder(w) && Enabled(w, c)
    ensures FreshRight(After(w, c).table, After(w, c).dev)
  {
    match c
    case FindStorage(storageId, name, now) => StorageFoundKeepsRight(w.table, w.dev, storageId, name, now);
    case NewSession(table, dev) => SessionStartsRight(w.table, table, dev);
    case Resolve(node, n, top, handle) => ResolvedStaysRight(w.table, w.dev, node, n, top, handle);
    case LoadDirectory(parent, sid, at) => LoadingKeepsRight(w.table, w.dev, parent, sid, at);
    case Create(_, _, _, _, _) => CreationKeepsRight(w, c);
    case Delete(x, sid, at, k) => DeletionKeepsRight(w.table, w.dev, x, sid, at, k);
    case Relocate(_, _, _, _, _, _, _, _) => RelocationKeepsRight(w, c);
    case Flush(_, _, _, _, _, _, _, _) => FlushKeepsRight(w, c);
    case FlushInPart(_, _, _, _, _, _, _, _) => PartialFlushKeepsRight(w, c);
  }

  lemma PrefixFree(objects: seq<ListedObject>, pos: nat, name: string)
    requires pos <= |objects| && FindNamed(objects, name) == None
    ensures FindNamed(objects[..pos], name) == None
  {
    assert objects == objects[..pos] + objects[pos..];
    FindNamedJoined(objects[..pos], objects[pos..], name);
  }

  lemma StepKeepsOrder(w: Mounted, c: Change)
    requires InOrder(w) && Enabled(w, c)
    ensures InOrder(After(w, c))
  {
    DeviceStaysOrderly(w, c);
    TreeStaysInOrder(w, c);
    SiblingsStayInOrder(w, c);
    StoragesStayUnique(w, c);
    HandlesStayRight(w, c);
  }

  // ---------------------------------------------------------------------------------------
  // Every run

  ghost predicate Moves(w: Mounted, c: Change, w': Mounted) {
    Enabled(w, c) && w' == After(w, c)
  }

  /** Sessions of a mount, from the empty table on. */
  ghost predicate SessionRun(states: seq<Mounted>, changes: seq<Change>) {
    && |states| == |changes| + 1
    && states[0].table == NewTable() && Orderly(states[0].dev)
    && forall k :: 0 <= k < |changes| ==> Moves(states[k], changes[k], states[k + 1])
  }

  lemma {:induction false} OrderThroughout(states: seq<Mounted>, changes: seq<Change>, k: nat)
    requires SessionRun(states, changes) && k < |states|
    ensures InOrder(states[k])
  {
    if k == 0 {
      NewTableOk();
      AgreementSeparates(NewTable());
    } else {
      OrderThroughout(states, changes, k - 1);
      assert Moves(states[k - 1], changes[k - 1], states[k]);
      StepKeepsOrder(states[k - 1], changes[k - 1]);
    }
  }

  /** A file or directory below a storage, with this handle from the current session. */
  ghost predicate HasHandle(t: Table, i: Inode, n: nat, top: Inode, handle: ObjectHandle) {
    && Hangs(t.entries, i, n, top) && top in t.entries && t.entries[top].kind.Storage?
    && Fresh(t, i) && IsObject(t.entries[i]) && t.entries[i].kind.handle == handle
  }

  /** In every state of every such run, flushes that could not finish among it: the handle of an inode that
      counts as current is that of the object which the names on the way down to the inode lead to on the
      device, and no other inode has that handle from this session. */
  lemma CurrentHandlesAreRight(states: seq<Mounted>, changes: seq<Change>, k: nat, i: Inode, n: nat, top: Inode)
    requires SessionRun(states, changes) && k < |states|
    requires i in states[k].table.entries && IsObject(states[k].table.entries[i])
    requires HasHandle(states[k].table, i, n, top, states[k].table.entries[i].kind.handle)
    ensures var t, dev := states[k].table, states[k].dev;
      && PathResolution.Resolve(dev, t.entries[top].kind.storageId, PathTo(t.entries, i, n))
         == Some(Some(t.entries[i].kind.handle))
    ensures forall j, m: nat, top' | HasHandle(states[k].table, j, m, top', states[k].table.entries[i].kind.handle) ::
        j == i
  {
    OrderThroughout(states, changes, k);
    var t, dev := states[k].table, states[k].dev;
    assert RightHandle(dev, t.entries, i, n, top);
    forall j, m: nat, top' | HasHandle(t, j, m, top', t.entries[i].kind.handle)
      ensures j == i
    {
      assert RightHandle(dev, t.entries, j, m, top');
      PathInjective(dev, t.entries[top].kind.storageId, PathTo(t.entries, i, n),
                    t.entries[top'].kind.storageId, PathTo(t.entries, j, m));
      PlaceInjective(t, i, n, top, j, m, top');
    }
  }
}
