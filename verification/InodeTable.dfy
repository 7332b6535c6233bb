/** The mount's map between inodes and device objects, with its three redundant indexes
    (src/inode.rs). First the table as a value and what each operation does to it, then the
    class, proved against those. */
module InodeTables {
  import opened Basics
  import opened Sequences

  type Inode = nat
  type ObjectHandle = nat
  type StorageId = nat
  type Time = nat

  const ROOT: Inode := 1

  datatype Kind =
    | Root
    | Storage(storageId: StorageId)
    | Directory(handle: ObjectHandle)
    | File(handle: ObjectHandle)

  datatype Entry = Entry(
    inode: Inode, parent: Inode, name: string, kind: Kind, size: nat, mtime: Time, atime: Time,
    generation: nat)
  {
    predicate IsDir() {
      !kind.File?
    }
  }

  /** One child as the device reports it. */
  datatype ChildInfo = ChildInfo(handle: ObjectHandle, name: string, isDir: bool, size: nat, mtime: Time)

  datatype Table = Table(
    entries: map<Inode, Entry>,
    names: map<(Inode, string), Inode>,
    kids: map<Inode, seq<Inode>>,
    next: Inode,
    generation: nat)

  function NewTable(): Table {
    Table(map[ROOT := Entry(ROOT, ROOT, "", Root, 0, 0, 0, 0)], map[], map[], 2, 0)
  }

  function Lookup(t: Table, parent: Inode, name: string): Option<Inode> {
    if (parent, name) in t.names then Some(t.names[(parent, name)]) else None
  }

  function Children(t: Table, parent: Inode): seq<Inode> {
    if parent in t.kids then t.kids[parent] else []
  }

  /** Whether the handle behind an inode comes from the current session. */
  predicate Fresh(t: Table, inode: Inode) {
    && inode in t.entries
    && (t.entries[inode].kind.Directory? || t.entries[inode].kind.File? ==>
          t.entries[inode].generation == t.generation)
  }

  // ---------------------------------------------------------------------------------------
  // The operations

  function Removed(t: Table, inode: Inode): Table {
    if inode !in t.entries then t
    else
      var entry := t.entries[inode];
      var kids :=
        if entry.parent in t.kids
        then t.kids[entry.parent := Without(t.kids[entry.parent], inode)] else t.kids;
      t.(entries := t.entries - {inode}, names := t.names - {(entry.parent, entry.name)},
         kids := kids - {inode})
  }

  function Evicted(t: Table, parent: Inode, name: string, keep: Inode): Table {
    match Lookup(t, parent, name)
    case Some(holder) => if holder != keep then Removed(t, holder) else t
    case None => t
  }

  function Placed(t: Table, entry: Entry): Table {
    t.(entries := t.entries[entry.inode := entry],
       names := t.names[(entry.parent, entry.name) := entry.inode],
       kids := t.kids[entry.parent := Children(t, entry.parent) + [entry.inode]])
  }

  function Inserted(t: Table, entry: Entry): Table {
    Placed(Evicted(t, entry.parent, entry.name, entry.inode), entry)
  }

  function StorageAdded(t: Table, storageId: StorageId, name: string, now: Time): Table {
    Inserted(t.(next := t.next + 1),
             Entry(t.next, ROOT, name, Storage(storageId), 0, now, now, t.generation))
  }

  function KindOf(isDir: bool, handle: ObjectHandle): Kind {
    if isDir then Directory(handle) else File(handle)
  }

  function ObjectAdded(t: Table, parent: Inode, child: ChildInfo): Table {
    Inserted(t.(next := t.next + 1), NewObject(t, parent, child))
  }

  function NewObject(t: Table, parent: Inode, child: ChildInfo): Entry {
    Entry(t.next, parent, child.name, KindOf(child.isDir, child.handle), child.size, child.mtime,
          child.mtime, t.generation)
  }

  function Renamed(t: Table, inode: Inode, newParent: Inode, newName: string): Table {
    if inode !in t.entries then t
    else
      var t' := Evicted(t, newParent, newName, inode);
      if inode !in t'.entries then t' else Moved(t', inode, newParent, newName)
  }

  function Moved(t: Table, inode: Inode, newParent: Inode, newName: string): Table
    requires inode in t.entries
  {
    var entry := t.entries[inode];
    var kids :=
      if entry.parent in t.kids
      then t.kids[entry.parent := Without(t.kids[entry.parent], inode)] else t.kids;
    t.(entries := t.entries[inode := entry.(parent := newParent, name := newName)],
       names := (t.names - {(entry.parent, entry.name)})[(newParent, newName) := inode],
       kids := kids[newParent := (if newParent in kids then kids[newParent] else []) + [inode]])
  }

  function Bumped(t: Table): Table {
    t.(generation := t.generation + 1)
  }

  function HandleSet(t: Table, inode: Inode, handle: ObjectHandle): Table {
    if inode !in t.entries then t
    else
      var entry := t.entries[inode];
      match entry.kind
      case Directory(_) =>
        t.(entries := t.entries[inode := entry.(kind := Directory(handle), generation := t.generation)])
      case File(_) =>
        t.(entries := t.entries[inode := entry.(kind := File(handle), generation := t.generation)])
      case _ => t
  }

  function StorageIdSet(t: Table, inode: Inode, storageId: StorageId): Table {
    if inode in t.entries && t.entries[inode].kind.Storage?
    then t.(entries := t.entries[inode := t.entries[inode].(kind := Storage(storageId))]) else t
  }

  /** One report of a listing. */
  function SyncedOne(t: Table, parent: Inode, child: ChildInfo): Table {
    match Lookup(t, parent, child.name)
    case Some(ino) =>
      if ino in t.entries && t.entries[ino].IsDir() == child.isDir then
        t.(entries := t.entries[ino := t.entries[ino].(
          kind := KindOf(child.isDir, child.handle), size := child.size, mtime := child.mtime,
          generation := t.generation)])
      else
        ObjectAdded(Removed(t, ino), parent, child)
    case None => ObjectAdded(t, parent, child)
  }

  function SyncedAll(t: Table, parent: Inode, children: seq<ChildInfo>): Table {
    if children == [] then t
    else
      var n := |children| - 1;
      SyncedOne(SyncedAll(t, parent, children[..n]), parent, children[n])
  }

  predicate Reports(children: seq<ChildInfo>, name: string) {
    exists k :: 0 <= k < |children| && children[k].name == name
  }

  function RemovedAll(t: Table, gone: seq<Inode>): Table {
    if gone == [] then t else Removed(RemovedAll(t, gone[..|gone| - 1]), gone[|gone| - 1])
  }

  /** The listed children that the device no longer reports. */
  function Gone(t: Table, listed: seq<Inode>, children: seq<ChildInfo>): seq<Inode> {
    if listed == [] then []
    else
      var n := |listed| - 1;
      Gone(t, listed[..n], children)
      + if listed[n] in t.entries && !Reports(children, t.entries[listed[n]].name)
        then [listed[n]] else []
  }

  function Synced(t: Table, parent: Inode, children: seq<ChildInfo>): Table {
    var t' := SyncedAll(t, parent, children);
    RemovedAll(t', Gone(t', Children(t', parent), children))
  }

  /** What `flush_safe` writes through `get_mut` when it cannot finish: the entry is re-pointed
      and renamed in place, behind the name index. */
  function Overwritten(
    t: Table, inode: Inode, name: string, handle: ObjectHandle, size: nat, mtime: Time): Table
  {
    if inode !in t.entries then t
    else
      t.(entries := t.entries[inode := t.entries[inode].(
        kind := File(handle), name := name, size := size, mtime := mtime)])
  }

  // ---------------------------------------------------------------------------------------
  // The code

  class InodeTable {
    var entries: map<Inode, Entry>
    var nameIndex: map<(Inode, string), Inode>
    var childrenIndex: map<Inode, seq<Inode>>
    var nextInode: Inode
    var generation: nat

    ghost function View(): Table
      reads this
    {
      Table(entries, nameIndex, childrenIndex, nextInode, generation)
    }

    constructor ()
      ensures View() == NewTable()
    {
      entries := map[ROOT := Entry(ROOT, ROOT, "", Root, 0, 0, 0, 0)];
      nameIndex, childrenIndex := map[], map[];
      nextInode, generation := 2, 0;
    }

    method BumpGeneration()
      modifies this`generation
      ensures View() == Bumped(old(View())) && generation == old(generation) + 1
    {
      generation := generation + 1;
    }

    method IsFresh(inode: Inode) returns (fresh': bool)
      ensures fresh' == Fresh(View(), inode)
      ensures fresh' ==> inode in entries
      ensures inode in entries ==>
          (fresh' <==>
             entries[inode].kind.Root? || entries[inode].kind.Storage? || entries[inode].generation == generation)
    {
      if inode !in entries {
        return false;
      }
      var entry := entries[inode];
      match entry.kind {
        case Root => fresh' := true;
        case Storage(_) => fresh' := true;
        case Directory(_) => fresh' := entry.generation == generation;
        case File(_) => fresh' := entry.generation == generation;
      }
    }

    method SetHandle(inode: Inode, handle: ObjectHandle)
      modifies this`entries
      ensures View() == HandleSet(old(View()), inode, handle)
      ensures inode in entries && entries[inode].kind.File? ==>
          entries[inode] == old(entries)[inode].(kind := File(handle), generation := generation)
      ensures inode in entries && entries[inode].kind.Directory? ==>
          entries[inode] == old(entries)[inode].(kind := Directory(handle), generation := generation)
    {
      if inode !in entries {
        return;
      }
      var entry := entries[inode];
      var kind: Kind;
      match entry.kind {
        case Directory(_) => kind := Directory(handle);
        case File(_) => kind := File(handle);
        case _ => return;
      }
      entries := entries[inode := entry.(kind := kind, generation := generation)];
    }

    method SetStorageId(inode: Inode, storageId: StorageId)
      modifies this`entries
      ensures View() == StorageIdSet(old(View()), inode, storageId)
      ensures inode in entries && entries[inode].kind.Storage? ==>
          entries[inode] == old(entries)[inode].(kind := Storage(storageId))
    {
      if inode in entries && entries[inode].kind.Storage? {
        entries := entries[inode := entries[inode].(kind := Storage(storageId))];
      }
    }

    method AllocInode() returns (ino: Inode)
      modifies this`nextInode
      ensures ino == old(nextInode) && View() == old(View()).(next := old(nextInode) + 1)
    {
      ino := nextInode;
      nextInode := nextInode + 1;
    }

    method Find(parent: Inode, name: string) returns (ino: Option<Inode>)
      ensures ino == Lookup(View(), parent, name)
      ensures ino.Some? <==> (parent, name) in nameIndex
      ensures ino.Some? ==> ino.value == nameIndex[(parent, name)]
    {
      ino := if (parent, name) in nameIndex then Some(nameIndex[(parent, name)]) else None;
    }

    method ListChildren(parent: Inode) returns (inodes: seq<Inode>)
      ensures inodes == Children(View(), parent)
    {
      inodes := if parent in childrenIndex then childrenIndex[parent] else [];
    }

    method Remove(inode: Inode) returns (removed: Option<Entry>)
      modifies this
      ensures View() == Removed(old(View()), inode)
      ensures removed == if inode in old(entries) then Some(old(entries)[inode]) else None
    {
      if inode !in entries {
        return None;
      }
      var entry := entries[inode];
      entries := entries - {inode};
      nameIndex := nameIndex - {(entry.parent, entry.name)};
      if entry.parent in childrenIndex {
        childrenIndex := childrenIndex[entry.parent := Without(childrenIndex[entry.parent], inode)];
      }
      childrenIndex := childrenIndex - {inode};
      removed := Some(entry);
    }

    method EvictName(parent: Inode, name: string, keep: Inode)
      modifies this
      ensures View() == Evicted(old(View()), parent, name, keep)
    {
      var holder := Find(parent, name);
      if holder.Some? && holder.value != keep {
        var _ := Remove(holder.value);
      }
    }

    method Insert(entry: Entry) returns (ino: Inode)
      modifies this
      ensures View() == Inserted(old(View()), entry) && ino == entry.inode
    {
      ino := entry.inode;
      EvictName(entry.parent, entry.name, ino);
      entries := entries[ino := entry];
      nameIndex := nameIndex[(entry.parent, entry.name) := ino];
      var siblings := if entry.parent in childrenIndex then childrenIndex[entry.parent] else [];
      childrenIndex := childrenIndex[entry.parent := siblings + [ino]];
    }

    method AddStorageAt(storageId: StorageId, name: string, now: Time) returns (ino: Inode)
      modifies this
      ensures View() == StorageAdded(old(View()), storageId, name, now) && ino == old(nextInode)
      ensures ino in entries
      ensures entries[ino] == Entry(ino, ROOT, name, Storage(storageId), 0, now, now, generation)
    {
      var number := AllocInode();
      ino := Insert(Entry(number, ROOT, name, Storage(storageId), 0, now, now, generation));
    }

    method AddObject(parent: Inode, child: ChildInfo) returns (ino: Inode)
      modifies this
      ensures View() == ObjectAdded(old(View()), parent, child) && ino == old(nextInode)
      ensures ino in entries
      ensures entries[ino] == Entry(
          ino, parent, child.name, if child.isDir then Directory(child.handle) else File(child.handle),
          child.size, child.mtime, child.mtime, generation)
    {
      var number := AllocInode();
      var kind := if child.isDir then Directory(child.handle) else File(child.handle);
      ino := Insert(Entry(number, parent, child.name, kind, child.size, child.mtime, child.mtime, generation));
    }

    method Rename(inode: Inode, newParent: Inode, newName: string)
      modifies this
      ensures View() == Renamed(old(View()), inode, newParent, newName)
    {
      if inode !in entries {
        return;
      }
      EvictName(newParent, newName, inode);
      if inode !in entries {
        return;
      }
      var entry := entries[inode];
      entries := entries[inode := entry.(parent := newParent, name := newName)];
      nameIndex := nameIndex - {(entry.parent, entry.name)};
      nameIndex := nameIndex[(newParent, newName) := inode];
      if entry.parent in childrenIndex {
        childrenIndex := childrenIndex[entry.parent := Without(childrenIndex[entry.parent], inode)];
      }
      var siblings := if newParent in childrenIndex then childrenIndex[newParent] else [];
      childrenIndex := childrenIndex[newParent := siblings + [inode]];
    }

    method SyncChildren(parent: Inode, children: seq<ChildInfo>)
      modifies this
      ensures View() == Synced(old(View()), parent, children)
    {
      var k := 0;
      while k < |children|
        invariant 0 <= k <= |children|
        invariant View() == SyncedAll(old(View()), parent, children[..k])
      {
        assert children[..k + 1][..k] == children[..k];
        SyncChild(parent, children[k]);
        k := k + 1;
      }
      assert children[..k] == children;
      ghost var synced := View();
      var listed := ListChildren(parent);
      var gone := FilterGone(listed, children);
      k := 0;
      while k < |gone|
        invariant 0 <= k <= |gone|
        invariant View() == RemovedAll(synced, gone[..k])
      {
        assert gone[..k + 1][..k] == gone[..k];
        var _ := Remove(gone[k]);
        k := k + 1;
      }
      assert gone[..k] == gone;
    }

    /** One turn of the first loop of `sync_children`. */
    method SyncChild(parent: Inode, child: ChildInfo)
      modifies this
      ensures View() == SyncedOne(old(View()), parent, child)
    {
      var holder := Find(parent, child.name);
      match holder {
        case Some(ino) =>
          if ino in entries && entries[ino].IsDir() == child.isDir {
            var kind := if child.isDir then Directory(child.handle) else File(child.handle);
            entries := entries[ino := entries[ino].(
              kind := kind, size := child.size, mtime := child.mtime, generation := generation)];
          } else {
            var _ := Remove(ino);
            var _ := AddObject(parent, child);
          }
        case None =>
          var _ := AddObject(parent, child);
      }
    }

    /** The `filter` that collects the listed children the device no longer reports. */
    method FilterGone(listed: seq<Inode>, children: seq<ChildInfo>) returns (gone: seq<Inode>)
      ensures gone == Gone(View(), listed, children)
    {
      gone := [];
      var k := 0;
      while k < |listed|
        invariant 0 <= k <= |listed|
        invariant gone == Gone(View(), listed[..k], children)
      {
        assert listed[..k + 1][..k] == listed[..k];
        if listed[k] in entries && !Reports(children, entries[listed[k]].name) {
          gone := gone + [listed[k]];
        }
        k := k + 1;
      }
      assert listed[..k] == listed;
    }

    /** The fields `flush_safe` sets through `get_mut`. */
    method PointFileAt(inode: Inode, name: string, handle: ObjectHandle, size: nat, mtime: Time)
      modifies this`entries
      ensures View() == Overwritten(old(View()), inode, name, handle, size, mtime)
      ensures inode in entries ==> entries[inode] == old(entries)[inode].(
          kind := File(handle), name := name, size := size, mtime := mtime)
    {
      if inode in entries {
        entries := entries[inode := entries[inode].(
          kind := File(handle), name := name, size := size, mtime := mtime)];
      }
    }
  }
}
