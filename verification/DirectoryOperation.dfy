/** `create`, `mkdir`, `unlink` and `rmdir` once they have a session to run in (src/fs.rs). */
module DirectoryOperations {
  import opened Basics
  import opened InodeTables
  import opened InodeInvariants
  import opened MtpErrors
  import opened PathResolution
  import opened DirectoryLoading
  import opened DirectoryChanges

  /** How an operation of the kernel's fails. */
  datatype Errno = NoEntry | NotADirectory | IsADirectory | InputOutput

  lemma KeptIsCurrent(t: Table, t': Table, dev: DeviceTree)
    requires Current(t, dev) && Kept(t, t', dev)
    ensures Current(t', dev)
  {
    ShapeKeepsTree(t, t');
    assert forall i :: i in t.entries ==> SameButHandle(t.entries[i], t'.entries[i]);
    forall i, j | Namesakes(t', i, j)
      ensures i == j
    {
      assert Namesakes(t, i, j);
    }
  }

  /** The directory that a new object goes into, resolved. */
  method FindDirectory(fs: Resolver, parent: Inode) returns (r: MtpResult<(StorageId, Location)>)
    requires Current(fs.inodes.View(), fs.dev)
    modifies fs.inodes`entries, fs`calls
    ensures Kept(old(fs.inodes.View()), fs.inodes.View(), fs.dev) && Current(fs.inodes.View(), fs.dev)
    ensures r.Ok? ==> Ends(fs.inodes.View(), fs.dev, parent, r.value.0, Some(r.value.1))
    ensures CanBeListed(fs, old(fs.inodes.View()), parent, old(fs.calls)) ==> r.Ok?
    ensures fs.calls >= old(fs.calls)
  {
    ghost var start := fs.inodes.View();
    ListableIfResolvable(fs, start, parent, fs.calls);
    r := Locate(fs, parent);
    KeptIsCurrent(start, fs.inodes.View(), fs.dev);
    if r.Ok? {
      ghost var n: nat, top :| IsLocatedAt(fs.inodes.View(), fs.dev, parent, n, top, r.value.0, r.value.1);
      assert Leads(fs.inodes.View(), fs.dev, parent, n, top, r.value.0, Some(r.value.1));
    }
  }

  /** But for re-resolved handles, the table has the new entry and the device the new object, listed at some
      place; and handles are right exactly if no other object of its name comes before that. */
  ghost predicate MadeFrom(
    before: Table, dev: DeviceTree, t': Table, dev': DeviceTree, parent: Inode, child: ChildInfo)
  {
    exists t, sid, at, pos: nat :: MadeAt(before, dev, t', dev', parent, child, t, sid, at, pos)
  }

  ghost predicate MadeAt(
    before: Table, dev: DeviceTree, t': Table, dev': DeviceTree, parent: Inode, child: ChildInfo,
    t: Table, sid: StorageId, at: Location, pos: nat)
  {
    && Kept(before, t, dev) && Ends(t, dev, parent, sid, Some(at)) && pos <= |List(dev, sid, at)|
    && t' == ObjectAdded(t, parent, child) && dev' == Made(dev, sid, at, pos, child)
    && (FreshRight(t', dev') <==> FindNamed(List(dev, sid, at)[..pos], child.name) == None)
  }

  /** The entry of a file or directory just made. */
  predicate IsNewEntry(
    t: Table, i: Inode, parent: Inode, name: string, isDir: bool, now: Time, handle: ObjectHandle)
  {
    && i in t.entries && t.entries[i] == Entry(
         i, parent, name, if isDir then Directory(handle) else File(handle), 0, now, now, t.generation)
    && Lookup(t, parent, name) == Some(i)
  }

  /** Makes an empty file or a directory. The device gives it a handle and lists it where it likes. */
  method MakeObject(
    fs: Resolver, parent: Inode, name: string, isDir: bool, now: Time, handle: ObjectHandle, slot: nat)
    returns (r: Result<Inode, Errno>)
    requires Current(fs.inodes.View(), fs.dev) && DirNames(fs.inodes.View(), parent) && NewHandle(fs.dev, handle)
    modifies fs.inodes, fs`calls, fs`dev
    ensures r.Err? ==> fs.dev == old(fs.dev) && Kept(old(fs.inodes.View()), fs.inodes.View(), fs.dev)
    ensures r.Ok? ==> r.value == old(fs.inodes.nextInode) && MadeFrom(
        old(fs.inodes.View()), old(fs.dev), fs.inodes.View(), fs.dev, parent, ChildInfo(handle, name, isDir, 0, now))
    ensures old(CanBeListed(fs, fs.inodes.View(), parent, fs.calls)) ==> r.Ok?
    ensures r == Err(NotADirectory) <==>
        !(parent in old(fs.inodes.entries) && !old(fs.inodes.entries)[parent].kind.File?)
    ensures r.Ok? ==> IsNewEntry(fs.inodes.View(), r.value, parent, name, isDir, now, handle)
  {
    ghost var before := fs.inodes.View();
    if parent !in fs.inodes.entries || !fs.inodes.entries[parent].IsDir() {
      return Err(NotADirectory);
    }
    var child := ChildInfo(handle, name, isDir, 0, now);
    var found := FindDirectory(fs, parent);
    if found.Err? {
      return Err(InputOutput);
    }
    var (sid, at) := found.value;
    var answer := fs.Call();
    if answer.Err? {
      return Err(InputOutput);
    }
    ShapeKeepsDir(before, fs.inodes.View(), parent);
    var inode := MakeThere(fs, parent, sid, at, child, slot, before);
    r := Ok(inode);
  }

  /** The call goes through, and the new object is entered. */
  method MakeThere(
    fs: Resolver, parent: Inode, sid: StorageId, at: Location, child: ChildInfo, slot: nat, ghost before: Table)
    returns (inode: Inode)
    requires Current(fs.inodes.View(), fs.dev) && DirNames(fs.inodes.View(), parent)
    requires NewHandle(fs.dev, child.handle) && Kept(before, fs.inodes.View(), fs.dev)
    requires Ends(fs.inodes.View(), fs.dev, parent, sid, Some(at)) && child.size == 0
    modifies fs.inodes, fs`dev
    ensures inode == old(fs.inodes.nextInode)
    ensures MadeFrom(before, old(fs.dev), fs.inodes.View(), fs.dev, parent, child)
    ensures IsNewEntry(fs.inodes.View(), inode, parent, child.name, child.isDir, child.mtime, child.handle)
  {
    ghost var t, dev := fs.inodes.View(), fs.dev;
    var pos := if slot <= |List(fs.dev, sid, at)| then slot else |List(fs.dev, sid, at)|;
    CreationRightIff(t, dev, parent, sid, at, pos, child);
    fs.dev := Made(fs.dev, sid, at, pos, child);
    inode := fs.inodes.AddObject(parent, child);
    AdditionReplacesHolder(t, parent, child);
    assert MadeAt(before, dev, fs.inodes.View(), fs.dev, parent, child, t, sid, at, pos);
  }

  ghost predicate DeletedFrom(
    before: Table, dev: DeviceTree, t': Table, dev': DeviceTree, parent: Inode, name: string)
  {
    exists t, x, sid, at, k :: DeletedAt(before, dev, t', dev', parent, name, t, x, sid, at, k)
  }

  /** But for re-resolved handles, the table has lost the entry of that name and the device its object. */
  ghost predicate DeletedAt(
    before: Table, dev: DeviceTree, t': Table, dev': DeviceTree, parent: Inode, name: string,
    t: Table, x: Inode, sid: StorageId, at: Location, k: nat)
  {
    && Kept(before, t, dev) && Lookup(t, parent, name) == Some(x) && Known(t, dev, x, sid, at, k)
    && t' == Removed(t, x) && dev' == Deleted(dev, sid, at, k)
  }

  /** The entry's handle denotes an object that the device has. */
  lemma HandleIsListed(t: Table, dev: DeviceTree, x: Inode, storages: seq<StorageId>)
    requires Current(t, dev) && Fresh(t, x) && IsObject(t.entries[x])
    requires exists n: nat, top :: Hangs(t.entries, x, n, top)
    requires forall n: nat, top | Hangs(t.entries, x, n, top) && top in t.entries ::
        StorageIndex(t.entries[top], storages).Some?
    ensures !NewHandle(dev, t.entries[x].kind.handle) && exists sid, end :: Ends(t, dev, x, sid, end)
  {
    var n: nat, top :| Hangs(t.entries, x, n, top);
    HangsTop(t.entries, x, n, top);
    var sid := t.entries[top].kind.storageId;
    assert Leads(t, dev, x, n, top, sid, Some(Some(t.entries[x].kind.handle))) by {
      assert RightHandle(dev, t.entries, x, n, top);
    }
    assert Ends(t, dev, x, sid, Some(Some(t.entries[x].kind.handle)));
    EndIsListed(t, dev, x, sid, t.entries[x].kind.handle);
  }

  /** The device deletes whatever object a handle denotes. */
  method DeleteByHandle(fs: Resolver, handle: ObjectHandle) returns (ghost sid: StorageId, ghost at: Location, k: nat)
    requires !NewHandle(fs.dev, handle)
    modifies fs`dev
    ensures IsAt(old(fs.dev), sid, at, k, handle) && fs.dev == Deleted(old(fs.dev), sid, at, k)
  {
    ghost var sid': StorageId, at', k': nat :| IsAt(fs.dev, sid', at', k', handle);
    assert (sid', at') in fs.dev.listings && fs.dev.listings[(sid', at')][k'].handle == handle;
    var key, position :| key in fs.dev.listings && 0 <= position < |fs.dev.listings[key]|
      && fs.dev.listings[key][position].handle == handle;
    sid, at, k := key.0, key.1, position;
    fs.dev := Deleted(fs.dev, key.0, key.1, position);
  }

  predicate IsOfKind(entry: Entry, isDir: bool) {
    if isDir then entry.kind.Directory? else entry.kind.File?
  }

  /** The handle that a deletion works with: a file's for `unlink`, a directory's for `rmdir`. */
  method FindObject(fs: Resolver, x: Inode, isDir: bool) returns (r: MtpResult<ObjectHandle>)
    requires Current(fs.inodes.View(), fs.dev)
    modifies fs.inodes`entries, fs`calls
    ensures Kept(old(fs.inodes.View()), fs.inodes.View(), fs.dev) && Current(fs.inodes.View(), fs.dev)
    ensures r.Ok? ==> Fresh(fs.inodes.View(), x) && IsObject(fs.inodes.entries[x])
    ensures r.Ok? ==> fs.inodes.entries[x].kind.handle == r.value && !NewHandle(fs.dev, r.value)
    ensures r.Ok? ==> exists sid, end :: Ends(fs.inodes.View(), fs.dev, x, sid, end)
    ensures fs.Findable(old(fs.inodes.View()), x, old(fs.calls)) && IsOfKind(old(fs.inodes.entries)[x], isDir) ==>
        r.Ok?
    ensures fs.calls >= old(fs.calls)
  {
    ghost var before := fs.inodes.View();
    if isDir {
      r := fs.ObjectHandle(x);
    } else {
      r := fs.FileHandle(x);
    }
    KeptIsCurrent(before, fs.inodes.View(), fs.dev);
    if CanResolve(before, fs.dev, fs.storages, x) {
      ShapeKeepsResolving(before, fs.inodes.View(), fs.dev, fs.storages, x);
      var n, top :| ResolvesAt(fs.inodes.View(), fs.dev, fs.storages, x, n, top);
      assert HangsInStorage(fs.inodes.View(), fs.storages, x, n, top);
    }
    if r.Ok? {
      var index := fs.FindStorageIndex(x);
      if index.None? {
        return Err(NotFound);
      }
      HandleIsListed(fs.inodes.View(), fs.dev, x, fs.storages);
    }
  }

  /** The name leads to an entry of the kind asked for whose path leads somewhere, and no call will fail. */
  ghost predicate CanBeDeleted(fs: Resolver, t: Table, parent: Inode, name: string, isDir: bool, call: nat)
    reads fs
  {
    match Lookup(t, parent, name)
    case None => false
    case Some(x) => fs.Findable(t, x, call) && IsOfKind(t.entries[x], isDir)
  }

  /** Deletes the file or directory of that name. Every handle of the session stays right. */
  method DeleteObject(fs: Resolver, parent: Inode, name: string, isDir: bool) returns (r: Result<(), Errno>)
    requires Current(fs.inodes.View(), fs.dev)
    modifies fs.inodes, fs`calls, fs`dev
    ensures r.Err? ==> fs.dev == old(fs.dev) && Kept(old(fs.inodes.View()), fs.inodes.View(), fs.dev)
    ensures r.Ok? ==> DeletedFrom(old(fs.inodes.View()), old(fs.dev), fs.inodes.View(), fs.dev, parent, name)
    ensures FreshRight(fs.inodes.View(), fs.dev)
    ensures Lookup(old(fs.inodes.View()), parent, name) == None <==> r == Err(NoEntry)
    ensures old(CanBeDeleted(fs, fs.inodes.View(), parent, name, isDir, fs.calls)) ==> r.Ok?
  {
    ghost var before := fs.inodes.View();
    var holder := fs.inodes.Find(parent, name);
    if holder.None? {
      return Err(NoEntry);
    }
    var x := holder.value;
    if isDir && (x !in fs.inodes.entries || !fs.inodes.entries[x].kind.Directory?) {
      return Err(NotADirectory);
    }
    if !isDir && x in fs.inodes.entries && fs.inodes.entries[x].IsDir() {
      return Err(IsADirectory);
    }
    var handle := FindObject(fs, x, isDir);
    if handle.Err? {
      return Err(InputOutput);
    }
    var answer := fs.Call();
    if answer.Err? {
      return Err(InputOutput);
    }
    DeleteThere(fs, x, handle.value, parent, name, before);
    r := Ok(());
  }

  /** The call goes through, and the entry goes too. */
  method DeleteThere(
    fs: Resolver, x: Inode, handle: ObjectHandle, ghost parent: Inode, ghost name: string, ghost before: Table)
    requires Current(fs.inodes.View(), fs.dev) && Kept(before, fs.inodes.View(), fs.dev)
    requires Lookup(fs.inodes.View(), parent, name) == Some(x) && !NewHandle(fs.dev, handle)
    requires Fresh(fs.inodes.View(), x) && IsObject(fs.inodes.entries[x])
    requires fs.inodes.entries[x].kind.handle == handle
    requires exists sid, end :: Ends(fs.inodes.View(), fs.dev, x, sid, end)
    modifies fs.inodes, fs`dev
    ensures DeletedFrom(before, old(fs.dev), fs.inodes.View(), fs.dev, parent, name)
    ensures FreshRight(fs.inodes.View(), fs.dev)
  {
    ghost var t, dev := fs.inodes.View(), fs.dev;
    ghost var sid, at;
    var k;
    sid, at, k := DeleteByHandle(fs, handle);
    DeletionKeepsRight(t, dev, x, sid, at, k);
    var _ := fs.inodes.Remove(x);
    assert DeletedAt(before, dev, fs.inodes.View(), fs.dev, parent, name, t, x, sid, at, k);
  }
}
