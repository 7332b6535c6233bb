/** Runs of the inode table, and what holds in every table they reach. */
module TableRuns {
  import opened Basics
  import opened Sequences
  import opened InodeTables
  import opened InodeInvariants
  import opened TreeInvariants
  import opened DirectoryNames

  datatype Op =
    | AddStorage(storageId: StorageId, storageName: string, now: Time)
    | AddObject(under: Inode, child: ChildInfo)
    | SyncChildren(parent: Inode, children: seq<ChildInfo>)
    | Remove(inode: Inode)
    | Rename(moved: Inode, newParent: Inode, newName: string)
    | BumpGeneration
    | SetHandle(resolved: Inode, handle: ObjectHandle)
    | SetStorageId(storage: Inode, newId: StorageId)
    // Not a method of the table: what a flush writes into an entry through `get_mut`.
    | Overwrite(flushed: Inode, name: string, newHandle: ObjectHandle, size: nat, mtime: Time)

  /** What the callers see to: numbers come from the table, the root stays, only files and
      directories are renamed, and the kernel refuses to move a directory to a place at or below
      itself. */
  ghost predicate Allowed(t: Table, op: Op) {
    match op
    case AddObject(under, _) => under < t.next
    case SyncChildren(parent, _) => parent < t.next
    case Remove(inode) => inode != ROOT
    case Rename(moved, newParent, _) =>
      && moved != ROOT && newParent < t.next && !AtOrBelow(t.entries, newParent, moved)
      && (moved in t.entries ==> !t.entries[moved].kind.Storage?)
    case Overwrite(flushed, _, _, _, _) => flushed != ROOT
    case _ => true
  }

  function Apply(t: Table, op: Op): Table {
    match op
    case AddStorage(storageId, name, now) => StorageAdded(t, storageId, name, now)
    case AddObject(under, child) => ObjectAdded(t, under, child)
    case SyncChildren(parent, children) => Synced(t, parent, children)
    case Remove(inode) => Removed(t, inode)
    case Rename(moved, newParent, newName) => Renamed(t, moved, newParent, newName)
    case BumpGeneration => Bumped(t)
    case SetHandle(resolved, handle) => HandleSet(t, resolved, handle)
    case SetStorageId(storage, newId) => StorageIdSet(t, storage, newId)
    case Overwrite(flushed, name, handle, size, mtime) => Overwritten(t, flushed, name, handle, size, mtime)
  }

  /** The operation gives an entry below `p` another name, behind the name index. */
  predicate Misnames(t: Table, op: Op, p: Inode) {
    && op.Overwrite? && op.flushed in t.entries
    && t.entries[op.flushed].parent == p && t.entries[op.flushed].name != op.name
  }

  ghost predicate Steps(t: Table, op: Op, t': Table) {
    Allowed(t, op) && t' == Apply(t, op)
  }

  /** A run of the mount's table, flushes that could not finish among it. */
  ghost predicate MountRun(tables: seq<Table>, ops: seq<Op>) {
    && |tables| == |ops| + 1
    && tables[0] == NewTable()
    && forall k :: 0 <= k < |ops| ==> Steps(tables[k], ops[k], tables[k + 1])
  }

  /** Up to the `k`th table no flush has left a file of `p` under its temporary name. */
  ghost predicate NamesFollow(tables: seq<Table>, ops: seq<Op>, k: nat, p: Inode)
    requires k <= |ops| < |tables|
  {
    forall j :: 0 <= j < k ==> !Misnames(tables[j], ops[j], p)
  }

  // ---------------------------------------------------------------------------------------
  // One operation

  lemma OpAppears(t: Table, op: Op)
    requires Allowed(t, op)
    ensures t.next <= Apply(t, op).next
    ensures forall i :: i in Apply(t, op).entries ==> i in t.entries || t.next <= i
  {
    if op.SyncChildren? {
      var t' := SyncedAll(t, op.parent, op.children);
      SyncedAllAppears(t, op.parent, op.children);
      RemovedAllEntries(t', Gone(t', Children(t', op.parent), op.children));
    }
  }

  /** Every operation keeps the tree walkable, and hands out only numbers that were never handed out
      before. */
  lemma OpKeepsTree(t: Table, op: Op)
    requires TreeOk(t) && Allowed(t, op)
    ensures TreeOk(Apply(t, op)) && t.next <= Apply(t, op).next
    ensures forall i :: i in Apply(t, op).entries ==> i in t.entries || t.next <= i
  {
    OpAppears(t, op);
    match op {
      case AddStorage(storageId, name, now) => StorageAddedTree(t, storageId, name, now);
      case AddObject(under, child) => ObjectAddedTree(t, under, child);
      case SyncChildren(parent, children) => SyncedTree(t, parent, children);
      case Remove(inode) => RemovedTree(t, inode);
      case Rename(moved, newParent, newName) => RenamedTree(t, moved, newParent, newName);
      case BumpGeneration => BumpedTree(t);
      case SetHandle(resolved, handle) => HandleSetTree(t, resolved, handle);
      case SetStorageId(storage, newId) => StorageIdSetTree(t, storage, newId);
      case Overwrite(flushed, name, handle, size, mtime) => OverwrittenTree(t, flushed, name, handle, size, mtime);
    }
  }

  lemma OpKeepsDir(t: Table, op: Op, p: Inode)
    requires DirInv(t, p) && Allowed(t, op) && !op.Overwrite?
    ensures DirNames(Apply(t, op), p)
  {
    match op {
      case AddStorage(storageId, name, now) => StorageAddedDir(t, storageId, name, now, p);
      case AddObject(under, child) => ObjectAddedDir(t, under, child, p);
      case SyncChildren(parent, children) => SyncedDir(t, parent, children, p);
      case Remove(inode) => RemovedDir(t, inode, p);
      case Rename(moved, newParent, newName) => RenamedDir(t, moved, newParent, newName, p);
      case BumpGeneration => BumpedDir(t, p);
      case SetHandle(resolved, handle) => HandleSetDir(t, resolved, handle, p);
      case SetStorageId(storage, newId) => StorageIdSetDir(t, storage, newId, p);
    }
  }

  /** Of all operations exactly one can put a directory's names out of agreement with its entries: the
      in-place write that gives one of these entries another name. What has become of the names of
      other directories does not matter. */
  lemma OpKeepsDirIff(t: Table, op: Op, p: Inode)
    requires DirInv(t, p) && Allowed(t, op)
    ensures TreeOk(Apply(t, op))
    ensures DirNames(Apply(t, op), p) <==> !Misnames(t, op, p)
  {
    OpKeepsTree(t, op);
    if !op.Overwrite? {
      OpKeepsDir(t, op, p);
    } else if op.flushed in t.entries {
      OverwriteKeepsDirIff(t, op.flushed, op.name, op.newHandle, op.size, op.mtime, p);
    }
  }

  // ---------------------------------------------------------------------------------------
  // Every table of every run

  lemma {:induction false} RunKeepsTree(tables: seq<Table>, ops: seq<Op>, k: nat)
    requires MountRun(tables, ops) && k < |tables|
    ensures TreeOk(tables[k])
  {
    if k == 0 {
      NewTableOk();
    } else {
      RunKeepsTree(tables, ops, k - 1);
      assert Steps(tables[k - 1], ops[k - 1], tables[k]);
      OpKeepsTree(tables[k - 1], ops[k - 1]);
    }
  }

  lemma {:induction false} RunKeepsDir(tables: seq<Table>, ops: seq<Op>, k: nat, p: Inode)
    requires MountRun(tables, ops) && k < |tables| && NamesFollow(tables, ops, k, p)
    ensures DirInv(tables[k], p)
  {
    if k == 0 {
      NewTableOk();
    } else {
      RunKeepsDir(tables, ops, k - 1, p);
      assert Steps(tables[k - 1], ops[k - 1], tables[k]);
      OpKeepsDirIff(tables[k - 1], ops[k - 1], p);
    }
  }

  /** The lists, in every table of every run: a listed child is live, not the root, and names that
      parent; it is listed once; and a live entry under a live parent is listed there. */
  lemma ListsAgree(tables: seq<Table>, ops: seq<Op>, k: nat, p: Inode)
    requires MountRun(tables, ops) && k < |tables|
    ensures var t := tables[k];
      && NoDuplicates(Children(t, p))
      && (forall c :: c in Children(t, p) ==> c in t.entries && c != ROOT && t.entries[c].parent == p)
      && (forall i :: i in t.entries && i != ROOT && t.entries[i].parent == p && p in t.entries ==>
            i in Children(t, p))
  {
    RunKeepsTree(tables, ops, k);
    var t := tables[k];
    assert p in t.kids ==> ListOk(t, p);
    forall i | i in t.entries && i != ROOT && t.entries[i].parent == p && p in t.entries
      ensures i in Children(t, p)
    {
      assert Listed(t, i);
    }
  }

  /** The name leads nowhere, or to a live entry, not the root, that has that place. */
  predicate LeadsThere(t: Table, parent: Inode, name: string) {
    match Lookup(t, parent, name)
    case None => true
    case Some(i) => i in t.entries && i != ROOT && t.entries[i].parent == parent && t.entries[i].name == name
  }

  /** The names, in every table of every run, for every directory none of whose files a flush has left
      under another name: an entry other than the root is the one its name looks up to, and so no
      other entry has its place; and a name leads to a live entry of that place. */
  lemma NamesAgree(tables: seq<Table>, ops: seq<Op>, k: nat, p: Inode)
    requires MountRun(tables, ops) && k < |tables| && NamesFollow(tables, ops, k, p)
    ensures var t := tables[k];
      && (forall i :: i in t.entries && i != ROOT && t.entries[i].parent == p ==>
            Lookup(t, p, t.entries[i].name) == Some(i))
      && (forall name :: LeadsThere(t, p, name))
  {
    RunKeepsDir(tables, ops, k, p);
    var t := tables[k];
    forall i | i in t.entries && i != ROOT && t.entries[i].parent == p
      ensures Lookup(t, p, t.entries[i].name) == Some(i)
    {
      assert Named(t, i);
    }
    forall name
      ensures LeadsThere(t, p, name)
    {
      assert (p, name) in t.names ==> NameOk(t, (p, name));
    }
  }

  /** A number that has been handed out and taken back is never an inode again. */
  lemma {:induction false} NumbersNeverReused(
    tables: seq<Table>, ops: seq<Op>, k: nat, l: nat, i: Inode)
    requires MountRun(tables, ops) && k <= l < |tables|
    requires i < tables[k].next && i !in tables[k].entries
    ensures i !in tables[l].entries && i < tables[l].next
    decreases l - k
  {
    if k < l {
      NumbersNeverReused(tables, ops, k, l - 1, i);
      NumberStaysGone(tables, ops, l - 1, i);
    }
  }

  lemma NumberStaysGone(tables: seq<Table>, ops: seq<Op>, k: nat, i: Inode)
    requires MountRun(tables, ops) && k < |ops|
    requires i < tables[k].next && i !in tables[k].entries
    ensures i !in tables[k + 1].entries && i < tables[k + 1].next
  {
    var t, t' := tables[k], tables[k + 1];
    assert Steps(t, ops[k], t');
    OpAppears(t, ops[k]);
  }

  /** No entry claims to be from a session that has not begun. */
  ghost predicate NoneAhead(t: Table) {
    forall i :: i in t.entries ==> t.entries[i].generation <= t.generation
  }

  lemma {:induction false} SyncedAllNoneAhead(t: Table, parent: Inode, children: seq<ChildInfo>)
    requires NoneAhead(t)
    ensures NoneAhead(SyncedAll(t, parent, children))
  {
    if children != [] {
      var n := |children| - 1;
      SyncedAllNoneAhead(t, parent, children[..n]);
      SyncedOneNoneAhead(SyncedAll(t, parent, children[..n]), parent, children[n]);
    }
  }

  lemma SyncedOneNoneAhead(t: Table, parent: Inode, child: ChildInfo)
    requires NoneAhead(t)
    ensures NoneAhead(SyncedOne(t, parent, child))
  {
  }

  lemma OpNoneAhead(t: Table, op: Op)
    requires NoneAhead(t) && Allowed(t, op)
    ensures NoneAhead(Apply(t, op))
  {
    if op.SyncChildren? {
      var t' := SyncedAll(t, op.parent, op.children);
      SyncedAllNoneAhead(t, op.parent, op.children);
      RemovedAllEntries(t', Gone(t', Children(t', op.parent), op.children));
    }
  }

  /** In every reachable table no handle is stamped later than the current session, so a bump makes
      every handle stale. */
  lemma {:induction false} BumpMakesAllStale(tables: seq<Table>, ops: seq<Op>, k: nat)
    requires MountRun(tables, ops) && k < |tables|
    ensures NoneAhead(tables[k])
    ensures forall i :: Fresh(Bumped(tables[k]), i) ==>
        tables[k].entries[i].kind.Root? || tables[k].entries[i].kind.Storage?
  {
    if k > 0 {
      BumpMakesAllStale(tables, ops, k - 1);
      assert Steps(tables[k - 1], ops[k - 1], tables[k]);
      OpNoneAhead(tables[k - 1], ops[k - 1]);
    }
  }

  /** Walking up from any number ends: at the root, or at a number whose entry is gone. */
  lemma WalksEnd(tables: seq<Table>, ops: seq<Op>, k: nat, i: Inode) returns (n: nat, top: Inode)
    requires MountRun(tables, ops) && k < |tables|
    ensures Up(tables[k].entries, i, n) == Some(top)
    ensures top == ROOT || top !in tables[k].entries
  {
    RunKeepsTree(tables, ops, k);
    NoSelfParent(tables[k]);
    var rank :| RankOk(tables[k].entries, rank);
    n, top := ChainTop(tables[k].entries, rank, i);
  }

  lemma {:induction false} ChainTop(entries: map<Inode, Entry>, rank: map<Inode, nat>, i: Inode)
    returns (n: nat, top: Inode)
    requires RankOk(entries, rank)
    requires forall j :: j in entries && j != ROOT ==> entries[j].parent != j
    ensures Up(entries, i, n) == Some(top) && (top == ROOT || top !in entries)
    decreases if i in entries then rank[i] + 1 else 0
  {
    if i == ROOT || i !in entries {
      n, top := 0, i;
    } else {
      var m, end := ChainTop(entries, rank, entries[i].parent);
      n, top := m + 1, end;
    }
  }
}
