/** What every table operation keeps, the in-place write of an unfinished flush among them: parent
    chains stay finite and child lists agree with parents, whatever has become of the name index. */
module TreeInvariants {
  import opened Basics
  import opened InodeTables
  import opened InodeInvariants

  /** Fewer entries, with nothing else about them changed, are still acyclic. */
  lemma FewerAcyclic(entries: map<Inode, Entry>, fewer: map<Inode, Entry>)
    requires Acyclic(entries) && fewer.Keys <= entries.Keys
    requires forall i :: i in fewer ==>
        fewer[i].parent == entries[i].parent
    ensures Acyclic(fewer)
  {
    var rank :| RankOk(entries, rank);
    assert RankOk(fewer, rank);
  }

  lemma RemovedTree(t: Table, inode: Inode)
    requires TreeOk(t) && inode != ROOT
    ensures TreeOk(Removed(t, inode))
  {
    FewerAcyclic(t.entries, Removed(t, inode).entries);
    if inode in t.entries {
      RemovedKids(t, inode);
    }
  }

  lemma EvictedTree(t: Table, parent: Inode, name: string, keep: Inode)
    requires TreeOk(t)
    ensures var t' := Evicted(t, parent, name, keep);
      && TreeOk(t') && t'.next == t.next && t'.generation == t.generation
      && t'.entries.Keys <= t.entries.Keys
      && (forall i :: i in t'.entries ==> t'.entries[i] == t.entries[i])
  {
    if Lookup(t, parent, name).Some? && Lookup(t, parent, name).value != keep {
      RemovedTree(t, Lookup(t, parent, name).value);
    }
  }

  lemma PlacedTree(t: Table, t': Table, entry: Entry)
    requires TreeOk(t) && entry.inode == t.next && entry.parent < t.next && FitsKind(entry)
    requires t' == Placed(t.(next := t.next + 1), entry)
    ensures TreeOk(t')
  {
    PlacedAcyclic(t, entry);
    PlacedKids(t, entry);
  }

  lemma InsertedTree(t: Table, t': Table, entry: Entry)
    requires TreeOk(t) && entry.inode == t.next && entry.parent < t.next && FitsKind(entry)
    requires t' == Inserted(t.(next := t.next + 1), entry)
    ensures TreeOk(t')
  {
    var evicted := Evicted(t, entry.parent, entry.name, entry.inode);
    InsertedIs(t, evicted, entry);
    EvictedTree(t, entry.parent, entry.name, entry.inode);
    PlacedTree(evicted, t', entry);
  }

  lemma ObjectAddedTree(t: Table, parent: Inode, child: ChildInfo)
    requires TreeOk(t) && parent < t.next
    ensures TreeOk(ObjectAdded(t, parent, child))
  {
    InsertedTree(t, ObjectAdded(t, parent, child), NewObject(t, parent, child));
  }

  lemma StorageAddedTree(t: Table, storageId: StorageId, name: string, now: Time)
    requires TreeOk(t)
    ensures TreeOk(StorageAdded(t, storageId, name, now))
  {
    InsertedTree(t, StorageAdded(t, storageId, name, now), Entry(
      t.next, ROOT, name, Storage(storageId), 0, now, now, t.generation));
  }

  /** Anything about an entry but its number, its parent and its being no root may be rewritten. */
  lemma RewrittenTree(t: Table, inode: Inode, entry: Entry)
    requires TreeOk(t) && inode in t.entries && inode != ROOT
    requires entry.inode == inode && entry.parent == t.entries[inode].parent && FitsKind(entry)
    ensures TreeOk(t.(entries := t.entries[inode := entry]))
  {
    FewerAcyclic(t.entries, t.entries[inode := entry]);
    SameParentsKeepKids(t, t.(entries := t.entries[inode := entry]));
  }

  lemma HandleSetTree(t: Table, inode: Inode, handle: ObjectHandle)
    requires TreeOk(t)
    ensures TreeOk(HandleSet(t, inode, handle))
  {
    var t' := HandleSet(t, inode, handle);
    if t' != t {
      RewrittenTree(t, inode, t'.entries[inode]);
    }
  }

  lemma StorageIdSetTree(t: Table, inode: Inode, storageId: StorageId)
    requires TreeOk(t)
    ensures TreeOk(StorageIdSet(t, inode, storageId))
  {
    var t' := StorageIdSet(t, inode, storageId);
    if t' != t {
      RewrittenTree(t, inode, t'.entries[inode]);
    }
  }

  /** The write that goes around the name index does no harm to the tree. */
  lemma OverwrittenTree(
    t: Table, inode: Inode, name: string, handle: ObjectHandle, size: nat, mtime: Time)
    requires TreeOk(t) && inode != ROOT
    ensures TreeOk(Overwritten(t, inode, name, handle, size, mtime))
  {
    if inode in t.entries {
      RewrittenTree(t, inode, t.entries[inode].(
        kind := File(handle), name := name, size := size, mtime := mtime));
    }
  }

  lemma BumpedTree(t: Table)
    requires TreeOk(t)
    ensures TreeOk(Bumped(t))
  {
    SameParentsKeepKids(t, Bumped(t));
  }

  lemma MovedTree(t: Table, inode: Inode, newParent: Inode, newName: string)
    requires TreeOk(t) && inode in t.entries && inode != ROOT && newParent < t.next
    requires !AtOrBelow(t.entries, newParent, inode) && !t.entries[inode].kind.Storage?
    ensures TreeOk(Moved(t, inode, newParent, newName))
  {
    NoSelfParent(t);
    MoveKeepsAcyclic(t.entries, inode, t.entries[inode].(parent := newParent, name := newName));
    MovedKids(t, inode, newParent, newName);
  }

  lemma RenamedTree(t: Table, inode: Inode, newParent: Inode, newName: string)
    requires TreeOk(t) && inode != ROOT && newParent < t.next
    requires !AtOrBelow(t.entries, newParent, inode)
    requires inode in t.entries ==> !t.entries[inode].kind.Storage?
    ensures TreeOk(Renamed(t, inode, newParent, newName))
  {
    if inode in t.entries {
      EvictedTree(t, newParent, newName, inode);
      var t' := Evicted(t, newParent, newName, inode);
      if inode in t'.entries {
        if AtOrBelow(t'.entries, newParent, inode) {
          var n: nat :| Up(t'.entries, newParent, n) == Some(inode);
          FewerEntriesFewerChains(t'.entries, t.entries, newParent, n);
        }
        MovedTree(t', inode, newParent, newName);
      }
    }
  }

  lemma SyncedOneTree(t: Table, parent: Inode, child: ChildInfo)
    requires TreeOk(t) && parent < t.next
    ensures TreeOk(SyncedOne(t, parent, child))
  {
    match Lookup(t, parent, child.name)
    case None => ObjectAddedTree(t, parent, child);
    case Some(ino) =>
      if ino in t.entries && t.entries[ino].IsDir() == child.isDir {
        RewrittenTree(t, ino, t.entries[ino].(
          kind := KindOf(child.isDir, child.handle), size := child.size, mtime := child.mtime,
          generation := t.generation));
      } else {
        RemovedTree(t, ino);
        ObjectAddedTree(Removed(t, ino), parent, child);
      }
  }

  lemma {:induction false} SyncedAllTree(t: Table, parent: Inode, children: seq<ChildInfo>)
    requires TreeOk(t) && parent < t.next
    ensures TreeOk(SyncedAll(t, parent, children))
  {
    if children != [] {
      var n := |children| - 1;
      SyncedAllTree(t, parent, children[..n]);
      SyncedAllAppears(t, parent, children[..n]);
      SyncedOneTree(SyncedAll(t, parent, children[..n]), parent, children[n]);
    }
  }

  lemma {:induction false} RemovedAllTree(t: Table, gone: seq<Inode>)
    requires TreeOk(t) && ROOT !in gone
    ensures TreeOk(RemovedAll(t, gone))
  {
    if gone != [] {
      RemovedAllTree(t, gone[..|gone| - 1]);
      RemovedTree(RemovedAll(t, gone[..|gone| - 1]), gone[|gone| - 1]);
    }
  }

  lemma SyncedTree(t: Table, parent: Inode, children: seq<ChildInfo>)
    requires TreeOk(t) && parent < t.next
    ensures TreeOk(Synced(t, parent, children))
  {
    var t' := SyncedAll(t, parent, children);
    SyncedAllTree(t, parent, children);
    GoneIs(t', Children(t', parent), children);
    assert parent in t'.kids ==> ListOk(t', parent);
    RemovedAllTree(t', Gone(t', Children(t', parent), children));
  }

  /** Only storage IDs differ. */
  ghost predicate SameButStorageIds(t: Table, t': Table) {
    && t'.names == t.names && t'.kids == t.kids && t'.next == t.next && t'.generation == t.generation
    && t'.entries.Keys == t.entries.Keys
    && forall i :: i in t.entries ==>
        t'.entries[i] == t.entries[i]
        || (t.entries[i].kind.Storage? && t'.entries[i].kind.Storage?
            && t'.entries[i] == t.entries[i].(kind := t'.entries[i].kind))
  }
}
