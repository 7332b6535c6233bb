/** The name index, directory by directory: what keeps the names below one directory in agreement with
    its entries, whatever has become of the names below others. */
module DirectoryNames {
  import opened Basics
  import opened InodeTables
  import opened InodeInvariants
  import opened TreeInvariants

  /** A removal takes the entry and its name, and nothing else that can be looked up. */
  lemma RemovedLookup(t: Table, inode: Inode, parent: Inode, name: string)
    requires DirNames(t, parent) && inode != ROOT
    ensures Lookup(Removed(t, inode), parent, name) ==
        if Lookup(t, parent, name) == Some(inode) then None else Lookup(t, parent, name)
  {
    if (parent, name) in t.names {
      assert NameOk(t, (parent, name));
    }
    if inode in t.entries && t.entries[inode].parent == parent {
      assert Named(t, inode);
    }
  }

  lemma RemovedDir(t: Table, inode: Inode, p: Inode)
    requires DirNames(t, p) && inode != ROOT
    ensures DirNames(Removed(t, inode), p)
  {
    var t' := Removed(t, inode);
    if inode in t.entries && t.entries[inode].parent == p {
      assert Named(t, inode);
    }
    forall n | (p, n) in t'.names
      ensures NameOk(t', (p, n))
    {
      assert NameOk(t, (p, n));
    }
    forall i | i in t'.entries && i != ROOT && t'.entries[i].parent == p
      ensures Named(t', i)
    {
      assert Named(t, i);
    }
  }

  /** Evicting leaves the name free, unless its holder is the one to keep. */
  lemma EvictedDir(t: Table, parent: Inode, name: string, keep: Inode, p: Inode)
    requires RootUnnamed(t) && DirNames(t, p)
    ensures var t' := Evicted(t, parent, name, keep);
      && DirNames(t', p)
      && (p == parent ==> Lookup(t', p, name) == None || Lookup(t', p, name) == Some(keep))
  {
    if Lookup(t, parent, name).Some? && Lookup(t, parent, name).value != keep {
      RemovedDir(t, Lookup(t, parent, name).value, p);
      if p == parent {
        RemovedLookup(t, Lookup(t, parent, name).value, p, name);
      }
    }
  }

  lemma PlacedDir(t: Table, t': Table, entry: Entry, p: Inode)
    requires DirNames(t, p) && entry.inode !in t.entries && entry.inode != ROOT
    requires entry.parent == p ==> Lookup(t, p, entry.name) == None
    requires t' == Placed(t.(next := t.next + 1), entry)
    ensures DirNames(t', p)
  {
    forall n | (p, n) in t'.names
      ensures NameOk(t', (p, n))
    {
      if (p, n) != (entry.parent, entry.name) {
        assert NameOk(t, (p, n));
      }
    }
    forall i | i in t'.entries && i != ROOT && t'.entries[i].parent == p
      ensures Named(t', i)
    {
      if i != entry.inode {
        assert Named(t, i);
      }
    }
  }

  /** A new entry under a number that was never handed out. */
  lemma InsertedDir(t: Table, t': Table, entry: Entry, p: Inode)
    requires DirInv(t, p) && entry.inode == t.next
    requires t' == Inserted(t.(next := t.next + 1), entry)
    ensures DirNames(t', p)
  {
    var evicted := Evicted(t, entry.parent, entry.name, entry.inode);
    InsertedIs(t, evicted, entry);
    EvictedTree(t, entry.parent, entry.name, entry.inode);
    EvictedDir(t, entry.parent, entry.name, entry.inode, p);
    PlacedDir(evicted, t', entry, p);
  }

  lemma ObjectAddedDir(t: Table, parent: Inode, child: ChildInfo, p: Inode)
    requires DirInv(t, p)
    ensures DirNames(ObjectAdded(t, parent, child), p)
  {
    InsertedDir(t, ObjectAdded(t, parent, child), NewObject(t, parent, child), p);
  }

  lemma StorageAddedDir(t: Table, storageId: StorageId, name: string, now: Time, p: Inode)
    requires DirInv(t, p)
    ensures DirNames(StorageAdded(t, storageId, name, now), p)
  {
    InsertedDir(t, StorageAdded(t, storageId, name, now), Entry(
      t.next, ROOT, name, Storage(storageId), 0, now, now, t.generation), p);
  }

  /** Names look at nothing but where an entry hangs and what it is called. */
  lemma SameNamesKeepDir(t: Table, t': Table, p: Inode)
    requires DirNames(t, p) && t'.names == t.names && t'.entries.Keys == t.entries.Keys
    requires forall i :: i in t.entries ==>
        && t'.entries[i].parent == t.entries[i].parent
        && (t.entries[i].parent == p ==> t'.entries[i].name == t.entries[i].name)
    ensures DirNames(t', p)
  {
    forall n | (p, n) in t'.names
      ensures NameOk(t', (p, n))
    {
      assert NameOk(t, (p, n));
    }
    forall i | i in t'.entries && i != ROOT && t'.entries[i].parent == p
      ensures Named(t', i)
    {
      assert Named(t, i);
    }
  }

  lemma RewrittenDir(t: Table, inode: Inode, entry: Entry, p: Inode)
    requires DirNames(t, p) && inode in t.entries && entry.parent == t.entries[inode].parent
    requires entry.parent == p ==> entry.name == t.entries[inode].name
    ensures DirNames(t.(entries := t.entries[inode := entry]), p)
  {
    SameNamesKeepDir(t, t.(entries := t.entries[inode := entry]), p);
  }

  lemma BumpedDir(t: Table, p: Inode)
    requires DirNames(t, p)
    ensures DirNames(Bumped(t), p)
  {
    SameNamesKeepDir(t, Bumped(t), p);
  }

  lemma HandleSetDir(t: Table, inode: Inode, handle: ObjectHandle, p: Inode)
    requires DirNames(t, p)
    ensures DirNames(HandleSet(t, inode, handle), p)
  {
    SameNamesKeepDir(t, HandleSet(t, inode, handle), p);
  }

  lemma StorageIdSetDir(t: Table, inode: Inode, storageId: StorageId, p: Inode)
    requires DirNames(t, p)
    ensures DirNames(StorageIdSet(t, inode, storageId), p)
  {
    SameNamesKeepDir(t, StorageIdSet(t, inode, storageId), p);
  }

  lemma MovedDir(t: Table, inode: Inode, newParent: Inode, newName: string, p: Inode)
    requires DirNames(t, p) && inode in t.entries && inode != ROOT
    requires p == newParent ==> Lookup(t, p, newName) == None || Lookup(t, p, newName) == Some(inode)
    ensures DirNames(Moved(t, inode, newParent, newName), p)
  {
    var t' := Moved(t, inode, newParent, newName);
    if t.entries[inode].parent == p {
      assert Named(t, inode);
    }
    forall n | (p, n) in t'.names
      ensures NameOk(t', (p, n))
    {
      if (p, n) != (newParent, newName) {
        assert NameOk(t, (p, n));
      }
    }
    forall i | i in t'.entries && i != ROOT && t'.entries[i].parent == p
      ensures Named(t', i)
    {
      if i != inode {
        assert Named(t, i);
      }
    }
  }

  lemma RenamedDir(t: Table, inode: Inode, newParent: Inode, newName: string, p: Inode)
    requires RootUnnamed(t) && DirNames(t, p) && inode != ROOT
    ensures DirNames(Renamed(t, inode, newParent, newName), p)
  {
    if inode in t.entries {
      EvictedDir(t, newParent, newName, inode, p);
      var t' := Evicted(t, newParent, newName, inode);
      if inode in t'.entries {
        MovedDir(t', inode, newParent, newName, p);
      }
    }
  }

  lemma SyncedOneDir(t: Table, parent: Inode, child: ChildInfo, p: Inode)
    requires DirInv(t, p) && parent < t.next
    ensures DirNames(SyncedOne(t, parent, child), p)
  {
    match Lookup(t, parent, child.name)
    case None => ObjectAddedDir(t, parent, child, p);
    case Some(ino) =>
      if ino in t.entries && t.entries[ino].IsDir() == child.isDir {
        RewrittenDir(t, ino, t.entries[ino].(
          kind := KindOf(child.isDir, child.handle), size := child.size, mtime := child.mtime,
          generation := t.generation), p);
      } else {
        RemovedTree(t, ino);
        RemovedDir(t, ino, p);
        ObjectAddedDir(Removed(t, ino), parent, child, p);
      }
  }

  lemma {:induction false} SyncedAllDir(t: Table, parent: Inode, children: seq<ChildInfo>, p: Inode)
    requires DirInv(t, p) && parent < t.next
    ensures DirInv(SyncedAll(t, parent, children), p)
  {
    SyncedAllTree(t, parent, children);
    if children != [] {
      var n := |children| - 1;
      SyncedAllDir(t, parent, children[..n], p);
      SyncedAllAppears(t, parent, children[..n]);
      SyncedOneDir(SyncedAll(t, parent, children[..n]), parent, children[n], p);
    }
  }

  lemma {:induction false} RemovedAllDir(t: Table, gone: seq<Inode>, p: Inode)
    requires DirInv(t, p) && ROOT !in gone
    ensures DirInv(RemovedAll(t, gone), p)
  {
    RemovedAllTree(t, gone);
    if gone != [] {
      RemovedAllDir(t, gone[..|gone| - 1], p);
      RemovedDir(RemovedAll(t, gone[..|gone| - 1]), gone[|gone| - 1], p);
    }
  }

  lemma SyncedDir(t: Table, parent: Inode, children: seq<ChildInfo>, p: Inode)
    requires DirInv(t, p) && parent < t.next
    ensures DirInv(Synced(t, parent, children), p)
  {
    var t' := SyncedAll(t, parent, children);
    SyncedAllDir(t, parent, children, p);
    GoneIs(t', Children(t', parent), children);
    assert parent in t'.kids ==> ListOk(t', parent);
    RemovedAllDir(t', Gone(t', Children(t', parent), children), p);
  }

  // ---------------------------------------------------------------------------------------
  // The write that goes around the index

  /** Writing an entry's name in place keeps the names of a directory in agreement exactly when the
      entry hangs elsewhere or keeps its name. */
  lemma OverwriteKeepsDirIff(
    t: Table, inode: Inode, name: string, handle: ObjectHandle, size: nat, mtime: Time, p: Inode)
    requires DirInv(t, p) && inode in t.entries && inode != ROOT
    ensures DirNames(Overwritten(t, inode, name, handle, size, mtime), p)
        <==> t.entries[inode].parent != p || name == t.entries[inode].name
  {
    var entry := t.entries[inode];
    var t' := Overwritten(t, inode, name, handle, size, mtime);
    if entry.parent != p || name == entry.name {
      RewrittenDir(t, inode, t'.entries[inode], p);
    } else {
      assert Named(t, inode);
      assert !NameOk(t', (p, entry.name));
    }
  }

  /** All indexes agree afterwards exactly when the name is the one the entry had. */
  lemma OverwriteKeepsIffSameName(
    t: Table, inode: Inode, name: string, handle: ObjectHandle, size: nat, mtime: Time)
    requires Inv(t) && inode in t.entries && inode != ROOT
    ensures Inv(Overwritten(t, inode, name, handle, size, mtime)) <==> name == t.entries[inode].name
  {
    var t' := Overwritten(t, inode, name, handle, size, mtime);
    OverwrittenTree(t, inode, name, handle, size, mtime);
    forall p
      ensures DirNames(t', p) <==> t.entries[inode].parent != p || name == t.entries[inode].name
    {
      OverwriteKeepsDirIff(t, inode, name, handle, size, mtime, p);
    }
    assert !DirNames(t', t.entries[inode].parent) || name == t.entries[inode].name;
  }
}
