/** What inode tables satisfy: parent chains are finite, child lists and parents agree, and, directory
    by directory, names and entries agree. The lemmas here are about single aspects of single
    operations. */
module InodeInvariants {
  import opened Basics
  import opened Sequences
  import opened InodeTables

  ghost predicate EntriesOk(t: Table) {
    && ROOT in t.entries && t.entries[ROOT].kind.Root? && t.entries[ROOT].parent == ROOT
    && ROOT < t.next
    && forall i :: i in t.entries ==>
        && t.entries[i].inode == i && i < t.next && t.entries[i].parent < t.next
        && (t.entries[i].kind.Root? ==> i == ROOT)
        && (t.entries[i].kind.Storage? ==> t.entries[i].parent == ROOT)
  }

  ghost predicate NameOk(t: Table, key: (Inode, string)) {
    && key in t.names
    && t.names[key] in t.entries && t.names[key] != ROOT
    && t.entries[t.names[key]].parent == key.0 && t.entries[t.names[key]].name == key.1
  }

  ghost predicate Named(t: Table, i: Inode) {
    i in t.entries && Lookup(t, t.entries[i].parent, t.entries[i].name) == Some(i)
  }

  /** Below `p` the name index holds exactly the entries there, under their own names. */
  ghost predicate DirNames(t: Table, p: Inode) {
    && (forall n :: (p, n) in t.names ==> NameOk(t, (p, n)))
    && (forall i :: i in t.entries && i != ROOT && t.entries[i].parent == p ==> Named(t, i))
  }

  ghost predicate ListOk(t: Table, p: Inode) {
    && p in t.kids
    && NoDuplicates(t.kids[p])
    && forall c :: c in t.kids[p] ==> c in t.entries && c != ROOT && t.entries[c].parent == p
  }

  ghost predicate Listed(t: Table, i: Inode) {
    i in t.entries && (t.entries[i].parent in t.entries ==> i in Children(t, t.entries[i].parent))
  }

  /** Each listed child is live and names that parent; each entry is listed by its live parent. */
  ghost predicate KidsOk(t: Table) {
    && (forall p :: p in t.kids ==> ListOk(t, p))
    && (forall i :: i in t.entries && i != ROOT ==> Listed(t, i))
  }

  /** A parent ranks below its children. */
  ghost predicate RankOk(entries: map<Inode, Entry>, rank: map<Inode, nat>) {
    forall i :: i in entries ==>
      && i in rank
      && (i != ROOT && entries[i].parent in entries ==>
            entries[i].parent in rank && rank[entries[i].parent] < rank[i])
  }

  ghost predicate Acyclic(entries: map<Inode, Entry>) {
    exists rank :: RankOk(entries, rank)
  }

  /** Storages hang below the root and parent chains are finite: all that a walk up or down needs,
      which reads no index. */
  ghost predicate Walkable(t: Table) {
    EntriesOk(t) && Acyclic(t.entries)
  }

  /** No name leads to the root, so nothing that goes by a name can remove it. */
  ghost predicate RootUnnamed(t: Table) {
    forall key :: key in t.names ==> t.names[key] != ROOT
  }

  /** All that holds whatever has become of the name index. */
  ghost predicate TreeOk(t: Table) {
    Walkable(t) && KidsOk(t) && RootUnnamed(t)
  }

  ghost predicate DirInv(t: Table, p: Inode) {
    TreeOk(t) && DirNames(t, p)
  }

  /** The three indexes agree. */
  ghost predicate Inv(t: Table) {
    TreeOk(t) && forall p :: DirNames(t, p)
  }

  // ---------------------------------------------------------------------------------------
  // Single aspects

  lemma NewTableOk()
    ensures Inv(NewTable())
  {
    assert RankOk(NewTable().entries, map[ROOT := 0]);
  }

  lemma RemovedKids(t: Table, inode: Inode)
    requires KidsOk(t) && inode in t.entries && inode != ROOT
    ensures KidsOk(Removed(t, inode))
  {
    var t' := Removed(t, inode);
    var parent := t.entries[inode].parent;
    if parent in t.kids {
      WithoutNoDuplicates(t.kids[parent], inode);
    }
    forall i | i in t'.entries && i != ROOT
      ensures Listed(t', i)
    {
      assert Listed(t, i);
    }
    forall p | p in t'.kids
      ensures ListOk(t', p)
    {
      assert ListOk(t, p);
    }
  }

  /** Lists look at nothing but where an entry hangs. */
  lemma SameParentsKeepKids(t: Table, t': Table)
    requires KidsOk(t) && t'.kids == t.kids && t'.entries.Keys == t.entries.Keys
    requires forall i :: i in t.entries ==> t'.entries[i].parent == t.entries[i].parent
    ensures KidsOk(t')
  {
    forall i | i in t'.entries && i != ROOT
      ensures Listed(t', i)
    {
      assert Listed(t, i);
    }
    forall p | p in t'.kids
      ensures ListOk(t', p)
    {
      assert ListOk(t, p);
    }
  }

  /** An entry other than the root, with storages only below the root. */
  predicate FitsKind(entry: Entry) {
    !entry.kind.Root? && (entry.kind.Storage? ==> entry.parent == ROOT)
  }

  lemma PlacedAcyclic(t: Table, entry: Entry)
    requires EntriesOk(t) && Acyclic(t.entries) && entry.inode == t.next && entry.parent < t.next
    ensures Acyclic(t.entries[entry.inode := entry])
  {
    var rank :| RankOk(t.entries, rank);
    var above := if entry.parent in rank then rank[entry.parent] + 1 else 0;
    assert RankOk(t.entries[entry.inode := entry], rank[entry.inode := above]);
  }

  lemma PlacedKids(t: Table, entry: Entry)
    requires EntriesOk(t) && KidsOk(t) && entry.inode == t.next && entry.parent < t.next
    ensures KidsOk(Placed(t.(next := t.next + 1), entry))
  {
    var t' := Placed(t.(next := t.next + 1), entry);
    forall p | p in t'.kids
      ensures ListOk(t', p)
    {
      assert p in t.kids ==> ListOk(t, p);
      if p == entry.parent {
        NoDuplicatesSnoc(Children(t, p), entry.inode);
      }
    }
    forall i | i in t'.entries && i != ROOT
      ensures Listed(t', i)
    {
      if i != entry.inode {
        assert Listed(t, i);
      }
    }
  }

  lemma InsertedIs(t: Table, t': Table, entry: Entry)
    requires t' == Evicted(t, entry.parent, entry.name, entry.inode)
    ensures Inserted(t.(next := t.next + 1), entry) == Placed(t'.(next := t.next + 1), entry)
  {
  }

  /** The ancestor `n` parent links up from `i`, if the chain is that long. */
  ghost function Up(entries: map<Inode, Entry>, i: Inode, n: nat): Option<Inode>
    decreases n
  {
    if n == 0 then Some(i)
    else if i in entries && entries[i].parent != i then Up(entries, entries[i].parent, n - 1)
    else None
  }

  ghost predicate AtOrBelow(entries: map<Inode, Entry>, i: Inode, top: Inode) {
    exists n: nat :: Up(entries, i, n) == Some(top)
  }

  lemma AtOrBelowParent(entries: map<Inode, Entry>, i: Inode, top: Inode)
    requires i in entries && entries[i].parent != i && i != top
    ensures AtOrBelow(entries, i, top) <==> AtOrBelow(entries, entries[i].parent, top)
  {
    if AtOrBelow(entries, i, top) {
      var n: nat :| Up(entries, i, n) == Some(top);
      assert Up(entries, entries[i].parent, n - 1) == Some(top);
    }
    if AtOrBelow(entries, entries[i].parent, top) {
      var n: nat :| Up(entries, entries[i].parent, n) == Some(top);
      assert Up(entries, i, n + 1) == Some(top);
    }
  }

  /** Taking entries away only cuts chains short. */
  lemma {:induction false} FewerEntriesFewerChains(
    fewer: map<Inode, Entry>, entries: map<Inode, Entry>, i: Inode, n: nat)
    requires fewer.Keys <= entries.Keys && forall k :: k in fewer ==> fewer[k] == entries[k]
    ensures Up(fewer, i, n) != None ==> Up(entries, i, n) == Up(fewer, i, n)
    decreases n
  {
    if n > 0 && i in fewer && fewer[i].parent != i {
      FewerEntriesFewerChains(fewer, entries, fewer[i].parent, n - 1);
    }
  }

  /** Re-hanging an entry (with all below it) under a parent that is not at or below it keeps
      every chain finite: the moved part is ranked above its new parent. */
  lemma MoveKeepsAcyclic(entries: map<Inode, Entry>, inode: Inode, entry: Entry)
    requires Acyclic(entries) && inode in entries && inode != ROOT
    requires forall i :: i in entries && i != ROOT ==> entries[i].parent != i
    requires !AtOrBelow(entries, entry.parent, inode)
    ensures Acyclic(entries[inode := entry])
  {
    var rank :| RankOk(entries, rank);
    var entries' := entries[inode := entry];
    var lift := if entry.parent in rank then rank[entry.parent] + 1 else 0;
    var rank' := map i | i in rank ::
      if AtOrBelow(entries, i, inode) then rank[i] + lift else rank[i];
    forall i | i in entries'
      ensures i in rank'
      ensures i != ROOT && entries'[i].parent in entries' ==>
          entries'[i].parent in rank' && rank'[entries'[i].parent] < rank'[i]
    {
      if i == inode {
        assert Up(entries, i, 0) == Some(inode);
      } else if i != ROOT {
        AtOrBelowParent(entries, i, inode);
      }
    }
    assert RankOk(entries', rank');
  }

  lemma NoSelfParent(t: Table)
    requires Acyclic(t.entries)
    ensures forall i :: i in t.entries && i != ROOT ==> t.entries[i].parent != i
  {
    var rank :| RankOk(t.entries, rank);
  }

  lemma MovedKids(t: Table, inode: Inode, newParent: Inode, newName: string)
    requires KidsOk(t) && inode in t.entries && inode != ROOT
    ensures KidsOk(Moved(t, inode, newParent, newName))
  {
    var t' := Moved(t, inode, newParent, newName);
    var oldParent := t.entries[inode].parent;
    if oldParent in t.kids {
      WithoutNoDuplicates(t.kids[oldParent], inode);
    }
    forall p | p in t'.kids
      ensures ListOk(t', p)
    {
      assert p in t.kids ==> ListOk(t, p);
      if p == newParent {
        var rest := if p == oldParent then Without(Children(t, p), inode) else Children(t, p);
        NoDuplicatesSnoc(rest, inode);
      }
    }
    forall i | i in t'.entries && i != ROOT
      ensures Listed(t', i)
    {
      assert Listed(t, i);
    }
  }

  /** Eviction takes the holder of one name, if it is not the one to keep, and nothing else. */
  lemma EvictionTakesHolder(t: Table, parent: Inode, name: string, keep: Inode)
    requires DirInv(t, parent)
    ensures var t' := Evicted(t, parent, name, keep);
      && t'.next == t.next && t'.generation == t.generation
      && (forall i :: i in t'.entries <==>
            i in t.entries && (i == keep || Lookup(t, parent, name) != Some(i)))
      && (forall i :: i in t'.entries ==> t'.entries[i] == t.entries[i])
    ensures var t' := Evicted(t, parent, name, keep);
      forall p: Inode, n: string :: Lookup(t', p, n) ==
        if (p, n) == (parent, name) && Lookup(t, p, n) != Some(keep) then None else Lookup(t, p, n)
  {
    if Lookup(t, parent, name).Some? {
      assert NameOk(t, (parent, name));
    }
  }

  lemma MoveChangesPlace(t: Table, inode: Inode, newParent: Inode, newName: string)
    requires inode in t.entries
    ensures var t' := Moved(t, inode, newParent, newName);
      && t'.next == t.next && t'.generation == t.generation
      && t'.entries == t.entries[inode := t.entries[inode].(parent := newParent, name := newName)]
      && forall p: Inode, n: string :: Lookup(t', p, n) ==
           if (p, n) == (newParent, newName) then Some(inode)
           else if (p, n) == (t.entries[inode].parent, t.entries[inode].name) then None
           else Lookup(t, p, n)
  {
  }

  /** What a rename does and does not touch: the entry keeps all but its place; whoever held the
      new name is gone; every other entry, and every name but the old and the new one, stays. */
  lemma RenameMovesOneEntry(t: Table, t': Table, inode: Inode, newParent: Inode, newName: string)
    requires DirInv(t, newParent) && inode in t.entries && inode != ROOT
    requires t' == Renamed(t, inode, newParent, newName)
    ensures t'.next == t.next && t'.generation == t.generation
    ensures inode in t'.entries
      && t'.entries[inode] == t.entries[inode].(parent := newParent, name := newName)
    ensures forall i :: i != inode ==>
        && (i in t'.entries <==> i in t.entries && Lookup(t, newParent, newName) != Some(i))
        && (i in t'.entries ==> t'.entries[i] == t.entries[i])
    ensures forall p: Inode, n: string ::
        Lookup(t', p, n) ==
        if (p, n) == (newParent, newName) then Some(inode)
        else if (p, n) == (t.entries[inode].parent, t.entries[inode].name) then None
        else Lookup(t, p, n)
  {
    EvictionTakesHolder(t, newParent, newName, inode);
    MoveChangesPlace(Evicted(t, newParent, newName, inode), inode, newParent, newName);
  }

  /** What an addition does and does not touch: the new entry takes the name, whoever held it is
      gone, and every other entry and name stays. */
  lemma AdditionReplacesHolder(t: Table, parent: Inode, child: ChildInfo)
    requires DirInv(t, parent)
    ensures var t' := ObjectAdded(t, parent, child);
      && t.next in t'.entries && t'.entries[t.next] == NewObject(t, parent, child)
      && (forall i :: i != t.next ==>
            (i in t'.entries <==> i in t.entries && Lookup(t, parent, child.name) != Some(i))
            && (i in t'.entries ==> t'.entries[i] == t.entries[i]))
    ensures var t' := ObjectAdded(t, parent, child);
      forall p: Inode, n: string :: Lookup(t', p, n) ==
        if (p, n) == (parent, child.name) then Some(t.next) else Lookup(t, p, n)
  {
    if Lookup(t, parent, child.name).Some? {
      assert NameOk(t, (parent, child.name));
    }
  }

  /** Only numbers never handed out before have appeared. */
  ghost predicate OnlyNewAppear(t: Table, t': Table) {
    && t.next <= t'.next && t'.generation == t.generation
    && forall i :: i in t'.entries ==> i in t.entries || t.next <= i
  }

  lemma SyncedOneAppears(t: Table, parent: Inode, child: ChildInfo)
    ensures OnlyNewAppear(t, SyncedOne(t, parent, child))
  {
  }

  lemma {:induction false} SyncedAllAppears(t: Table, parent: Inode, children: seq<ChildInfo>)
    ensures OnlyNewAppear(t, SyncedAll(t, parent, children))
  {
    if children != [] {
      var n := |children| - 1;
      SyncedAllAppears(t, parent, children[..n]);
      SyncedOneAppears(SyncedAll(t, parent, children[..n]), parent, children[n]);
    }
  }

  lemma {:induction false} RemovedAllEntries(t: Table, gone: seq<Inode>)
    ensures var t' := RemovedAll(t, gone);
      && t'.next == t.next && t'.generation == t.generation
      && (forall i :: i in t'.entries <==> i in t.entries && i !in gone)
      && (forall i :: i in t'.entries ==> t'.entries[i] == t.entries[i])
  {
    if gone != [] {
      var n := |gone| - 1;
      RemovedAllEntries(t, gone[..n]);
      assert forall i :: i in gone <==> i in gone[..n] || i == gone[n];
    }
  }

  /** The children to remove are exactly the listed ones whose name is not reported. */
  lemma {:induction false} GoneIs(t: Table, listed: seq<Inode>, children: seq<ChildInfo>)
    ensures forall i :: i in Gone(t, listed, children) <==>
        i in listed && i in t.entries && !Reports(children, t.entries[i].name)
  {
    if listed != [] {
      var n := |listed| - 1;
      GoneIs(t, listed[..n], children);
      assert forall i :: i in listed <==> i in listed[..n] || i == listed[n];
    }
  }
}
