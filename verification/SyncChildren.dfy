/** `sync_children` replaces a directory by what the device reports for it (src/inode.rs). */
module Listings {
  import opened Basics
  import opened InodeTables
  import opened InodeInvariants
  import opened TreeInvariants
  import opened DirectoryNames

  /** The last report under a name. */
  function LastReport(children: seq<ChildInfo>, name: string): (r: Option<ChildInfo>)
    ensures r.Some? <==> Reports(children, name)
    ensures r.Some? ==> r.value in children && r.value.name == name
  {
    if children == [] then None
    else
      var n := |children| - 1;
      if children[n].name == name then Some(children[n])
      else
        var rest := LastReport(children[..n], name);
        assert Reports(children[..n], name) ==> Reports(children, name) by {
          assert forall k :: 0 <= k < n ==> children[..n][k] == children[k];
        }
        rest
  }

  /** Every report under the name is of the given kind. */
  ghost predicate AllOfKind(children: seq<ChildInfo>, name: string, isDir: bool) {
    forall k :: 0 <= k < |children| && children[k].name == name ==> children[k].isDir == isDir
  }

  /** The entry carries what the report says, resolved in this session. */
  predicate Carries(entry: Entry, report: ChildInfo, parent: Inode, generation: nat) {
    && entry.parent == parent && entry.name == report.name
    && entry.kind == KindOf(report.isDir, report.handle)
    && entry.size == report.size && entry.mtime == report.mtime
    && entry.generation == generation
  }

  /** The old holder of the name is kept: it was there and no report disagrees with its kind. */
  ghost predicate KeepsNumber(t: Table, parent: Inode, children: seq<ChildInfo>, name: string) {
    && Lookup(t, parent, name).Some? && Lookup(t, parent, name).value in t.entries
    && AllOfKind(children, name, t.entries[Lookup(t, parent, name).value].IsDir())
  }

  /** What has become of a name of the directory once `children` have been worked through. */
  ghost predicate NameSynced(t: Table, t': Table, parent: Inode, children: seq<ChildInfo>, name: string) {
    match LastReport(children, name)
    case None => SameUnder(t, t', parent, name)
    case Some(report) =>
      && Lookup(t', parent, name).Some?
      && var i := Lookup(t', parent, name).value;
      && i in t'.entries && Carries(t'.entries[i], report, parent, t.generation)
      && (if KeepsNumber(t, parent, children, name) then Some(i) == Lookup(t, parent, name) else t.next <= i)
  }

  /** The name is held by the same entry, unchanged. */
  ghost predicate SameUnder(t: Table, t': Table, parent: Inode, name: string) {
    && Lookup(t', parent, name) == Lookup(t, parent, name)
    && (Lookup(t, parent, name).Some? ==>
          var i := Lookup(t, parent, name).value;
          i in t.entries && i in t'.entries && t'.entries[i] == t.entries[i])
  }

  /** Entries that do not hang under `parent` are the same ones, unchanged. */
  ghost predicate OthersSame(t: Table, t': Table, parent: Inode) {
    && (forall i :: i in t.entries && (i == ROOT || t.entries[i].parent != parent) ==>
          i in t'.entries && t'.entries[i] == t.entries[i])
    && (forall i :: i in t'.entries && (i == ROOT || t'.entries[i].parent != parent) ==>
          i in t.entries && t'.entries[i] == t.entries[i])
  }

  ghost predicate Progress(t: Table, t': Table, parent: Inode, children: seq<ChildInfo>) {
    && DirInv(t, parent) && DirInv(t', parent) && parent in t.entries
    && t.next <= t'.next && t'.generation == t.generation
    && OthersSame(t, t', parent)
    && NamesSynced(t, t', parent, children)
  }

  lemma AddedEffect(t: Table, parent: Inode, child: ChildInfo)
    requires Lookup(t, parent, child.name) == None
    ensures var t' := ObjectAdded(t, parent, child);
      && t'.entries == t.entries[t.next := NewObject(t, parent, child)]
      && t'.next == t.next + 1 && t'.generation == t.generation
      && t'.names == t.names[(parent, child.name) := t.next]
  {
  }

  lemma HolderHangsThere(t: Table, parent: Inode, name: string)
    requires DirNames(t, parent) && Lookup(t, parent, name).Some?
    ensures var i := Lookup(t, parent, name).value;
      i in t.entries && i != ROOT && t.entries[i].parent == parent && t.entries[i].name == name
  {
    assert NameOk(t, (parent, name));
  }

  /** Two names of one directory are never held by the same entry. */
  lemma HoldersDiffer(t: Table, parent: Inode, name: string, name': string)
    requires DirNames(t, parent) && name != name' && Lookup(t, parent, name).Some?
    ensures Lookup(t, parent, name) != Lookup(t, parent, name')
  {
    HolderHangsThere(t, parent, name);
    if Lookup(t, parent, name').Some? {
      HolderHangsThere(t, parent, name');
    }
  }

  /** One report moves its own name on and leaves the others. */
  lemma OneReport(t: Table, parent: Inode, child: ChildInfo, name: string)
    requires DirInv(t, parent) && parent < t.next
    ensures var t' := SyncedOne(t, parent, child);
      name != child.name ==> SameUnder(t, t', parent, name)
    ensures var t' := SyncedOne(t, parent, child);
      && Lookup(t', parent, child.name).Some?
      && var i := Lookup(t', parent, child.name).value;
      && i in t'.entries && Carries(t'.entries[i], child, parent, t.generation)
      && match Lookup(t, parent, child.name) {
           case None => i == t.next
           case Some(holder) =>
             holder in t.entries
             && i == if t.entries[holder].IsDir() == child.isDir then holder else t.next
         }
  {
    if Lookup(t, parent, name).Some? {
      HolderHangsThere(t, parent, name);
      if name != child.name {
        HoldersDiffer(t, parent, name, child.name);
      }
    }
    match Lookup(t, parent, child.name) {
      case None => AddedEffect(t, parent, child);
      case Some(holder) =>
        HolderHangsThere(t, parent, child.name);
        if t.entries[holder].IsDir() != child.isDir {
          RemovedLookup(t, holder, parent, child.name);
          RemovedLookup(t, holder, parent, name);
          AddedEffect(Removed(t, holder), parent, child);
        }
    }
  }

  lemma OneReportLeavesOthers(t: Table, parent: Inode, child: ChildInfo)
    requires DirInv(t, parent) && parent < t.next
    ensures var t' := SyncedOne(t, parent, child);
      OthersSame(t, t', parent) && t.next <= t'.next && t'.generation == t.generation
  {
    match Lookup(t, parent, child.name) {
      case None => AddedEffect(t, parent, child);
      case Some(holder) =>
        HolderHangsThere(t, parent, child.name);
        if t.entries[holder].IsDir() != child.isDir {
          RemovedLookup(t, holder, parent, child.name);
          AddedEffect(Removed(t, holder), parent, child);
        }
    }
  }

  lemma NameStep(t: Table, t': Table, parent: Inode, children: seq<ChildInfo>, child: ChildInfo, name: string)
    requires DirInv(t, parent) && DirInv(t', parent) && parent < t'.next && t.next <= t'.next && t'.generation == t.generation
    requires NameSynced(t, t', parent, children, name)
    ensures NameSynced(t, SyncedOne(t', parent, child), parent, children + [child], name)
  {
    var all := children + [child];
    assert all[..|children|] == children;
    OneReport(t', parent, child, name);
    if name == child.name {
      if Lookup(t, parent, name).Some? {
        HolderHangsThere(t, parent, name);
      }
      AllOfKindSnoc(children, child, name);
      if LastReport(children, name) == None {
        assert !Reports(children, name);
      }
    } else {
      AllOfKindOther(children, child, name);
    }
  }

  lemma AllOfKindSnoc(children: seq<ChildInfo>, child: ChildInfo, name: string)
    requires child.name == name
    ensures forall isDir ::
        AllOfKind(children + [child], name, isDir) <==> AllOfKind(children, name, isDir) && child.isDir == isDir
  {
    forall isDir
      ensures AllOfKind(children + [child], name, isDir) <==> AllOfKind(children, name, isDir) && child.isDir == isDir
    {
      if AllOfKind(children + [child], name, isDir) {
        assert (children + [child])[|children|] == child;
        assert forall k :: 0 <= k < |children| ==> (children + [child])[k] == children[k];
      }
    }
  }

  lemma AllOfKindOther(children: seq<ChildInfo>, child: ChildInfo, name: string)
    requires child.name != name
    ensures forall isDir :: AllOfKind(children + [child], name, isDir) <==> AllOfKind(children, name, isDir)
  {
    forall isDir
      ensures AllOfKind(children + [child], name, isDir) <==> AllOfKind(children, name, isDir)
    {
      assert forall k :: 0 <= k < |children| ==> (children + [child])[k] == children[k];
    }
  }

  ghost predicate NamesSynced(t: Table, t': Table, parent: Inode, children: seq<ChildInfo>) {
    forall name :: NameSynced(t, t', parent, children, name)
  }

  lemma NamesStep(t: Table, t': Table, parent: Inode, children: seq<ChildInfo>, child: ChildInfo)
    requires DirInv(t, parent) && DirInv(t', parent) && parent < t'.next && t.next <= t'.next && t'.generation == t.generation
    requires NamesSynced(t, t', parent, children)
    ensures NamesSynced(t, SyncedOne(t', parent, child), parent, children + [child])
  {
    forall name
      ensures NameSynced(t, SyncedOne(t', parent, child), parent, children + [child], name)
    {
      NameStep(t, t', parent, children, child, name);
    }
  }

  lemma OthersStep(t: Table, t': Table, t'': Table, parent: Inode)
    requires OthersSame(t, t', parent) && OthersSame(t', t'', parent)
    ensures OthersSame(t, t'', parent)
  {
  }

  lemma ReportStep(t: Table, t': Table, parent: Inode, children: seq<ChildInfo>, child: ChildInfo)
    requires Progress(t, t', parent, children)
    ensures Progress(t, SyncedOne(t', parent, child), parent, children + [child])
  {
    OneReportLeavesOthers(t', parent, child);
    OthersStep(t, t', SyncedOne(t', parent, child), parent);
    SyncedOneTree(t', parent, child);
    SyncedOneDir(t', parent, child, parent);
    NamesStep(t, t', parent, children, child);
  }

  lemma {:induction false} AllReports(t: Table, parent: Inode, children: seq<ChildInfo>)
    requires DirInv(t, parent) && parent in t.entries
    ensures Progress(t, SyncedAll(t, parent, children), parent, children)
  {
    if children == [] {
      forall name
        ensures NameSynced(t, t, parent, [], name)
      {
        if Lookup(t, parent, name).Some? {
          HolderHangsThere(t, parent, name);
        }
      }
    } else {
      var n := |children| - 1;
      assert children == children[..n] + [children[n]];
      AllReports(t, parent, children[..n]);
      ReportStep(t, SyncedAll(t, parent, children[..n]), parent, children[..n], children[n]);
    }
  }

  lemma GoneHangUnder(t: Table, parent: Inode, children: seq<ChildInfo>)
    requires TreeOk(t)
    ensures forall i :: i in Gone(t, Children(t, parent), children) ==>
        i != ROOT && i in t.entries && t.entries[i].parent == parent && !Reports(children, t.entries[i].name)
    ensures forall i | i in t.entries && i != ROOT && parent in t.entries && t.entries[i].parent == parent
      && !Reports(children, t.entries[i].name) :: i in Gone(t, Children(t, parent), children)
  {
    GoneIs(t, Children(t, parent), children);
    if parent in t.kids {
      assert ListOk(t, parent);
    }
    forall i | i in t.entries && i != ROOT && parent in t.entries && t.entries[i].parent == parent
      ensures i in Children(t, parent)
    {
      assert Listed(t, i);
    }
  }

  lemma {:induction false} RemovedAllLookup(t: Table, gone: seq<Inode>, parent: Inode, name: string)
    requires DirInv(t, parent) && ROOT !in gone
    ensures Lookup(RemovedAll(t, gone), parent, name)
         == if Lookup(t, parent, name).Some? && Lookup(t, parent, name).value in gone then None
            else Lookup(t, parent, name)
  {
    if gone != [] {
      var n := |gone| - 1;
      RemovedAllLookup(t, gone[..n], parent, name);
      RemovedAllDir(t, gone[..n], parent);
      RemovedLookup(RemovedAll(t, gone[..n]), gone[n], parent, name);
      assert forall i :: i in gone <==> i in gone[..n] || i == gone[n];
    }
  }

  /** One name of the directory afterwards: it is there exactly if the device reported it; its
      entry carries the last report under that name, fresh and listed; and it keeps its inode
      number exactly if it had one and every report under the name agrees with the old kind, and
      gets a new number otherwise. */
  ghost predicate NameReplaced(t: Table, t': Table, parent: Inode, children: seq<ChildInfo>, name: string) {
    && (Lookup(t', parent, name).Some? <==> Reports(children, name))
    && (Reports(children, name) ==>
          var i := Lookup(t', parent, name).value;
          && i in t'.entries && Carries(t'.entries[i], LastReport(children, name).value, parent, t.generation)
          && i in Children(t', parent) && Fresh(t', i)
          && (if KeepsNumber(t, parent, children, name) then Some(i) == Lookup(t, parent, name) else t.next <= i))
  }

  /** The directory now is what the device reported, and nothing outside it has changed. */
  ghost predicate Replaced(t: Table, t': Table, parent: Inode, children: seq<ChildInfo>) {
    && DirInv(t', parent) && parent in t'.entries && t.next <= t'.next && t'.generation == t.generation
    && OthersSame(t, t', parent)
    && forall name :: NameReplaced(t, t', parent, children, name)
  }

  /** `sync_children` on a live directory whose names agree with its entries replaces it by the listing,
      whatever has become of the names of other directories. */
  lemma SyncReplacesDirectory(t: Table, parent: Inode, children: seq<ChildInfo>)
    requires DirInv(t, parent) && parent in t.entries
    ensures Replaced(t, Synced(t, parent, children), parent, children)
  {
    var mid := SyncedAll(t, parent, children);
    var gone := Gone(mid, Children(mid, parent), children);
    AllReports(t, parent, children);
    GoneHangUnder(mid, parent, children);
    RemovedAllDir(mid, gone, parent);
    RemovedAllEntries(mid, gone);
    ParentSurvives(t, mid, parent);
    OthersStep(t, mid, Synced(t, parent, children), parent);
    forall name
      ensures NameReplaced(t, Synced(t, parent, children), parent, children, name)
    {
      RemovalReplaces(t, mid, parent, children, gone, name);
    }
  }

  /** The second loop: what was not reported goes, the rest stays. */
  lemma RemovalReplaces(
    t: Table, mid: Table, parent: Inode, children: seq<ChildInfo>, gone: seq<Inode>, name: string)
    requires Progress(t, mid, parent, children) && parent in mid.entries
    requires forall i | i in gone ::
        i != ROOT && i in mid.entries && mid.entries[i].parent == parent && !Reports(children, mid.entries[i].name)
    requires forall i | i in mid.entries && i != ROOT && mid.entries[i].parent == parent
        && !Reports(children, mid.entries[i].name) :: i in gone
    requires parent !in gone
    ensures NameReplaced(t, RemovedAll(mid, gone), parent, children, name)
  {
    var t' := RemovedAll(mid, gone);
    assert NameSynced(t, mid, parent, children, name);
    RemovedAllDir(mid, gone, parent);
    RemovedAllEntries(mid, gone);
    RemovedAllLookup(mid, gone, parent, name);
    if Lookup(mid, parent, name).Some? {
      HolderHangsThere(mid, parent, name);
    }
    if Lookup(t', parent, name).Some? {
      HolderHangsThere(t', parent, name);
      assert Listed(t', Lookup(t', parent, name).value);
    }
  }

  lemma ParentSurvives(t: Table, t': Table, parent: Inode)
    requires TreeOk(t) && parent in t.entries && OthersSame(t, t', parent)
    ensures parent in t'.entries && (parent == ROOT || t'.entries[parent].parent != parent)
  {
    NoSelfParent(t);
  }

  /** Each reported name is listed once: two listed children never share a name. */
  lemma ListedNamesDiffer(t: Table, parent: Inode, k: nat, l: nat)
    requires DirInv(t, parent) && k < l < |Children(t, parent)|
    ensures var i, j := Children(t, parent)[k], Children(t, parent)[l];
      i in t.entries && j in t.entries && t.entries[i].name != t.entries[j].name
  {
    assert ListOk(t, parent);
    var i, j := t.kids[parent][k], t.kids[parent][l];
    assert Named(t, i) && Named(t, j);
  }

  // ---------------------------------------------------------------------------------------
  // What the write behind the index leads to

  /** The entry under another name, with no index following. */
  function Misnamed(t: Table, inode: Inode, name: string): Table
    requires inode in t.entries
  {
    t.(entries := t.entries[inode := t.entries[inode].(name := name)])
  }

  /** The file goes by its own name and stands under this directory. */
  ghost predicate StandsIn(t: Table, inode: Inode, parent: Inode, name: string) {
    && DirInv(t, parent) && parent in t.entries && inode in t.entries && inode != ROOT
    && t.entries[inode].kind.File? && t.entries[inode].parent == parent && t.entries[inode].name == name
  }

  lemma AddedMisnamed(t: Table, parent: Inode, inode: Inode, temp: string, child: ChildInfo)
    requires inode in t.entries && inode != t.next && Lookup(t, parent, child.name) == None
    ensures inode in ObjectAdded(t, parent, child).entries
    ensures ObjectAdded(Misnamed(t, inode, temp), parent, child)
         == Misnamed(ObjectAdded(t, parent, child), inode, temp)
  {
    var entry := NewObject(t, parent, child);
    var named := t.entries[inode].(name := temp);
    assert t.entries[inode := named][t.next := entry] == t.entries[t.next := entry][inode := named];
  }

  lemma RemovedMisnamed(t: Table, inode: Inode, temp: string, gone: Inode)
    requires inode in t.entries && gone in t.entries && gone != inode
    ensures inode in Removed(t, gone).entries
    ensures Removed(Misnamed(t, inode, temp), gone) == Misnamed(Removed(t, gone), inode, temp)
  {
    var named := t.entries[inode].(name := temp);
    assert t.entries[inode := named] - {gone} == (t.entries - {gone})[inode := named];
  }

  /** A report that agrees with the old kind. */
  lemma UpdatedMisnamed(t: Table, parent: Inode, inode: Inode, temp: string, child: ChildInfo, i: Inode)
    requires inode in t.entries && i in t.entries && Lookup(t, parent, child.name) == Some(i)
    requires t.entries[i].IsDir() == child.isDir
    ensures inode in SyncedOne(t, parent, child).entries
    ensures SyncedOne(Misnamed(t, inode, temp), parent, child)
         == Misnamed(SyncedOne(t, parent, child), inode, temp)
  {
    assert SyncedOne(Misnamed(t, inode, temp), parent, child).entries
        == Misnamed(SyncedOne(t, parent, child), inode, temp).entries;
  }

  /** The name index does not notice, so a report does to the misnamed table what it would have done
      to the right one. */
  lemma SyncedOneMisnamed(
    t: Table, parent: Inode, inode: Inode, name: string, temp: string, child: ChildInfo)
    requires StandsIn(t, inode, parent, name) && (child.name == name ==> !child.isDir)
    ensures inode in SyncedOne(t, parent, child).entries
    ensures SyncedOne(Misnamed(t, inode, temp), parent, child)
         == Misnamed(SyncedOne(t, parent, child), inode, temp)
  {
    match Lookup(t, parent, child.name)
    case None => AddedMisnamed(t, parent, inode, temp, child);
    case Some(i) =>
      HolderHangsThere(t, parent, child.name);
      if t.entries[i].IsDir() == child.isDir {
        UpdatedMisnamed(t, parent, inode, temp, child, i);
      } else {
        RemovedMisnamed(t, inode, temp, i);
        RemovedLookup(t, i, parent, child.name);
        AddedMisnamed(Removed(t, i), parent, inode, temp, child);
      }
  }

  /** Listings that report the name as a file only leave the file its number. */
  lemma FileStands(t: Table, parent: Inode, inode: Inode, name: string, children: seq<ChildInfo>)
    requires StandsIn(t, inode, parent, name) && AllOfKind(children, name, false)
    ensures var t' := SyncedAll(t, parent, children);
      && StandsIn(t', inode, parent, name)
      && (Reports(children, name) ==>
            t'.entries[inode].kind == File(LastReport(children, name).value.handle))
  {
    var t' := SyncedAll(t, parent, children);
    AllReports(t, parent, children);
    ParentSurvives(t, t', parent);
    assert Named(t, inode) && NameSynced(t, t', parent, children, name);
    if Reports(children, name) {
      var k :| 0 <= k < |children| && children[k] == LastReport(children, name).value;
    }
  }

  lemma {:induction false} SyncedAllMisnamed(
    t: Table, parent: Inode, inode: Inode, name: string, temp: string, children: seq<ChildInfo>)
    requires StandsIn(t, inode, parent, name) && AllOfKind(children, name, false)
    ensures var t' := SyncedAll(t, parent, children);
      inode in t'.entries && SyncedAll(Misnamed(t, inode, temp), parent, children) == Misnamed(t', inode, temp)
  {
    if children != [] {
      var n := |children| - 1;
      SyncedAllMisnamed(t, parent, inode, name, temp, children[..n]);
      FileStands(t, parent, inode, name, children[..n]);
      SyncedOneMisnamed(SyncedAll(t, parent, children[..n]), parent, inode, name, temp, children[n]);
    }
  }

  /** If a flush left its file under the temporary name, every later listing that reports that name
      shows it twice, `twin` being the second entry; and if the listing still reports the old name
      as a file, the handle of that old object is what the first entry gets. */
  lemma OverwrittenNameListsTwice(
    t: Table, inode: Inode, temp: string, handle: ObjectHandle, size: nat, mtime: Time,
    children: seq<ChildInfo>)
    returns (twin: Inode)
    requires inode in t.entries && DirInv(t, t.entries[inode].parent)
    requires inode != ROOT && t.entries[inode].parent in t.entries
    requires Lookup(t, t.entries[inode].parent, temp) == None
    requires Reports(children, temp) && AllOfKind(children, t.entries[inode].name, false)
    ensures var parent, name := t.entries[inode].parent, t.entries[inode].name;
      var t' := Synced(Overwritten(t, inode, temp, handle, size, mtime), parent, children);
      && inode in Children(t', parent) && twin in Children(t', parent) && inode < t.next <= twin
      && inode in t'.entries && t'.entries[inode].name == temp
      && twin in t'.entries && t'.entries[twin].name == temp
      && (Reports(children, name) ==>
            t'.entries[inode].kind == File(LastReport(children, name).value.handle))
  {
    var parent, name := t.entries[inode].parent, t.entries[inode].name;
    var right := Overwritten(t, inode, name, handle, size, mtime);
    OverwrittenTree(t, inode, name, handle, size, mtime);
    OverwriteKeepsDirIff(t, inode, name, handle, size, mtime, parent);
    assert Overwritten(t, inode, temp, handle, size, mtime) == Misnamed(right, inode, temp);
    SyncedAllMisnamed(right, parent, inode, name, temp, children);
    FileStands(right, parent, inode, name, children);
    twin := MisnamedKept(right, parent, inode, name, temp, children);
  }

  /** The second loop removes neither entry. */
  lemma MisnamedKept(
    t: Table, parent: Inode, inode: Inode, name: string, temp: string, children: seq<ChildInfo>)
    returns (twin: Inode)
    requires StandsIn(t, inode, parent, name) && Lookup(t, parent, temp) == None && Reports(children, temp)
    requires StandsIn(SyncedAll(t, parent, children), inode, parent, name)
    ensures t.next <= twin
    ensures var mid := Misnamed(SyncedAll(t, parent, children), inode, temp);
      var t' := RemovedAll(mid, Gone(mid, Children(mid, parent), children));
      && inode in t'.entries && t'.entries[inode] == mid.entries[inode] && inode in Children(t', parent)
      && twin in t'.entries && t'.entries[twin].name == temp && twin in Children(t', parent)
  {
    var right := SyncedAll(t, parent, children);
    var mid := Misnamed(right, inode, temp);
    var gone := Gone(mid, Children(mid, parent), children);
    AllReports(t, parent, children);
    assert NameSynced(t, right, parent, children, temp);
    twin := Lookup(right, parent, temp).value;
    assert Listed(right, inode) && Listed(right, twin) && ListOk(right, parent);
    GoneIs(mid, Children(mid, parent), children);
    NoSelfParent(right);
    RemovalsKeepListed(mid, gone, parent, inode);
    RemovalsKeepListed(mid, gone, parent, twin);
  }

  /** Every name leads to a live entry. */
  ghost predicate NoDeadNames(t: Table) {
    forall p, n :: LeadsToLive(t, p, n)
  }

  predicate LeadsToLive(t: Table, parent: Inode, name: string) {
    Lookup(t, parent, name).Some? ==> Lookup(t, parent, name).value in t.entries
  }

  /** Removing a file whose name was overwritten leaves the old name leading to a dead number, which
      `lookup` takes to be alive; removing any other does not. */
  lemma RemovalLeavesDeadNameIffOverwritten(
    t: Table, inode: Inode, name: string, handle: ObjectHandle, size: nat, mtime: Time)
    requires Inv(t) && inode in t.entries && inode != ROOT
    ensures NoDeadNames(Removed(Overwritten(t, inode, name, handle, size, mtime), inode))
        <==> name == t.entries[inode].name
  {
    var t' := Removed(Overwritten(t, inode, name, handle, size, mtime), inode);
    assert DirNames(t, t.entries[inode].parent) && Named(t, inode);
    if name == t.entries[inode].name {
      forall p: Inode, n: string
        ensures LeadsToLive(t', p, n)
      {
        assert DirNames(t, p) && ((p, n) in t.names ==> NameOk(t, (p, n)));
      }
    } else {
      assert !LeadsToLive(t', t.entries[inode].parent, t.entries[inode].name);
    }
  }

  /** Every name leads to the live entry that has that place. */
  ghost predicate NoStrayNames(t: Table) {
    forall key :: key in t.names ==> NameOk(t, key)
  }

  /** Moving a file whose name was overwritten leaves its old name leading to it, wherever it hangs
      now; the one move that mends this is the one back to its old place. */
  lemma MoveLeavesStrayNameIffOverwritten(
    t: Table, inode: Inode, name: string, handle: ObjectHandle, size: nat, mtime: Time,
    newParent: Inode, newName: string)
    requires Inv(t) && inode in t.entries && inode != ROOT
    ensures var place := (t.entries[inode].parent, t.entries[inode].name);
      var t' := Renamed(Overwritten(t, inode, name, handle, size, mtime), inode, newParent, newName);
      && inode in t'.entries && t'.entries[inode].parent == newParent
      && (NoStrayNames(t') <==> name == place.1 || (newParent, newName) == place)
      && (NoStrayNames(t') || Lookup(t', place.0, place.1) == Some(inode))
  {
    var place := (t.entries[inode].parent, t.entries[inode].name);
    var over := Overwritten(t, inode, name, handle, size, mtime);
    var t' := Renamed(over, inode, newParent, newName);
    assert DirNames(t, place.0) && Named(t, inode);
    assert DirNames(t, newParent);
    assert (newParent, newName) in t.names ==> NameOk(t, (newParent, newName));
    if name == place.1 || (newParent, newName) == place {
      forall key | key in t'.names
        ensures NameOk(t', key)
      {
        assert DirNames(t, key.0);
        assert key in t.names ==> NameOk(t, key);
      }
    } else {
      assert !NameOk(t', place);
    }
  }

  /** What such a name does: what is created or reported under it in the directory that it belongs to
      hits the file in the other directory, which is evicted, or takes the report's handle while the
      directory goes without the name. */
  lemma StrayNameHitsElsewhere(t: Table, p: Inode, inode: Inode, child: ChildInfo)
    requires TreeOk(t) && Lookup(t, p, child.name) == Some(inode)
    requires inode in t.entries && t.entries[inode].parent != p && t.entries[inode].kind.File?
    ensures inode !in ObjectAdded(t, p, child).entries
    ensures var t' := SyncedOne(t, p, child);
      if child.isDir then inode !in t'.entries
      else && inode in t'.entries && t'.entries[inode].parent == t.entries[inode].parent
           && t'.entries[inode].kind == File(child.handle) && t'.entries[inode].size == child.size
           && Children(t', p) == Children(t, p) && inode !in Children(t', p)
  {
    assert p in t.kids ==> ListOk(t, p);
  }

  /** Removing other entries leaves an entry listed where it is. */
  lemma {:induction false} RemovalsKeepListed(t: Table, gone: seq<Inode>, parent: Inode, i: Inode)
    requires i in t.entries && i in Children(t, parent) && i !in gone && parent !in gone
    ensures var t' := RemovedAll(t, gone);
      i in t'.entries && t'.entries[i] == t.entries[i] && i in Children(t', parent)
  {
    if gone != [] {
      RemovalsKeepListed(t, gone[..|gone| - 1], parent, i);
    }
  }
}
