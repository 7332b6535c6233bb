/** Object handles are session-scoped: `ensure_fresh` finds an inode's current handle by walking
    its names down from the storage root on the device (src/fs.rs). */
module PathResolution {
  import opened Basics
  import opened InodeTables
  import opened InodeInvariants
  import opened TableRuns
  import opened MtpErrors

  // ---------------------------------------------------------------------------------------
  // The device

  datatype ListedObject = ListedObject(
    handle: ObjectHandle, filename: string, isFolder: bool, size: nat, modified: Time)

  /** Where in a storage a listing is asked for: its root, or inside an object. */
  type Location = Option<ObjectHandle>

  /** What each directory holds during one session, in the order the device reports it. */
  datatype DeviceTree = DeviceTree(listings: map<(StorageId, Location), seq<ListedObject>>)

  function List(dev: DeviceTree, sid: StorageId, at: Location): seq<ListedObject> {
    if (sid, at) in dev.listings then dev.listings[(sid, at)] else []
  }

  /** The first object of that name. */
  function FindNamed(objects: seq<ListedObject>, name: string): Option<ObjectHandle> {
    if objects == [] then None
    else if objects[0].filename == name then Some(objects[0].handle)
    else FindNamed(objects[1..], name)
  }

  /** The object reached from the storage root by these names, if every name is found. */
  function Resolve(dev: DeviceTree, sid: StorageId, names: seq<string>): Option<Location> {
    if names == [] then Some(None)
    else match Resolve(dev, sid, names[..|names| - 1]) {
      case None => None
      case Some(at) =>
        match FindNamed(List(dev, sid, at), names[|names| - 1])
        case None => None
        case Some(handle) => Some(Some(handle))
    }
  }

  /** It is the first, and there is one if any object has the name. */
  lemma {:induction false} FindNamedIsFirst(objects: seq<ListedObject>, name: string)
    ensures FindNamed(objects, name) == None <==> forall k :: 0 <= k < |objects| ==> objects[k].filename != name
    ensures forall k | 0 <= k < |objects| && objects[k].filename == name
      && (forall j :: 0 <= j < k ==> objects[j].filename != name) ::
        FindNamed(objects, name) == Some(objects[k].handle)
  {
    if objects != [] && objects[0].filename != name {
      FindNamedIsFirst(objects[1..], name);
      assert forall k :: 0 < k < |objects| ==> objects[k] == objects[1..][k - 1];
      forall k | 0 <= k < |objects| && objects[k].filename == name
        && (forall j :: 0 <= j < k ==> objects[j].filename != name)
        ensures FindNamed(objects, name) == Some(objects[k].handle)
      {
        assert objects[1..][k - 1].filename == name;
        assert forall j :: 0 <= j < k - 1 ==> objects[1..][j].filename != name;
      }
    }
  }

  predicate UniqueNames(objects: seq<ListedObject>) {
    forall i, j :: 0 <= i < j < |objects| ==> objects[i].filename != objects[j].filename
  }

  /** `handles` are objects found one inside the other under these names. */
  ghost predicate LeadsTo(dev: DeviceTree, sid: StorageId, names: seq<string>, handles: seq<ObjectHandle>) {
    && |handles| == |names|
    && forall k :: 0 <= k < |names| ==> Holds(List(dev, sid, Above(handles, k)), handles[k], names[k])
  }

  function Above(handles: seq<ObjectHandle>, k: nat): Location
    requires k <= |handles|
  {
    if k == 0 then None else Some(handles[k - 1])
  }

  ghost predicate Holds(objects: seq<ListedObject>, handle: ObjectHandle, name: string) {
    exists k :: 0 <= k < |objects| && objects[k].handle == handle && objects[k].filename == name
  }

  lemma {:induction false} FindNamedUnique(objects: seq<ListedObject>, name: string, handle: ObjectHandle)
    requires UniqueNames(objects)
    ensures FindNamed(objects, name) == Some(handle) <==> Holds(objects, handle, name)
  {
    if objects != [] {
      FindNamedUnique(objects[1..], name, handle);
      if Holds(objects, handle, name) && objects[0].filename != name {
        var k :| 0 <= k < |objects| && objects[k].handle == handle && objects[k].filename == name;
        assert objects[1..][k - 1] == objects[k];
      }
      if Holds(objects[1..], handle, name) {
        var k :| 0 <= k < |objects[1..]| && objects[1..][k].handle == handle && objects[1..][k].filename == name;
        assert objects[k + 1].filename == name;
      }
    }
  }

  /** Where no directory reports a name twice, resolution is the object the names lead to,
      whichever way one walks to it. */
  lemma {:induction false} ResolveIsTheWalk(
    dev: DeviceTree, sid: StorageId, names: seq<string>, handles: seq<ObjectHandle>)
    requires forall at :: UniqueNames(List(dev, sid, at))
    requires LeadsTo(dev, sid, names, handles)
    ensures Resolve(dev, sid, names) == Some(if names == [] then None else Some(handles[|names| - 1]))
  {
    if names != [] {
      var n := |names| - 1;
      assert LeadsTo(dev, sid, names[..n], handles[..n]) by {
        forall k | 0 <= k < n
          ensures Holds(List(dev, sid, Above(handles[..n], k)), handles[..n][k], names[..n][k])
        {
          assert Above(handles[..n], k) == Above(handles, k);
        }
      }
      ResolveIsTheWalk(dev, sid, names[..n], handles[..n]);
      FindNamedUnique(List(dev, sid, Above(handles, n)), names[n], handles[n]);
    }
  }

  // ---------------------------------------------------------------------------------------
  // Places in the table

  predicate IsObject(entry: Entry) {
    entry.kind.Directory? || entry.kind.File?
  }

  /** `i` hangs `n` objects below `top`, a storage or the root. */
  ghost predicate Hangs(entries: map<Inode, Entry>, i: Inode, n: nat, top: Inode)
    decreases n
  {
    && i in entries
    && if n == 0 then i == top && !IsObject(entries[i])
       else IsObject(entries[i]) && Hangs(entries, entries[i].parent, n - 1, top)
  }

  /** The names on the way down to `i`. */
  ghost function PathTo(entries: map<Inode, Entry>, i: Inode, n: nat): (names: seq<string>)
    decreases n
  {
    if n == 0 || i !in entries then []
    else PathTo(entries, entries[i].parent, n - 1) + [entries[i].name]
  }

  /** The handle of `i` is the object its path leads to. */
  ghost predicate RightHandle(dev: DeviceTree, entries: map<Inode, Entry>, i: Inode, n: nat, top: Inode) {
    i in entries && IsObject(entries[i]) && top in entries && entries[top].kind.Storage? ==>
      Resolve(dev, entries[top].kind.storageId, PathTo(entries, i, n)) == Some(Some(entries[i].kind.handle))
  }

  /** Every handle from the current session is the right one. */
  ghost predicate FreshRight(t: Table, dev: DeviceTree) {
    forall i, n, top | Hangs(t.entries, i, n, top) && Fresh(t, i) :: RightHandle(dev, t.entries, i, n, top)
  }

  /** A bumped table makes no claim about any session, so a new device tree can do what it likes. */
  lemma BumpedIsRight(t: Table, dev: DeviceTree)
    requires NoneAhead(t)
    ensures FreshRight(Bumped(t), dev)
  {
  }

  /** Every session of every reachable table starts right, whatever the device has become: the
      precondition of a walk is there to begin with. */
  lemma SessionsStartRight(tables: seq<Table>, ops: seq<Op>, k: nat, dev: DeviceTree)
    requires MountRun(tables, ops) && k < |ops| && ops[k].BumpGeneration?
    ensures TreeOk(tables[k + 1]) && FreshRight(tables[k + 1], dev)
  {
    assert Steps(tables[k], ops[k], tables[k + 1]);
    RunKeepsTree(tables, ops, k + 1);
    BumpMakesAllStale(tables, ops, k);
    BumpedIsRight(tables[k], dev);
  }

  /** Inode numbers, names, parents, sizes, times and indexes: all that a resolution leaves alone. */
  ghost predicate SameShape(t: Table, t': Table) {
    && t'.names == t.names && t'.kids == t.kids && t'.next == t.next && t'.generation == t.generation
    && t'.entries.Keys == t.entries.Keys
    && forall i :: i in t.entries ==> SameButHandle(t.entries[i], t'.entries[i])
  }

  /** What resolving a handle keeps: the shape of the tree, what was fresh, and that fresh is right. */
  ghost predicate Kept(t: Table, t': Table, dev: DeviceTree) {
    && SameShape(t, t')
    && FreshRight(t', dev)
    && forall i :: Fresh(t, i) ==> t'.entries[i] == t.entries[i]
  }

  lemma KeptTwice(t: Table, t': Table, t'': Table, dev: DeviceTree)
    requires Kept(t, t', dev) && Kept(t', t'', dev)
    ensures Kept(t, t'', dev)
  {
    forall i | i in t.entries
      ensures SameButHandle(t.entries[i], t''.entries[i])
    {
      assert SameButHandle(t.entries[i], t'.entries[i]) && SameButHandle(t'.entries[i], t''.entries[i]);
    }
    forall i | Fresh(t, i)
      ensures t''.entries[i] == t.entries[i]
    {
      assert Fresh(t', i);
    }
  }

  predicate SameButHandle(entry: Entry, entry': Entry) {
    && entry' == entry.(kind := entry'.kind, generation := entry'.generation)
    && (!IsObject(entry) ==> entry' == entry)
    && (entry.kind.Directory? <==> entry'.kind.Directory?)
    && (entry.kind.File? <==> entry'.kind.File?)
  }

  lemma {:induction false} ShapeKeepsPlaces(t: Table, t': Table, i: Inode, n: nat, top: Inode)
    requires SameShape(t, t')
    ensures Hangs(t.entries, i, n, top) <==> Hangs(t'.entries, i, n, top)
    ensures PathTo(t.entries, i, n) == PathTo(t'.entries, i, n)
    decreases n
  {
    if n > 0 && i in t.entries {
      ShapeKeepsPlaces(t, t', t.entries[i].parent, n - 1, top);
    }
  }

  /** A place has one top and one depth. */
  lemma {:induction false} PlaceUnique(entries: map<Inode, Entry>, i: Inode, n: nat, top: Inode, n': nat, top': Inode)
    requires Hangs(entries, i, n, top) && Hangs(entries, i, n', top')
    ensures n == n' && top == top'
    decreases n
  {
    if n > 0 && n' > 0 {
      PlaceUnique(entries, entries[i].parent, n - 1, top, n' - 1, top');
    }
  }

  /** Setting a stale inode's handle to what its path leads to keeps every fresh handle right. */
  lemma ResolvedStaysRight(t: Table, dev: DeviceTree, node: Inode, n: nat, top: Inode, handle: ObjectHandle)
    requires FreshRight(t, dev) && Hangs(t.entries, node, n, top) && IsObject(t.entries[node])
    requires top in t.entries && t.entries[top].kind.Storage?
    requires Resolve(dev, t.entries[top].kind.storageId, PathTo(t.entries, node, n)) == Some(Some(handle))
    ensures SameShape(t, HandleSet(t, node, handle)) && FreshRight(HandleSet(t, node, handle), dev)
  {
    var t' := HandleSet(t, node, handle);
    HandleSetShape(t, node, handle);
    forall i, m, top' | Hangs(t'.entries, i, m, top') && Fresh(t', i)
      ensures RightHandle(dev, t'.entries, i, m, top')
    {
      if i == node {
        ShapeKeepsPlaces(t, t', i, m, top');
        PlaceUnique(t.entries, node, n, top, m, top');
      } else {
        OthersStayRight(t, t', dev, i, m, top');
      }
    }
  }

  lemma HandleSetShape(t: Table, node: Inode, handle: ObjectHandle)
    ensures SameShape(t, HandleSet(t, node, handle))
  {
  }

  lemma OthersStayRight(t: Table, t': Table, dev: DeviceTree, i: Inode, n: nat, top: Inode)
    requires FreshRight(t, dev) && SameShape(t, t') && Hangs(t'.entries, i, n, top) && Fresh(t', i)
    requires t'.entries[i] == t.entries[i]
    ensures RightHandle(dev, t'.entries, i, n, top)
  {
    ShapeKeepsPlaces(t, t', i, n, top);
    HangsTop(t.entries, i, n, top);
    assert RightHandle(dev, t.entries, i, n, top);
  }

  lemma {:induction false} HangsTop(entries: map<Inode, Entry>, i: Inode, n: nat, top: Inode)
    requires Hangs(entries, i, n, top)
    ensures top in entries && !IsObject(entries[top])
    decreases n
  {
    if n > 0 {
      HangsTop(entries, entries[i].parent, n - 1, top);
    }
  }

  // ---------------------------------------------------------------------------------------
  // The code

  function Position(storages: seq<StorageId>, sid: StorageId): (r: Option<nat>)
    ensures r.Some? ==> r.value < |storages| && storages[r.value] == sid
    ensures r.None? <==> sid !in storages
  {
    if storages == [] then None
    else if storages[0] == sid then Some(0)
    else match Position(storages[1..], sid)
      case None => None
      case Some(k) => Some(k + 1)
  }

  /** The storage that an entry at the top of a chain stands for. */
  function StorageIndex(entry: Entry, storages: seq<StorageId>): Option<nat> {
    if entry.kind.Storage? then Position(storages, entry.kind.storageId) else None
  }

  ghost predicate HangsAsLink(entries: map<Inode, Entry>, chain: seq<Inode>, top: Inode, k: nat)
    requires k < |chain|
  {
    Hangs(entries, chain[k], k + 1, top) && entries[chain[k]].parent == Before(chain, top, k)
  }

  /** A chain of inodes from just below `top` down to `inode`. */
  ghost predicate IsChain(entries: map<Inode, Entry>, chain: seq<Inode>, top: Inode) {
    forall k {:trigger HangsAsLink(entries, chain, top, k)} ::
      0 <= k < |chain| ==> HangsAsLink(entries, chain, top, k)
  }

  /** `inode`'s path leads to an object of a storage that is there. */
  ghost predicate CanResolve(t: Table, dev: DeviceTree, storages: seq<StorageId>, inode: Inode) {
    exists n, top :: ResolvesAt(t, dev, storages, inode, n, top)
  }

  ghost predicate ResolvesAt(
    t: Table, dev: DeviceTree, storages: seq<StorageId>, inode: Inode, n: nat, top: Inode)
  {
    && Hangs(t.entries, inode, n, top) && top in t.entries
    && t.entries[top].kind.Storage? && t.entries[top].kind.storageId in storages
    && Resolve(dev, t.entries[top].kind.storageId, PathTo(t.entries, inode, n)) != None
  }

  /** The inode's handle is known, or its path leads somewhere. */
  ghost predicate Reaches(t: Table, dev: DeviceTree, storages: seq<StorageId>, inode: Inode) {
    Fresh(t, inode) || CanResolve(t, dev, storages, inode)
  }

  /** It hangs below a storage that is there. */
  ghost predicate InStorage(t: Table, storages: seq<StorageId>, inode: Inode) {
    exists n: nat, top :: HangsInStorage(t, storages, inode, n, top)
  }

  ghost predicate HangsInStorage(t: Table, storages: seq<StorageId>, inode: Inode, n: nat, top: Inode) {
    Hangs(t.entries, inode, n, top) && top in t.entries && StorageIndex(t.entries[top], storages).Some?
  }

  /** Whatever `inode` hangs below, `current` hangs below too. */
  ghost predicate LeadsUpTo(entries: map<Inode, Entry>, inode: Inode, current: Inode) {
    forall n, top | Hangs(entries, inode, n, top) :: HangsSomewhere(entries, current, top)
  }

  ghost predicate HangsSomewhere(entries: map<Inode, Entry>, i: Inode, top: Inode) {
    exists n: nat :: Hangs(entries, i, n, top)
  }

  lemma StepUp(entries: map<Inode, Entry>, inode: Inode, current: Inode)
    requires LeadsUpTo(entries, inode, current) && current in entries && IsObject(entries[current])
    ensures LeadsUpTo(entries, inode, entries[current].parent)
  {
    forall n, top | Hangs(entries, inode, n, top)
      ensures HangsSomewhere(entries, entries[current].parent, top)
    {
      var m: nat :| Hangs(entries, current, m, top);
      assert Hangs(entries, entries[current].parent, m - 1, top);
    }
  }

  /** Wherever `current` hangs, `inode` hangs too. */
  ghost predicate HangsTogether(entries: map<Inode, Entry>, inode: Inode, current: Inode) {
    forall n: nat, top | Hangs(entries, current, n, top) :: HangsSomewhere(entries, inode, top)
  }

  lemma StepTogether(entries: map<Inode, Entry>, inode: Inode, current: Inode)
    requires HangsTogether(entries, inode, current) && current in entries && IsObject(entries[current])
    ensures HangsTogether(entries, inode, entries[current].parent)
  {
    forall n: nat, top | Hangs(entries, entries[current].parent, n, top)
      ensures HangsSomewhere(entries, inode, top)
    {
      assert Hangs(entries, current, n + 1, top);
    }
  }

  /** A storage or a directory. */
  predicate HoldsObjects(entry: Entry) {
    entry.kind.Storage? || entry.kind.Directory?
  }

  function FailureOf<T>(r: MtpResult<T>): Option<MtpError> {
    match r
    case Ok(_) => None
    case Err(error) => Some(error)
  }

  ghost predicate NoFaultsBetween(faults: nat -> Option<MtpError>, from: nat, to: nat) {
    forall call: nat :: from <= call < to ==> faults(call) == None
  }

  /** The first call that fails is the last, and its failure the answer; if none fails, the answer is good unless
      what was looked for is not there. */
  ghost predicate AnsweredBy(
    faults: nat -> Option<MtpError>, from: nat, to: nat, failure: Option<MtpError>, missing: bool)
  {
    if from < to && faults(to - 1).Some? then NoFaultsBetween(faults, from, to - 1) && failure == faults(to - 1)
    else NoFaultsBetween(faults, from, to) && failure == (if missing then Some(NotFound) else None)
  }

  lemma OneCallMore(faults: nat -> Option<MtpError>, from: nat, to: nat, missing: bool)
    requires from <= to && AnsweredBy(faults, from, to, None, missing)
    ensures AnsweredBy(faults, from, to + 1, faults(to), missing)
  {
  }

  ghost predicate NoFaultsFrom(faults: nat -> Option<MtpError>, call: nat) {
    forall k: nat :: k >= call ==> faults(k) == None
  }

  /** The end of the chain is where some object is. */
  ghost predicate LeadsSomewhere(dev: DeviceTree, sid: StorageId, entries: map<Inode, Entry>, chain: seq<Inode>)
    requires chain != []
  {
    Resolve(dev, sid, PathTo(entries, chain[|chain| - 1], |chain|)) != None
  }

  class Resolver {
    const inodes: InodeTable
    var storages: seq<StorageId>
    var dev: DeviceTree
    /** Which calls fail, and how. */
    const faults: nat -> Option<MtpError>
    var calls: nat

    constructor (inodes: InodeTable, storages: seq<StorageId>, dev: DeviceTree, faults: nat -> Option<MtpError>)
      ensures this.inodes == inodes && this.storages == storages && this.dev == dev
      ensures this.faults == faults && calls == 0
    {
      this.inodes, this.storages, this.dev, this.faults, calls := inodes, storages, dev, faults, 0;
    }

    method ListObjects(sid: StorageId, at: Location) returns (r: MtpResult<seq<ListedObject>>)
      modifies this`calls
      ensures calls == old(calls) + 1
      ensures r == match faults(old(calls))
                   case None => Ok(List(dev, sid, at))
                   case Some(error) => Err(error)
    {
      var fault := faults(calls);
      calls := calls + 1;
      match fault {
        case None => r := Ok(List(dev, sid, at));
        case Some(error) => r := Err(error);
      }
    }

    /** Any other call to the device. */
    method Call() returns (r: MtpResult<()>)
      modifies this`calls
      ensures calls == old(calls) + 1
      ensures r == match faults(old(calls))
                   case None => Ok(())
                   case Some(error) => Err(error)
    {
      var fault := faults(calls);
      calls := calls + 1;
      match fault {
        case None => r := Ok(());
        case Some(error) => r := Err(error);
      }
    }

    /** Walks up to the storage that owns an inode. */
    method FindStorageIndex(inode: Inode) returns (r: Option<nat>)
      requires Walkable(inodes.View())
      ensures forall n, top :: Hangs(inodes.entries, inode, n, top) && top in inodes.entries ==>
          r == StorageIndex(inodes.entries[top], storages)
      ensures r.Some? ==> r.value < |storages|
      ensures r.Some? ==> exists n: nat, top :: Hangs(inodes.entries, inode, n, top)
      ensures r.Some? <==> InStorage(inodes.View(), storages, inode)
    {
      var current := inode;
      ghost var rank :| RankOk(inodes.entries, rank);
      while true
        invariant LeadsUpTo(inodes.entries, inode, current)
        invariant HangsTogether(inodes.entries, inode, current)
        decreases if current in inodes.entries then rank[current] + 1 else 0
      {
        if current !in inodes.entries {
          return None;
        }
        var entry := inodes.entries[current];
        if entry.kind.Storage? {
          StorageFound(inodes.View(), storages, inode, current);
          return Position(storages, entry.kind.storageId);
        }
        if current == entry.parent {
          return None;
        }
        NoSelfParent(inodes.View());
        StepUp(inodes.entries, inode, current);
        StepTogether(inodes.entries, inode, current);
        current := entry.parent;
      }
    }

    /** The chain of objects from below the storage (or the root) down to the inode. */
    method CollectChain(inode: Inode) returns (found: bool, chain: seq<Inode>, ghost top: Inode)
      requires Walkable(inodes.View()) && inode in inodes.entries && IsObject(inodes.entries[inode])
      ensures if found then ChainTo(inodes.entries, inode, chain, top) else HangsNowhere(inodes.entries, inode)
    {
      chain, top := [], inode;
      var current := inode;
      ghost var rank :| RankOk(inodes.entries, rank);
      while true
        invariant Climbed(inodes.entries, inode, chain, current)
        decreases if current in inodes.entries then rank[current] + 1 else 0
      {
        if current !in inodes.entries {
          ClimbLost(inodes.entries, inode, chain, current);
          return false, chain, top;
        }
        var entry := inodes.entries[current];
        if !IsObject(entry) {
          break;
        }
        NoSelfParent(inodes.View());
        ClimbOn(inodes.entries, inode, chain, current);
        chain := [current] + chain;
        if current == entry.parent {
          return false, chain, top;
        }
        current := entry.parent;
      }
      top := current;
      ClimbDone(inodes.entries, inode, chain, top);
      found := true;
    }

    /** Re-resolves an inode's handle by path if it comes from an earlier session. */
    method EnsureFresh(inode: Inode) returns (r: MtpResult<()>)
      requires Walkable(inodes.View()) && FreshRight(inodes.View(), dev)
      modifies inodes`entries, this`calls
      ensures Kept(old(inodes.View()), inodes.View(), dev) && calls >= old(calls)
      ensures r.Ok? ==> Fresh(inodes.View(), inode)
      ensures old(Fresh(inodes.View(), inode)) ==>
          r.Ok? && inodes.View() == old(inodes.View()) && calls == old(calls)
      ensures AnsweredBy(faults, old(calls), calls, FailureOf(r), !Reaches(old(inodes.View()), dev, storages, inode))
      ensures CanResolve(old(inodes.View()), dev, storages, inode) && NoFaultsFrom(faults, old(calls)) ==> r.Ok?
    {
      var fresh' := inodes.IsFresh(inode);
      if fresh' {
        return Ok(());
      }
      if inode !in inodes.entries {
        return Err(NotFound);
      }
      var found, chain, top := CollectChain(inode);
      if !found {
        return Err(NotFound);
      }
      var index := FindStorageIndex(inode);
      ResolvesIff(inodes.View(), dev, storages, inode, chain, top);
      if index.None? {
        return Err(NotFound);
      }
      r := Descend(chain, storages[index.value], top);
    }

    /** Walks the chain down, listing wherever a handle is stale. */
    method Descend(chain: seq<Inode>, sid: StorageId, ghost top: Inode) returns (r: MtpResult<()>)
      requires FreshRight(inodes.View(), dev)
      requires chain != [] && IsChain(inodes.entries, chain, top)
      requires top in inodes.entries && inodes.entries[top].kind == Storage(sid)
      modifies inodes`entries, this`calls
      ensures Kept(old(inodes.View()), inodes.View(), dev) && calls >= old(calls)
      ensures r.Ok? ==> Fresh(inodes.View(), chain[|chain| - 1])
      ensures AnsweredBy(
          faults, old(calls), calls, FailureOf(r), !LeadsSomewhere(dev, sid, old(inodes.entries), chain))
    {
      ghost var start := inodes.View();
      var at: Location := None;
      var k := 0;
      while k < |chain|
        invariant 0 <= k <= |chain|
        invariant calls >= old(calls) && NoFaultsBetween(faults, old(calls), calls)
        invariant Kept(start, inodes.View(), dev)
        invariant k > 0 ==> Fresh(inodes.View(), chain[k - 1])
        invariant Resolve(dev, sid, ChainPath(start.entries, chain, k)) == Some(at)
      {
        var handle := DescendOne(chain, k, sid, at, start, top);
        if handle.Err? {
          return Err(handle.error);
        }
        at := Some(handle.value);
        k := k + 1;
      }
      r := Ok(());
    }

    /** One turn of the loop, in terms of the table it started from. */
    method DescendOne(
      chain: seq<Inode>, k: nat, sid: StorageId, at: Location, ghost start: Table, ghost top: Inode)
      returns (r: MtpResult<ObjectHandle>)
      requires k < |chain| && IsChain(start.entries, chain, top) && Kept(start, inodes.View(), dev)
      requires top in start.entries && start.entries[top].kind == Storage(sid)
      requires Resolve(dev, sid, ChainPath(start.entries, chain, k)) == Some(at)
      modifies inodes`entries, this`calls
      ensures Kept(start, inodes.View(), dev) && calls >= old(calls)
      ensures r.Ok? ==> Fresh(inodes.View(), chain[k])
      ensures r.Ok? ==> Resolve(dev, sid, ChainPath(start.entries, chain, k + 1)) == Some(Some(r.value))
      ensures AnsweredBy(faults, old(calls), calls, FailureOf(r),
          Resolve(dev, sid, ChainPath(start.entries, chain, k + 1)) == None)
      ensures Resolve(dev, sid, ChainPath(start.entries, chain, k + 1)) == None ==>
          !LeadsSomewhere(dev, sid, start.entries, chain)
    {
      ghost var before := inodes.View();
      ChainPathStep(start, before, chain, top, k);
      r := ResolveOne(chain[k], sid, at, k, top);
      KeptTwice(start, before, inodes.View(), dev);
      PathBreaks(dev, sid, start.entries, chain, top, k);
    }

    /** One link of the chain: its own handle if fresh, else the one a listing of its parent has. */
    method ResolveOne(node: Inode, sid: StorageId, at: Location, ghost n: nat, ghost top: Inode)
      returns (r: MtpResult<ObjectHandle>)
      requires FreshRight(inodes.View(), dev) && Hangs(inodes.entries, node, n + 1, top)
      requires top in inodes.entries && inodes.entries[top].kind == Storage(sid)
      requires Resolve(dev, sid, PathTo(inodes.entries, inodes.entries[node].parent, n)) == Some(at)
      modifies inodes`entries, this`calls
      ensures Kept(old(inodes.View()), inodes.View(), dev)
      ensures calls >= old(calls)
      ensures r.Ok? ==> Fresh(inodes.View(), node)
      ensures r.Ok? ==> Resolve(dev, sid, PathTo(old(inodes.entries), node, n + 1)) == Some(Some(r.value))
      ensures old(Fresh(inodes.View(), node)) ==> inodes.View() == old(inodes.View()) && calls == old(calls)
      ensures AnsweredBy(faults, old(calls), calls, FailureOf(r),
          Resolve(dev, sid, PathTo(old(inodes.entries), node, n + 1)) == None)
    {
      var isFresh := inodes.IsFresh(node);
      if isFresh {
        assert RightHandle(dev, inodes.entries, node, n + 1, top);
        return Ok(inodes.entries[node].kind.handle);
      }
      ghost var path := PathTo(inodes.entries, node, n + 1);
      assert path[..|path| - 1] == PathTo(inodes.entries, inodes.entries[node].parent, n);
      var objects := ListObjects(sid, at);
      if objects.Err? {
        return Err(objects.error);
      }
      var handle := FindNamed(objects.value, inodes.entries[node].name);
      if handle.None? {
        return Err(NotFound);
      }
      ResolvedStaysRight(inodes.View(), dev, node, n + 1, top, handle.value);
      inodes.SetHandle(node, handle.value);
      r := Ok(handle.value);
    }

    /** The inode's path leads somewhere, and no call will fail. */
    ghost predicate Findable(t: Table, inode: Inode, call: nat)
      reads this`storages, this`dev
    {
      inode in t.entries && CanResolve(t, dev, storages, inode) && NoFaultsFrom(faults, call)
    }

    /** The current handle of a file inode. */
    method FileHandle(inode: Inode) returns (r: MtpResult<ObjectHandle>)
      requires Walkable(inodes.View()) && FreshRight(inodes.View(), dev)
      modifies inodes`entries, this`calls
      ensures Kept(old(inodes.View()), inodes.View(), dev) && calls >= old(calls)
      ensures r.Ok? ==> Fresh(inodes.View(), inode) && inodes.entries[inode].kind == File(r.value)
      ensures Findable(old(inodes.View()), inode, old(calls)) && old(inodes.entries)[inode].kind.File? ==> r.Ok?
      ensures AnsweredBy(faults, old(calls), calls, FailureOf(r),
          !(Reaches(old(inodes.View()), dev, storages, inode) && old(inodes.entries)[inode].kind.File?))
    {
      var fresh' := EnsureFresh(inode);
      if fresh'.Err? {
        return Err(fresh'.error);
      }
      match inodes.entries[inode].kind {
        case File(handle) => r := Ok(handle);
        case _ => r := Err(NotFound);
      }
    }

    /** The current handle of a file or directory inode. */
    method ObjectHandle(inode: Inode) returns (r: MtpResult<ObjectHandle>)
      requires Walkable(inodes.View()) && FreshRight(inodes.View(), dev)
      modifies inodes`entries, this`calls
      ensures Kept(old(inodes.View()), inodes.View(), dev) && calls >= old(calls)
      ensures r.Ok? ==> Fresh(inodes.View(), inode) && IsObject(inodes.entries[inode])
      ensures r.Ok? ==> inodes.entries[inode].kind.handle == r.value
      ensures Findable(old(inodes.View()), inode, old(calls)) && IsObject(old(inodes.entries)[inode]) ==> r.Ok?
      ensures AnsweredBy(faults, old(calls), calls, FailureOf(r),
          !(Reaches(old(inodes.View()), dev, storages, inode) && IsObject(old(inodes.entries)[inode])))
    {
      var fresh' := EnsureFresh(inode);
      if fresh'.Err? {
        return Err(fresh'.error);
      }
      match inodes.entries[inode].kind {
        case File(handle) => r := Ok(handle);
        case Directory(handle) => r := Ok(handle);
        case _ => r := Err(NotFound);
      }
    }

    /** The handle to use for operations inside a directory inode; none means the storage root. */
    method ParentHandle(inode: Inode) returns (r: MtpResult<Location>)
      requires Walkable(inodes.View()) && FreshRight(inodes.View(), dev)
      modifies inodes`entries, this`calls
      ensures Kept(old(inodes.View()), inodes.View(), dev) && calls >= old(calls)
      ensures r.Ok? ==> Fresh(inodes.View(), inode)
      ensures r.Ok? && r.value.None? ==> inodes.entries[inode].kind.Storage?
      ensures r.Ok? && r.value.Some? ==> inodes.entries[inode].kind == Directory(r.value.value)
      ensures Findable(old(inodes.View()), inode, old(calls)) && HoldsObjects(old(inodes.entries)[inode]) ==> r.Ok?
      ensures AnsweredBy(faults, old(calls), calls, FailureOf(r),
          !(Reaches(old(inodes.View()), dev, storages, inode) && HoldsObjects(old(inodes.entries)[inode])))
    {
      var fresh' := EnsureFresh(inode);
      if fresh'.Err? {
        return Err(fresh'.error);
      }
      match inodes.entries[inode].kind {
        case Storage(_) => r := Ok(None);
        case Directory(handle) => r := Ok(Some(handle));
        case _ => r := Err(NotFound);
      }
    }
  }

  /** The `k`th link is an object hanging below the link before it, the first below `top`. */
  predicate LinkAt(entries: map<Inode, Entry>, chain: seq<Inode>, top: Inode, k: nat)
    requires k < |chain|
  {
    && chain[k] in entries && IsObject(entries[chain[k]])
    && entries[chain[k]].parent == Before(chain, top, k)
  }

  function Before(chain: seq<Inode>, top: Inode, k: nat): Inode
    requires k <= |chain|
  {
    if k == 0 then top else chain[k - 1]
  }

  ghost predicate Linked(entries: map<Inode, Entry>, chain: seq<Inode>, top: Inode) {
    forall k :: 0 <= k < |chain| ==> LinkAt(entries, chain, top, k)
  }

  lemma LinkedPrepend(entries: map<Inode, Entry>, chain: seq<Inode>, current: Inode)
    requires Linked(entries, chain, current) && current in entries && IsObject(entries[current])
    ensures Linked(entries, [current] + chain, entries[current].parent)
  {
    var longer := [current] + chain;
    forall k | 0 <= k < |longer|
      ensures LinkAt(entries, longer, entries[current].parent, k)
    {
      if k > 0 {
        assert LinkAt(entries, chain, current, k - 1);
      }
    }
  }

  /** On the way up from `inode`: the links so far, and where they lead. */
  ghost predicate Climbed(entries: map<Inode, Entry>, inode: Inode, chain: seq<Inode>, current: Inode) {
    && (if chain == [] then current == inode else chain[|chain| - 1] == inode)
    && Linked(entries, chain, current) && LeadsUpTo(entries, inode, current)
  }

  lemma ClimbOn(entries: map<Inode, Entry>, inode: Inode, chain: seq<Inode>, current: Inode)
    requires Climbed(entries, inode, chain, current) && current in entries && IsObject(entries[current])
    ensures Climbed(entries, inode, [current] + chain, entries[current].parent)
  {
    LinkedPrepend(entries, chain, current);
    StepUp(entries, inode, current);
  }

  /** The chain that a walk up ends with. */
  ghost predicate ChainTo(entries: map<Inode, Entry>, inode: Inode, chain: seq<Inode>, top: Inode) {
    && IsChain(entries, chain, top) && chain != [] && chain[|chain| - 1] == inode
    && top in entries && !IsObject(entries[top])
  }

  ghost predicate HangsNowhere(entries: map<Inode, Entry>, inode: Inode) {
    forall n: nat, top :: !Hangs(entries, inode, n, top)
  }

  lemma ClimbDone(entries: map<Inode, Entry>, inode: Inode, chain: seq<Inode>, top: Inode)
    requires Climbed(entries, inode, chain, top) && top in entries && !IsObject(entries[top])
    requires inode in entries && IsObject(entries[inode])
    ensures ChainTo(entries, inode, chain, top)
  {
    ChainHangs(entries, chain, top);
  }

  lemma ClimbLost(entries: map<Inode, Entry>, inode: Inode, chain: seq<Inode>, current: Inode)
    requires Climbed(entries, inode, chain, current) && current !in entries
    ensures HangsNowhere(entries, inode)
  {
    forall n: nat, top
      ensures !Hangs(entries, inode, n, top)
    {
      assert Hangs(entries, inode, n, top) ==> HangsSomewhere(entries, current, top);
    }
  }

  lemma {:induction false} LinkHangs(entries: map<Inode, Entry>, chain: seq<Inode>, top: Inode, k: nat)
    requires top in entries && !IsObject(entries[top]) && Linked(entries, chain, top) && k <= |chain|
    ensures Hangs(entries, Before(chain, top, k), k, top)
  {
    if k > 0 {
      LinkHangs(entries, chain, top, k - 1);
      assert LinkAt(entries, chain, top, k - 1);
    }
  }

  lemma ChainHangs(entries: map<Inode, Entry>, chain: seq<Inode>, top: Inode)
    requires top in entries && !IsObject(entries[top]) && Linked(entries, chain, top)
    ensures IsChain(entries, chain, top)
  {
    forall k | 0 <= k < |chain|
      ensures Hangs(entries, chain[k], k + 1, top) && entries[chain[k]].parent == Before(chain, top, k)
    {
      LinkHangs(entries, chain, top, k + 1);
      assert LinkAt(entries, chain, top, k);
    }
  }

  /** The names of the first `k` links of a chain. */
  ghost function ChainPath(entries: map<Inode, Entry>, chain: seq<Inode>, k: nat): seq<string>
    requires k <= |chain|
  {
    if k == 0 then [] else PathTo(entries, chain[k - 1], k)
  }

  lemma ChainPathStep(t: Table, t': Table, chain: seq<Inode>, top: Inode, k: nat)
    requires SameShape(t, t') && k < |chain| && IsChain(t.entries, chain, top)
    ensures Hangs(t'.entries, chain[k], k + 1, top)
    ensures ChainPath(t.entries, chain, k + 1) == ChainPath(t.entries, chain, k) + [t'.entries[chain[k]].name]
    ensures PathTo(t'.entries, chain[k], k + 1) == ChainPath(t.entries, chain, k + 1)
    ensures top in t.entries ==> top in t'.entries && SameButHandle(t.entries[top], t'.entries[top])
    ensures PathTo(t'.entries, t'.entries[chain[k]].parent, k) == ChainPath(t.entries, chain, k)
  {
    assert HangsAsLink(t.entries, chain, top, k);
    ShapeKeepsPlaces(t, t', chain[k], k + 1, top);
    if k > 0 {
      assert HangsAsLink(t.entries, chain, top, k - 1);
      ShapeKeepsPlaces(t, t', chain[k - 1], k, top);
    }
  }

  /** A name missing on the way means the whole path leads nowhere. */
  lemma {:induction false} PathBreaks(
    dev: DeviceTree, sid: StorageId, entries: map<Inode, Entry>, chain: seq<Inode>, top: Inode, k: nat)
    requires k < |chain| && IsChain(entries, chain, top)
    ensures Resolve(dev, sid, ChainPath(entries, chain, k + 1)) == None ==>
        !LeadsSomewhere(dev, sid, entries, chain)
    decreases |chain| - k
  {
    if k + 1 < |chain| {
      assert HangsAsLink(entries, chain, top, k + 1);
      var path := ChainPath(entries, chain, k + 2);
      assert path[..|path| - 1] == ChainPath(entries, chain, k + 1);
      PathBreaks(dev, sid, entries, chain, top, k + 1);
    }
  }

  lemma ResolvesWhereItHangs(
    t: Table, dev: DeviceTree, storages: seq<StorageId>, inode: Inode, n: nat, top: Inode)
    requires CanResolve(t, dev, storages, inode) && Hangs(t.entries, inode, n, top)
    ensures ResolvesAt(t, dev, storages, inode, n, top)
  {
    var n', top' :| ResolvesAt(t, dev, storages, inode, n', top');
    PlaceUnique(t.entries, inode, n, top, n', top');
  }

  /** The way up has ended at a storage. */
  lemma StorageFound(t: Table, storages: seq<StorageId>, inode: Inode, current: Inode)
    requires LeadsUpTo(t.entries, inode, current) && HangsTogether(t.entries, inode, current)
    requires current in t.entries && t.entries[current].kind.Storage?
    ensures exists n: nat :: Hangs(t.entries, inode, n, current)
    ensures InStorage(t, storages, inode) <==> StorageIndex(t.entries[current], storages).Some?
  {
    assert Hangs(t.entries, current, 0, current);
    var n: nat :| Hangs(t.entries, inode, n, current);
    if StorageIndex(t.entries[current], storages).Some? {
      assert HangsInStorage(t, storages, inode, n, current);
    }
    if InStorage(t, storages, inode) {
      var m: nat, top :| HangsInStorage(t, storages, inode, m, top);
      PlaceUnique(t.entries, inode, n, current, m, top);
    }
  }

  lemma ShapeKeepsStorage(t: Table, t': Table, storages: seq<StorageId>, inode: Inode)
    requires SameShape(t, t')
    ensures InStorage(t, storages, inode) ==> InStorage(t', storages, inode)
  {
    if InStorage(t, storages, inode) {
      var n: nat, top :| HangsInStorage(t, storages, inode, n, top);
      ShapeKeepsPlaces(t, t', inode, n, top);
      HangsTop(t.entries, inode, n, top);
      assert SameButHandle(t.entries[top], t'.entries[top]);
      assert HangsInStorage(t', storages, inode, n, top);
    }
  }

  lemma ShapeKeepsResolving(t: Table, t': Table, dev: DeviceTree, storages: seq<StorageId>, inode: Inode)
    requires SameShape(t, t') && CanResolve(t, dev, storages, inode)
    ensures CanResolve(t', dev, storages, inode)
  {
    var n: nat, top :| ResolvesAt(t, dev, storages, inode, n, top);
    ShapeKeepsPlaces(t, t', inode, n, top);
    assert SameButHandle(t.entries[top], t'.entries[top]);
    assert ResolvesAt(t', dev, storages, inode, n, top);
  }

  /** An inode below the last of a chain's storages can be resolved exactly if the chain's names lead somewhere. */
  lemma ResolvesIff(
    t: Table, dev: DeviceTree, storages: seq<StorageId>, inode: Inode, chain: seq<Inode>, top: Inode)
    requires ChainTo(t.entries, inode, chain, top)
    ensures Hangs(t.entries, inode, |chain|, top)
    ensures CanResolve(t, dev, storages, inode) <==>
        && StorageIndex(t.entries[top], storages).Some?
        && LeadsSomewhere(dev, t.entries[top].kind.storageId, t.entries, chain)
  {
    assert HangsAsLink(t.entries, chain, top, |chain| - 1);
    if CanResolve(t, dev, storages, inode) {
      ResolvesWhereItHangs(t, dev, storages, inode, |chain|, top);
    } else if StorageIndex(t.entries[top], storages).Some? {
      assert !ResolvesAt(t, dev, storages, inode, |chain|, top);
    }
  }
}
