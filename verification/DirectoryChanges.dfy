/** Creating, deleting, renaming and moving change the device's directories and the table together
    (src/fs.rs): exactly when every handle from the session is still the right one. */
module DirectoryChanges {
  import opened Basics
  import opened InodeTables
  import opened InodeInvariants
  import opened PathResolution

  // ---------------------------------------------------------------------------------------
  // Places on the device and in the table

  /** A name in a directory of the device. */
  datatype Spot = Spot(sid: StorageId, at: Location, name: string)

  /** The object that a walk finds there. */
  function Found(dev: DeviceTree, spot: Spot): Option<ObjectHandle> {
    FindNamed(List(dev, spot.sid, spot.at), spot.name)
  }

  ghost predicate IsAt(dev: DeviceTree, sid: StorageId, at: Location, k: nat, handle: ObjectHandle) {
    k < |List(dev, sid, at)| && List(dev, sid, at)[k].handle == handle
  }

  /** Every handle is of one object, which is in one place. */
  ghost predicate HandlesOnce(dev: DeviceTree) {
    forall sid, at, k: nat, sid', at', k': nat, h |
      IsAt(dev, sid, at, k, h) && IsAt(dev, sid', at', k', h) :: sid == sid' && at == at' && k == k'
  }

  lemma {:induction false} FindNamedAt(objects: seq<ListedObject>, name: string) returns (k: nat)
    requires FindNamed(objects, name).Some?
    ensures k < |objects| && objects[k].filename == name && FindNamed(objects, name) == Some(objects[k].handle)
  {
    if objects[0].filename == name {
      k := 0;
    } else {
      var k' := FindNamedAt(objects[1..], name);
      k := k' + 1;
    }
  }

  /** Where every handle is in one place, two paths never lead to the same object. */
  lemma {:induction false} PathInjective(
    dev: DeviceTree, sid: StorageId, path: seq<string>, sid': StorageId, path': seq<string>)
    requires HandlesOnce(dev) && Resolve(dev, sid, path) == Resolve(dev, sid', path') != None
    requires Resolve(dev, sid, path) == Some(None) ==> sid == sid'
    ensures sid == sid' && path == path'
    decreases |path|
  {
    if path != [] {
      var n, n' := |path| - 1, |path'| - 1;
      var at, at' := Resolve(dev, sid, path[..n]).value, Resolve(dev, sid', path'[..n']).value;
      var k := FindNamedAt(List(dev, sid, at), path[n]);
      var k' := FindNamedAt(List(dev, sid', at'), path'[n']);
      assert IsAt(dev, sid, at, k, List(dev, sid, at)[k].handle);
      assert IsAt(dev, sid', at', k', List(dev, sid, at)[k].handle);
      PathInjective(dev, sid, path[..n], sid', path'[..n']);
      assert path == path[..n] + [path[n]] && path' == path'[..n'] + [path'[n']];
    }
  }

  /** No two storages of the table have the same ID. */
  ghost predicate UniqueStorages(t: Table) {
    forall i, j | i in t.entries && j in t.entries && t.entries[i].kind.Storage? ::
      t.entries[i].kind == t.entries[j].kind ==> i == j
  }

  predicate Namesakes(t: Table, i: Inode, j: Inode) {
    && i in t.entries && j in t.entries && IsObject(t.entries[i]) && IsObject(t.entries[j])
    && t.entries[i].parent == t.entries[j].parent && t.entries[i].name == t.entries[j].name
  }

  /** No two files or directories of one directory have the same name. */
  ghost predicate SiblingsDiffer(t: Table) {
    forall i, j | Namesakes(t, i, j) :: i == j
  }

  /** So it is where names agree with entries; and an unfinished flush need not change that. */
  lemma AgreementSeparates(t: Table)
    requires Inv(t)
    ensures SiblingsDiffer(t)
  {
    forall i, j | Namesakes(t, i, j)
      ensures i == j
    {
      assert DirNames(t, t.entries[i].parent) && Named(t, i) && Named(t, j);
    }
  }

  lemma {:induction false} PathLength(entries: map<Inode, Entry>, i: Inode, n: nat, top: Inode)
    requires Hangs(entries, i, n, top)
    ensures |PathTo(entries, i, n)| == n
    decreases n
  {
    if n > 0 {
      PathLength(entries, entries[i].parent, n - 1, top);
    }
  }

  /** Where siblings differ, no two inodes are in the same place. */
  lemma {:induction false} PlaceInjective(
    t: Table, i: Inode, n: nat, top: Inode, j: Inode, m: nat, top': Inode)
    requires SiblingsDiffer(t) && UniqueStorages(t)
    requires Hangs(t.entries, i, n, top) && Hangs(t.entries, j, m, top')
    requires top in t.entries && top' in t.entries
    requires t.entries[top].kind.Storage? && t.entries[top].kind == t.entries[top'].kind
    requires PathTo(t.entries, i, n) == PathTo(t.entries, j, m)
    ensures i == j
    decreases n
  {
    PathLength(t.entries, i, n, top);
    PathLength(t.entries, j, m, top');
    if n > 0 {
      var p, q := t.entries[i].parent, t.entries[j].parent;
      var path := PathTo(t.entries, i, n);
      assert path[..n - 1] == PathTo(t.entries, p, n - 1) && path[..n - 1] == PathTo(t.entries, q, n - 1);
      assert path[n - 1] == t.entries[i].name && path[n - 1] == t.entries[j].name;
      PlaceInjective(t, p, n - 1, top, q, n - 1, top');
      assert Namesakes(t, i, j);
    }
  }

  /** `i` hangs below a storage of this ID, and a walk by its names ends there, if anywhere. */
  ghost predicate Leads(
    t: Table, dev: DeviceTree, i: Inode, n: nat, top: Inode, sid: StorageId, end: Option<Location>)
  {
    && Hangs(t.entries, i, n, top) && top in t.entries && t.entries[top].kind == Storage(sid)
    && Resolve(dev, sid, PathTo(t.entries, i, n)) == end
  }

  ghost predicate Ends(t: Table, dev: DeviceTree, i: Inode, sid: StorageId, end: Option<Location>) {
    exists n: nat, top :: Leads(t, dev, i, n, top, sid, end)
  }

  lemma EndsOnce(t: Table, dev: DeviceTree, i: Inode, sid: StorageId, end: Option<Location>, sid': StorageId,
                 end': Option<Location>)
    requires Ends(t, dev, i, sid, end) && Ends(t, dev, i, sid', end')
    ensures sid == sid' && end == end'
  {
    var n: nat, top :| Leads(t, dev, i, n, top, sid, end);
    var m: nat, top' :| Leads(t, dev, i, m, top', sid', end');
    PlaceUnique(t.entries, i, n, top, m, top');
  }

  /** What the invariants of both sides come to: no two inodes lead to one place. */
  lemma SamePlace(t: Table, dev: DeviceTree, i: Inode, j: Inode, sid: StorageId, at: Location)
    requires SiblingsDiffer(t) && UniqueStorages(t) && HandlesOnce(dev)
    requires Ends(t, dev, i, sid, Some(at)) && Ends(t, dev, j, sid, Some(at))
    ensures i == j
  {
    var n: nat, top :| Leads(t, dev, i, n, top, sid, Some(at));
    var m: nat, top' :| Leads(t, dev, j, m, top', sid, Some(at));
    PathInjective(dev, sid, PathTo(t.entries, i, n), sid, PathTo(t.entries, j, m));
    PlaceInjective(t, i, n, top, j, m, top');
  }

  /** Of a fresh object a walk ends with its handle. */
  ghost predicate EndsRight(t: Table, dev: DeviceTree, i: Inode) {
    Fresh(t, i) && IsObject(t.entries[i]) ==>
      forall sid, end | Ends(t, dev, i, sid, end) :: end == Some(Some(t.entries[i].kind.handle))
  }

  /** That handles are right, in terms of where walks end. */
  lemma RightMeansEnds(t: Table, dev: DeviceTree)
    ensures FreshRight(t, dev) <==> forall i :: EndsRight(t, dev, i)
  {
    if FreshRight(t, dev) {
      forall i
        ensures EndsRight(t, dev, i)
      {
        if Fresh(t, i) && IsObject(t.entries[i]) {
          forall sid, end | Ends(t, dev, i, sid, end)
            ensures end == Some(Some(t.entries[i].kind.handle))
          {
            var n: nat, top :| Leads(t, dev, i, n, top, sid, end);
            assert RightHandle(dev, t.entries, i, n, top);
          }
        }
      }
    }
    if forall i :: EndsRight(t, dev, i) {
      forall i, n, top | Hangs(t.entries, i, n, top) && Fresh(t, i)
        ensures RightHandle(dev, t.entries, i, n, top)
      {
        assert EndsRight(t, dev, i);
        if IsObject(t.entries[i]) && top in t.entries && t.entries[top].kind.Storage? {
          var sid := t.entries[top].kind.storageId;
          assert Leads(t, dev, i, n, top, sid, Resolve(dev, sid, PathTo(t.entries, i, n)));
          assert Ends(t, dev, i, sid, Resolve(dev, sid, PathTo(t.entries, i, n)));
        }
      }
    }
  }

  // ---------------------------------------------------------------------------------------
  // What a change leaves alone

  /** One step of a walk. */
  function Next(dev: DeviceTree, sid: StorageId, end: Option<Location>, name: string): Option<Location> {
    match end
    case None => None
    case Some(at) =>
      match Found(dev, Spot(sid, at, name))
      case None => None
      case Some(handle) => Some(Some(handle))
  }

  /** Entries but `x` are the ones they were. */
  ghost predicate SameBut(t: Table, t': Table, x: Inode) {
    && t'.generation == t.generation
    && forall i :: i in t'.entries && i != x ==> i in t.entries && t'.entries[i] == t.entries[i]
  }

  /** If walks to the parent of `i` end alike, so do walks to `i`. */
  ghost predicate StepsAlike(t: Table, dev: DeviceTree, t': Table, dev': DeviceTree, x: Inode, i: Inode) {
    i in t'.entries && i != x && IsObject(t'.entries[i]) ==>
      var p := t'.entries[i].parent;
      forall sid, end' | Ends(t', dev', p, sid, end') && (p != x ==> Ends(t, dev, p, sid, end')) ::
        EndsAlike(t, dev, dev', p, sid, end', t'.entries[i].name)
  }

  ghost predicate EndsAlike(
    t: Table, dev: DeviceTree, dev': DeviceTree, p: Inode, sid: StorageId, end': Option<Location>, name: string)
  {
    exists end :: Ends(t, dev, p, sid, end) && Next(dev, sid, end, name) == Next(dev', sid, end', name)
  }

  ghost predicate SideStepsAlike(t: Table, dev: DeviceTree, t': Table, dev': DeviceTree, x: Inode) {
    && SameBut(t, t', x)
    && forall i | i in t'.entries && t'.entries[i].parent != x :: StepsAlike(t, dev, t', dev', x, i)
  }

  ghost predicate StepsBelowAlike(t: Table, dev: DeviceTree, t': Table, dev': DeviceTree, x: Inode) {
    forall i | i in t'.entries && t'.entries[i].parent == x :: StepsAlike(t, dev, t', dev', x, i)
  }

  ghost predicate AllStepAlike(t: Table, dev: DeviceTree, t': Table, dev': DeviceTree, x: Inode) {
    SideStepsAlike(t, dev, t', dev', x) && StepsBelowAlike(t, dev, t', dev', x)
  }

  /** No place so near to its storage is that of `x`. */
  ghost predicate Deeper(entries: map<Inode, Entry>, x: Inode, n: nat) {
    forall m: nat, top :: Hangs(entries, x, m, top) ==> n < m
  }

  lemma LeadsOn(t: Table, dev: DeviceTree, i: Inode, n: nat, top: Inode, sid: StorageId, end: Option<Location>)
    requires i in t.entries && IsObject(t.entries[i]) && Leads(t, dev, t.entries[i].parent, n, top, sid, end)
    ensures Leads(t, dev, i, n + 1, top, sid, Next(dev, sid, end, t.entries[i].name))
  {
    var path := PathTo(t.entries, i, n + 1);
    assert path[..|path| - 1] == PathTo(t.entries, t.entries[i].parent, n);
  }

  /** Then every walk but the one to `x` ends as it did; and one that does not come past `x` does not need
      what is below it. */
  lemma {:induction false} EndsStay(
    t: Table, dev: DeviceTree, t': Table, dev': DeviceTree, x: Inode, i: Inode, n: nat, top: Inode,
    sid: StorageId, end: Option<Location>)
    requires SideStepsAlike(t, dev, t', dev', x) && i != x && Leads(t', dev', i, n, top, sid, end)
    requires StepsBelowAlike(t, dev, t', dev', x) || Deeper(t'.entries, x, n)
    ensures Ends(t, dev, i, sid, end)
    decreases n
  {
    if n == 0 {
      assert Leads(t, dev, i, 0, i, sid, Some(None));
    } else {
      var p := t'.entries[i].parent;
      var end' := Resolve(dev', sid, PathTo(t'.entries, p, n - 1));
      assert Leads(t', dev', p, n - 1, top, sid, end');
      if p != x {
        EndsStay(t, dev, t', dev', x, p, n - 1, top, sid, end');
      }
      assert StepsAlike(t, dev, t', dev', x, i) && Ends(t', dev', p, sid, end');
      LeadsOn(t', dev', i, n - 1, top, sid, end');
      StepFollows(t, dev, dev', i, sid, end', end);
    }
  }

  lemma StepFollows(
    t: Table, dev: DeviceTree, dev': DeviceTree, i: Inode, sid: StorageId, end': Option<Location>,
    after: Option<Location>)
    requires i in t.entries && IsObject(t.entries[i])
    requires EndsAlike(t, dev, dev', t.entries[i].parent, sid, end', t.entries[i].name)
    requires after == Next(dev', sid, end', t.entries[i].name)
    ensures Ends(t, dev, i, sid, after)
  {
    var p, name := t.entries[i].parent, t.entries[i].name;
    var end :| Ends(t, dev, p, sid, end) && Next(dev, sid, end, name) == Next(dev', sid, end', name);
    var n: nat, top :| Leads(t, dev, p, n, top, sid, end);
    LeadsOn(t, dev, i, n, top, sid, end);
  }

  /** So handles are right afterwards exactly if that of `x` is. */
  lemma RightIffChangedIs(t: Table, dev: DeviceTree, t': Table, dev': DeviceTree, x: Inode)
    requires FreshRight(t, dev) && AllStepAlike(t, dev, t', dev', x)
    ensures FreshRight(t', dev') <==> EndsRight(t', dev', x)
  {
    RightMeansEnds(t, dev);
    RightMeansEnds(t', dev');
    forall i | i != x
      ensures EndsRight(t', dev', i)
    {
      OtherEndsRight(t, dev, t', dev', x, i);
    }
  }

  lemma OtherEndsRight(t: Table, dev: DeviceTree, t': Table, dev': DeviceTree, x: Inode, i: Inode)
    requires EndsRight(t, dev, i) && AllStepAlike(t, dev, t', dev', x) && i != x
    ensures EndsRight(t', dev', i)
  {
    if Fresh(t', i) && IsObject(t'.entries[i]) {
      forall sid, end | Ends(t', dev', i, sid, end)
        ensures end == Some(Some(t'.entries[i].kind.handle))
      {
        var n: nat, top :| Leads(t', dev', i, n, top, sid, end);
        EndsStay(t, dev, t', dev', x, i, n, top, sid, end);
        assert Fresh(t, i);
      }
    }
  }

  // ---------------------------------------------------------------------------------------
  // Changes to a few names of the device

  ghost predicate ChangesOnly(dev: DeviceTree, dev': DeviceTree, spots: set<Spot>) {
    forall spot :: spot !in spots ==> Found(dev', spot) == Found(dev, spot)
  }

  /** The object's own place is this one. */
  ghost predicate SitsAt(t: Table, dev: DeviceTree, i: Inode, spot: Spot) {
    && i in t.entries && IsObject(t.entries[i]) && t.entries[i].name == spot.name
    && Ends(t, dev, t.entries[i].parent, spot.sid, Some(spot.at))
  }

  /** Walks to an entry that sits at none of the changed places go on as they did. */
  lemma ElsewhereStepsAlike(
    t: Table, dev: DeviceTree, t': Table, dev': DeviceTree, x: Inode, spots: set<Spot>, i: Inode)
    requires SameBut(t, t', x) && ChangesOnly(dev, dev', spots)
    requires i in t'.entries && i != x && t'.entries[i].parent != x
    requires forall spot | spot in spots :: !SitsAt(t, dev, i, spot)
    ensures StepsAlike(t, dev, t', dev', x, i)
  {
    if IsObject(t'.entries[i]) {
      var p, name := t'.entries[i].parent, t'.entries[i].name;
      forall sid, end | Ends(t', dev', p, sid, end) && Ends(t, dev, p, sid, end)
        ensures EndsAlike(t, dev, dev', p, sid, end, name)
      {
        if end.Some? {
          var spot := Spot(sid, end.value, name);
          assert spot in spots ==> SitsAt(t, dev, i, spot);
        }
      }
    }
  }

  /** What every change starts from: the tree and the device are in order and every handle is right. */
  ghost predicate Current(t: Table, dev: DeviceTree) {
    TreeOk(t) && SiblingsDiffer(t) && UniqueStorages(t) && HandlesOnce(dev) && FreshRight(t, dev)
  }

  /** Two entries never sit at one place. */
  lemma PlaceIsTaken(t: Table, dev: DeviceTree, x: Inode, i: Inode, spot: Spot)
    requires Current(t, dev) && SitsAt(t, dev, x, spot) && i != x
    ensures !SitsAt(t, dev, i, spot)
  {
    assert !Namesakes(t, i, x);
    if SitsAt(t, dev, i, spot) {
      SamePlace(t, dev, t.entries[i].parent, t.entries[x].parent, spot.sid, spot.at);
    }
  }

  /** A place in a directory whose names agree is that of the entry which has its name in the table. */
  lemma SitterIsNamed(t: Table, dev: DeviceTree, i: Inode, parent: Inode, spot: Spot)
    requires Current(t, dev) && DirNames(t, parent) && SitsAt(t, dev, i, spot)
    requires Ends(t, dev, parent, spot.sid, Some(spot.at))
    ensures t.entries[i].parent == parent && Lookup(t, parent, spot.name) == Some(i)
  {
    SamePlace(t, dev, t.entries[i].parent, parent, spot.sid, spot.at);
    assert Named(t, i);
  }

  /** A fresh object's handle is right exactly if the walk finds it under its name in its directory. */
  lemma RightIffFound(t: Table, dev: DeviceTree, x: Inode, sid: StorageId, at: Location)
    requires Fresh(t, x) && IsObject(t.entries[x]) && Ends(t, dev, t.entries[x].parent, sid, Some(at))
    ensures EndsRight(t, dev, x) <==>
        Found(dev, Spot(sid, at, t.entries[x].name)) == Some(t.entries[x].kind.handle)
  {
    var n: nat, top :| Leads(t, dev, t.entries[x].parent, n, top, sid, Some(at));
    LeadsOn(t, dev, x, n, top, sid, Some(at));
    var end := Next(dev, sid, Some(at), t.entries[x].name);
    assert Ends(t, dev, x, sid, end);
    forall sid', end' | Ends(t, dev, x, sid', end')
      ensures end' == end
    {
      EndsOnce(t, dev, x, sid, end, sid', end');
    }
  }

  /** The way up from a place that keeps all that it hangs below. */
  lemma {:induction false} WayStays(
    t: Table, t': Table, x: Inode, rank: map<Inode, nat>, least: nat, i: Inode, n: nat, top: Inode)
    requires EntriesOk(t) && RankOk(t.entries, rank) && SameBut(t, t', x) && Hangs(t.entries, i, n, top)
    requires forall j | j in t.entries && j !in t'.entries :: j in rank && rank[j] > least
    requires rank[i] <= least && (x in t.entries ==> !AtOrBelow(t.entries, i, x))
    ensures Hangs(t'.entries, i, n, top)
    ensures top in t.entries && top in t'.entries && t'.entries[top] == t.entries[top]
    decreases n
  {
    assert Up(t.entries, i, 0) == Some(i);
    if n > 0 {
      var p := t.entries[i].parent;
      HangsTop(t.entries, p, n - 1, top);
      if x in t.entries {
        AtOrBelowParent(t.entries, i, x);
      }
      WayStays(t, t', x, rank, least, p, n - 1, top);
    }
  }

  // ---------------------------------------------------------------------------------------
  // Creation

  function Put(objects: seq<ListedObject>, pos: nat, object': ListedObject): seq<ListedObject>
    requires pos <= |objects|
  {
    objects[..pos] + [object'] + objects[pos..]
  }

  function Relisted(dev: DeviceTree, sid: StorageId, at: Location, objects: seq<ListedObject>): DeviceTree {
    DeviceTree(dev.listings[(sid, at) := objects])
  }

  lemma {:induction false} FindNamedJoined(left: seq<ListedObject>, right: seq<ListedObject>, name: string)
    ensures FindNamed(left + right, name) ==
        if FindNamed(left, name).Some? then FindNamed(left, name) else FindNamed(right, name)
  {
    if left == [] {
      assert left + right == right;
    } else {
      assert (left + right)[1..] == left[1..] + right;
      FindNamedJoined(left[1..], right, name);
    }
  }

  /** A new object hides those of its name behind it and is hidden by those before it. */
  lemma PutFinds(objects: seq<ListedObject>, pos: nat, object': ListedObject, name: string)
    requires pos <= |objects|
    ensures FindNamed(Put(objects, pos, object'), name) ==
        if name != object'.filename then FindNamed(objects, name)
        else if FindNamed(objects[..pos], name).Some? then FindNamed(objects[..pos], name)
        else Some(object'.handle)
  {
    FindNamedJoined(objects[..pos], objects[pos..], name);
    assert objects == objects[..pos] + objects[pos..];
    FindNamedJoined(objects[..pos] + [object'], objects[pos..], name);
    FindNamedJoined(objects[..pos], [object'], name);
    assert FindNamed([object'], name) == if object'.filename == name then Some(object'.handle) else None;
  }

  /** The handle is of no object so far. */
  ghost predicate NewHandle(dev: DeviceTree, handle: ObjectHandle) {
    forall sid, at, k: nat :: !IsAt(dev, sid, at, k, handle)
  }

  /** A directory that a walk ends in is the root or has been listed. */
  lemma EndIsListed(t: Table, dev: DeviceTree, i: Inode, sid: StorageId, handle: ObjectHandle)
    requires Ends(t, dev, i, sid, Some(Some(handle)))
    ensures !NewHandle(dev, handle)
  {
    var n: nat, top :| Leads(t, dev, i, n, top, sid, Some(Some(handle)));
    var path := PathTo(t.entries, i, n);
    var at := Resolve(dev, sid, path[..|path| - 1]).value;
    var k := FindNamedAt(List(dev, sid, at), path[|path| - 1]);
    assert IsAt(dev, sid, at, k, handle);
  }

  function Reported(child: ChildInfo): ListedObject {
    ListedObject(child.handle, child.name, child.isDir, child.size, child.mtime)
  }

  /** The device with a new object, listed wherever the device likes. */
  function Made(dev: DeviceTree, sid: StorageId, at: Location, pos: nat, child: ChildInfo): DeviceTree
    requires pos <= |List(dev, sid, at)|
  {
    Relisted(dev, sid, at, Put(List(dev, sid, at), pos, Reported(child)))
  }

  lemma MadeChangesOnly(dev: DeviceTree, sid: StorageId, at: Location, pos: nat, child: ChildInfo)
    requires pos <= |List(dev, sid, at)|
    ensures ChangesOnly(dev, Made(dev, sid, at, pos, child), {Spot(sid, at, child.name)})
  {
    var dev' := Made(dev, sid, at, pos, child);
    forall spot | spot != Spot(sid, at, child.name)
      ensures Found(dev', spot) == Found(dev, spot)
    {
      PutFinds(List(dev, sid, at), pos, Reported(child), spot.name);
    }
  }

  lemma AdditionStepsAlike(
    t: Table, dev: DeviceTree, dev': DeviceTree, parent: Inode, spot: Spot, child: ChildInfo)
    requires Current(t, dev) && DirNames(t, parent)
    requires Ends(t, dev, parent, spot.sid, Some(spot.at)) && spot.name == child.name
    requires ChangesOnly(dev, dev', {spot})
    ensures AllStepAlike(t, dev, ObjectAdded(t, parent, child), dev', t.next)
  {
    var t' := ObjectAdded(t, parent, child);
    AdditionReplacesHolder(t, parent, child);
    forall i
      ensures StepsAlike(t, dev, t', dev', t.next, i)
    {
      if i in t'.entries && i != t.next {
        if SitsAt(t, dev, i, spot) {
          SitterIsNamed(t, dev, i, parent, spot);
        }
        ElsewhereStepsAlike(t, dev, t', dev', t.next, {spot}, i);
      }
    }
  }

  lemma AdditionIs(t: Table, parent: Inode, child: ChildInfo)
    requires DirInv(t, parent)
    ensures var t' := ObjectAdded(t, parent, child);
      && SameBut(t, t', t.next) && t.next in t'.entries && t'.entries[t.next] == NewObject(t, parent, child)
      && (forall i | i in t.entries && i !in t'.entries :: i != ROOT && t.entries[i].parent == parent)
  {
    AdditionReplacesHolder(t, parent, child);
    if Lookup(t, parent, child.name).Some? {
      assert NameOk(t, (parent, child.name));
    }
  }

  /** The directory of a new entry is where it was. */
  lemma DirectoryOfAddition(
    t: Table, dev: DeviceTree, dev': DeviceTree, parent: Inode, spot: Spot, child: ChildInfo)
    requires Current(t, dev) && DirNames(t, parent)
    requires Ends(t, dev, parent, spot.sid, Some(spot.at)) && spot.name == child.name
    requires AllStepAlike(t, dev, ObjectAdded(t, parent, child), dev', t.next)
    ensures Ends(ObjectAdded(t, parent, child), dev', parent, spot.sid, Some(spot.at))
  {
    var t' := ObjectAdded(t, parent, child);
    AdditionIs(t, parent, child);
    var rank :| RankOk(t.entries, rank);
    var n: nat, top :| Leads(t, dev, parent, n, top, spot.sid, Some(spot.at));
    WayStays(t, t', t.next, rank, rank[parent], parent, n, top);
    EndsAgain(t, dev, t', dev', t.next, parent, n, top, spot.sid, Some(spot.at));
  }

  /** A place that hangs as it did is where it was. */
  lemma EndsAgain(
    t: Table, dev: DeviceTree, t': Table, dev': DeviceTree, x: Inode, i: Inode, n: nat, top: Inode,
    sid: StorageId, end: Option<Location>)
    requires SideStepsAlike(t, dev, t', dev', x) && i != x && Ends(t, dev, i, sid, end)
    requires StepsBelowAlike(t, dev, t', dev', x) || Deeper(t'.entries, x, n)
    requires Hangs(t'.entries, i, n, top) && top in t'.entries && t'.entries[top].kind == Storage(sid)
    ensures Ends(t', dev', i, sid, end)
  {
    var end' := Resolve(dev', sid, PathTo(t'.entries, i, n));
    assert Leads(t', dev', i, n, top, sid, end');
    EndsStay(t, dev, t', dev', x, i, n, top, sid, end');
    EndsOnce(t, dev, i, sid, end, sid, end');
  }

  /** After a file or directory has been created, every handle of the session is still right exactly if
      the device lists no other object of that name before the new one. */
  lemma CreationRightIff(
    t: Table, dev: DeviceTree, parent: Inode, sid: StorageId, at: Location, pos: nat, child: ChildInfo)
    requires Current(t, dev) && DirNames(t, parent) && Ends(t, dev, parent, sid, Some(at))
    requires pos <= |List(dev, sid, at)| && NewHandle(dev, child.handle)
    ensures FreshRight(ObjectAdded(t, parent, child), Made(dev, sid, at, pos, child)) <==>
        FindNamed(List(dev, sid, at)[..pos], child.name) == None
  {
    var t', dev', spot := ObjectAdded(t, parent, child), Made(dev, sid, at, pos, child), Spot(sid, at, child.name);
    MadeChangesOnly(dev, sid, at, pos, child);
    AdditionStepsAlike(t, dev, dev', parent, spot, child);
    DirectoryOfAddition(t, dev, dev', parent, spot, child);
    RightIffChangedIs(t, dev, t', dev', t.next);
    AdditionReplacesHolder(t, parent, child);
    RightIffFound(t', dev', t.next, sid, at);
    PutFinds(List(dev, sid, at), pos, Reported(child), child.name);
    if FindNamed(List(dev, sid, at)[..pos], child.name).Some? {
      var k := FindNamedAt(List(dev, sid, at)[..pos], child.name);
      assert !IsAt(dev, sid, at, k, child.handle);
    }
  }

  // ---------------------------------------------------------------------------------------
  // Deletion

  function Cut(objects: seq<ListedObject>, k: nat): seq<ListedObject>
    requires k < |objects|
  {
    objects[..k] + objects[k + 1..]
  }

  lemma CutFinds(objects: seq<ListedObject>, k: nat, name: string)
    requires k < |objects| && name != objects[k].filename
    ensures FindNamed(Cut(objects, k), name) == FindNamed(objects, name)
  {
    assert Put(Cut(objects, k), k, objects[k]) == objects;
    PutFinds(Cut(objects, k), k, objects[k], name);
  }

  /** The device without one of its objects. What was in it can no longer be walked to. */
  function Deleted(dev: DeviceTree, sid: StorageId, at: Location, k: nat): DeviceTree
    requires k < |List(dev, sid, at)|
  {
    Relisted(dev, sid, at, Cut(List(dev, sid, at), k))
  }

  lemma DeletedChangesOnly(dev: DeviceTree, sid: StorageId, at: Location, k: nat)
    requires k < |List(dev, sid, at)|
    ensures ChangesOnly(dev, Deleted(dev, sid, at, k), {Spot(sid, at, List(dev, sid, at)[k].filename)})
  {
    var dev' := Deleted(dev, sid, at, k);
    forall spot | spot != Spot(sid, at, List(dev, sid, at)[k].filename)
      ensures Found(dev', spot) == Found(dev, spot)
    {
      if (spot.sid, spot.at) == (sid, at) {
        CutFinds(List(dev, sid, at), k, spot.name);
      }
    }
  }

  /** An object of the table whose handle is from this session, and where the device has it. */
  ghost predicate Known(
    t: Table, dev: DeviceTree, x: Inode, sid: StorageId, at: Location, k: nat)
  {
    && Fresh(t, x) && IsObject(t.entries[x]) && (exists sid', end :: Ends(t, dev, x, sid', end))
    && IsAt(dev, sid, at, k, t.entries[x].kind.handle)
  }

  /** The device has it in the place that the table has for it. */
  lemma KnownSitsThere(t: Table, dev: DeviceTree, x: Inode, sid: StorageId, at: Location, k: nat)
    requires Current(t, dev) && Known(t, dev, x, sid, at, k)
    ensures List(dev, sid, at)[k].filename == t.entries[x].name
    ensures SitsAt(t, dev, x, Spot(sid, at, t.entries[x].name))
    ensures Ends(t, dev, x, sid, Some(Some(t.entries[x].kind.handle)))
  {
    var sid', end :| Ends(t, dev, x, sid', end);
    RightMeansEnds(t, dev);
    assert EndsRight(t, dev, x);
    var n: nat, top :| Leads(t, dev, x, n, top, sid', end);
    var p := t.entries[x].parent;
    var end' := Resolve(dev, sid', PathTo(t.entries, p, n - 1));
    assert Leads(t, dev, p, n - 1, top, sid', end');
    LeadsOn(t, dev, x, n - 1, top, sid', end');
    var at' := end'.value;
    var k' := FindNamedAt(List(dev, sid', at'), t.entries[x].name);
    assert IsAt(dev, sid', at', k', t.entries[x].kind.handle);
  }

  /** Nothing that is left has the deleted object's handle. */
  lemma CutForgets(dev: DeviceTree, sid: StorageId, at: Location, k: nat)
    requires HandlesOnce(dev) && k < |List(dev, sid, at)|
    ensures NewHandle(Deleted(dev, sid, at, k), List(dev, sid, at)[k].handle)
  {
    var handle, cut := List(dev, sid, at)[k].handle, Deleted(dev, sid, at, k);
    assert IsAt(dev, sid, at, k, handle);
    forall sid': StorageId, at', j: nat
      ensures !IsAt(cut, sid', at', j, handle)
    {
      if j < |List(cut, sid', at')| {
        var was := if (sid', at') == (sid, at) && j >= k then j + 1 else j;
        assert IsAt(dev, sid', at', was, List(cut, sid', at')[j].handle);
      }
    }
  }

  /** A deletion leaves every handle of the session right. */
  lemma DeletionKeepsRight(t: Table, dev: DeviceTree, x: Inode, sid: StorageId, at: Location, k: nat)
    requires Current(t, dev) && Known(t, dev, x, sid, at, k)
    ensures FreshRight(Removed(t, x), Deleted(dev, sid, at, k))
  {
    var t', dev', spot := Removed(t, x), Deleted(dev, sid, at, k), Spot(sid, at, t.entries[x].name);
    KnownSitsThere(t, dev, x, sid, at, k);
    DeletedChangesOnly(dev, sid, at, k);
    forall i
      ensures StepsAlike(t, dev, t', dev', x, i)
    {
      if i in t'.entries && i != x && t'.entries[i].parent != x {
        PlaceIsTaken(t, dev, x, i, spot);
        ElsewhereStepsAlike(t, dev, t', dev', x, {spot}, i);
      }
    }
    RightIffChangedIs(t, dev, t', dev', x);
  }

  // ---------------------------------------------------------------------------------------
  // Renaming and moving

  /** The device with one of its objects under another name, in another directory, or both, listed
      wherever the device likes. */
  function Relocated(
    dev: DeviceTree, sid: StorageId, at: Location, k: nat, at': Location, pos: nat, name: string): DeviceTree
    requires k < |List(dev, sid, at)| && pos <= |List(Deleted(dev, sid, at, k), sid, at')|
  {
    var cut := Deleted(dev, sid, at, k);
    Relisted(cut, sid, at', Put(List(cut, sid, at'), pos, List(dev, sid, at)[k].(filename := name)))
  }

  lemma RelocatedChangesOnly(
    dev: DeviceTree, sid: StorageId, at: Location, k: nat, at': Location, pos: nat, name: string)
    requires k < |List(dev, sid, at)| && pos <= |List(Deleted(dev, sid, at, k), sid, at')|
    ensures ChangesOnly(dev, Relocated(dev, sid, at, k, at', pos, name),
                        {Spot(sid, at, List(dev, sid, at)[k].filename), Spot(sid, at', name)})
  {
    var object', cut := List(dev, sid, at)[k].(filename := name), Deleted(dev, sid, at, k);
    var dev' := Relocated(dev, sid, at, k, at', pos, name);
    DeletedChangesOnly(dev, sid, at, k);
    forall spot | spot !in {Spot(sid, at, List(dev, sid, at)[k].filename), Spot(sid, at', name)}
      ensures Found(dev', spot) == Found(dev, spot)
    {
      assert Found(cut, spot) == Found(dev, spot);
      if (spot.sid, spot.at) == (sid, at') {
        PutFinds(List(cut, sid, at'), pos, object', spot.name);
      }
    }
  }

  lemma RenameStepsAlike(
    t: Table, dev: DeviceTree, dev': DeviceTree, x: Inode, newParent: Inode, spot: Spot, spot': Spot)
    requires Current(t, dev) && x != ROOT && SitsAt(t, dev, x, spot)
    requires DirNames(t, newParent) && Ends(t, dev, newParent, spot'.sid, Some(spot'.at))
    requires ChangesOnly(dev, dev', {spot, spot'})
    ensures SideStepsAlike(t, dev, Renamed(t, x, newParent, spot'.name), dev', x)
  {
    var t' := Renamed(t, x, newParent, spot'.name);
    RenamedIs(t, x, newParent, spot'.name);
    forall i | i in t'.entries && t'.entries[i].parent != x
      ensures StepsAlike(t, dev, t', dev', x, i)
    {
      if i != x {
        assert MayStay(t, t', x, newParent, spot'.name, i);
        OtherSitsElsewhere(t, dev, x, newParent, spot, spot', i);
        ElsewhereStepsAlike(t, dev, t', dev', x, {spot, spot'}, i);
      }
    }
  }

  lemma OtherSitsElsewhere(
    t: Table, dev: DeviceTree, x: Inode, newParent: Inode, spot: Spot, spot': Spot, i: Inode)
    requires Current(t, dev) && SitsAt(t, dev, x, spot) && i != x
    requires DirNames(t, newParent) && Ends(t, dev, newParent, spot'.sid, Some(spot'.at))
    requires Lookup(t, newParent, spot'.name) != Some(i)
    ensures forall place | place in {spot, spot'} :: !SitsAt(t, dev, i, place)
  {
    PlaceIsTaken(t, dev, x, i, spot);
    NotThere(t, dev, i, newParent, spot');
  }

  lemma NotThere(t: Table, dev: DeviceTree, i: Inode, parent: Inode, spot: Spot)
    requires Current(t, dev) && DirNames(t, parent) && Ends(t, dev, parent, spot.sid, Some(spot.at))
    requires Lookup(t, parent, spot.name) != Some(i)
    ensures !SitsAt(t, dev, i, spot)
  {
    if SitsAt(t, dev, i, spot) {
      SitterIsNamed(t, dev, i, parent, spot);
    }
  }

  /** Who is left by a rename did not hold the new name. */
  ghost predicate MayStay(t: Table, t': Table, x: Inode, newParent: Inode, name: string, i: Inode) {
    i in t'.entries && i != x ==> Lookup(t, newParent, name) != Some(i)
  }

  lemma RenamedIs(t: Table, x: Inode, newParent: Inode, name: string)
    requires DirInv(t, newParent) && x in t.entries && x != ROOT
    ensures var t' := Renamed(t, x, newParent, name);
      && SameBut(t, t', x) && (forall i :: MayStay(t, t', x, newParent, name, i))
      && x in t'.entries && t'.entries[x] == t.entries[x].(parent := newParent, name := name)
      && (forall i | i in t.entries && i !in t'.entries :: i != ROOT && t.entries[i].parent == newParent)
  {
    RenameMovesOneEntry(t, Renamed(t, x, newParent, name), x, newParent, name);
    if Lookup(t, newParent, name).Some? {
      assert NameOk(t, (newParent, name));
    }
  }

  /** The new directory is where it was, with the moved entry below it. */
  lemma NewDirectoryHangs(
    t: Table, dev: DeviceTree, x: Inode, newParent: Inode, name: string, n: nat, top: Inode, sid: StorageId,
    end: Option<Location>)
    requires Current(t, dev) && x != ROOT && x in t.entries && IsObject(t.entries[x])
    requires DirNames(t, newParent) && Leads(t, dev, newParent, n, top, sid, end)
    requires !AtOrBelow(t.entries, newParent, x)
    ensures var t' := Renamed(t, x, newParent, name);
      && Hangs(t'.entries, newParent, n, top) && top in t'.entries && t'.entries[top] == t.entries[top]
      && Deeper(t'.entries, x, n) && Hangs(t'.entries, x, n + 1, top)
  {
    var t' := Renamed(t, x, newParent, name);
    RenamedIs(t, x, newParent, name);
    var rank :| RankOk(t.entries, rank);
    WayStays(t, t', x, rank, rank[newParent], newParent, n, top);
    HangsDeeper(t'.entries, x, n, top);
  }

  lemma HangsDeeper(entries: map<Inode, Entry>, x: Inode, n: nat, top: Inode)
    requires Hangs(entries, x, n + 1, top)
    ensures Deeper(entries, x, n)
  {
    forall m: nat, top' | Hangs(entries, x, m, top')
      ensures n < m
    {
      PlaceUnique(entries, x, n + 1, top, m, top');
    }
  }

  /** A walk finds the same inside the one object as inside the other. */
  ghost predicate SameInside(
    dev: DeviceTree, handle: ObjectHandle, dev': DeviceTree, handle': ObjectHandle, sid: StorageId)
  {
    forall name :: Found(dev', Spot(sid, Some(handle'), name)) == Found(dev, Spot(sid, Some(handle), name))
  }

  lemma InsideStays(dev: DeviceTree, dev': DeviceTree, handle: ObjectHandle, spot: Spot, spot': Spot)
    requires ChangesOnly(dev, dev', {spot, spot'}) && spot.at != Some(handle) && spot'.at != Some(handle)
    ensures SameInside(dev, handle, dev', handle, spot.sid)
  {
    forall name
      ensures Found(dev', Spot(spot.sid, Some(handle), name)) == Found(dev, Spot(spot.sid, Some(handle), name))
    {
      var other := Spot(spot.sid, Some(handle), name);
      assert other != spot && other != spot';
    }
  }

  /** If the walk finds the object where it is now, it goes on from there as it did from where it was. */
  lemma BelowFollows(
    t: Table, dev: DeviceTree, t': Table, dev': DeviceTree, x: Inode, sid: StorageId, handle: ObjectHandle)
    requires Ends(t, dev, x, sid, Some(Some(handle))) && SameBut(t, t', x)
    requires Fresh(t', x) && IsObject(t'.entries[x]) && EndsRight(t', dev', x)
    requires SameInside(dev, handle, dev', t'.entries[x].kind.handle, sid)
    requires forall sid', end | Ends(t', dev', x, sid', end) :: sid' == sid
    ensures StepsBelowAlike(t, dev, t', dev', x)
  {
    forall i | i in t'.entries && t'.entries[i].parent == x && i != x && IsObject(t'.entries[i])
      ensures StepsAlike(t, dev, t', dev', x, i)
    {
      var name := t'.entries[i].name;
      forall sid', end | Ends(t', dev', x, sid', end)
        ensures EndsAlike(t, dev, dev', x, sid', end, name)
      {
        assert end == Some(Some(t'.entries[x].kind.handle));
        assert Next(dev, sid, Some(Some(handle)), name) == Next(dev', sid, end, name);
      }
    }
  }

  lemma OneStorage(t: Table, dev: DeviceTree, x: Inode, sid: StorageId, end: Option<Location>)
    requires Ends(t, dev, x, sid, end)
    ensures forall sid', end' | Ends(t, dev, x, sid', end') :: sid' == sid
  {
    forall sid', end' | Ends(t, dev, x, sid', end')
      ensures sid' == sid
    {
      EndsOnce(t, dev, x, sid, end, sid', end');
    }
  }

  lemma NotItsOwnDirectory(t: Table, dev: DeviceTree, x: Inode, sid: StorageId, p: Inode, at: Location)
    requires Current(t, dev) && x in t.entries && IsObject(t.entries[x]) && p != x
    requires Ends(t, dev, x, sid, Some(Some(t.entries[x].kind.handle))) && Ends(t, dev, p, sid, Some(at))
    ensures at != Some(t.entries[x].kind.handle)
  {
    if at == Some(t.entries[x].kind.handle) {
      SamePlace(t, dev, x, p, sid, at);
    }
  }

  /** What a rename or a move does. The object stays in its storage; the table has it in the one that the
      new directory is in. */
  ghost predicate Relocates(
    t: Table, dev: DeviceTree, x: Inode, sid: StorageId, at: Location, k: nat,
    newParent: Inode, sid': StorageId, at': Location, pos: nat)
  {
    && Known(t, dev, x, sid, at, k) && x != ROOT
    && DirNames(t, newParent) && Ends(t, dev, newParent, sid', Some(at'))
    && !AtOrBelow(t.entries, newParent, x)
    && pos <= |List(Deleted(dev, sid, at, k), sid, at')|
  }

  lemma RelocatedWithinStorage(
    t: Table, dev: DeviceTree, x: Inode, sid: StorageId, at: Location, k: nat,
    newParent: Inode, at': Location, pos: nat, name: string)
    requires Current(t, dev) && Relocates(t, dev, x, sid, at, k, newParent, sid, at', pos)
    ensures FreshRight(Renamed(t, x, newParent, name), Relocated(dev, sid, at, k, at', pos, name)) <==>
        Found(Relocated(dev, sid, at, k, at', pos, name), Spot(sid, at', name)) == Some(t.entries[x].kind.handle)
  {
    var t', dev' := Renamed(t, x, newParent, name), Relocated(dev, sid, at, k, at', pos, name);
    var spot, spot' := Spot(sid, at, t.entries[x].name), Spot(sid, at', name);
    KnownSitsThere(t, dev, x, sid, at, k);
    RelocatedChangesOnly(dev, sid, at, k, at', pos, name);
    RenameStepsAlike(t, dev, dev', x, newParent, spot, spot');
    RenameMovesOneEntry(t, t', x, newParent, name);
    var n: nat, top :| Leads(t, dev, newParent, n, top, sid, Some(at'));
    NewDirectoryHangs(t, dev, x, newParent, name, n, top, sid, Some(at'));
    assert Up(t.entries, x, 0) == Some(x);
    EndsAgain(t, dev, t', dev', x, newParent, n, top, sid, Some(at'));
    RightIffFound(t', dev', x, sid, at');
    RightMeansEnds(t', dev');
    if EndsRight(t', dev', x) {
      NoSelfParent(t);
      NotItsOwnDirectory(t, dev, x, sid, t.entries[x].parent, at);
      NotItsOwnDirectory(t, dev, x, sid, newParent, at');
      assert Leads(t', dev', x, n + 1, top, sid, Resolve(dev', sid, PathTo(t'.entries, x, n + 1)));
      OneStorage(t', dev', x, sid, Resolve(dev', sid, PathTo(t'.entries, x, n + 1)));
      InsideStays(dev, dev', t.entries[x].kind.handle, spot, spot');
      BelowFollows(t, dev, t', dev', x, sid, t.entries[x].kind.handle);
      RightIffChangedIs(t, dev, t', dev', x);
    }
  }

  /** Moved to another storage's directory, the object would have to be in two storages. */
  lemma OtherStorageIsWrong(
    t: Table, dev: DeviceTree, x: Inode, sid: StorageId, at: Location, k: nat,
    newParent: Inode, sid': StorageId, at': Location, pos: nat, name: string)
    requires Current(t, dev) && Relocates(t, dev, x, sid, at, k, newParent, sid', at', pos) && sid' != sid
    ensures !FreshRight(Renamed(t, x, newParent, name), Relocated(dev, sid, at, k, at', pos, name))
  {
    var t', dev' := Renamed(t, x, newParent, name), Relocated(dev, sid, at, k, at', pos, name);
    RenamedIs(t, x, newParent, name);
    var n: nat, top :| Leads(t, dev, newParent, n, top, sid', Some(at'));
    NewDirectoryHangs(t, dev, x, newParent, name, n, top, sid', Some(at'));
    RightMeansEnds(t', dev');
    var end := Resolve(dev', sid', PathTo(t'.entries, newParent, n));
    assert Leads(t', dev', newParent, n, top, sid', end);
    LeadsOn(t', dev', x, n, top, sid', end);
    assert Ends(t', dev', x, sid', Next(dev', sid', end, name));
    OtherStoragesStay(dev, sid, at, k, at', pos, name);
    NeverInOtherStorage(dev, dev', sid, at, k, sid', end, name);
    assert !EndsRight(t', dev', x);
  }

  lemma OtherStoragesStay(
    dev: DeviceTree, sid: StorageId, at: Location, k: nat, at': Location, pos: nat, name: string)
    requires k < |List(dev, sid, at)| && pos <= |List(Deleted(dev, sid, at, k), sid, at')|
    ensures forall sid', other | sid' != sid ::
        List(Relocated(dev, sid, at, k, at', pos, name), sid', other) == List(dev, sid', other)
  {
  }

  lemma NeverInOtherStorage(
    dev: DeviceTree, dev': DeviceTree, sid: StorageId, at: Location, k: nat, sid': StorageId,
    end: Option<Location>, name: string)
    requires HandlesOnce(dev) && k < |List(dev, sid, at)| && sid' != sid
    requires forall other :: List(dev', sid', other) == List(dev, sid', other)
    ensures Next(dev', sid', end, name) != Some(Some(List(dev, sid, at)[k].handle))
  {
    assert IsAt(dev, sid, at, k, List(dev, sid, at)[k].handle);
    if Next(dev', sid', end, name) != None {
      var k' := FindNamedAt(List(dev', sid', end.value), name);
      assert IsAt(dev, sid', end.value, k', List(dev', sid', end.value)[k'].handle);
    }
  }

  /** After a rename or a move, every handle of the session is still right exactly if the new directory is
      in the object's own storage and the device lists no other object of the new name before it. */
  lemma RelocationRightIff(
    t: Table, dev: DeviceTree, x: Inode, sid: StorageId, at: Location, k: nat,
    newParent: Inode, sid': StorageId, at': Location, pos: nat, name: string)
    requires Current(t, dev) && Relocates(t, dev, x, sid, at, k, newParent, sid', at', pos)
    ensures FreshRight(Renamed(t, x, newParent, name), Relocated(dev, sid, at, k, at', pos, name)) <==>
        sid' == sid && FindNamed(List(Deleted(dev, sid, at, k), sid, at')[..pos], name) == None
  {
    if sid' == sid {
      RelocatedWithinStorage(t, dev, x, sid, at, k, newParent, at', pos, name);
      var cut := Deleted(dev, sid, at, k);
      PutFinds(List(cut, sid, at'), pos, List(dev, sid, at)[k].(filename := name), name);
      if FindNamed(List(cut, sid, at')[..pos], name).Some? {
        var j := FindNamedAt(List(cut, sid, at')[..pos], name);
        CutForgets(dev, sid, at, k);
        assert !IsAt(cut, sid, at', j, List(dev, sid, at)[k].handle);
      }
    } else {
      OtherStorageIsWrong(t, dev, x, sid, at, k, newParent, sid', at', pos, name);
    }
  }

  // ---------------------------------------------------------------------------------------
  // Changes that the table does not hear of

  /** The device has no object of this handle and name. */
  ghost predicate Nowhere(dev: DeviceTree, handle: ObjectHandle, name: string) {
    forall sid, at, k: nat | IsAt(dev, sid, at, k, handle) :: List(dev, sid, at)[k].filename != name
  }

  lemma NowhereIsWrong(t: Table, dev: DeviceTree, x: Inode, n: nat, top: Inode, sid: StorageId)
    requires Fresh(t, x) && IsObject(t.entries[x]) && Nowhere(dev, t.entries[x].kind.handle, t.entries[x].name)
    requires Hangs(t.entries, x, n, top) && top in t.entries && t.entries[top].kind == Storage(sid)
    ensures !FreshRight(t, dev)
  {
    var p, name := t.entries[x].parent, t.entries[x].name;
    var end := Resolve(dev, sid, PathTo(t.entries, p, n - 1));
    assert Leads(t, dev, p, n - 1, top, sid, end);
    LeadsOn(t, dev, x, n - 1, top, sid, end);
    if Next(dev, sid, end, name) != None {
      var k := FindNamedAt(List(dev, sid, end.value), name);
      assert IsAt(dev, sid, end.value, k, List(dev, sid, end.value)[k].handle);
    }
    assert FreshRight(t, dev) ==> RightHandle(dev, t.entries, x, n, top);
  }

  /** A deletion or renaming that is carried out while the operation fails, by a lost reply or because the move
      after it fails, leaves a wrong handle that counts as current: until the next session, or a listing. */
  lemma FailedOperationLeavesWrongHandle(
    t: Table, dev: DeviceTree, x: Inode, sid: StorageId, at: Location, k: nat, at': Location, pos: nat,
    name: string)
    requires Current(t, dev) && Known(t, dev, x, sid, at, k)
    requires pos <= |List(Deleted(dev, sid, at, k), sid, at')|
    ensures !FreshRight(t, Deleted(dev, sid, at, k))
    ensures name != t.entries[x].name ==> !FreshRight(t, Relocated(dev, sid, at, k, at', pos, name))
  {
    var handle, dev' := t.entries[x].kind.handle, Relocated(dev, sid, at, k, at', pos, name);
    var sid', end :| Ends(t, dev, x, sid', end);
    var n: nat, top :| Leads(t, dev, x, n, top, sid', end);
    CutForgets(dev, sid, at, k);
    NowhereIsWrong(t, Deleted(dev, sid, at, k), x, n, top, sid');
    if name != t.entries[x].name {
      RelocatedHandleIsRenamed(dev, sid, at, k, at', pos, name);
      NowhereIsWrong(t, dev', x, n, top, sid');
    }
  }

  lemma RelocatedHandleIsRenamed(
    dev: DeviceTree, sid: StorageId, at: Location, k: nat, at': Location, pos: nat, name: string)
    requires HandlesOnce(dev) && k < |List(dev, sid, at)| && pos <= |List(Deleted(dev, sid, at, k), sid, at')|
    ensures forall other | other != name ::
        Nowhere(Relocated(dev, sid, at, k, at', pos, name), List(dev, sid, at)[k].handle, other)
  {
    var handle, cut := List(dev, sid, at)[k].handle, Deleted(dev, sid, at, k);
    var dev' := Relocated(dev, sid, at, k, at', pos, name);
    CutForgets(dev, sid, at, k);
    forall sid': StorageId, to, j: nat | j < |List(dev', sid', to)| && (sid', to, j) != (sid, at', pos)
      ensures !IsAt(dev', sid', to, j, handle)
    {
      var was := if (sid', to) == (sid, at') && j > pos then j - 1 else j;
      assert List(dev', sid', to)[j] == List(cut, sid', to)[was] && !IsAt(cut, sid', to, was, handle);
    }
  }
}
