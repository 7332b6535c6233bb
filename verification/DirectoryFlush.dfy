/** A flush replaces an object of the device and re-points the file's entry (src/fs.rs): exactly when every
    handle from the session is still the right one. */
module DirectoryFlushes {
  import opened Basics
  import opened InodeTables
  import opened InodeInvariants
  import opened PathResolution
  import opened DirectoryChanges
  import D = Devices

  /** Where an entry hangs is a matter of parents and of what can hang. */
  lemma {:induction false} SameParentsHang(
    entries: map<Inode, Entry>, entries': map<Inode, Entry>, i: Inode, n: nat, top: Inode)
    requires entries'.Keys == entries.Keys && Hangs(entries, i, n, top)
    requires forall j | j in entries ::
        entries'[j].parent == entries[j].parent && (IsObject(entries'[j]) <==> IsObject(entries[j]))
    ensures Hangs(entries', i, n, top)
    decreases n
  {
    if n > 0 {
      SameParentsHang(entries, entries', entries[i].parent, n - 1, top);
    }
  }

  /** A file of the table whose handle is from this session, and the place that it has in the table and
      on the device. */
  ghost predicate FileAt(t: Table, dev: DeviceTree, x: Inode, spot: Spot) {
    && Fresh(t, x) && t.entries[x].kind.File? && x != ROOT && SitsAt(t, dev, x, spot)
    && Found(dev, spot) == Some(t.entries[x].kind.handle)
  }

  /** No other file or directory beside the inode has the name. */
  ghost predicate NameIsFree(t: Table, x: Inode, name: string)
    requires x in t.entries
  {
    forall i | i in t.entries && i != x && IsObject(t.entries[i]) && t.entries[i].parent == t.entries[x].parent ::
      t.entries[i].name != name
  }

  lemma PlaceIsFree(t: Table, dev: DeviceTree, x: Inode, i: Inode, spot: Spot, spot': Spot)
    requires Current(t, dev) && SitsAt(t, dev, x, spot) && spot' == spot.(name := spot'.name)
    requires NameIsFree(t, x, spot'.name) && i != x
    ensures !SitsAt(t, dev, i, spot')
  {
    if SitsAt(t, dev, i, spot') {
      SamePlace(t, dev, t.entries[i].parent, t.entries[x].parent, spot.sid, spot.at);
    }
  }

  lemma OverwriteStepsAlike(
    t: Table, dev: DeviceTree, dev': DeviceTree, x: Inode, spot: Spot, spot': Spot, handle: ObjectHandle,
    size: nat, mtime: Time)
    requires Current(t, dev) && x != ROOT && SitsAt(t, dev, x, spot)
    requires spot' == spot.(name := spot'.name) && ChangesOnly(dev, dev', {spot, spot'})
    requires NameIsFree(t, x, spot'.name)
    ensures SideStepsAlike(t, dev, Overwritten(t, x, spot'.name, handle, size, mtime), dev', x)
  {
    var t' := Overwritten(t, x, spot'.name, handle, size, mtime);
    forall i | i in t'.entries && t'.entries[i].parent != x
      ensures StepsAlike(t, dev, t', dev', x, i)
    {
      if i != x {
        PlaceIsTaken(t, dev, x, i, spot);
        PlaceIsFree(t, dev, x, i, spot, spot');
        ElsewhereStepsAlike(t, dev, t', dev', x, {spot, spot'}, i);
      }
    }
  }

  lemma OverwrittenHangs(
    t: Table, dev: DeviceTree, x: Inode, n: nat, top: Inode, sid: StorageId, end: Option<Location>,
    name: string, handle: ObjectHandle, size: nat, mtime: Time)
    requires x in t.entries && t.entries[x].kind.File? && Leads(t, dev, t.entries[x].parent, n, top, sid, end)
    ensures var t' := Overwritten(t, x, name, handle, size, mtime);
      && Hangs(t'.entries, t.entries[x].parent, n, top) && top in t'.entries && t'.entries[top] == t.entries[top]
      && Deeper(t'.entries, x, n) && Hangs(t'.entries, x, n + 1, top)
  {
    var t' := Overwritten(t, x, name, handle, size, mtime);
    HangsTop(t.entries, t.entries[x].parent, n, top);
    SameParentsHang(t.entries, t'.entries, t.entries[x].parent, n, top);
    HangsDeeper(t'.entries, x, n, top);
  }

  /** An entry re-pointed at another object of its directory leaves every handle right exactly if a walk
      finds that object there. */
  lemma OverwriteRightIff(
    t: Table, dev: DeviceTree, dev': DeviceTree, x: Inode, spot: Spot, spot': Spot, handle: ObjectHandle,
    size: nat, mtime: Time)
    requires Current(t, dev) && FileAt(t, dev, x, spot)
    requires spot' == spot.(name := spot'.name) && ChangesOnly(dev, dev', {spot, spot'})
    requires NameIsFree(t, x, spot'.name)
    requires SameInside(dev, t.entries[x].kind.handle, dev', handle, spot.sid)
    ensures FreshRight(Overwritten(t, x, spot'.name, handle, size, mtime), dev') <==>
        Found(dev', spot') == Some(handle)
  {
    var t', sid := Overwritten(t, x, spot'.name, handle, size, mtime), spot.sid;
    OverwriteStepsAlike(t, dev, dev', x, spot, spot', handle, size, mtime);
    var p := t.entries[x].parent;
    var n: nat, top :| Leads(t, dev, p, n, top, sid, Some(spot.at));
    OverwrittenHangs(t, dev, x, n, top, sid, Some(spot.at), spot'.name, handle, size, mtime);
    NoSelfParent(t);
    EndsAgain(t, dev, t', dev', x, p, n, top, sid, Some(spot.at));
    RightIffFound(t', dev', x, sid, spot.at);
    RightMeansEnds(t', dev');
    if EndsRight(t', dev', x) {
      LeadsOn(t, dev, x, n, top, sid, Some(spot.at));
      assert Leads(t', dev', x, n + 1, top, sid, Resolve(dev', sid, PathTo(t'.entries, x, n + 1)));
      OneStorage(t', dev', x, sid, Resolve(dev', sid, PathTo(t'.entries, x, n + 1)));
      BelowFollows(t, dev, t', dev', x, sid, t.entries[x].kind.handle);
      RightIffChangedIs(t, dev, t', dev', x);
    }
  }

  /** What a flush has to do with on the device: the file's object, and one with a new handle to take its
      place. Files hold nothing. */
  ghost predicate CanReplace(
    t: Table, dev: DeviceTree, x: Inode, spot: Spot, k: nat, pos: nat, handle: ObjectHandle)
  {
    && FileAt(t, dev, x, spot) && IsAt(dev, spot.sid, spot.at, k, t.entries[x].kind.handle)
    && pos <= |List(dev, spot.sid, spot.at)| && NewHandle(dev, handle)
    && List(dev, spot.sid, Some(t.entries[x].kind.handle)) == [] && List(dev, spot.sid, Some(handle)) == []
  }

  /** Where the `k`th object is once another has been put in. */
  function Shifted(k: nat, pos: nat): nat {
    if k < pos then k else k + 1
  }

  /** The device with the new version uploaded under the temporary name, and then without the old one. */
  function Uploaded(dev: DeviceTree, spot: Spot, pos: nat, version: ListedObject): DeviceTree
    requires pos <= |List(dev, spot.sid, spot.at)|
  {
    Relisted(dev, spot.sid, spot.at,
             Put(List(dev, spot.sid, spot.at), pos, version.(filename := D.TempName(spot.name))))
  }

  function Cleared(dev: DeviceTree, spot: Spot, k: nat, pos: nat, version: ListedObject): DeviceTree
    requires k < |List(dev, spot.sid, spot.at)| && pos <= |List(dev, spot.sid, spot.at)|
  {
    Deleted(Uploaded(dev, spot, pos, version), spot.sid, spot.at, Shifted(k, pos))
  }

  /** And then with the new version renamed into place, where the device may list it elsewhere. */
  function Swapped(dev: DeviceTree, spot: Spot, k: nat, pos: nat, pos': nat, version: ListedObject): DeviceTree
    requires k < |List(dev, spot.sid, spot.at)| && pos <= |List(dev, spot.sid, spot.at)|
    requires pos' < |List(dev, spot.sid, spot.at)|
  {
    Relocated(Cleared(dev, spot, k, pos, version), spot.sid, spot.at, if k < pos then pos - 1 else pos,
              spot.at, pos', spot.name)
  }

  lemma CutPut(objects: seq<ListedObject>, pos: nat, version: ListedObject)
    requires pos <= |objects|
    ensures Cut(Put(objects, pos, version), pos) == objects
  {
  }

  lemma CutBesidePut(objects: seq<ListedObject>, k: nat, pos: nat, version: ListedObject)
    requires k < |objects| && pos <= |objects|
    ensures Cut(Put(objects, pos, version), Shifted(k, pos))
        == Put(Cut(objects, k), if k < pos then pos - 1 else pos, version)
  {
    var left := Cut(Put(objects, pos, version), Shifted(k, pos));
    var right := Put(Cut(objects, k), if k < pos then pos - 1 else pos, version);
    var at := if k < pos then pos - 1 else pos;
    forall j | 0 <= j < |objects|
      ensures left[j] == right[j]
    {
      CutAt(Put(objects, pos, version), Shifted(k, pos), j);
      PutAt(objects, pos, version, if j < Shifted(k, pos) then j else j + 1);
      PutAt(Cut(objects, k), at, version, j);
      if j != at {
        CutAt(objects, k, if j < at then j else j - 1);
      }
    }
  }

  lemma CutAt(objects: seq<ListedObject>, k: nat, j: nat)
    requires k < |objects| && j < |objects| - 1
    ensures Cut(objects, k)[j] == objects[if j < k then j else j + 1]
  {
  }

  lemma PutAt(objects: seq<ListedObject>, pos: nat, version: ListedObject, j: nat)
    requires pos <= |objects| && j <= |objects|
    ensures Put(objects, pos, version)[j] ==
        if j < pos then objects[j] else if j == pos then version else objects[j - 1]
  {
  }

  /** All three steps come to one object in the place of another. */
  lemma SwappedIs(dev: DeviceTree, spot: Spot, k: nat, pos: nat, pos': nat, version: ListedObject)
    requires k < |List(dev, spot.sid, spot.at)| && pos <= |List(dev, spot.sid, spot.at)|
    requires pos' < |List(dev, spot.sid, spot.at)| && version.filename == spot.name
    ensures List(Swapped(dev, spot, k, pos, pos', version), spot.sid, spot.at)
        == Put(Cut(List(dev, spot.sid, spot.at), k), pos', version)
    ensures forall sid: StorageId, at | (sid, at) != (spot.sid, spot.at) ::
        List(Swapped(dev, spot, k, pos, pos', version), sid, at) == List(dev, sid, at)
  {
    var objects, temp := List(dev, spot.sid, spot.at), version.(filename := D.TempName(spot.name));
    var j := if k < pos then pos - 1 else pos;
    var cleared := Cut(Put(objects, pos, temp), Shifted(k, pos));
    CutBesidePut(objects, k, pos, temp);
    CutPut(Cut(objects, k), j, temp);
    assert temp.(filename := spot.name) == version;
  }

  lemma SwappedChangesOnly(dev: DeviceTree, spot: Spot, k: nat, pos: nat, pos': nat, version: ListedObject)
    requires k < |List(dev, spot.sid, spot.at)| && pos <= |List(dev, spot.sid, spot.at)|
    requires pos' < |List(dev, spot.sid, spot.at)| && version.filename == spot.name
    requires List(dev, spot.sid, spot.at)[k].filename == spot.name
    ensures ChangesOnly(dev, Swapped(dev, spot, k, pos, pos', version), {spot})
    ensures Found(Swapped(dev, spot, k, pos, pos', version), spot) ==
        if FindNamed(Cut(List(dev, spot.sid, spot.at), k)[..pos'], spot.name).Some?
        then FindNamed(Cut(List(dev, spot.sid, spot.at), k)[..pos'], spot.name) else Some(version.handle)
  {
    var objects, dev' := List(dev, spot.sid, spot.at), Swapped(dev, spot, k, pos, pos', version);
    SwappedIs(dev, spot, k, pos, pos', version);
    PutFinds(Cut(objects, k), pos', version, spot.name);
    forall other | other != spot
      ensures Found(dev', other) == Found(dev, other)
    {
      if (other.sid, other.at) == (spot.sid, spot.at) {
        PutFinds(Cut(objects, k), pos', version, other.name);
        CutFinds(objects, k, other.name);
      }
    }
  }

  /** Neither version is the directory that they are in. */
  lemma VersionsAreInside(
    t: Table, dev: DeviceTree, x: Inode, spot: Spot, k: nat, pos: nat, handle: ObjectHandle)
    requires Current(t, dev) && CanReplace(t, dev, x, spot, k, pos, handle)
    ensures spot.at != Some(handle) && spot.at != Some(t.entries[x].kind.handle)
    ensures List(dev, spot.sid, spot.at)[k].filename == spot.name
  {
    var p := t.entries[x].parent;
    if spot.at == Some(handle) {
      EndIsListed(t, dev, p, spot.sid, handle);
    }
    NoSelfParent(t);
    var n: nat, top :| Leads(t, dev, p, n, top, spot.sid, Some(spot.at));
    LeadsOn(t, dev, x, n, top, spot.sid, Some(spot.at));
    assert Ends(t, dev, x, spot.sid, Some(Some(t.entries[x].kind.handle)));
    NotItsOwnDirectory(t, dev, x, spot.sid, p, spot.at);
    KnownSitsThere(t, dev, x, spot.sid, spot.at, k);
  }

  lemma OwnNameIsFree(t: Table, x: Inode)
    requires SiblingsDiffer(t) && x in t.entries && IsObject(t.entries[x])
    ensures NameIsFree(t, x, t.entries[x].name)
  {
    forall i | i in t.entries && i != x && IsObject(t.entries[i]) && t.entries[i].parent == t.entries[x].parent
      ensures t.entries[i].name != t.entries[x].name
    {
      assert !Namesakes(t, i, x);
    }
  }

  /** After a flush that went through, every handle of the session is still right exactly if the device
      lists no other object of the file's name before the new version. */
  lemma FlushRightIff(
    t: Table, dev: DeviceTree, x: Inode, spot: Spot, k: nat, pos: nat, pos': nat, version: ListedObject,
    size: nat, mtime: Time)
    requires Current(t, dev) && CanReplace(t, dev, x, spot, k, pos, version.handle)
    requires pos' < |List(dev, spot.sid, spot.at)| && version.filename == spot.name
    ensures
      FreshRight(Overwritten(t, x, spot.name, version.handle, size, mtime),
                 Swapped(dev, spot, k, pos, pos', version)) <==>
      FindNamed(Cut(List(dev, spot.sid, spot.at), k)[..pos'], spot.name) == None
  {
    var dev' := Swapped(dev, spot, k, pos, pos', version);
    VersionsAreInside(t, dev, x, spot, k, pos, version.handle);
    SwappedChangesOnly(dev, spot, k, pos, pos', version);
    SwappedIs(dev, spot, k, pos, pos', version);
    OwnNameIsFree(t, x);
    OverwriteRightIff(t, dev, dev', x, spot, spot, version.handle, size, mtime);
    NeverTheNewHandle(dev, spot, k, pos', version.handle);
  }

  lemma NeverTheNewHandle(dev: DeviceTree, spot: Spot, k: nat, pos: nat, handle: ObjectHandle)
    requires NewHandle(dev, handle) && k < |List(dev, spot.sid, spot.at)| && pos < |List(dev, spot.sid, spot.at)|
    ensures FindNamed(Cut(List(dev, spot.sid, spot.at), k)[..pos], spot.name) != Some(handle)
  {
    var objects := List(dev, spot.sid, spot.at);
    if FindNamed(Cut(objects, k)[..pos], spot.name).Some? {
      var j := FindNamedAt(Cut(objects, k)[..pos], spot.name);
      assert !IsAt(dev, spot.sid, spot.at, Shifted(j, k), handle);
    }
  }

  /** After a flush that could not finish, whether the old version is still there or not, they are exactly
      if the device lists no other object of the temporary name before the new version; the table has
      none of that name. */
  lemma UnfinishedFlushRightIff(
    t: Table, dev: DeviceTree, dev': DeviceTree, x: Inode, spot: Spot, k: nat, pos: nat,
    version: ListedObject, size: nat, mtime: Time)
    requires Current(t, dev) && CanReplace(t, dev, x, spot, k, pos, version.handle)
    requires version.filename == spot.name && NameIsFree(t, x, D.TempName(spot.name))
    requires dev' == Uploaded(dev, spot, pos, version) || dev' == Cleared(dev, spot, k, pos, version)
    ensures FreshRight(Overwritten(t, x, D.TempName(spot.name), version.handle, size, mtime), dev') <==>
      FindNamed(List(dev, spot.sid, spot.at)[..pos], D.TempName(spot.name)) == None
  {
    var objects, temp := List(dev, spot.sid, spot.at), spot.(name := D.TempName(spot.name));
    VersionsAreInside(t, dev, x, spot, k, pos, version.handle);
    UnfinishedChangesOnly(dev, dev', spot, k, pos, version);
    OverwriteRightIff(t, dev, dev', x, spot, temp, version.handle, size, mtime);
    if FindNamed(objects[..pos], temp.name).Some? {
      var j := FindNamedAt(objects[..pos], temp.name);
      assert !IsAt(dev, spot.sid, spot.at, j, version.handle);
    }
  }

  lemma UnfinishedChangesOnly(
    dev: DeviceTree, dev': DeviceTree, spot: Spot, k: nat, pos: nat, version: ListedObject)
    requires k < |List(dev, spot.sid, spot.at)| && List(dev, spot.sid, spot.at)[k].filename == spot.name
    requires pos <= |List(dev, spot.sid, spot.at)|
    requires dev' == Uploaded(dev, spot, pos, version) || dev' == Cleared(dev, spot, k, pos, version)
    ensures var temp := spot.(name := D.TempName(spot.name));
      && ChangesOnly(dev, dev', {spot, temp})
      && Found(dev', temp) == (
           if FindNamed(List(dev, spot.sid, spot.at)[..pos], temp.name).Some?
           then FindNamed(List(dev, spot.sid, spot.at)[..pos], temp.name) else Some(version.handle))
    ensures forall sid: StorageId, at | (sid, at) != (spot.sid, spot.at) :: List(dev', sid, at) == List(dev, sid, at)
  {
    var objects, temp := List(dev, spot.sid, spot.at), spot.(name := D.TempName(spot.name));
    var put := Put(objects, pos, version.(filename := temp.name));
    D.TempNameDiffers(spot.name);
    assert put[Shifted(k, pos)] == objects[k];
    forall other | other != spot
      ensures (spot.sid, spot.at) == (other.sid, other.at) ==> Found(dev', other) == FindNamed(put, other.name)
    {
      if dev' == Cleared(dev, spot, k, pos, version) && (spot.sid, spot.at) == (other.sid, other.at) {
        CutFinds(put, Shifted(k, pos), other.name);
      }
    }
    PutFinds(objects, pos, version.(filename := temp.name), temp.name);
    forall other | other != spot && other != temp
      ensures Found(dev', other) == Found(dev, other)
    {
      PutFinds(objects, pos, version.(filename := temp.name), other.name);
    }
  }

  // ---------------------------------------------------------------------------------------
  // The two views of the device

  /** The object is listed: with its handle, under its name. */
  ghost predicate ListsObject(objects: seq<ListedObject>, object': D.Object) {
    exists k :: 0 <= k < |objects| && Stands(objects[k], object')
  }

  predicate Stands(listed: ListedObject, object': D.Object) {
    listed.handle == object'.handle && listed.filename == object'.name
  }

  ghost predicate IsObjectOf(d: D.Device, dir: D.Directory, listed: ListedObject) {
    exists id :: id in d.objects && d.objects[id].dir == dir && Stands(listed, d.objects[id])
  }

  ghost predicate ListsOnly(objects: seq<ListedObject>, d: D.Device, dir: D.Directory) {
    forall k :: 0 <= k < |objects| ==> IsObjectOf(d, dir, objects[k])
  }

  ghost predicate ListsAll(objects: seq<ListedObject>, d: D.Device, dir: D.Directory) {
    forall id :: id in d.objects && d.objects[id].dir == dir ==> ListsObject(objects, d.objects[id])
  }

  /** The listing is of this directory: what is listed is in it, what is in it is listed. */
  ghost predicate Shows(objects: seq<ListedObject>, d: D.Device, dir: D.Directory) {
    ListsOnly(objects, d, dir) && ListsAll(objects, d, dir)
  }

  /** No two entries of the listing have one handle. */
  ghost predicate HandlesDiffer(objects: seq<ListedObject>) {
    forall j, k :: 0 <= j < k < |objects| ==> objects[j].handle != objects[k].handle
  }

  /** One object more. */
  ghost predicate IsOneMore(
    d: D.Device, d': D.Device, dir: D.Directory, listed: ListedObject, id: D.ObjectId)
  {
    && id !in d.objects && id in d'.objects && d'.objects == d.objects[id := d'.objects[id]]
    && d'.objects[id].dir == dir && Stands(listed, d'.objects[id])
  }

  lemma PutIsThere(
    objects: seq<ListedObject>, d: D.Device, d': D.Device, dir: D.Directory, pos: nat, listed: ListedObject,
    id: D.ObjectId, k: nat)
    requires ListsOnly(objects, d, dir) && pos <= |objects| && IsOneMore(d, d', dir, listed, id) && k <= |objects|
    ensures IsObjectOf(d', dir, Put(objects, pos, listed)[k])
  {
    if k == pos {
      assert Stands(listed, d'.objects[id]);
    } else {
      var j := if k < pos then k else k - 1;
      assert IsObjectOf(d, dir, objects[j]);
      var other :| other in d.objects && d.objects[other].dir == dir && Stands(objects[j], d.objects[other]);
      assert other in d'.objects && d'.objects[other] == d.objects[other];
    }
  }

  lemma ThereIsPut(
    objects: seq<ListedObject>, d: D.Device, d': D.Device, dir: D.Directory, pos: nat, listed: ListedObject,
    id: D.ObjectId, other: D.ObjectId)
    requires ListsAll(objects, d, dir) && pos <= |objects| && IsOneMore(d, d', dir, listed, id)
    requires other in d'.objects && d'.objects[other].dir == dir
    ensures ListsObject(Put(objects, pos, listed), d'.objects[other])
  {
    var put := Put(objects, pos, listed);
    if other == id {
      assert Stands(put[pos], d'.objects[id]);
    } else {
      var j :| 0 <= j < |objects| && Stands(objects[j], d.objects[other]);
      assert Stands(put[Shifted(j, pos)], d'.objects[other]);
    }
  }

  lemma PuttingShows(
    objects: seq<ListedObject>, d: D.Device, d': D.Device, dir: D.Directory, pos: nat, listed: ListedObject,
    id: D.ObjectId)
    requires Shows(objects, d, dir) && pos <= |objects| && IsOneMore(d, d', dir, listed, id)
    ensures Shows(Put(objects, pos, listed), d', dir)
  {
    forall k | 0 <= k <= |objects|
      ensures IsObjectOf(d', dir, Put(objects, pos, listed)[k])
    {
      PutIsThere(objects, d, d', dir, pos, listed, id, k);
    }
    forall other | other in d'.objects && d'.objects[other].dir == dir
      ensures ListsObject(Put(objects, pos, listed), d'.objects[other])
    {
      ThereIsPut(objects, d, d', dir, pos, listed, id, other);
    }
  }

  /** The upload's first call does to the listing what it does to the objects. */
  lemma CreationShows(
    objects: seq<ListedObject>, d: D.Device, dir: D.Directory, pos: nat, listed: ListedObject)
    requires Shows(objects, d, dir) && D.Consistent(d) && pos <= |objects| && listed.handle == d.nextHandle
    ensures Shows(Put(objects, pos, listed), D.Created(d, listed.filename, dir), dir)
  {
    PuttingShows(objects, d, D.Created(d, listed.filename, dir), dir, pos, listed, d.nextId);
  }

  /** So does a deletion. */
  lemma DeletionShows(objects: seq<ListedObject>, d: D.Device, dir: D.Directory, k: nat, id: D.ObjectId)
    requires Shows(objects, d, dir) && D.Consistent(d) && HandlesDiffer(objects) && k < |objects|
    requires id in d.objects && d.objects[id].dir == dir && Stands(objects[k], d.objects[id])
    ensures Shows(Cut(objects, k), D.Deleted(d, id), dir)
  {
    forall j | 0 <= j < |objects| - 1
      ensures IsObjectOf(D.Deleted(d, id), dir, Cut(objects, k)[j])
    {
      LeftIsThere(objects, d, dir, k, id, j);
    }
    forall other | other in D.Deleted(d, id).objects && d.objects[other].dir == dir
      ensures ListsObject(Cut(objects, k), d.objects[other])
    {
      ThereIsLeft(objects, d, dir, k, id, other);
    }
  }

  lemma LeftIsThere(objects: seq<ListedObject>, d: D.Device, dir: D.Directory, k: nat, id: D.ObjectId, j: nat)
    requires ListsOnly(objects, d, dir) && HandlesDiffer(objects) && k < |objects| && j < |objects| - 1
    requires id in d.objects && Stands(objects[k], d.objects[id])
    ensures IsObjectOf(D.Deleted(d, id), dir, Cut(objects, k)[j])
  {
    var listed := objects[Shifted(j, k)];
    assert IsObjectOf(d, dir, listed);
    var other :| other in d.objects && d.objects[other].dir == dir && Stands(listed, d.objects[other]);
    assert other in D.Deleted(d, id).objects;
  }

  lemma ThereIsLeft(
    objects: seq<ListedObject>, d: D.Device, dir: D.Directory, k: nat, id: D.ObjectId, other: D.ObjectId)
    requires ListsAll(objects, d, dir) && D.Consistent(d) && k < |objects|
    requires id in d.objects && Stands(objects[k], d.objects[id])
    requires other in d.objects && d.objects[other].dir == dir && other != id
    ensures ListsObject(Cut(objects, k), d.objects[other])
  {
    var j :| 0 <= j < |objects| && Stands(objects[j], d.objects[other]);
    assert j != k;
    assert Stands(Cut(objects, k)[if j < k then j else j - 1], d.objects[other]);
  }

  /** And a renaming, wherever the device lists the object then. */
  lemma RenamingShows(
    objects: seq<ListedObject>, d: D.Device, dir: D.Directory, k: nat, pos: nat, id: D.ObjectId, name: string)
    requires Shows(objects, d, dir) && D.Consistent(d) && HandlesDiffer(objects) && k < |objects| && pos < |objects|
    requires id in d.objects && d.objects[id].dir == dir && Stands(objects[k], d.objects[id])
    ensures Shows(Put(Cut(objects, k), pos, objects[k].(filename := name)), D.NameSet(d, id, name), dir)
  {
    DeletionShows(objects, d, dir, k, id);
    PuttingShows(Cut(objects, k), D.Deleted(d, id), D.NameSet(d, id, name), dir, pos,
                 objects[k].(filename := name), id);
  }

  /** The handle that a flush leaves in the table is right exactly if it is the new version's own by now and
      the table has the name that the new version has on the device. */
  lemma FlushedHandleRightIff(
    t: Table, dev: DeviceTree, d: D.Device, x: Inode, sid: StorageId, at: Location, dir: D.Directory,
    id: D.ObjectId)
    requires D.Consistent(d) && Shows(List(dev, sid, at), d, dir) && UniqueNames(List(dev, sid, at))
    requires Fresh(t, x) && t.entries[x].kind.File? && Ends(t, dev, t.entries[x].parent, sid, Some(at))
    requires id in d.objects && d.objects[id].dir == dir
    requires t.entries[x].kind.handle in d.owner && d.owner[t.entries[x].kind.handle] == id
    ensures EndsRight(t, dev, x) <==>
        D.Denotes(d, t.entries[x].kind.handle, id) && d.objects[id].name == t.entries[x].name
  {
    var objects, handle, name := List(dev, sid, at), t.entries[x].kind.handle, t.entries[x].name;
    RightIffFound(t, dev, x, sid, at);
    FindNamedUnique(objects, name, handle);
    if Holds(objects, handle, name) {
      var k :| 0 <= k < |objects| && objects[k].handle == handle && objects[k].filename == name;
      assert IsObjectOf(d, dir, objects[k]);
    }
    if D.Denotes(d, handle, id) && d.objects[id].name == name {
      assert ListsObject(objects, d.objects[id]);
    }
  }
}
