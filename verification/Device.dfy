/** The device as a flush sees it: objects with an identity of their own, the handles by which they
    go, and what else may happen on the device meanwhile. */
module Devices {
  import opened Basics

  type ObjectId = nat
  type Handle = nat
  type Directory = nat

  datatype Object = Object(name: string, dir: Directory, data: seq<byte>, handle: Handle)

  /** `owner` remembers every handle ever given out and to which object. It is an assumption about
      devices that a handle is never given out twice, so that one that no object goes by any more is
      dead for good. */
  datatype Device = Device(
    objects: map<ObjectId, Object>, owner: map<Handle, ObjectId>, nextId: ObjectId, nextHandle: Handle)

  predicate Consistent(d: Device) {
    && (forall id :: id in d.objects ==>
          && id < d.nextId
          && d.objects[id].handle in d.owner && d.owner[d.objects[id].handle] == id)
    && (forall h :: h in d.owner ==> h < d.nextHandle && d.owner[h] < d.nextId)
  }

  /** The object a handle denotes now, if it is not dead. */
  predicate Denotes(d: Device, h: Handle, id: ObjectId) {
    && h in d.owner && d.owner[h] == id
    && id in d.objects && d.objects[id].handle == h
  }

  predicate SameContent(a: Object, b: Object) {
    a.name == b.name && a.dir == b.dir && a.data == b.data
  }

  /** What the device, its user and other programs may do between two of our operations: re-key
      anything, add anything, change or drop anything but the objects in `pinned`. */
  predicate MayBecome(d: Device, d': Device, pinned: set<ObjectId>) {
    && Consistent(d')
    && d.nextId <= d'.nextId && d.nextHandle <= d'.nextHandle
    && (forall h :: h in d.owner ==> h in d'.owner && d'.owner[h] == d.owner[h])
    && (forall h :: h in d'.owner && h !in d.owner ==> d.nextHandle <= h)
    && (forall id :: id in d'.objects ==> id in d.objects || d.nextId <= id)
    && (forall id :: id in d.objects && id in pinned ==>
          id in d'.objects && SameContent(d.objects[id], d'.objects[id]))
  }

  lemma MayStay(d: Device, pinned: set<ObjectId>)
    requires Consistent(d)
    ensures MayBecome(d, d, pinned)
  {
  }

  // ---------------------------------------------------------------------------------------
  // What our own operations do when they take effect

  function Created(d: Device, name: string, dir: Directory): Device {
    Device(
      d.objects[d.nextId := Object(name, dir, [], d.nextHandle)],
      d.owner[d.nextHandle := d.nextId], d.nextId + 1, d.nextHandle + 1)
  }

  function Extended(d: Device, id: ObjectId, chunk: seq<byte>): Device
    requires id in d.objects
  {
    d.(objects := d.objects[id := d.objects[id].(data := d.objects[id].data + chunk)])
  }

  function Deleted(d: Device, id: ObjectId): Device {
    d.(objects := d.objects - {id})
  }

  function NameSet(d: Device, id: ObjectId, name: string): Device
    requires id in d.objects
  {
    d.(objects := d.objects[id := d.objects[id].(name := name)])
  }

  /** The object's content, as it is once all of it has been sent. */
  function Filled(d: Device, id: ObjectId, data: seq<byte>): Device
    requires id in d.objects
  {
    d.(objects := d.objects[id := d.objects[id].(data := data)])
  }

  lemma FilledFirst(d: Device, id: ObjectId)
    requires id in d.objects
    ensures Filled(d, id, d.objects[id].data) == d
  {
    assert d.objects[id := d.objects[id]] == d.objects;
  }

  lemma FilledFurther(d: Device, id: ObjectId, data: seq<byte>, chunk: seq<byte>)
    requires id in d.objects
    ensures Extended(Filled(d, id, data), id, chunk) == Filled(d, id, data + chunk)
    ensures data + [] == data
  {
    assert d.objects[id := d.objects[id].(data := data)][id := d.objects[id].(data := data + chunk)]
        == d.objects[id := d.objects[id].(data := data + chunk)];
  }

  // ---------------------------------------------------------------------------------------
  // The promise

  /** The object that a flush is to replace, as it is on the device: its name and place there need not
      be the file's in the table. */
  datatype Original = Original(id: ObjectId, name: string, dir: Directory, data: seq<byte>)

  /** One flush: the file's inode and name, where it lives, what was spooled for it, and the object
      it is to replace. */
  datatype Job = Job(inode: nat, name: string, dir: Directory, bytes: seq<byte>, original: Original)

  function TempName(name: string): string {
    ".~tmp~" + name
  }

  /** The device with the new version uploaded and nothing else changed. */
  function NewVersion(d: Device, job: Job): Device {
    Filled(Created(d, TempName(job.name), job.dir), d.nextId, job.bytes)
  }

  /** And then with another object gone and the new version under the real name. */
  function InPlace(d: Device, job: Job, gone: ObjectId): Device
    requires gone != d.nextId
  {
    NameSet(Deleted(NewVersion(d, job), gone), d.nextId, job.name)
  }

  /** One new object has come for the original, and everything else is as it was, leftovers apart if they may have
      been purged. */
  ghost predicate Exchanged(d: Device, d': Device, job: Job, purged: bool) {
    && (forall id :: id in d'.objects ==> id in d.objects || id == d.nextId)
    && (forall id :: id in d.objects && id != job.original.id && !(purged && IsLeftover(d, id, job)) ==>
          id in d'.objects && d'.objects[id] == d.objects[id])
  }

  lemma InPlaceExchanges(d: Device, job: Job)
    requires Consistent(d) && job.original.id in d.objects
    ensures Exchanged(d, InPlace(d, job, job.original.id), job, false)
  {
  }

  /** The purge goes by the temporary name, so it can never hit the real one. */
  lemma TempNameDiffers(name: string)
    ensures TempName(name) != name
  {
    assert |TempName(name)| == |name| + 6;
  }

  /** The original does not itself go by the temporary name in the target directory. */
  predicate OriginalElsewhere(job: Job) {
    (job.original.name, job.original.dir) != (TempName(job.name), job.dir)
  }

  ghost predicate OriginalIntact(d: Device, job: Job) {
    && job.original.id in d.objects
    && d.objects[job.original.id].name == job.original.name
    && d.objects[job.original.id].dir == job.original.dir
    && d.objects[job.original.id].data == job.original.data
  }

  /** An object goes by the temporary name in the target directory: a retry takes it for a leftover. */
  predicate IsLeftover(d: Device, id: ObjectId, job: Job) {
    id in d.objects && d.objects[id].name == TempName(job.name) && d.objects[id].dir == job.dir
  }

  /** The purge spares the original exactly if the original goes by another name or elsewhere, as it
      does wherever it has the name that the table has for the file. */
  lemma PurgeSparesOriginalIff(d: Device, job: Job)
    requires OriginalIntact(d, job)
    ensures !IsLeftover(d, job.original.id, job) <==> OriginalElsewhere(job)
    ensures job.original.name == job.name ==> OriginalElsewhere(job)
    ensures !OriginalIntact(Deleted(d, job.original.id), job)
  {
    TempNameDiffers(job.name);
  }

  /** The object is a complete new version. */
  ghost predicate IsNewVersion(d: Device, id: ObjectId, job: Job) {
    && id in d.objects
    && d.objects[id].data == job.bytes && d.objects[id].dir == job.dir
    && (d.objects[id].name == job.name || d.objects[id].name == TempName(job.name))
  }

  ghost predicate NewVersionThere(d: Device, job: Job) {
    exists id :: IsNewVersion(d, id, job)
  }

  /** One version or the other is whole. */
  ghost predicate Safe(d: Device, job: Job) {
    OriginalIntact(d, job) || NewVersionThere(d, job)
  }

  /** The original is whole and nobody else may touch it. */
  ghost predicate OriginalPinned(d: Device, pinned: set<ObjectId>, job: Job) {
    job.original.id in pinned && OriginalIntact(d, job)
  }

  /** One version or the other is whole, and nobody else may touch it. */
  ghost predicate Guarded(d: Device, pinned: set<ObjectId>, job: Job) {
    OriginalPinned(d, pinned, job) || exists id :: id in pinned && IsNewVersion(d, id, job)
  }

  lemma GuardedIsSafe(d: Device, pinned: set<ObjectId>, job: Job)
    requires Guarded(d, pinned, job)
    ensures Safe(d, job)
  {
  }

  /** Nothing the world may do takes a pinned version away. */
  lemma WorldKeepsGuard(d: Device, d': Device, pinned: set<ObjectId>, guard: set<ObjectId>, job: Job)
    requires MayBecome(d, d', pinned) && guard <= pinned
    ensures Guarded(d, guard, job) ==> Guarded(d', guard, job)
    ensures OriginalPinned(d, guard, job) ==> OriginalPinned(d', guard, job)
    ensures forall id :: id in guard && IsNewVersion(d, id, job) ==> IsNewVersion(d', id, job)
  {
    if Guarded(d, guard, job) && !OriginalPinned(d, guard, job) {
      var id :| id in guard && IsNewVersion(d, id, job);
      assert IsNewVersion(d', id, job);
    }
  }

  /** Handles given out stay given out. */
  ghost predicate OwnersKept(d: Device, d': Device) {
    && d.nextId <= d'.nextId
    && forall h :: h in d.owner ==> h in d'.owner && d'.owner[h] == d.owner[h]
  }

  lemma OwnersKeptTwice(d: Device, d': Device, d'': Device)
    requires OwnersKept(d, d') && OwnersKept(d', d'')
    ensures OwnersKept(d, d'')
  {
  }

  lemma WorldKeepsOwners(d: Device, d': Device, pinned: set<ObjectId>)
    requires MayBecome(d, d', pinned)
    ensures OwnersKept(d, d')
  {
  }

  lemma CreationKeeps(d: Device, pinned: set<ObjectId>, name: string, job: Job)
    requires Consistent(d) && OriginalPinned(d, pinned, job)
    ensures var d' := Created(d, name, job.dir);
      && Consistent(d') && OwnersKept(d, d') && OriginalPinned(d', pinned, job)
      && d.nextId !in d.objects && d.objects.Keys <= d'.objects.Keys
  {
  }

  /** Deleting an object leaves every guard that does not rest on it. */
  lemma DeletionKeeps(d: Device, pinned: set<ObjectId>, id: ObjectId, job: Job)
    requires Consistent(d) && Guarded(d, pinned - {id}, job)
    ensures var d' := Deleted(d, id);
      && Consistent(d') && OwnersKept(d, d') && Guarded(d', pinned - {id}, job)
      && (OriginalPinned(d, pinned - {id}, job) ==> OriginalPinned(d', pinned - {id}, job))
  {
    if !OriginalPinned(d, pinned - {id}, job) {
      var new' :| new' in pinned - {id} && IsNewVersion(d, new', job);
      assert IsNewVersion(Deleted(d, id), new', job);
    }
  }

  /** Giving the new version its real name leaves it the new version. */
  lemma RenamingKeeps(d: Device, pinned: set<ObjectId>, id: ObjectId, job: Job)
    requires Consistent(d) && id in pinned && IsNewVersion(d, id, job)
    ensures var d' := NameSet(d, id, job.name);
      Consistent(d') && OwnersKept(d, d') && Guarded(d', pinned, job) && IsNewVersion(d', id, job)
  {
    assert IsNewVersion(NameSet(d, id, job.name), id, job);
  }
}
