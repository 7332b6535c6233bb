/** Recovered operations and the flush that runs as one of them (src/fs.rs). */
module Mounts {
  import opened Basics
  import opened Sequences
  import opened InodeTables
  import opened InodeInvariants
  import opened TreeInvariants
  import opened DirectoryNames
  import opened MtpErrors
  import opened Recovery
  import opened Devices
  import B = Backoffs
  import S = Spool

  datatype StorageInfo = StorageInfo(id: StorageId, name: string)

  /** One try at reopening the device. */
  datatype Reopening = NotYet | Unusable | Opened(storages: seq<StorageInfo>)

  /** Everything the outside world decides at one moment. */
  datatype Moment = Moment(
    unplugged: bool,
    answer: MtpResult<()>,          // of an operation whose inside does not matter here
    reopening: Reopening,
    fault: Option<MtpError>,     // how a device call fails, if it does
    tookEffect: bool,            // whether a call that failed was carried out all the same
    device: Device,              // what the device has become meanwhile
    handle: Handle,              // what a stale handle resolves to
    others: seq<(Inode, ObjectHandle)>,  // what else the walk to it resolves on its way
    time: Time)

  /** The device can be reopened. */
  predicate Returns(m: Moment) {
    !m.unplugged && m.reopening.Opened?
  }

  datatype Operation = Plain | Flush(job: Job)

  /** What the world has in store for a flush: it keeps off the temporary name; it drops the link once; nothing
      gets in the way; or nothing but that. And the device at the start. */
  datatype Outlook = Outlook(quiet: bool, outage: bool, calm: bool, rides: bool, start: Device)

  /** What is to be hoped for from the world at the beginning of an operation, on this device. */
  datatype Hope = Hope(outage: bool, favoured: bool, rides: bool, start: Device, isRetry: bool)

  // ---------------------------------------------------------------------------------------
  // Taking over a reopened device

  /** The storage an old storage inode is matched with: by name, else by position. */
  function Matched(storages: seq<StorageInfo>, name: string, position: nat): Option<StorageId> {
    match ByName(storages, name)
    case Some(id) => Some(id)
    case None => if position < |storages| then Some(storages[position].id) else None
  }

  function ByName(storages: seq<StorageInfo>, name: string): (r: Option<StorageId>)
    ensures r.Some? <==> exists k :: 0 <= k < |storages| && storages[k].name == name
    ensures r.Some? ==> exists k :: 0 <= k < |storages| && storages[k] == StorageInfo(r.value, name)
  {
    if storages == [] then None
    else if storages[0].name == name then
      assert storages[0] == StorageInfo(storages[0].id, name);
      Some(storages[0].id)
    else
      var rest := ByName(storages[1..], name);
      assert rest.Some? ==> exists k :: 0 <= k < |storages| && storages[k] == StorageInfo(rest.value, name) by {
        if rest.Some? {
          var k :| 0 <= k < |storages[1..]| && storages[1..][k] == StorageInfo(rest.value, name);
          assert storages[k + 1] == StorageInfo(rest.value, name);
        }
      }
      assert (exists k :: 0 <= k < |storages| && storages[k].name == name) ==> rest.Some? by {
        if k :| 0 <= k < |storages| && storages[k].name == name {
          assert storages[1..][k - 1].name == name;
        }
      }
      rest
  }

  /** The storage inodes up to the `n`th, re-pointed. */
  function Remapped(t: Table, inodes: seq<Inode>, storages: seq<StorageInfo>, n: nat): Table
    requires n <= |inodes|
  {
    if n == 0 then t
    else
      var t' := Remapped(t, inodes, storages, n - 1);
      var ino := inodes[n - 1];
      if ino !in t'.entries then t'
      else match Matched(storages, t'.entries[ino].name, n - 1)
        case Some(id) => StorageIdSet(t', ino, id)
        case None => t'
  }

  /** Re-pointing changes storage IDs and nothing else: inode numbers, names, tree shape and object
      handles survive. */
  lemma {:induction false} RemappingKeepsTree(t: Table, inodes: seq<Inode>, storages: seq<StorageInfo>, n: nat)
    requires n <= |inodes|
    ensures SameButStorageIds(t, Remapped(t, inodes, storages, n))
    ensures forall i :: i in t.entries && i !in inodes[..n] ==>
        Remapped(t, inodes, storages, n).entries[i] == t.entries[i]
  {
    if n > 0 {
      RemappingKeepsTree(t, inodes, storages, n - 1);
      assert inodes[..n] == inodes[..n - 1] + [inodes[n - 1]];
    }
  }

  /** Each listed storage gets the ID of its namesake, if the device still has one, else of the
      storage now in its position; if there is neither it keeps its own. */
  lemma {:induction false} RemappingMatches(
    t: Table, inodes: seq<Inode>, storages: seq<StorageInfo>, n: nat, k: nat)
    requires k < n <= |inodes| && NoDuplicates(inodes)
    requires inodes[k] in t.entries && t.entries[inodes[k]].kind.Storage?
    ensures inodes[k] in Remapped(t, inodes, storages, n).entries
    ensures Remapped(t, inodes, storages, n).entries[inodes[k]].kind ==
        match Matched(storages, t.entries[inodes[k]].name, k)
        case Some(id) => Storage(id)
        case None => t.entries[inodes[k]].kind
  {
    RemappingKeepsTree(t, inodes, storages, n - 1);
    if k < n - 1 {
      RemappingMatches(t, inodes, storages, n - 1, k);
    } else {
      assert inodes[k] !in inodes[..k];
    }
  }

  /** What a storage inode of this name in this place is to stand for: the first storage of its name, if there
      is one, else the one in its place, else what it stood for. */
  ghost predicate StandsFor(kind: Kind, kind': Kind, name: string, position: nat, storages: seq<StorageInfo>) {
    if HasNamesake(storages, name) then
      exists k :: 0 <= k < |storages| && IsFirstNamesake(storages, name, k) && kind' == Storage(storages[k].id)
    else if position < |storages| then kind' == Storage(storages[position].id)
    else kind' == kind
  }

  ghost predicate HasNamesake(storages: seq<StorageInfo>, name: string) {
    exists k :: 0 <= k < |storages| && storages[k].name == name
  }

  ghost predicate IsFirstNamesake(storages: seq<StorageInfo>, name: string, k: nat)
    requires k < |storages|
  {
    storages[k].name == name && forall j :: 0 <= j < k ==> storages[j].name != name
  }

  /** Every listed storage does. */
  ghost predicate StoragesFollow(t: Table, t': Table, storages: seq<StorageInfo>) {
    forall k | 0 <= k < |Children(t, ROOT)| :: StorageFollows(t, t', storages, Children(t, ROOT)[k], k)
  }

  ghost predicate StorageFollows(t: Table, t': Table, storages: seq<StorageInfo>, i: Inode, k: nat) {
    i in t.entries && t.entries[i].kind.Storage? ==>
      i in t'.entries && StandsFor(t.entries[i].kind, t'.entries[i].kind, t.entries[i].name, k, storages)
  }

  lemma {:induction false} ByNameIsFirst(storages: seq<StorageInfo>, name: string)
    ensures match ByName(storages, name)
      case None => !HasNamesake(storages, name)
      case Some(id) => exists k :: 0 <= k < |storages| && IsFirstNamesake(storages, name, k) && id == storages[k].id
  {
    if storages != [] {
      if storages[0].name == name {
        assert IsFirstNamesake(storages, name, 0);
      } else {
        ByNameIsFirst(storages[1..], name);
        if ByName(storages[1..], name).Some? {
          var k :| 0 <= k < |storages[1..]| && IsFirstNamesake(storages[1..], name, k)
            && ByName(storages[1..], name).value == storages[1..][k].id;
          assert forall j :: 0 < j < k + 1 ==> storages[j] == storages[1..][j - 1];
          assert IsFirstNamesake(storages, name, k + 1);
        }
      }
    }
  }

  lemma MatchedStandsFor(kind: Kind, name: string, position: nat, storages: seq<StorageInfo>)
    ensures StandsFor(
        kind,
        match Matched(storages, name, position) case Some(id) => Storage(id) case None => kind,
        name, position, storages)
  {
    ByNameIsFirst(storages, name);
  }

  lemma AdoptionFollows(t: Table, storages: seq<StorageInfo>)
    requires NoDuplicates(Children(t, ROOT))
    ensures StoragesFollow(
        t, Bumped(Remapped(t, Children(t, ROOT), storages, |Children(t, ROOT)|)), storages)
  {
    var inodes := Children(t, ROOT);
    forall k | 0 <= k < |inodes|
      ensures StorageFollows(t, Bumped(Remapped(t, inodes, storages, |inodes|)), storages, inodes[k], k)
    {
      var i := inodes[k];
      if i in t.entries && t.entries[i].kind.Storage? {
        RemappingMatches(t, inodes, storages, |inodes|, k);
        MatchedStandsFor(t.entries[i].kind, t.entries[i].name, k, storages);
      }
    }
  }

  // ---------------------------------------------------------------------------------------
  // What a recovered operation leaves of the table

  /** An entry whose handle may have been resolved anew, or whose storage ID remapped. */
  ghost predicate Reresolved(entry: Entry, entry': Entry) {
    && entry' == entry.(kind := entry'.kind, generation := entry'.generation)
    && match entry.kind {
         case Root => entry' == entry
         case Storage(_) => entry'.kind.Storage? && entry'.generation == entry.generation
         case Directory(_) => entry'.kind.Directory?
         case File(_) => entry'.kind.File?
       }
  }

  /** A flushed file keeps its number, place and access time. */
  ghost predicate FlushedFrom(entry: Entry, entry': Entry) {
    && entry' == entry.(
         kind := entry'.kind, name := entry'.name, size := entry'.size, mtime := entry'.mtime,
         generation := entry'.generation)
    && (entry'.kind.File? || Reresolved(entry, entry'))
  }

  /** The indexes are the same, and so are all entries but those of `files`, except for handles and
      stamps, which are resolved anew where they are stale, and storage IDs, which change with the
      generation. */
  ghost predicate OnlyFlushed(t: Table, t': Table, files: set<Inode>) {
    && t' == t.(entries := t'.entries, generation := t'.generation) && t.generation <= t'.generation
    && forall i :: EntryLeft(t, t', files, i)
  }

  /** A stamp is the old one or of a session since. */
  predicate StampedSince(stamp: nat, stamp': nat, generation: nat, generation': nat) {
    stamp' == stamp || generation <= stamp' <= generation'
  }

  ghost predicate EntryLeft(t: Table, t': Table, files: set<Inode>, i: Inode) {
    && (i in t.entries <==> i in t'.entries)
    && (i in t.entries ==>
          && StampedSince(t.entries[i].generation, t'.entries[i].generation, t.generation, t'.generation)
          && if i in files then FlushedFrom(t.entries[i], t'.entries[i])
             else Reresolved(t.entries[i], t'.entries[i])
                  && (t'.generation == t.generation && Fresh(t, i) ==> t'.entries[i] == t.entries[i]))
  }

  /** The file and its directory are in the table. */
  ghost predicate FileIn(t: Table, job: Job) {
    && job.inode in t.entries && t.entries[job.inode].kind.File?
    && t.entries[job.inode].parent in t.entries
    && var kind := t.entries[t.entries[job.inode].parent].kind;
       kind.Directory? || kind.Storage?
  }

  lemma FileStays(t: Table, t': Table, job: Job, files: set<Inode>)
    requires OnlyFlushed(t, t', files) && files <= {job.inode} && FileIn(t, job)
    ensures FileIn(t', job)
  {
    assert EntryLeft(t, t', files, job.inode);
    assert EntryLeft(t, t', files, t.entries[job.inode].parent);
  }

  lemma OnlyFlushedMore(t: Table, t': Table, files: set<Inode>, more: set<Inode>)
    requires OnlyFlushed(t, t', files) && files <= more
    ensures OnlyFlushed(t, t', more)
  {
    forall i
      ensures EntryLeft(t, t', more, i)
    {
      assert EntryLeft(t, t', files, i);
    }
  }

  /** The file's handle is not from a session to come. */
  ghost predicate NotAhead(t: Table, job: Job) {
    job.inode in t.entries ==> t.entries[job.inode].generation <= t.generation
  }

  lemma NeverAhead(op: Operation, t: Table, t': Table)
    requires Leaves(op, t, t')
    ensures op.Flush? && NotAhead(t, op.job) ==> NotAhead(t', op.job)
  {
    if op.Flush? {
      assert EntryLeft(t, t', {op.job.inode}, op.job.inode);
    }
  }

  /** A change of session: the generation moves on and storage IDs may be remapped. */
  ghost predicate OnlyRemapped(t: Table, t': Table) {
    && t' == t.(entries := t'.entries, generation := t'.generation) && t.generation <= t'.generation
    && forall i :: EntryRemapped(t, t', i)
  }

  lemma NothingRemapped(t: Table)
    ensures OnlyRemapped(t, t)
  {
  }

  ghost predicate EntryRemapped(t: Table, t': Table, i: Inode) {
    && (i in t.entries <==> i in t'.entries)
    && (i in t.entries ==>
          || t'.entries[i] == t.entries[i]
          || (t.generation < t'.generation && t.entries[i].kind.Storage? && t'.entries[i].kind.Storage?
              && t'.entries[i] == t.entries[i].(kind := t'.entries[i].kind)))
  }

  lemma RemappedKeepsFile(t: Table, t': Table, job: Job)
    requires OnlyRemapped(t, t') && FileIn(t, job)
    ensures FileIn(t', job)
    ensures NotAhead(t, job) && t.generation < t'.generation ==> !Fresh(t', job.inode)
  {
    assert EntryRemapped(t, t', job.inode);
    assert EntryRemapped(t, t', t.entries[job.inode].parent);
  }

  /** What the operation, recovery and all, may have made of the table. */
  ghost predicate Leaves(op: Operation, t: Table, t': Table) {
    match op
    case Plain => OnlyFlushed(t, t', {})
    case Flush(job) => OnlyFlushed(t, t', {job.inode})
  }

  lemma OnlyFlushedTwice(t: Table, t': Table, t'': Table, files: set<Inode>, more: set<Inode>)
    requires OnlyFlushed(t, t', files) && OnlyFlushed(t', t'', more) && more <= files
    ensures OnlyFlushed(t, t'', files)
  {
    forall i
      ensures EntryLeft(t, t'', files, i)
    {
      assert EntryLeft(t, t', files, i) && EntryLeft(t', t'', more, i);
    }
  }

  lemma LeavesTwice(op: Operation, t: Table, t': Table, t'': Table)
    requires Leaves(op, t, t') && Leaves(op, t', t'')
    ensures Leaves(op, t, t'')
  {
    var files := if op.Flush? then {op.job.inode} else {};
    OnlyFlushedTwice(t, t', t'', files, files);
  }

  /** A change of session touches no file. */
  lemma LeavesThenRemapped(op: Operation, t: Table, t': Table, t'': Table)
    requires Leaves(op, t, t') && OnlyRemapped(t', t'')
    ensures Leaves(op, t, t'')
    ensures forall i :: i in t'.entries && t'.entries[i].kind.File? ==>
        i in t''.entries && t''.entries[i] == t'.entries[i]
    ensures forall i :: i in t''.entries ==>
        && i in t'.entries && t''.entries[i].name == t'.entries[i].name
        && (t''.entries[i].kind.File? ==> t'.entries[i].kind.File?)
  {
    var files := if op.Flush? then {op.job.inode} else {};
    forall i
      ensures EntryLeft(t, t'', files, i)
    {
      assert EntryLeft(t, t', files, i) && EntryRemapped(t', t'', i);
    }
    forall i
      ensures i in t'.entries <==> i in t''.entries
    {
      assert EntryRemapped(t', t'', i);
    }
    assert forall i :: i in t'.entries ==> EntryRemapped(t', t'', i);
  }

  lemma AdoptedOnlyRemaps(t: Table, inodes: seq<Inode>, storages: seq<StorageInfo>)
    ensures OnlyRemapped(t, Bumped(Remapped(t, inodes, storages, |inodes|)))
  {
    RemappingKeepsTree(t, inodes, storages, |inodes|);
  }

  lemma AttemptLeaves(t: Table, t': Table, job: Job, files: set<Inode>)
    requires OnlyFlushed(t, t', files) && files <= {job.inode}
    ensures Leaves(Flush(job), t, t') && (FileIn(t, job) ==> FileIn(t', job))
  {
    OnlyFlushedMore(t, t', files, {job.inode});
    if FileIn(t, job) {
      FileStays(t, t', job, files);
    }
  }

  lemma NothingFlushed(t: Table)
    ensures OnlyFlushed(t, t, {})
  {
  }

  /** Resolving a stale handle. */
  lemma HandleSetOnlyReresolves(t: Table, inode: Inode, handle: ObjectHandle)
    requires inode in t.entries && !Fresh(t, inode)
    ensures OnlyFlushed(t, HandleSet(t, inode, handle), {}) && Fresh(HandleSet(t, inode, handle), inode)
  {
  }

  lemma OverwriteOnlyFlushes(
    t: Table, inode: Inode, name: string, handle: ObjectHandle, size: nat, mtime: Time)
    ensures OnlyFlushed(t, Overwritten(t, inode, name, handle, size, mtime), {inode})
  {
  }

  /** Every entry keeps its number and place, and every other entry its name. */
  lemma FlushKeepsPlaces(t: Table, t': Table, inode: Inode)
    requires OnlyFlushed(t, t', {inode})
    ensures t'.entries.Keys == t.entries.Keys
    ensures forall i :: i in t.entries ==>
        && t'.entries[i].inode == t.entries[i].inode && t'.entries[i].parent == t.entries[i].parent
        && (i != inode ==> t'.entries[i].name == t.entries[i].name)
        && (t'.entries[i].kind.Root? ==> t.entries[i].kind.Root?)
        && (t.entries[i].kind.Root? && i != inode ==> t'.entries[i].kind.Root?)
        && (t'.entries[i].kind.Storage? ==> t.entries[i].kind.Storage?)
  {
    forall i
      ensures i in t.entries <==> i in t'.entries
    {
      assert EntryLeft(t, t', {inode}, i);
    }
    assert forall i :: i in t.entries ==> EntryLeft(t, t', {inode}, i);
  }

  /** A flush leaves the tree walkable, and the names of a directory in agreement exactly if the file is
      in another one or still goes by the name it had. */
  lemma FlushKeepsIffSameName(t: Table, t': Table, inode: Inode)
    requires OnlyFlushed(t, t', {inode}) && inode in t.entries && inode != ROOT
    ensures inode in t'.entries
    ensures TreeOk(t) ==> TreeOk(t')
    ensures forall p :: DirInv(t, p) ==>
        (DirNames(t', p) <==> p != t.entries[inode].parent || t'.entries[inode].name == t.entries[inode].name)
  {
    FlushKeepsPlaces(t, t', inode);
    if TreeOk(t) {
      FewerAcyclic(t.entries, t'.entries);
      SameParentsKeepKids(t, t');
    }
    forall p | DirInv(t, p)
      ensures DirNames(t', p) <==>
          p != t.entries[inode].parent || t'.entries[inode].name == t.entries[inode].name
    {
      if p != t.entries[inode].parent || t'.entries[inode].name == t.entries[inode].name {
        SameNamesKeepDir(t, t', p);
      } else {
        assert Named(t, inode);
        assert !NameOk(t', (p, t.entries[inode].name));
      }
    }
  }

  // ---------------------------------------------------------------------------------------
  // What a flush deletes

  /** The device had the object under the temporary name in the target directory. */
  ghost predicate WasLeftover(history: seq<Device>, id: ObjectId, job: Job) {
    exists k :: 0 <= k < |history| && IsLeftover(history[k], id, job)
  }

  /** The device had given the object a handle that the file's handle was resolved to. */
  ghost predicate WasAimedAt(resolved: set<Handle>, history: seq<Device>, id: ObjectId) {
    exists k, handle :: 0 <= k < |history| && handle in resolved && IsAimedAt(handle, history[k], id)
  }

  predicate IsAimedAt(handle: Handle, d: Device, id: ObjectId) {
    handle in d.owner && d.owner[handle] == id
  }

  /** What a flush may delete: what resolution aimed it at, and leftovers. If resolution only ever
      aims at the original, that is the original and leftovers. */
  ghost predicate MayDelete(resolved: set<Handle>, history: seq<Device>, id: ObjectId, job: Job) {
    WasAimedAt(resolved, history, id) || WasLeftover(history, id, job)
  }

  lemma MayDeleteStays(
    resolved: set<Handle>, resolved': set<Handle>, history: seq<Device>, history': seq<Device>, job: Job)
    requires history <= history' && resolved <= resolved'
    ensures forall id :: MayDelete(resolved, history, id, job) ==> MayDelete(resolved', history', id, job)
  {
    forall id | MayDelete(resolved, history, id, job)
      ensures MayDelete(resolved', history', id, job)
    {
      if WasLeftover(history, id, job) {
        var k :| 0 <= k < |history| && IsLeftover(history[k], id, job);
        assert IsLeftover(history'[k], id, job);
      } else {
        var k, handle :| 0 <= k < |history| && handle in resolved && IsAimedAt(handle, history[k], id);
        assert IsAimedAt(handle, history'[k], id);
      }
    }
  }

  /** All that went by the temporary name is among the deleted. */
  ghost predicate LeftoversDeleted(deleted: set<ObjectId>, start: Device, job: Job) {
    Leftovers(start, job) <= deleted
  }

  ghost function Leftovers(d: Device, job: Job): set<ObjectId> {
    set id | id in d.objects && IsLeftover(d, id, job)
  }

  ghost predicate LeftoversGone(deleted: set<ObjectId>, op: Operation, d: Device) {
    op.Flush? && LeftoversDeleted(deleted, d, op.job)
  }

  /** Objects that do not go by the temporary name are as they were. */
  ghost predicate OnlyPurged(d: Device, d': Device, job: Job) {
    && d'.owner == d.owner && d'.nextId == d.nextId && d'.nextHandle == d.nextHandle
    && (forall id :: id in d'.objects ==> id in d.objects)
    && forall id :: id in d.objects && !IsLeftover(d, id, job) ==>
         id in d'.objects && d'.objects[id] == d.objects[id]
  }

  lemma PurgedThenExchanged(d: Device, d': Device, d'': Device, job: Job)
    requires OnlyPurged(d, d', job) && Exchanged(d', d'', job, false)
    ensures Exchanged(d, d'', job, true)
  {
  }

  /** With the new version in place, purged before or not, no more has changed than may have. */
  lemma InPlaceIsExchanged(d: Device, d': Device, job: Job, purged: bool)
    requires if purged then OnlyPurged(d, d', job) else d' == d
    requires Consistent(d') && job.original.id in d'.objects
    ensures Exchanged(d, InPlace(d', job, job.original.id), job, purged)
  {
    InPlaceExchanges(d', job);
    if purged {
      PurgedThenExchanged(d, d', InPlace(d', job, job.original.id), job);
    }
  }

  lemma PurgeStep(d: Device, d': Device, id: ObjectId, job: Job)
    requires OnlyPurged(d, d', job) && IsLeftover(d, id, job)
    ensures OnlyPurged(d, Deleted(d', id), job)
  {
  }

  /** The world keeps still for a moment: no device state that it could put in place is one. */
  predicate Idle(m: Moment) {
    !Consistent(m.device)
  }

  /** The world keeps still and a device call goes through. */
  predicate Still(m: Moment) {
    Idle(m) && m.fault.None?
  }

  /** From here on the world keeps still and every device call goes through. */
  ghost predicate CalmFrom(world: nat -> Moment, clock: nat) {
    forall n :: n >= clock ==> Still(world(n))
  }

  /** So it is between two moments. */
  ghost predicate StillFor(world: nat -> Moment, from: nat, to: nat) {
    forall n :: from <= n < to ==> Still(world(n))
  }

  lemma StillTwice(world: nat -> Moment, from: nat, mid: nat, to: nat)
    requires from <= mid <= to
    ensures StillFor(world, from, to) <==> StillFor(world, from, mid) && StillFor(world, mid, to)
    ensures CalmFrom(world, from) ==> StillFor(world, from, to) && CalmFrom(world, mid)
  {
  }

  /** A call at this moment fails for want of a link, and nothing comes of it. */
  predicate LinkDown(m: Moment) {
    Idle(m) && m.fault == Some(LinkLost) && !m.tookEffect
  }

  /** The world never gives an object older than `began` the temporary name in the directory. */
  ghost predicate KeepsOff(world: nat -> Moment, began: ObjectId, job: Job) {
    forall n: nat, id: ObjectId :: id < began ==> !IsLeftover(world(n).device, id, job)
  }

  ghost predicate NoOldLeftover(d: Device, began: ObjectId, job: Job) {
    forall id: ObjectId :: id < began ==> !IsLeftover(d, id, job)
  }

  /** What holds of every state of the device from the beginning of a flush on: one version or the other
      is whole; and in a quiet flush nothing old goes by the temporary name. */
  ghost predicate StateOk(world: nat -> Moment, began: ObjectId, quiet: bool, d: Device, job: Job) {
    && Safe(d, job) && OriginalElsewhere(job) && began <= d.nextId
    && (quiet ==> KeepsOff(world, began, job) && NoOldLeftover(d, began, job))
  }

  /** None of our calls gives an object that is already there the temporary name. */
  ghost predicate NothingRenamed(d: Device, d': Device, job: Job) {
    d.nextId <= d'.nextId && forall id: ObjectId :: id < d.nextId && IsLeftover(d', id, job) ==> IsLeftover(d, id, job)
  }

  lemma OwnCallsRenameNothing(d: Device, id: ObjectId, chunk: seq<byte>, job: Job)
    requires Consistent(d)
    ensures NothingRenamed(d, Created(d, TempName(job.name), job.dir), job)
    ensures NothingRenamed(d, Deleted(d, id), job)
    ensures id in d.objects ==>
        NothingRenamed(d, Extended(d, id, chunk), job) && NothingRenamed(d, NameSet(d, id, job.name), job)
  {
    TempNameDiffers(job.name);
  }

  // ---------------------------------------------------------------------------------------
  // The mount

  class Mount {
    const inodes: InodeTable
    const policy: B.ReconnectPolicy
    const world: nat -> Moment
    var clock: nat
    var dirsLoaded: map<Inode, bool>
    var storages: seq<StorageInfo>
    var gaveUp: bool
    var device: Device
    var attempts: nat
    /** How the reads of the spool file go. */
    const spoolReads: nat -> S.ReadOutcome
    /** Objects nobody else touches: the original, and what we are uploading or have uploaded. */
    var pinned: set<ObjectId>
    /** Every state the device has been in since the flush began, the last one being the present. */
    ghost var history: seq<Device>
    /** What our own calls have deleted since then, and the handles that the file's was resolved to. */
    ghost var deleted: set<ObjectId>
    ghost var resolved: set<Handle>
    /** The first object number that was free when the flush began, and whether nothing older went by
        the temporary name then or is ever given it by the world. */
    ghost var began: ObjectId
    ghost var quiet: bool

    constructor (
      inodes: InodeTable, policy: B.ReconnectPolicy, world: nat -> Moment,
      spoolReads: nat -> S.ReadOutcome, device: Device)
      ensures this.inodes == inodes && this.policy == policy && this.world == world
      ensures this.spoolReads == spoolReads
      ensures clock == 0 && this.device == device && !gaveUp && history == [] && pinned == {}
    {
      this.inodes, this.policy, this.world, this.device := inodes, policy, world, device;
      this.spoolReads := spoolReads;
      clock, dirsLoaded, storages, gaveUp, attempts := 0, map[], [], false, 0;
      pinned, history := {}, [];
    }

    method Look() returns (m: Moment)
      modifies this`clock
      ensures clock == old(clock) + 1 && m == world(old(clock))
    {
      m := world(clock);
      clock := clock + 1;
    }

    method InvalidateHandles()
      modifies this`dirsLoaded, inodes`generation
      ensures inodes.View() == Bumped(old(inodes.View())) && dirsLoaded == map[ROOT := true]
    {
      inodes.BumpGeneration();
      dirsLoaded := map[];
      dirsLoaded := dirsLoaded[ROOT := true];
    }

    /** Takes over a freshly opened device. */
    method Adopt(reopened: seq<StorageInfo>)
      modifies this`dirsLoaded, this`storages, inodes`entries, inodes`generation
      ensures var children := Children(old(inodes.View()), ROOT);
        inodes.View() == Bumped(Remapped(old(inodes.View()), children, reopened, |children|))
      ensures storages == reopened && dirsLoaded == map[ROOT := true]
      ensures inodes.generation == old(inodes.generation) + 1
    {
      var storageInodes := inodes.ListChildren(ROOT);
      var position := 0;
      while position < |storageInodes|
        invariant 0 <= position <= |storageInodes|
        invariant inodes.View() == Remapped(old(inodes.View()), storageInodes, reopened, position)
        invariant inodes.generation == old(inodes.generation)
      {
        var ino := storageInodes[position];
        if ino in inodes.entries {
          var matched := Matched(reopened, inodes.entries[ino].name, position);
          if matched.Some? {
            inodes.SetStorageId(ino, matched.value);
          }
        }
        position := position + 1;
      }
      storages := reopened;
      inodes.BumpGeneration();
      dirsLoaded := map[];
      dirsLoaded := dirsLoaded[ROOT := true];
    }

    /** Waits for the device to come back, with one look at it after each pause of the schedule. What is
        taken over is the first device that a look finds there, with the storages it has then; the
        mount is given up only if none does. */
    method Reconnect() returns (back: bool, slept: nat)
      modifies this`clock, this`dirsLoaded, this`storages, this`gaveUp, inodes`entries, inodes`generation
      ensures old(clock) <= clock && clock - old(clock) <= |Pauses()|
      ensures slept == B.Waited(Pauses(), clock - old(clock)) && slept <= policy.timeout
      ensures Tried(back, old(clock), clock, old(inodes.View()))
      ensures gaveUp == (old(gaveUp) || !back)
      ensures policy.timeout > 0 && Returns(world(old(clock))) ==> back
      ensures !back ==> clock - old(clock) == |Pauses()| && storages == old(storages)
      ensures OnlyRemapped(old(inodes.View()), inodes.View())
    {
      slept, back := 0, false;
      B.NonEmptyHasTime(policy.timeout, B.FIRST_DELAY);
      if !policy.IsDisabled() {
        var schedule := new B.Backoff(policy);
        back, slept := WaitAndProbe(schedule);
      }
      B.PartOfWindow(policy.timeout, clock - old(clock));
      gaveUp := gaveUp || !back;
    }

    /** The pauses, each with a look after it, up to the first that finds the device. */
    method WaitAndProbe(schedule: B.Backoff) returns (back: bool, slept: nat)
      requires schedule.remaining == policy.timeout && schedule.next == B.FIRST_DELAY
      modifies schedule, this`clock, this`dirsLoaded, this`storages, inodes`entries, inodes`generation
      ensures old(clock) <= clock && clock - old(clock) <= |Pauses()|
      ensures slept == B.Waited(Pauses(), clock - old(clock))
      ensures Tried(back, old(clock), clock, old(inodes.View()))
      ensures !back ==> clock - old(clock) == |Pauses()| && storages == old(storages)
      ensures OnlyRemapped(old(inodes.View()), inodes.View())
    {
      slept, back := 0, false;
      ghost var pauses, t := Pauses(), inodes.View();
      ghost var n := 0;
      var delay := NextPause(schedule, pauses, n);
      NothingRemapped(t);
      while delay.Some?
        invariant n <= |pauses|
        invariant clock == old(clock) + n && slept == B.Waited(pauses, n)
        invariant Waiting(schedule, pauses, n, delay)
        invariant Tried(false, old(clock), clock, t) && storages == old(storages)
        decreases |pauses| - n
      {
        slept := slept + delay.value;
        back := Probe(old(clock), t);
        n := n + 1;
        if back {
          return true, slept;
        }
        delay := NextPause(schedule, pauses, n);
      }
    }

    /** With this delay drawn, `n` have been waited. */
    ghost predicate Waiting(schedule: B.Backoff, pauses: seq<nat>, n: nat, delay: Option<nat>)
      reads schedule
    {
      && n <= |pauses|
      && match delay
         case Some(pause) =>
           && n < |pauses| && pause == pauses[n]
           && schedule.remaining == B.Drawn(policy.timeout, n + 1).0
           && schedule.next == B.Drawn(policy.timeout, n + 1).1
         case None => n == |pauses|
    }

    /** The next delay of the schedule. */
    method NextPause(schedule: B.Backoff, ghost pauses: seq<nat>, ghost n: nat) returns (delay: Option<nat>)
      requires schedule.remaining == B.Drawn(policy.timeout, n).0
      requires schedule.next == B.Drawn(policy.timeout, n).1
      requires pauses == Pauses() && n <= |pauses|
      modifies schedule
      ensures Waiting(schedule, pauses, n, delay)
    {
      B.DrawnIsPending(policy.timeout, n);
      delay := schedule.Next();
    }

    /** What the looks between these moments have come to: the last of them is the first to find the device,
        and that device has been taken over, in the next session; or none has, and all is as it was. */
    ghost predicate Tried(back: bool, from: nat, to: nat, t: Table)
      reads this`storages, this`dirsLoaded, inodes
    {
      if back then
        && to > from && IsFirstReturn(from, to - 1) && TakenOver(t, world(to - 1).reopening.storages)
        && inodes.generation == t.generation + 1
      else inodes.View() == t && !ReturnsWithin(from, to)
    }

    /** One look, and what comes of it. */
    method Probe(ghost from: nat, ghost t: Table) returns (back: bool)
      requires from <= clock && Tried(false, from, clock, t)
      modifies this`clock, this`dirsLoaded, this`storages, inodes`entries, inodes`generation
      ensures clock == old(clock) + 1 && Tried(back, from, clock, t)
      ensures !back ==> storages == old(storages)
      ensures OnlyRemapped(t, inodes.View())
    {
      NothingRemapped(t);
      var now := Look();
      back := Returns(now);
      if back {
        TakeOver(now.reopening.storages);
      }
    }

    method TakeOver(reopened: seq<StorageInfo>)
      modifies this`dirsLoaded, this`storages, inodes`entries, inodes`generation
      ensures TakenOver(old(inodes.View()), reopened) && OnlyRemapped(old(inodes.View()), inodes.View())
      ensures inodes.generation == old(inodes.generation) + 1
    {
      ghost var t := inodes.View();
      Adopt(reopened);
      AdoptedOnlyRemaps(t, Children(t, ROOT), reopened);
      if NoDuplicates(Children(t, ROOT)) {
        AdoptionFollows(t, reopened);
      }
    }

    /** The pauses of the reconnect window. */
    ghost function Pauses(): seq<nat> {
      B.Delays(policy.timeout, B.FIRST_DELAY)
    }

    ghost predicate ReturnsWithin(from: nat, to: nat) {
      exists n :: from <= n < to && Returns(world(n))
    }

    ghost predicate IsFirstReturn(from: nat, at: nat) {
      from <= at && Returns(world(at)) && !ReturnsWithin(from, at)
    }

    /** A device with these storages has been taken over: it is the one the mount now works with, every
        directory is to be listed again, and each storage inode stands for the storage of its name,
        else of its position, else for the one it stood for. */
    ghost predicate TakenOver(t: Table, reopened: seq<StorageInfo>)
      reads this`storages, this`dirsLoaded, inodes
    {
      && storages == reopened && dirsLoaded == map[ROOT := true]
      && inodes.View() == Bumped(Remapped(t, Children(t, ROOT), reopened, |Children(t, ROOT)|))
      && (NoDuplicates(Children(t, ROOT)) ==> StoragesFollow(t, inodes.View(), reopened))
    }

    // -------------------------------------------------------------------------------------
    // The device calls a flush makes

    /** What holds between any two of them. */
    ghost predicate Sound(job: Job)
      reads this`device, this`pinned, this`history, this`began, this`quiet
    {
      && Consistent(device) && PinnedExist() && Guarded(device, pinned, job)
      && history != [] && history[|history| - 1] == device
      && forall k :: 0 <= k < |history| ==> StateOk(world, began, quiet, history[k], job)
    }

    /** Pinned objects exist. */
    ghost predicate PinnedExist()
      reads this`device, this`pinned
    {
      forall id :: id in pinned ==> id in device.objects
    }

    /** Our own calls have deleted nothing but what a flush may delete. */
    ghost predicate Careful(job: Job)
      reads this`deleted, this`resolved, this`history
    {
      forall id :: id in deleted ==> MayDelete(resolved, history, id, job)
    }

    ghost predicate OriginalThere(job: Job)
      reads this`device, this`pinned
    {
      OriginalPinned(device, pinned, job)
    }

    /** The world's turn. */
    method Interfere(ghost job: Job) returns (m: Moment)
      requires Sound(job)
      modifies this`clock, this`device, this`history
      ensures Sound(job) && MayBecome(old(device), device, pinned)
      ensures history == old(history) + [device] && m == world(old(clock)) && clock == old(clock) + 1
      ensures Idle(m) ==> device == old(device)
      ensures OwnersKept(old(device), device) && (old(OriginalThere(job)) ==> OriginalThere(job))
    {
      m := Look();
      var d := if MayBecome(device, m.device, pinned) then m.device else device;
      MayStay(device, pinned);
      WorldKeepsGuard(device, d, pinned, pinned, job);
      assert StateOk(world, began, quiet, history[|history| - 1], job);
      GuardedIsSafe(d, pinned, job);
      WorldKeepsOwners(device, d, pinned);
      Record(d, job);
    }

    /** The device's next state. */
    method Record(d: Device, ghost job: Job)
      requires Sound(job) && Consistent(d) && Guarded(d, pinned, job)
      requires StateOk(world, began, quiet, d, job)
      requires forall id :: id in pinned ==> id in d.objects
      modifies this`device, this`history
      ensures Sound(job) && device == d && history == old(history) + [device]
    {
      device := d;
      history := history + [device];
    }

    /** One of our own calls takes effect; an object that it takes away has been noted. */
    method Become(d: Device, ghost job: Job)
      requires forall id :: id in device.objects && id !in d.objects ==> id in deleted
      requires Sound(job) && Consistent(d) && Guarded(d, pinned, job) && NothingRenamed(device, d, job)
      requires forall id :: id in pinned ==> id in d.objects
      modifies this`device, this`history
      ensures Sound(job) && device == d && history == old(history) + [device]
    {
      assert StateOk(world, began, quiet, history[|history| - 1], job);
      GuardedIsSafe(d, pinned, job);
      Record(d, job);
    }

    /** Uploads the spooled bytes under the temporary name, chunk by chunk. An upload that fails may
        leave nothing, a part, or all of the object behind. */
    method Upload(job: Job) returns (r: MtpResult<Handle>, ghost id: ObjectId)
      requires Sound(job) && OriginalThere(job)
      modifies this`clock, this`device, this`history, this`pinned
      ensures Sound(job) && OriginalThere(job) && OwnersKept(old(device), device)
      ensures old(history) <= history
      ensures r.Err? ==> pinned == old(pinned)
      ensures LinkDown(world(old(clock))) ==>
          r == Err(LinkLost) && device == old(device) && clock == old(clock) + 1
      ensures r.Ok? ==> pinned == old(pinned) + {id} && IsNewVersion(device, id, job)
      ensures r.Ok? ==> old(device).nextId <= id && r.value in device.owner && device.owner[r.value] == id
      ensures clock > old(clock)
      ensures StillFor(world, old(clock), clock) && S.SpoolReadable(spoolReads) ==> r.Ok?
      ensures StillFor(world, old(clock), clock) && r.Ok? ==>
          device == NewVersion(old(device), job) && id == old(device).nextId
    {
      ghost var start := device;
      var begun, fresh' := BeginUpload(job);
      id := fresh';
      if begun.Err? {
        return begun, id;
      }
      assert !LinkDown(world(old(clock)));
      ghost var mid, c := device, clock;
      var chunks, failed := S.FileStream(job.bytes, spoolReads);
      var sent := SendChunks(job, fresh', begun.value, chunks);
      OwnersKeptTwice(start, mid, device);
      StillTwice(world, old(clock), c, clock);
      if sent.Err? || failed {
        LetGo(fresh', job);
        return Err(if sent.Err? then sent.error else OtherError), id;
      }
      r := begun;
    }

    /** What an upload that failed has left is anybody's. */
    method LetGo(id: ObjectId, ghost job: Job)
      requires Sound(job) && OriginalThere(job) && id != job.original.id
      modifies this`pinned
      ensures Sound(job) && OriginalThere(job) && pinned == old(pinned) - {id}
    {
      pinned := pinned - {id};
    }

    /** The object's creation, which is where the device gives out its handle. */
    method BeginUpload(job: Job) returns (r: MtpResult<Handle>, id: ObjectId)
      requires Sound(job) && OriginalThere(job)
      modifies this`clock, this`device, this`history, this`pinned
      ensures Sound(job) && OriginalThere(job) && OwnersKept(old(device), device)
      ensures old(history) <= history
      ensures r.Err? ==> pinned == old(pinned)
      ensures LinkDown(world(old(clock))) ==>
          r == Err(LinkLost) && device == old(device) && clock == old(clock) + 1
      ensures r.Ok? ==> pinned == old(pinned) + {id} && id in device.objects && id != job.original.id
      ensures r.Ok? ==> id !in old(pinned) && old(device).nextId <= id
      ensures r.Ok? ==> r.value in device.owner && device.owner[r.value] == id
      ensures r.Ok? ==> device.objects[id] == Object(TempName(job.name), job.dir, [], r.value)
      ensures clock == old(clock) + 1
      ensures Still(world(old(clock))) ==>
          r == Ok(old(device).nextHandle) && device == Created(old(device), TempName(job.name), job.dir)
          && id == old(device).nextId
    {
      ghost var start := device;
      var m := Interfere(job);
      ghost var mid := device;
      id := device.nextId;
      r := if m.fault.Some? then Err(m.fault.value) else Ok(device.nextHandle);
      if m.fault.None? || m.tookEffect {
        Create(job);
        OwnersKeptTwice(start, mid, device);
      }
      if r.Ok? {
        pinned := pinned + {id};
      }
    }

    /** A creation takes effect. */
    method Create(job: Job)
      requires Sound(job) && OriginalThere(job)
      modifies this`device, this`history
      ensures Sound(job) && OriginalThere(job) && OwnersKept(old(device), device)
      ensures device == Created(old(device), TempName(job.name), job.dir)
      ensures history == old(history) + [device] && old(device).nextId !in old(device).objects
    {
      CreationKeeps(device, pinned, TempName(job.name), job);
      OwnCallsRenameNothing(device, device.nextId, [], job);
      Become(Created(device, TempName(job.name), job.dir), job);
    }

    /** The object that an upload is filling. */
    ghost predicate Filling(job: Job, id: ObjectId)
      reads this`device, this`pinned
    {
      && id != job.original.id && id in pinned && id in device.objects
      && device.objects[id].name == TempName(job.name) && device.objects[id].dir == job.dir
    }

    /** The data phase of an upload. */
    method SendChunks(job: Job, id: ObjectId, handle: Handle, chunks: seq<seq<byte>>)
      returns (r: MtpResult<()>)
      requires Sound(job) && OriginalThere(job) && Filling(job, id)
      requires handle in device.owner && device.owner[handle] == id
      requires device.objects[id].data == []
      modifies this`clock, this`device, this`history
      ensures Sound(job) && OriginalThere(job) && Filling(job, id) && OwnersKept(old(device), device)
      ensures old(history) <= history
      ensures r.Ok? ==> device.objects[id].data == S.Concat(chunks)
      ensures clock > old(clock)
      ensures StillFor(world, old(clock), clock) ==> r.Ok? && device == Filled(old(device), id, S.Concat(chunks))
    {
      ghost var start := device;
      var k := 0;
      assert chunks[..0] == [];
      FilledFirst(device, id);
      while k < |chunks|
        invariant 0 <= k <= |chunks|
        invariant Sound(job) && OriginalThere(job) && Filling(job, id) && OwnersKept(start, device)
        invariant old(history) <= history
        invariant device.objects[id].data == S.Concat(chunks[..k])
        invariant clock == old(clock) + k
        invariant StillFor(world, old(clock), clock) ==> device == Filled(start, id, S.Concat(chunks[..k]))
      {
        ghost var before, c := device, clock;
        var sent := SendChunk(job, id, chunks[k]);
        OwnersKeptTwice(start, before, device);
        StillTwice(world, old(clock), c, clock);
        FilledFurther(start, id, S.Concat(chunks[..k]), chunks[k]);
        if sent.Err? {
          return sent;
        }
        assert chunks[..k + 1][..k] == chunks[..k];
        k := k + 1;
      }
      assert chunks[..k] == chunks;
      ghost var before, c := device, clock;
      r := SendChunk(job, id, []);
      OwnersKeptTwice(start, before, device);
      StillTwice(world, old(clock), c, clock);
      FilledFurther(start, id, S.Concat(chunks), []);
    }

    /** One chunk; the empty one ends the phase. A call that fails may have been carried out. */
    method SendChunk(job: Job, id: ObjectId, chunk: seq<byte>) returns (r: MtpResult<()>)
      requires Sound(job) && OriginalThere(job) && Filling(job, id)
      modifies this`clock, this`device, this`history
      ensures Sound(job) && OriginalThere(job) && Filling(job, id) && OwnersKept(old(device), device)
      ensures old(history) <= history
      ensures r.Ok? ==> device.objects[id].data == old(device).objects[id].data + chunk
      ensures clock == old(clock) + 1
      ensures Still(world(old(clock))) ==> r.Ok? && device == Extended(old(device), id, chunk)
    {
      ghost var start := device;
      var m := Interfere(job);
      ghost var mid := device;
      WorldKeepsGuard(start, mid, pinned, pinned, job);
      if m.tookEffect || m.fault.None? {
        OwnCallsRenameNothing(device, id, chunk, job);
        Become(Extended(device, id, chunk), job);
        OwnersKeptTwice(start, mid, device);
      }
      r := if m.fault.Some? then Err(m.fault.value) else Ok(());
    }

    /** Deletes whatever object a handle denotes. A call that fails may have been carried out. */
    method Delete(handle: Handle, job: Job) returns (r: MtpResult<()>)
      requires Sound(job) && handle in device.owner
      requires Guarded(device, pinned - {device.owner[handle]}, job)
      requires Careful(job) && MayDelete(resolved, history, device.owner[handle], job)
      modifies this`clock, this`device, this`history, this`pinned, this`deleted
      ensures Sound(job) && OwnersKept(old(device), device)
      ensures Careful(job) && old(history) <= history && clock == old(clock) + 1
      ensures deleted == old(deleted) || deleted == old(deleted) + {old(device).owner[handle]}
      ensures Still(world(old(clock))) ==>
          if Denotes(old(device), handle, old(device).owner[handle])
          then && device == Deleted(old(device), old(device).owner[handle]) && r.Ok?
               && old(device).owner[handle] in deleted
          else device == old(device)
      ensures pinned == old(pinned) || pinned == old(pinned) - {old(device).owner[handle]}
      ensures r.Ok? ==> old(device).owner[handle] !in device.objects
      ensures old(OriginalPinned(device, pinned - {device.owner[handle]}, job)) ==> OriginalThere(job)
      ensures forall id | id != old(device).owner[handle] && id in old(pinned)
        && IsNewVersion(old(device), id, job) :: IsNewVersion(device, id, job)
    {
      ghost var start := device;
      var id := device.owner[handle];
      var m := Interfere(job);
      ghost var mid := device;
      MayDeleteStays(resolved, resolved, old(history), history, job);
      WorldKeepsGuard(start, mid, pinned, pinned - {id}, job);
      if !Denotes(device, handle, id) {
        r := Err(StaleHandle);
      } else {
        r := if m.fault.Some? then Err(m.fault.value) else Ok(());
        if m.fault.None? || m.tookEffect {
          TakeAway(id, job);
          OwnersKeptTwice(start, mid, device);
        }
      }
    }

    /** A deletion takes effect. */
    method TakeAway(id: ObjectId, job: Job)
      requires Sound(job) && Careful(job) && Guarded(device, pinned - {id}, job)
      requires MayDelete(resolved, history, id, job)
      modifies this`device, this`history, this`pinned, this`deleted
      ensures Sound(job) && Careful(job) && history == old(history) + [device]
      ensures device == Deleted(old(device), id) && OwnersKept(old(device), device)
      ensures pinned == old(pinned) - {id} && deleted == old(deleted) + {id}
      ensures old(OriginalPinned(device, pinned - {id}, job)) ==> OriginalThere(job)
      ensures forall x :: x != id && IsNewVersion(old(device), x, job) ==> IsNewVersion(device, x, job)
    {
      DeletionKeeps(device, pinned, id, job);
      OwnCallsRenameNothing(device, id, [], job);
      pinned := pinned - {id};
      deleted := deleted + {id};
      Become(Deleted(device, id), job);
      MayDeleteStays(resolved, resolved, old(history), history, job);
    }

    /** Renames the new version into place. A call that fails may have been carried out. */
    method RenameNew(handle: Handle, job: Job, ghost id: ObjectId) returns (r: MtpResult<()>)
      requires Sound(job) && handle in device.owner && device.owner[handle] == id
      requires id in pinned && IsNewVersion(device, id, job)
      modifies this`clock, this`device, this`history
      ensures Sound(job) && OwnersKept(old(device), device) && IsNewVersion(device, id, job)
      ensures old(history) <= history
      ensures r.Ok? ==> device.objects[id].name == job.name
      ensures forall x :: x !in old(device).objects && x < old(device).nextId ==> x !in device.objects
      ensures clock == old(clock) + 1
      ensures Still(world(old(clock))) && Denotes(old(device), handle, id) ==>
          r.Ok? && device == NameSet(old(device), id, job.name)
    {
      ghost var start := device;
      var m := Interfere(job);
      ghost var mid := device;
      WorldKeepsGuard(start, mid, pinned, pinned, job);
      if !Denotes(device, handle, device.owner[handle]) {
        r := Err(StaleHandle);
      } else {
        r := if m.fault.Some? then Err(m.fault.value) else Ok(());
        if m.fault.None? || m.tookEffect {
          GiveRealName(device.owner[handle], job);
          OwnersKeptTwice(start, mid, device);
        }
      }
    }

    /** A renaming takes effect. */
    method GiveRealName(id: ObjectId, job: Job)
      requires Sound(job) && id in pinned && IsNewVersion(device, id, job)
      modifies this`device, this`history
      ensures Sound(job) && OwnersKept(old(device), device) && IsNewVersion(device, id, job)
      ensures device == NameSet(old(device), id, job.name) && history == old(history) + [device]
    {
      RenamingKeeps(device, pinned, id, job);
      OwnCallsRenameNothing(device, id, [], job);
      Become(NameSet(device, id, job.name), job);
    }

    /** Of what went by the temporary name, all that is not deleted yet goes by one of these handles. */
    ghost predicate StillToGo(start: Device, leftovers: set<Handle>, job: Job)
      reads this`device, this`deleted
    {
      forall id :: IsLeftover(start, id, job) ==>
        id in deleted || (id in device.objects && device.objects[id].handle in leftovers)
    }

    /** How far an unhindered purge has come: these are handles of leftovers, nothing else is touched. */
    ghost predicate Purging(start: Device, leftovers: set<Handle>, job: Job)
      reads this`device, this`deleted
    {
      && StillToGo(start, leftovers, job) && OnlyPurged(start, device, job)
      && forall h :: h in leftovers ==> h in start.owner && IsLeftover(start, start.owner[h], job)
    }

    /** These are handles that the purge may delete by. */
    ghost predicate MayPurge(leftovers: set<Handle>, job: Job)
      reads this`device, this`resolved, this`history
    {
      && (forall h :: h in leftovers ==> h in device.owner && device.owner[h] != job.original.id)
      && (forall h :: h in leftovers ==> MayDelete(resolved, history, device.owner[h], job))
    }

    /** The handles that go by the temporary name in the target directory, if it can be listed. */
    method ListLeftovers(job: Job) returns (leftovers: set<Handle>)
      requires Sound(job) && OriginalThere(job)
      modifies this`clock, this`device, this`history
      ensures Sound(job) && OriginalThere(job) && OwnersKept(old(device), device)
      ensures old(history) <= history && clock == old(clock) + 1
      ensures CalmFrom(world, old(clock)) ==> Purging(old(device), leftovers, job)
      ensures MayPurge(leftovers, job)
    {
      ghost var start := device;
      var m := Interfere(job);
      if m.fault.Some? {
        return {};
      }
      leftovers := set id | id in device.objects && device.objects[id].dir == job.dir
          && device.objects[id].name == TempName(job.name) :: device.objects[id].handle;
      TempNameDiffers(job.name);
      assert history[|history| - 1] == device;
    }

    /** Clears whatever goes by the temporary name, meant for what an earlier attempt left; best effort,
        and never the original. If nothing gets in the way, all that went by that name is deleted,
        whoever put it there. */
    method PurgeLeftovers(job: Job)
      requires Sound(job) && OriginalThere(job) && Careful(job)
      modifies this`clock, this`device, this`history, this`pinned, this`deleted
      ensures Sound(job) && OriginalThere(job) && OwnersKept(old(device), device) && Careful(job)
      ensures old(history) <= history && old(deleted) <= deleted
      ensures CalmFrom(world, old(clock)) ==> LeftoversDeleted(deleted, old(device), job)
      ensures CalmFrom(world, old(clock)) ==> OnlyPurged(old(device), device, job)
      ensures clock >= old(clock)
    {
      ghost var start := device;
      var leftovers := ListLeftovers(job);
      MayDeleteStays(resolved, resolved, old(history), history, job);
      while leftovers != {}
        invariant Sound(job) && OriginalThere(job) && OwnersKept(start, device) && Careful(job)
        invariant old(history) <= history && old(deleted) <= deleted && old(clock) <= clock
        invariant MayPurge(leftovers, job)
        invariant CalmFrom(world, old(clock)) ==> Purging(start, leftovers, job)
        decreases leftovers
      {
        var handle :| handle in leftovers;
        assert leftovers == leftovers - {handle} + {handle};
        leftovers := leftovers - {handle};
        ghost var before := device;
        PurgeOne(handle, job, leftovers, start);
        OwnersKeptTwice(start, before, device);
      }
    }

    /** One of the deletions. */
    method PurgeOne(handle: Handle, job: Job, ghost leftovers: set<Handle>, ghost start: Device)
      requires Sound(job) && OriginalThere(job) && Careful(job) && handle !in leftovers
      requires MayPurge(leftovers + {handle}, job)
      modifies this`clock, this`device, this`history, this`pinned, this`deleted
      ensures Sound(job) && OriginalThere(job) && Careful(job) && OwnersKept(old(device), device)
      ensures MayPurge(leftovers, job)
      ensures old(history) <= history && old(deleted) <= deleted && clock == old(clock) + 1
      ensures Still(world(old(clock))) && old(Purging(start, leftovers + {handle}, job)) ==>
          Purging(start, leftovers, job)
    {
      assert handle in leftovers + {handle};
      ghost var before, earlier := device, history;
      var _ := Delete(handle, job);
      MayDeleteStays(resolved, resolved, earlier, history, job);
      if Still(world(old(clock))) && old(Purging(start, leftovers + {handle}, job)) {
        PurgeStep(start, before, start.owner[handle], job);
      }
    }

    /** The three device calls of a safe flush: upload under the temporary name, delete the old object,
        rename the new one into place. Only the upload's failure is the caller's. */
    method ReplaceOriginal(job: Job, oldHandle: Handle)
      returns (r: MtpResult<Handle>, ghost id: ObjectId, replaced: bool)
      requires Sound(job) && OriginalThere(job) && oldHandle in device.owner
      requires Careful(job) && MayDelete(resolved, history, device.owner[oldHandle], job)
      modifies this`clock, this`device, this`history, this`pinned, this`deleted
      ensures Sound(job) && Careful(job) && OwnersKept(old(device), device) && old(deleted) <= deleted
      ensures LinkDown(world(old(clock))) ==>
          r == Err(LinkLost) && device == old(device) && clock == old(clock) + 1
      ensures r.Err? ==> OriginalThere(job)
      ensures r.Ok? ==> IsNewVersion(device, id, job) && r.value in device.owner && device.owner[r.value] == id
      ensures r.Ok? && replaced ==>
          device.objects[id].name == job.name && old(device).owner[oldHandle] !in device.objects
      ensures clock > old(clock)
      ensures StillFor(world, old(clock), clock) && S.SpoolReadable(spoolReads) ==> r.Ok?
      ensures r.Ok? && Undisturbed(old(clock), clock, oldHandle, old(device)) ==> replaced
      ensures r.Ok? && Undisturbed(old(clock), clock, oldHandle, old(device)) ==>
          device == InPlace(old(device), job, old(device).owner[oldHandle])
    {
      replaced := false;
      ghost var start, earlier := device, history;
      r, id := Upload(job);
      if r.Ok? {
        assert !LinkDown(world(old(clock)));
        MayDeleteStays(resolved, resolved, earlier, history, job);
        ghost var c := clock;
        replaced := SwapIn(job, oldHandle, r.value, id, start);
        StillTwice(world, old(clock), c, clock);
      }
    }

    /** Between these moments the world keeps still and no call fails, and the handle denotes an object at
        the first of them. */
    ghost predicate Undisturbed(from: nat, to: nat, handle: Handle, d: Device) {
      StillFor(world, from, to) && handle in d.owner && Denotes(d, handle, d.owner[handle])
    }

    /** The new version is there: the old object goes, and the new one gets its name. */
    method SwapIn(job: Job, oldHandle: Handle, handle: Handle, ghost id: ObjectId, ghost start: Device)
      returns (replaced: bool)
      requires Sound(job) && oldHandle in start.owner && handle in device.owner && device.owner[handle] == id
      requires OwnersKept(start, device) && start.nextId <= id && Consistent(start)
      requires id in pinned && IsNewVersion(device, id, job)
      requires Careful(job) && MayDelete(resolved, history, start.owner[oldHandle], job)
      modifies this`clock, this`device, this`history, this`pinned, this`deleted
      ensures Sound(job) && Careful(job) && OwnersKept(start, device) && old(deleted) <= deleted
      ensures IsNewVersion(device, id, job) && handle in device.owner && device.owner[handle] == id
      ensures replaced ==> device.objects[id].name == job.name && start.owner[oldHandle] !in device.objects
      ensures clock > old(clock)
      ensures Undisturbed(old(clock), clock, oldHandle, old(device)) && Denotes(old(device), handle, id) ==> replaced
      ensures (&& Undisturbed(old(clock), clock, oldHandle, old(device))
               && Denotes(old(device), handle, id) && old(device).owner[oldHandle] != id) ==>
          device == NameSet(Deleted(old(device), old(device).owner[oldHandle]), id, job.name)
    {
      ghost var uploaded := device;
      var gone := Delete(oldHandle, job);
      OwnersKeptTwice(start, uploaded, device);
      replaced := false;
      if gone.Ok? {
        ghost var cleared, earlier := device, history;
        var renamed := RenameNew(handle, job, id);
        OwnersKeptTwice(start, cleared, device);
        MayDeleteStays(resolved, resolved, earlier, history, job);
        replaced := renamed.Ok?;
      }
    }

    /** Replaces the object and points the file's entry at the new one: under its name if all went
        well, else under the temporary name. */
    method FlushSafe(job: Job, oldHandle: Handle) returns (r: MtpResult<()>, ghost id: ObjectId, replaced: bool)
      requires Sound(job) && OriginalThere(job) && oldHandle in device.owner
      requires Careful(job) && MayDelete(resolved, history, device.owner[oldHandle], job)
      requires Fresh(inodes.View(), job.inode) && inodes.entries[job.inode].kind.File?
      modifies this`clock, this`device, this`history, this`pinned, this`deleted, inodes`entries
      ensures Sound(job) && Careful(job) && OwnersKept(old(device), device) && old(deleted) <= deleted
      ensures LinkDown(world(old(clock))) ==>
          r == Err(LinkLost) && device == old(device) && clock == old(clock) + 1
      ensures r.Err? ==> OriginalThere(job) && inodes.View() == old(inodes.View())
      ensures r.Ok? ==> IsNewVersion(device, id, job) && PointsAt(job, id)
      ensures r.Ok? && replaced ==>
          device.objects[id].name == job.name && old(device).owner[oldHandle] !in device.objects
      ensures r.Ok? ==> Pointed(
          old(inodes.View()), inodes.View(), job,
          if replaced then old(inodes.entries[job.inode].name) else TempName(job.name))
      ensures clock >= old(clock)
      ensures StillFor(world, old(clock), clock) && S.SpoolReadable(spoolReads) ==> r.Ok?
      ensures r.Ok? && Undisturbed(old(clock), clock, oldHandle, old(device)) ==> replaced
      ensures r.Ok? && Undisturbed(old(clock), clock, oldHandle, old(device)) ==>
          device == InPlace(old(device), job, old(device).owner[oldHandle])
    {
      var uploaded;
      uploaded, id, replaced := ReplaceOriginal(job, oldHandle);
      StillTwice(world, old(clock), clock, clock + 1);
      if uploaded.Err? {
        return Err(uploaded.error), id, replaced;
      }
      assert !LinkDown(world(old(clock)));
      PointFile(job, if replaced then inodes.entries[job.inode].name else TempName(job.name), uploaded.value);
      r := Ok(());
    }

    /** The flushed file's entry, re-pointed at the new version. */
    method PointFile(job: Job, name: string, handle: Handle)
      requires Fresh(inodes.View(), job.inode) && inodes.entries[job.inode].kind.File?
      modifies this`clock, inodes`entries
      ensures Fresh(inodes.View(), job.inode) && inodes.entries[job.inode].kind == File(handle)
      ensures inodes.entries[job.inode].name == name && inodes.entries[job.inode].size == |job.bytes|
      ensures inodes.generation == old(inodes.generation) && clock == old(clock) + 1
      ensures Pointed(old(inodes.View()), inodes.View(), job, name)
    {
      var m := Look();
      inodes.PointFileAt(job.inode, name, handle, |job.bytes|, m.time);
    }

    /** The table differs in the flushed file's entry only, which goes by this name with the new size. */
    ghost predicate Pointed(t: Table, t': Table, job: Job, name: string) {
      exists handle, m :: t' == Overwritten(t, job.inode, name, handle, |job.bytes|, m)
    }

    lemma PointedOnlyFlushes(t: Table, t': Table, job: Job, name: string)
      requires Pointed(t, t', job, name)
      ensures OnlyFlushed(t, t', {job.inode})
      ensures job.inode in t.entries ==> job.inode in t'.entries && t'.entries[job.inode].name == name
    {
      var handle, m :| t' == Overwritten(t, job.inode, name, handle, |job.bytes|, m);
      OverwriteOnlyFlushes(t, job.inode, name, handle, |job.bytes|, m);
    }

    /** The table's entry for the file is fresh and carries a handle of the new version and its size. */
    ghost predicate PointsAt(job: Job, id: ObjectId)
      reads this`device, inodes
    {
      && Fresh(inodes.View(), job.inode) && inodes.entries[job.inode].kind.File?
      && inodes.entries[job.inode].kind.handle in device.owner
      && device.owner[inodes.entries[job.inode].kind.handle] == id
      && inodes.entries[job.inode].size == |job.bytes|
    }

    /** The entry is the new version's: and if it has the file's name, so has the new version. */
    ghost predicate NewVersionAt(job: Job, id: ObjectId)
      reads this`device, inodes
    {
      && IsNewVersion(device, id, job) && PointsAt(job, id)
      && (inodes.entries[job.inode].name == job.name ==> device.objects[id].name == job.name)
    }

    /** The table's handle of the file, fresh or not, is one that the device has given out. */
    ghost predicate HandleKnown(job: Job)
      reads this`device, inodes`entries
    {
      job.inode in inodes.entries && inodes.entries[job.inode].kind.File? ==>
        inodes.entries[job.inode].kind.handle in device.owner
    }

    ghost predicate FileThere(job: Job)
      reads inodes
    {
      FileIn(inodes.View(), job)
    }

    /** One flush attempt against the current session. The table is left with what resolution wrote, and,
        if the attempt succeeds, with a fresh entry for the file that carries the new version's handle. */
    method FlushOnce(job: Job, isRetry: bool) returns (r: MtpResult<()>)
      requires Ready(Flush(job))
      modifies this`clock, this`device, this`history, this`pinned, this`deleted, this`resolved, inodes`entries
      ensures inodes.generation == old(inodes.generation) && old(deleted) <= deleted
      ensures LinkDown(world(old(clock))) && !isRetry && old(FileThere(job)) ==>
          r == Err(LinkLost) && device == old(device) && clock == old(clock) + 1
      ensures isRetry && Unhindered(old(clock), old(device)) && old(FileThere(job)) ==>
          LeftoversDeleted(deleted, old(device), job)
      ensures OnlyFlushed(old(inodes.View()), inodes.View(), if r.Err? then {} else {job.inode})
      ensures Leaves(Flush(job), old(inodes.View()), inodes.View()) && (old(FileThere(job)) ==> FileThere(job))
      ensures Settled(Flush(job), r)
      ensures old(Favoured(Flush(job), clock)) ==> Succeeds(Flush(job), r, old(device), isRetry)
    {
      ghost var t := inodes.View();
      var handle := ResolveFile(job);
      ghost var t' := inodes.View();
      assert EntryLeft(t, t', {}, job.inode);
      if handle.Err? {
        r := Err(handle.error);
      } else {
        UnhinderedLater(old(clock), clock, device);
        PromiseLater(old(clock), clock, device, handle.value, job);
        r := FlushResolved(job, handle.value, isRetry);
        if r.Ok? {
          OnlyFlushedMore(t, t', {}, {job.inode});
          OnlyFlushedTwice(t, t', inodes.View(), {job.inode}, {job.inode});
        }
      }
      AttemptLeaves(t, inodes.View(), job, if r.Err? then {} else {job.inode});
    }

    /** The flush proper, with its handles resolved. */
    method FlushResolved(job: Job, handle: Handle, isRetry: bool) returns (r: MtpResult<()>)
      requires Ready(Flush(job)) && handle in device.owner
      requires MayDelete(resolved, history, device.owner[handle], job)
      requires Fresh(inodes.View(), job.inode) && inodes.entries[job.inode].kind.File?
      modifies this`clock, this`device, this`history, this`pinned, this`deleted, inodes`entries
      ensures inodes.generation == old(inodes.generation) && old(deleted) <= deleted
      ensures LinkDown(world(old(clock))) && !isRetry ==>
          r == Err(LinkLost) && device == old(device) && clock == old(clock) + 1
      ensures isRetry && CalmFrom(world, old(clock)) ==> LeftoversDeleted(deleted, old(device), job)
      ensures r.Err? ==> inodes.View() == old(inodes.View())
      ensures r.Ok? ==> OnlyFlushed(old(inodes.View()), inodes.View(), {job.inode})
      ensures Settled(Flush(job), r)
      ensures Promising(old(clock), old(device), handle, job) ==>
          r.Ok? && Replaced(job) && Exchanged(old(device), device, job, isRetry)
    {
      ghost var t, c, d := inodes.View(), clock, device;
      if isRetry {
        ghost var earlier := history;
        PurgeLeftovers(job);
        MayDeleteStays(resolved, resolved, earlier, history, job);
        PurgeKeepsPromise(c, d, clock, device, handle, job);
      }
      if Promising(c, d, handle, job) {
        InPlaceIsExchanged(d, device, job, isRetry);
      }
      c := clock;
      var answer, id, replaced := FlushSafe(job, handle);
      StillTwice(world, c, c, clock);
      r := answer;
      if r.Ok? {
        TempNameDiffers(job.name);
        PointedOnlyFlushes(t, inodes.View(), job, if replaced then job.name else TempName(job.name));
        assert NewVersionAt(job, id);
      }
    }

    /** The new version has the original's place: under its name on the device and in the table, with the
        original gone. */
    ghost predicate Replaced(job: Job)
      reads this`device, inodes
    {
      && (exists id ::
            IsNewVersion(device, id, job) && device.objects[id].name == job.name && PointsAt(job, id))
      && inodes.entries[job.inode].name == job.name && job.original.id !in device.objects
    }

    /** Nothing will get in the way of a flush that has this handle, and it denotes the original. */
    ghost predicate Promising(c: nat, d: Device, handle: Handle, job: Job) {
      CalmFrom(world, c) && S.SpoolReadable(spoolReads) && Denotes(d, handle, job.original.id)
    }

    lemma PromiseLater(c: nat, c': nat, d: Device, handle: Handle, job: Job)
      requires c <= c'
      ensures Promising(c, d, handle, job) ==> Promising(c', d, handle, job)
    {
    }

    lemma PurgeKeepsPromise(c: nat, d: Device, c': nat, d': Device, handle: Handle, job: Job)
      requires OriginalIntact(d, job) && OriginalElsewhere(job) && c <= c'
      requires CalmFrom(world, c) ==> OnlyPurged(d, d', job)
      ensures Promising(c, d, handle, job) ==> Promising(c', d', handle, job)
    {
    }

    /** From here on nothing hinders a flush, and whatever is resolved is resolved to a handle that the
        device has given out. */
    ghost predicate Unhindered(clock: nat, d: Device)
    {
      CalmFrom(world, clock) && forall n :: n >= clock ==> Returns(world(n)) && world(n).handle in d.owner
    }

    /** A call on a device that has no link: either none was needed, or it failed at once. */
    ghost predicate FailedAtOnce(failed: bool, lost: bool, c: nat, d: Device)
      reads this`device, this`clock
    {
      device == d && if failed then lost && clock == c + 1 else clock == c
    }

    /** Sets the stale handles that a walk has resolved, some entries apart. */
    method SetResolved(found: seq<(Inode, ObjectHandle)>, apart: set<Inode>)
      modifies inodes`entries
      ensures OnlyFlushed(old(inodes.View()), inodes.View(), {}) && inodes.generation == old(inodes.generation)
      ensures forall i :: i in apart ==>
          && (i in inodes.entries <==> i in old(inodes.entries))
          && (i in inodes.entries ==> inodes.entries[i] == old(inodes.entries)[i])
    {
      NothingFlushed(inodes.View());
      var k := 0;
      while k < |found|
        invariant 0 <= k <= |found|
        invariant OnlyFlushed(old(inodes.View()), inodes.View(), {}) && inodes.generation == old(inodes.generation)
        invariant forall i :: i in apart ==>
            && (i in inodes.entries <==> i in old(inodes.entries))
            && (i in inodes.entries ==> inodes.entries[i] == old(inodes.entries)[i])
      {
        var (inode, handle) := found[k];
        var isFresh := inodes.IsFresh(inode);
        if !isFresh && inode !in apart && inode in inodes.entries {
          ghost var t := inodes.View();
          HandleSetOnlyReresolves(t, inode, handle);
          inodes.SetHandle(inode, handle);
          OnlyFlushedTwice(old(inodes.View()), t, inodes.View(), {}, {});
        }
        k := k + 1;
      }
    }

    /** The handle that resolution comes to: the table's if that is fresh, else what the walk finds. */
    function Target(t: Table, inode: Inode, c: nat): Handle {
      if Fresh(t, inode) && t.entries[inode].kind.File? then t.entries[inode].kind.handle else world(c).handle
    }

    /** `ensure_fresh` as far as a flush depends on it: nothing to do for a fresh inode, else a walk,
        which the world answers for. */
    method EnsureFresh(inode: Inode, job: Job) returns (r: MtpResult<()>)
      requires Sound(job) && OriginalThere(job) && Careful(job) && HandleKnown(job)
      modifies this`clock, this`device, this`history, inodes`entries
      ensures Sound(job) && OriginalThere(job) && Careful(job) && HandleKnown(job)
      ensures OwnersKept(old(device), device) && old(history) <= history && clock >= old(clock)
      ensures OnlyFlushed(old(inodes.View()), inodes.View(), {}) && inodes.generation == old(inodes.generation)
      ensures r.Ok? ==> Fresh(inodes.View(), inode)
      ensures r.Ok? && inodes.entries[inode].kind.File? ==>
          inodes.entries[inode].kind.handle == Target(old(inodes.View()), inode, old(clock))
      ensures LinkDown(world(old(clock))) && inode in old(inodes.entries) ==>
          FailedAtOnce(r.Err?, r == Err(LinkLost), old(clock), old(device))
      ensures Unhindered(old(clock), old(device)) && inode in old(inodes.entries) ==> r.Ok? && device == old(device)
    {
      NothingFlushed(inodes.View());
      var isFresh := inodes.IsFresh(inode);
      if isFresh {
        return Ok(());
      }
      if inode !in inodes.entries {
        return Err(NotFound);
      }
      r := Walk(inode, job);
    }

    /** The walk to a stale inode. */
    method Walk(inode: Inode, job: Job) returns (r: MtpResult<()>)
      requires Sound(job) && OriginalThere(job) && Careful(job) && HandleKnown(job)
      requires inode in inodes.entries && !Fresh(inodes.View(), inode)
      modifies this`clock, this`device, this`history, inodes`entries
      ensures Sound(job) && OriginalThere(job) && Careful(job) && HandleKnown(job)
      ensures OwnersKept(old(device), device) && old(history) <= history && clock == old(clock) + 1
      ensures OnlyFlushed(old(inodes.View()), inodes.View(), {}) && inodes.generation == old(inodes.generation)
      ensures r.Ok? ==> Fresh(inodes.View(), inode)
      ensures r.Ok? && inodes.entries[inode].kind.File? ==>
          inodes.entries[inode].kind.handle == world(old(clock)).handle
      ensures LinkDown(world(old(clock))) ==> r == Err(LinkLost) && device == old(device)
      ensures Unhindered(old(clock), old(device)) ==> r.Ok? && device == old(device)
    {
      ghost var t, d := inodes.View(), device;
      var m := Interfere(job);
      MayDeleteStays(resolved, resolved, old(history), history, job);
      assert inodes.View() == t;
      SetResolved(m.others, {inode, job.inode});
      ghost var t' := inodes.View();
      if m.fault.Some? {
        r := Err(m.fault.value);
      } else if m.handle !in device.owner {
        r := Err(NotFound);
      } else {
        assert inode in {inode, job.inode};
        HandleSetOnlyReresolves(t', inode, m.handle);
        inodes.SetHandle(inode, m.handle);
        assert inodes.View() == HandleSet(t', inode, m.handle);
        OnlyFlushedTwice(t, t', inodes.View(), {}, {});
        r := Ok(());
      }
    }

    method FileHandle(job: Job) returns (r: MtpResult<Handle>)
      requires Sound(job) && OriginalThere(job) && Careful(job) && HandleKnown(job)
      modifies this`clock, this`device, this`history, inodes`entries
      ensures Sound(job) && OriginalThere(job) && Careful(job) && HandleKnown(job)
      ensures OwnersKept(old(device), device) && old(history) <= history && clock >= old(clock)
      ensures OnlyFlushed(old(inodes.View()), inodes.View(), {}) && inodes.generation == old(inodes.generation)
      ensures r.Ok? ==>
          && Fresh(inodes.View(), job.inode) && inodes.entries[job.inode].kind == File(r.value)
          && r.value in device.owner && r.value == Target(old(inodes.View()), job.inode, old(clock))
      ensures LinkDown(world(old(clock))) && old(FileThere(job)) ==>
          FailedAtOnce(r.Err?, r == Err(LinkLost), old(clock), old(device))
      ensures Unhindered(old(clock), old(device)) && old(FileThere(job)) ==> r.Ok? && device == old(device)
    {
      ghost var t := inodes.View();
      var fresh' := EnsureFresh(job.inode, job);
      assert EntryLeft(t, inodes.View(), {}, job.inode);
      if fresh'.Err? {
        r := Err(fresh'.error);
      } else {
        match inodes.entries[job.inode].kind {
          case File(handle) => r := Ok(handle);
          case _ => r := Err(NotFound);
        }
      }
    }

    method ParentHandle(job: Job) returns (r: MtpResult<()>)
      requires Sound(job) && OriginalThere(job) && Careful(job) && HandleKnown(job)
      requires Fresh(inodes.View(), job.inode)
      modifies this`clock, this`device, this`history, inodes`entries
      ensures Sound(job) && OriginalThere(job) && Careful(job) && HandleKnown(job)
      ensures OwnersKept(old(device), device) && old(history) <= history && clock >= old(clock)
      ensures OnlyFlushed(old(inodes.View()), inodes.View(), {}) && inodes.generation == old(inodes.generation)
      ensures Fresh(inodes.View(), job.inode) && inodes.entries[job.inode] == old(inodes.entries[job.inode])
      ensures LinkDown(world(old(clock))) && old(FileThere(job)) ==>
          FailedAtOnce(r.Err?, r == Err(LinkLost), old(clock), old(device))
      ensures Unhindered(old(clock), old(device)) && old(FileThere(job)) ==> r.Ok? && device == old(device)
    {
      ghost var t := inodes.View();
      var parent := inodes.entries[job.inode].parent;
      r := EnsureFresh(parent, job);
      assert EntryLeft(t, inodes.View(), {}, job.inode);
      assert EntryLeft(t, inodes.View(), {}, parent);
      if r.Ok? {
        match inodes.entries[parent].kind {
          case Storage(_) =>
          case Directory(_) =>
          case _ => r := Err(NotFound);
        }
      }
    }

    /** The handles that a flush works with: the file's and its directory's. */
    method ResolveBoth(job: Job) returns (r: MtpResult<Handle>)
      requires Sound(job) && OriginalThere(job) && Careful(job) && HandleKnown(job)
      modifies this`clock, this`device, this`history, inodes`entries
      ensures Sound(job) && OriginalThere(job) && Careful(job) && HandleKnown(job)
      ensures OnlyFlushed(old(inodes.View()), inodes.View(), {}) && inodes.generation == old(inodes.generation)
      ensures r.Ok? ==>
          && Fresh(inodes.View(), job.inode) && inodes.entries[job.inode].kind == File(r.value)
          && r.value in device.owner && r.value == Target(old(inodes.View()), job.inode, old(clock))
      ensures LinkDown(world(old(clock))) && old(FileThere(job)) ==>
          FailedAtOnce(r.Err?, r == Err(LinkLost), old(clock), old(device))
      ensures Unhindered(old(clock), old(device)) && old(FileThere(job)) ==> r.Ok? && device == old(device)
      ensures clock >= old(clock)
    {
      ghost var t, c := inodes.View(), clock;
      r := FileHandle(job);
      if r.Ok? {
        ghost var t' := inodes.View();
        if FileIn(t, job) {
          FileStays(t, t', job, {});
        }
        UnhinderedLater(c, clock, device);
        var parent := ParentHandle(job);
        OnlyFlushedTwice(t, t', inodes.View(), {}, {});
        if parent.Err? {
          r := Err(parent.error);
        }
      }
    }

    /** The same, with the file's handle put on record. */
    method ResolveFile(job: Job) returns (r: MtpResult<Handle>)
      requires Sound(job) && OriginalThere(job) && Careful(job) && HandleKnown(job)
      modifies this`clock, this`device, this`history, this`resolved, inodes`entries
      ensures Sound(job) && OriginalThere(job) && Careful(job) && HandleKnown(job)
      ensures OnlyFlushed(old(inodes.View()), inodes.View(), {}) && inodes.generation == old(inodes.generation)
      ensures resolved == if r.Ok? then old(resolved) + {r.value} else old(resolved)
      ensures r.Ok? ==>
          && Fresh(inodes.View(), job.inode) && inodes.entries[job.inode].kind == File(r.value)
          && r.value in device.owner && MayDelete(resolved, history, device.owner[r.value], job)
          && r.value == Target(old(inodes.View()), job.inode, old(clock))
      ensures LinkDown(world(old(clock))) && old(FileThere(job)) ==>
          FailedAtOnce(r.Err?, r == Err(LinkLost), old(clock), old(device))
      ensures Unhindered(old(clock), old(device)) && old(FileThere(job)) ==> r.Ok? && device == old(device)
      ensures clock >= old(clock)
    {
      r := ResolveBoth(job);
      if r.Ok? {
        MayDeleteStays(resolved, resolved + {r.value}, history, history, job);
        AimsNow(job, r.value, resolved + {r.value});
        resolved := resolved + {r.value};
      }
    }

    lemma AimsNow(job: Job, handle: Handle, resolved: set<Handle>)
      requires Sound(job) && handle in device.owner && handle in resolved
      ensures MayDelete(resolved, history, device.owner[handle], job)
    {
      assert IsAimedAt(handle, history[|history| - 1], device.owner[handle]);
    }

    lemma UnhinderedLater(c: nat, c': nat, d: Device)
      requires c <= c'
      ensures Unhindered(c, d) ==> Unhindered(c', d)
    {
    }

    // -------------------------------------------------------------------------------------
    // Recovery

    /** What an operation needs to be tried at all. */
    ghost predicate Ready(op: Operation)
      reads this, inodes
    {
      match op
      case Plain => true
      case Flush(job) =>
        Sound(job) && Careful(job) && OriginalThere(job) && GoesBy(job, job.name) && HandleKnown(job)
    }

    /** The file goes by this name in the table, if it is there. */
    ghost predicate GoesBy(job: Job, name: string)
      reads inodes`entries
    {
      job.inode in inodes.entries ==> inodes.entries[job.inode].name == name
    }

    /** What it leaves once it has answered. */
    ghost predicate Settled(op: Operation, r: MtpResult<()>)
      reads this, inodes
    {
      match op
      case Plain => true
      case Flush(job) => if r.Err? then Ready(op) else FlushDone(job)
    }

    /** The new version is there, and a fresh entry of the file has its handle. */
    ghost predicate FlushDone(job: Job)
      reads this, inodes
    {
      && Sound(job) && Careful(job)
      && (exists id :: NewVersionAt(job, id))
      && (GoesBy(job, job.name) || GoesBy(job, TempName(job.name)))
    }

    /** One try. The inside of a plain operation is left to the world, but for the handles that it
        resolves on its way. */
    method Attempt(op: Operation) returns (r: MtpResult<()>)
      requires Ready(op)
      modifies this`clock, this`device, this`history, this`pinned, this`deleted, this`resolved, this`attempts
      modifies inodes`entries
      ensures inodes.generation == old(inodes.generation) && old(deleted) <= deleted
      ensures Leaves(op, old(inodes.View()), inodes.View())
      ensures Settled(op, r)
      ensures old(DownAtFirst(op, clock)) ==> r == Err(LinkLost) && JustRetry(op, old(clock) + 2, old(device))
      ensures old(RetryFrom(op, clock)) ==> LeftoversGone(deleted, op, old(device))
      ensures op.Plain? ==> r == world(old(clock)).answer
      ensures old(Favoured(op, clock)) ==> Succeeds(op, r, old(device), old(attempts) > 0)
    {
      match op {
        case Plain =>
          var m := Look();
          SetResolved(m.others, {});
          r := m.answer;
        case Flush(job) =>
          r := AttemptFlush(job);
      }
    }

    /** One try at a flush, on a fresh view of the spool file. The first one takes nothing for a
        leftover. */
    method AttemptFlush(job: Job) returns (r: MtpResult<()>)
      requires Ready(Flush(job))
      modifies this`clock, this`device, this`history, this`pinned, this`deleted, this`resolved, this`attempts
      modifies inodes`entries
      ensures inodes.generation == old(inodes.generation) && old(deleted) <= deleted
      ensures Leaves(Flush(job), old(inodes.View()), inodes.View())
      ensures Settled(Flush(job), r)
      ensures old(DownAtFirst(Flush(job), clock)) ==>
          r == Err(LinkLost) && JustRetry(Flush(job), old(clock) + 2, old(device))
      ensures old(RetryFrom(Flush(job), clock)) ==> LeftoversGone(deleted, Flush(job), old(device))
      ensures old(Favoured(Flush(job), clock)) ==> Succeeds(Flush(job), r, old(device), old(attempts) > 0)
    {
      NothingFlushed(inodes.View());
      AttemptLeaves(inodes.View(), inodes.View(), job, {});
      UnhinderedLater(clock, clock + 1, device);
      var failed := OpenSpool(job);
      if failed {
        r := Err(OtherError);
      } else {
        r := FlushOnce(job, attempts > 1);
      }
    }

    /** A fresh view of the spool file; only an attempt that gets one counts. */
    method OpenSpool(job: Job) returns (failed: bool)
      requires Ready(Flush(job))
      modifies this`clock, this`attempts
      ensures Ready(Flush(job)) && clock == old(clock) + 1
      ensures failed <==> world(old(clock)).fault == Some(OtherError)
      ensures attempts == if failed then old(attempts) else old(attempts) + 1
      ensures old(Favoured(Flush(job), clock)) ==> !failed && Favoured(Flush(job), clock)
    {
      FavouredLater(Flush(job), clock, clock + 1);
      var m := Look();
      failed := m.fault == Some(OtherError);
      if !failed {
        attempts := attempts + 1;
      }
    }

    // -------------------------------------------------------------------------------------
    // A try that nothing hinders

    /** From here on nothing hinders a flush, and resolution is right. */
    ghost predicate Favoured(op: Operation, c: nat)
      reads this`device, inodes
    {
      && op.Flush? && FileThere(op.job) && Unhindered(c, device) && S.SpoolReadable(spoolReads)
      && AimsFrom(inodes.View(), op.job, c, device)
    }

    ghost predicate AimsFrom(t: Table, job: Job, c: nat, d: Device) {
      forall n :: n >= c ==> Denotes(d, Target(t, job.inode, n), job.original.id)
    }

    ghost predicate Succeeds(op: Operation, r: MtpResult<()>, d: Device, isRetry: bool)
      reads this`device, inodes
    {
      op.Flush? && r.Ok? && Replaced(op.job) && Exchanged(d, device, op.job, isRetry)
    }

    lemma FavouredLater(op: Operation, c: nat, c': nat)
      requires c <= c'
      ensures Favoured(op, c) ==> Favoured(op, c')
    {
    }

    // -------------------------------------------------------------------------------------
    // One outage and a retry that nothing hinders

    /** The first try of a flush fails at its first device call. */
    ghost predicate DownAtFirst(op: Operation, c: nat)
      reads this, inodes
    {
      && op.Flush? && FileThere(op.job) && attempts == 0
      && world(c).fault.None? && LinkDown(world(c + 1))
    }

    /** The next try will be a retry, nothing hinders it, and the device is as it was. */
    ghost predicate RetryFrom(op: Operation, c: nat)
      reads this, inodes
    {
      op.Flush? && FileThere(op.job) && attempts > 0 && Unhindered(c, device)
    }

    /** All that has come of the tries so far is that the next one is a retry. */
    ghost predicate JustRetry(op: Operation, c: nat, d: Device)
      reads this, inodes
    {
      op.Flush? && FileThere(op.job) && attempts > 0 && device == d && clock == c
    }

    /** The first look finds the device plugged in, but the first try fails. */
    ghost predicate LosesFirstTry(op: Operation, c: nat)
      reads this, inodes
    {
      !world(c).unplugged && DownAtFirst(op, c + 1)
    }

    /** The first try fails, the device comes back, and nothing hinders the second. */
    ghost predicate OneOutage(op: Operation, c: nat)
      reads this, inodes
    {
      LosesFirstTry(op, c) && Unhindered(c + 3, device) && policy.timeout > 0
    }

    /** The same, and resolution is right by then, so that the second try will succeed. */
    ghost predicate RidesOut(op: Operation, c: nat)
      reads this, inodes
    {
      && OneOutage(op, c) && S.SpoolReadable(spoolReads)
      && NotAhead(inodes.View(), op.job) && WellAimed(c + 3, device, op.job)
    }

    /** From here on every walk to the file ends at the original. */
    ghost predicate WellAimed(c: nat, d: Device, job: Job) {
      forall n :: n >= c ==> Denotes(d, world(n).handle, job.original.id)
    }

    lemma FavouredOnceStale(op: Operation, c: nat)
      requires RetryFrom(op, clock) && S.SpoolReadable(spoolReads)
      requires c <= clock && WellAimed(c, device, op.job) && !Fresh(inodes.View(), op.job.inode)
      ensures Favoured(op, clock)
    {
    }

    /** Runs an operation, riding out dead links and stale handles on separate budgets. */
    method WithRecovery(op: Operation) returns (r: MtpResult<()>, ghost es: seq<Event>)
      requires Ready(op)
      modifies this`clock, this`device, this`history, this`pinned, this`deleted, this`resolved, this`attempts
      modifies this`dirsLoaded, this`storages, this`gaveUp, inodes`entries, inodes`generation
      ensures RecoveryLaw(es, r, policy.timeout) && Witnessed(op, es, old(storages))
      ensures Settled(op, r)
      ensures Leaves(op, old(inodes.View()), inodes.View())
      ensures HopeKept(op, r, old(HopeFor(op)))
    {
      es := [];
      var round := 0;
      ghost var hope := HopeFor(op);
      NothingLeft(op, inodes.View());
      while round < MAX_ATTEMPTS
        invariant 0 <= round <= MAX_ATTEMPTS
        invariant Ready(op) && Leaves(op, old(inodes.View()), inodes.View())
        invariant BetweenRounds(es, inodes.generation, round, policy.timeout)
        invariant round == MAX_ATTEMPTS ==> RecoveryLaw(es, Err(LinkLost), policy.timeout)
        invariant Witnessed(op, es, old(storages)) && OnCourse(op, round, hope)
      {
        var answer, back, soFar := NextRound(op, es, round, old(inodes.View()), old(storages), hope);
        es := soFar;
        if answer.Some? {
          return answer.value, es;
        }
        if !back {
          break;
        }
        round := round + 1;
      }
      r := Err(LinkLost);
    }

    /** How what was to be hoped for at the beginning stands between two rounds: an outage is over by the
        second, and a try that nothing hinders has no round after it. */
    ghost predicate OnCourse(op: Operation, round: nat, hope: Hope)
      reads this, inodes
    {
      if round == 0 then
        && device == hope.start && (hope.outage ==> OneOutage(op, clock))
        && (hope.favoured ==> Favoured(op, clock) && hope.isRetry == (attempts > 0))
        && (hope.rides ==> RidesOut(op, clock))
      else
        && !hope.favoured
        && if round == 1 then
             && (hope.outage ==> device == hope.start && RetryFrom(op, clock))
             && (hope.rides ==> Favoured(op, clock) && attempts > 0 && device == hope.start)
           else !hope.rides && (hope.outage ==> LeftoversGone(deleted, op, hope.start))
    }

    ghost function HopeFor(op: Operation): Hope
      reads this, inodes
    {
      Hope(OneOutage(op, clock), Favoured(op, clock), RidesOut(op, clock), device, attempts > 0)
    }

    /** And how it stands with this answer. */
    ghost predicate HopeKept(op: Operation, r: MtpResult<()>, hope: Hope)
      reads this`device, this`deleted, inodes
    {
      && (hope.outage ==> LeftoversGone(deleted, op, hope.start))
      && (hope.favoured ==> Succeeds(op, r, hope.start, hope.isRetry))
      && (hope.rides ==> Succeeds(op, r, hope.start, true))
    }

    /** One round, and what has become of the hope. */
    method NextRound(
      op: Operation, ghost before: seq<Event>, ghost round: nat, ghost start: Table, ghost first: seq<StorageInfo>,
      ghost hope: Hope)
      returns (answer: Option<MtpResult<()>>, back: bool, ghost es: seq<Event>)
      requires Ready(op) && Leaves(op, start, inodes.View()) && round < MAX_ATTEMPTS
      requires BetweenRounds(before, inodes.generation, round, policy.timeout) && Witnessed(op, before, first)
      requires OnCourse(op, round, hope)
      modifies this`clock, this`device, this`history, this`pinned, this`deleted, this`resolved, this`attempts
      modifies this`dirsLoaded, this`storages, this`gaveUp, inodes`entries, inodes`generation
      ensures Leaves(op, start, inodes.View()) && Witnessed(op, es, first)
      ensures RoundEnded(op, answer, back, es, round)
      ensures answer.None? && back ==> OnCourse(op, round + 1, hope)
      ensures answer.Some? ==> HopeKept(op, answer.value, hope)
      ensures answer.None? && (!back || round + 1 == MAX_ATTEMPTS) ==> HopeKept(op, Err(LinkLost), hope)
    {
      answer, back, es := OneRound(op, before, round, start, first);
    }

    /** One round of the outer loop: a session's tries, then a reconnect if they lost the link. */
    method OneRound(
      op: Operation, ghost before: seq<Event>, ghost round: nat, ghost start: Table, ghost first: seq<StorageInfo>)
      returns (answer: Option<MtpResult<()>>, back: bool, ghost es: seq<Event>)
      requires Ready(op) && Leaves(op, start, inodes.View()) && round < MAX_ATTEMPTS
      requires BetweenRounds(before, inodes.generation, round, policy.timeout) && Witnessed(op, before, first)
      modifies this`clock, this`device, this`history, this`pinned, this`deleted, this`resolved, this`attempts
      modifies this`dirsLoaded, this`storages, this`gaveUp, inodes`entries, inodes`generation
      ensures Leaves(op, start, inodes.View()) && old(deleted) <= deleted
      ensures RoundEnded(op, answer, back, es, round)
      ensures Witnessed(op, es, first)
      ensures old(OneOutage(op, clock)) ==>
          answer.None? && back && device == old(device) && RetryFrom(op, clock)
      ensures old(RetryFrom(op, clock)) ==> LeftoversGone(deleted, op, old(device))
      ensures old(Favoured(op, clock)) ==> answer.Some? && Succeeds(op, answer.value, old(device), old(attempts) > 0)
      ensures old(RidesOut(op, clock)) ==> answer.None? && back && Favoured(op, clock)
    {
      ghost var t, outage, rides := inodes.View(), OneOutage(op, clock), RidesOut(op, clock);
      back := false;
      answer, es := InOneSession(op, before, round * 2, round, round * policy.timeout);
      LeavesTwice(op, start, t, inodes.View());
      NeverAhead(op, t, inodes.View());
      WitnessedTries(op, before, es, first);
      if answer.Some? {
        RoundAnswered(es, inodes.generation + 1, round, policy.timeout, answer.value);
      } else {
        back, es := LinkIsLost(op, es, round, start, first, outage, rides);
      }
    }

    /** A round ends with an answer, or ready for another, or with the last reconnect. */
    ghost predicate RoundEnded(
      op: Operation, answer: Option<MtpResult<()>>, back: bool, es: seq<Event>, round: nat)
      reads this, inodes
    {
      match answer
      case Some(r) => Settled(op, r) && RecoveryLaw(es, r, policy.timeout)
      case None =>
        && Ready(op) && (back ==> BetweenRounds(es, inodes.generation, round + 1, policy.timeout))
        && (!back || round + 1 == MAX_ATTEMPTS ==> RecoveryLaw(es, Err(LinkLost), policy.timeout))
    }

    /** The second half of a round: the session's link is lost. */
    method LinkIsLost(
      op: Operation, ghost before: seq<Event>, ghost round: nat, ghost start: Table, ghost first: seq<StorageInfo>,
      ghost outage: bool, ghost rides: bool)
      returns (back: bool, ghost es: seq<Event>)
      requires Ready(op) && Leaves(op, start, inodes.View()) && round < MAX_ATTEMPTS && Witnessed(op, before, first)
      requires Tally(before, inodes.generation + 1, round * 2 + 2, round, round * policy.timeout)
      requires before != [] && before[|before| - 1].LosesLink()
      requires outage ==> RetryFrom(op, clock) && policy.timeout > 0
      requires rides ==> outage && S.SpoolReadable(spoolReads) && WellAimed(clock, device, op.job)
      requires rides ==> NotAhead(inodes.View(), op.job)
      modifies this`clock, this`dirsLoaded, this`storages, this`gaveUp, inodes`entries, inodes`generation
      ensures Leaves(op, start, inodes.View()) && Witnessed(op, es, first)
      ensures RoundEnded(op, None, back, es, round)
      ensures outage ==> back && RetryFrom(op, clock)
      ensures rides ==> Favoured(op, clock)
    {
      ghost var c, generation := clock, inodes.generation + 1;
      var slept;
      back, slept := ReconnectDuring(op, start);
      if rides {
        FavouredOnceStale(op, c);
      }
      ghost var at := if back then clock - 1 else clock;
      ghost var e := if back then Reconnected(slept, at) else GaveUp(slept, at);
      RoundLost(before, back, slept, at, generation, round, policy.timeout);
      WitnessedReconnect(op, before, e, first);
      es := before + [e];
    }

    lemma NothingLeft(op: Operation, t: Table)
      ensures Leaves(op, t, t)
    {
      NothingFlushed(t);
      if op.Flush? {
        OnlyFlushedMore(t, t, {}, {op.job.inode});
      }
    }

    /** Reconnecting does nothing to the operation under way. */
    method ReconnectDuring(op: Operation, ghost start: Table) returns (back: bool, slept: nat)
      requires Ready(op) && Leaves(op, start, inodes.View())
      modifies this`clock, this`dirsLoaded, this`storages, this`gaveUp, inodes`entries, inodes`generation
      ensures Ready(op) && Leaves(op, start, inodes.View())
      ensures slept <= policy.timeout && clock >= old(clock)
      ensures Tried(back, old(clock), clock, old(inodes.View()))
      ensures !back ==> clock - old(clock) == |Pauses()| && storages == old(storages)
      ensures old(RetryFrom(op, clock)) && policy.timeout > 0 ==> back && RetryFrom(op, clock)
      ensures back && op.Flush? && old(FileThere(op.job)) && old(NotAhead(inodes.View(), op.job)) ==>
          !Fresh(inodes.View(), op.job.inode)
    {
      ghost var t, c := inodes.View(), clock;
      back, slept := Reconnect();
      LeavesThenRemapped(op, start, t, inodes.View());
      UnhinderedLater(c, clock, device);
      if op.Flush? && FileIn(t, op.job) {
        RemappedKeepsFile(t, inodes.View(), op.job);
      }
    }

    /** So does dropping all handles. */
    method InvalidateDuring(op: Operation, ghost start: Table)
      requires Ready(op) && Leaves(op, start, inodes.View())
      modifies this`dirsLoaded, inodes`generation
      ensures Ready(op) && Leaves(op, start, inodes.View())
      ensures inodes.generation == old(inodes.generation) + 1
    {
      ghost var t := inodes.View();
      InvalidateHandles();
      LeavesThenRemapped(op, start, t, inodes.View());
    }

    /** The inner loop: tries against the current session, until it answers or its link is lost. */
    method InOneSession(
      op: Operation, ghost before: seq<Event>, ghost tried: nat, ghost round: nat, ghost slept: nat)
      returns (answer: Option<MtpResult<()>>, ghost es: seq<Event>)
      requires Ready(op)
      requires Tally(before, inodes.generation, tried, round, slept)
      requires before == [] || before[|before| - 1].Reconnected?
      modifies this`clock, this`device, this`history, this`pinned, this`deleted, this`resolved, this`attempts
      modifies this`dirsLoaded, inodes`entries, inodes`generation
      ensures Leaves(op, old(inodes.View()), inodes.View()) && old(deleted) <= deleted
      ensures Tally(es, inodes.generation + 1, tried + 2, round, slept)
      ensures Ended(op, answer, es) && TriesOnly(op, before, es)
      ensures old(LosesFirstTry(op, clock)) ==> answer.None? && JustRetry(op, old(clock) + 3, old(device))
      ensures old(RetryFrom(op, clock)) ==> LeftoversGone(deleted, op, old(device))
      ensures old(Favoured(op, clock)) ==> answer.Some? && Succeeds(op, answer.value, old(device), old(attempts) > 0)
    {
      ghost var favoured := Favoured(op, clock);
      es, answer := before, None;
      var staleRetries: nat := MAX_STALE_RETRIES;
      NothingLeft(op, inodes.View());
      ghost var start, first, retry, d := inodes.View(), LosesFirstTry(op, clock), RetryFrom(op, clock), device;
      while true
        invariant staleRetries <= MAX_STALE_RETRIES
        invariant Ready(op) && Leaves(op, start, inodes.View()) && old(deleted) <= deleted
        invariant Tally(es, inodes.generation, tried + 1 - staleRetries, round, slept)
        invariant TriesOnly(op, before, es)
        invariant if staleRetries == 0 then es != [] && es[|es| - 1].Invalidated? else es == before
        invariant staleRetries > 0 ==> clock == old(clock) && device == d
        invariant first ==> staleRetries > 0 && LosesFirstTry(op, clock)
        invariant favoured ==> staleRetries > 0 && Favoured(op, clock) && attempts == old(attempts)
        invariant retry ==> if staleRetries > 0 then RetryFrom(op, clock) else LeftoversGone(deleted, op, d)
        decreases staleRetries
      {
        ghost var soFar := es;
        var again;
        again, answer, es := OneTurn(op, staleRetries > 0, es, tried + 1 - staleRetries, round, slept, start);
        TriesTwice(op, before, soFar, es);
        if !again {
          break;
        }
        TriesMore(op, before, es, Invalidated);
        es := InvalidateForRetry(op, es, tried + 2 - staleRetries, round, slept, start);
        staleRetries := staleRetries - 1;
      }
    }

    /** A session ends with an answer or without its link. */
    ghost predicate Ended(op: Operation, answer: Option<MtpResult<()>>, es: seq<Event>)
      reads this, inodes
    {
      match answer
      case None => Ready(op) && es != [] && es[|es| - 1].LosesLink()
      case Some(r) => Settled(op, r) && Answers(es, r)
    }

    /** The last try hit a stale handle, and it was not a retry on handles resolved anew. */
    ghost predicate HitsStale(es: seq<Event>) {
      && es != [] && es[|es| - 1].Attempted? && es[|es| - 1].answer == Err(StaleHandle)
      && (|es| >= 2 ==> !es[|es| - 2].Invalidated?)
    }

    /** A try ends its session unless it hit a stale handle for the first time. */
    lemma EndsUnlessStale(op: Operation, unplugged: bool, r: MtpResult<()>, before: seq<Event>, es: seq<Event>)
      requires if unplugged then Ready(op) else Settled(op, r)
      requires exists at :: es == before + [TriedAt(at, unplugged, inodes.generation, r)]
      ensures EndsOrHitsStale(op, unplugged, r, !MayRetry(before), es)
    {
    }

    predicate MayRetry(before: seq<Event>) {
      before == [] || !before[|before| - 1].Invalidated?
    }

    ghost predicate EndsOrHitsStale(op: Operation, unplugged: bool, r: MtpResult<()>, again: bool, es: seq<Event>)
      reads this, inodes
    {
      if unplugged || r == Err(LinkLost) then Ended(op, None, es)
      else if r != Err(StaleHandle) || again then Ended(op, Some(r), es)
      else Ready(op) && HitsStale(es)
    }

    /** The trace goes on truly, and not by a reconnect. */
    ghost predicate TriesOnly(op: Operation, before: seq<Event>, es: seq<Event>) {
      before <= es && forall k :: |before| <= k < |es| ==> EventTrue(op, es[k]) && !es[k].IsReconnect()
    }

    lemma TriesMore(op: Operation, before: seq<Event>, es: seq<Event>, e: Event)
      requires TriesOnly(op, before, es) && EventTrue(op, e) && !e.IsReconnect()
      ensures TriesOnly(op, before, es + [e])
    {
    }

    lemma TriesTwice(op: Operation, before: seq<Event>, es: seq<Event>, es': seq<Event>)
      requires TriesOnly(op, before, es) && TriesOnly(op, es, es')
      ensures TriesOnly(op, before, es')
    {
      forall k | |before| <= k < |es'|
        ensures EventTrue(op, es'[k]) && !es'[k].IsReconnect()
      {
        if k < |es| {
          assert es'[k] == es[k];
        }
      }
    }

    /** The storages of the last device that was taken up, if any was. */
    ghost function StoragesAfter(es: seq<Event>, first: seq<StorageInfo>): seq<StorageInfo> {
      if es == [] then first
      else match es[|es| - 1]
        case Reconnected(_, at) =>
          if world(at).reopening.Opened? then world(at).reopening.storages else first
        case _ => StoragesAfter(es[..|es| - 1], first)
    }

    /** All of the trace is true, and the mount works with the storages of the last device taken up. */
    ghost predicate Witnessed(op: Operation, es: seq<Event>, first: seq<StorageInfo>)
      reads this`storages
    {
      (forall k :: 0 <= k < |es| ==> EventTrue(op, es[k])) && storages == StoragesAfter(es, first)
    }

    lemma {:induction false} TriesKeepStorages(
      op: Operation, before: seq<Event>, es: seq<Event>, first: seq<StorageInfo>)
      requires TriesOnly(op, before, es)
      ensures StoragesAfter(es, first) == StoragesAfter(before, first)
      decreases |es|
    {
      if |before| < |es| {
        assert !es[|es| - 1].IsReconnect();
        TriesKeepStorages(op, before, es[..|es| - 1], first);
      } else {
        assert before == es;
      }
    }

    lemma WitnessedTries(op: Operation, before: seq<Event>, es: seq<Event>, first: seq<StorageInfo>)
      requires Witnessed(op, before, first) && TriesOnly(op, before, es)
      ensures Witnessed(op, es, first)
    {
      TriesKeepStorages(op, before, es, first);
    }

    lemma WitnessedReconnect(op: Operation, es: seq<Event>, e: Event, first: seq<StorageInfo>)
      requires (forall k :: 0 <= k < |es| ==> EventTrue(op, es[k])) && EventTrue(op, e) && e.IsReconnect()
      requires storages == if e.Reconnected? then world(e.at).reopening.storages else StoragesAfter(es, first)
      ensures Witnessed(op, es + [e], first)
    {
      assert (es + [e])[..|es|] == es;
    }

    /** One turn of the inner loop: a try, and whether there is to be another. */
    method OneTurn(
      op: Operation, mayRetry: bool, ghost before: seq<Event>, ghost tried: nat, ghost round: nat,
      ghost slept: nat, ghost start: Table)
      returns (again: bool, answer: Option<MtpResult<()>>, ghost es: seq<Event>)
      requires Ready(op) && Leaves(op, start, inodes.View()) && CanTry(before)
      requires Tally(before, inodes.generation, tried, round, slept)
      requires mayRetry <==> MayRetry(before)
      modifies this`clock, this`device, this`history, this`pinned, this`deleted, this`resolved, this`attempts
      modifies inodes`entries
      ensures Leaves(op, start, inodes.View()) && old(deleted) <= deleted
      ensures inodes.generation == old(inodes.generation)
      ensures Tally(es, inodes.generation + 1, tried + 1, round, slept)
      ensures if again then mayRetry && Ready(op) && HitsStale(es) else Ended(op, answer, es)
      ensures TriesOnly(op, before, es)
      ensures old(LosesFirstTry(op, clock)) ==> !again && answer.None? && JustRetry(op, old(clock) + 3, old(device))
      ensures old(RetryFrom(op, clock)) ==> LeftoversGone(deleted, op, old(device))
      ensures old(Favoured(op, clock)) ==>
          !again && answer.Some? && Succeeds(op, answer.value, old(device), old(attempts) > 0)
    {
      ghost var t := inodes.View();
      var unplugged, r;
      unplugged, r, es := TryOnce(op, before, tried, round, slept);
      LeavesTwice(op, start, t, inodes.View());
      var lost := unplugged || r == Err(LinkLost);
      answer := if lost then None else Some(r);
      again := !lost && r == Err(StaleHandle) && mayRetry;
    }

    /** A stale handle has been hit for the first time in the session. */
    method InvalidateForRetry(
      op: Operation, ghost before: seq<Event>, ghost tried: nat, ghost round: nat, ghost slept: nat,
      ghost start: Table)
      returns (ghost es: seq<Event>)
      requires Ready(op) && Leaves(op, start, inodes.View())
      requires Tally(before, inodes.generation + 1, tried, round, slept)
      requires HitsStale(before)
      modifies this`dirsLoaded, inodes`generation
      ensures Ready(op) && Leaves(op, start, inodes.View())
      ensures Tally(es, inodes.generation, tried, round, slept) && es == before + [Invalidated]
    {
      AddInvalidated(before, inodes.generation + 1, tried, round, slept);
      InvalidateDuring(op, start);
      es := before + [Invalidated];
    }

    /** One try, if the device is plugged in, and its trace. */
    method TryOnce(
      op: Operation, ghost before: seq<Event>, ghost tried: nat, ghost round: nat, ghost slept: nat)
      returns (unplugged: bool, r: MtpResult<()>, ghost es: seq<Event>)
      requires Ready(op) && CanTry(before)
      requires Tally(before, inodes.generation, tried, round, slept)
      modifies this`clock, this`device, this`history, this`pinned, this`deleted, this`resolved, this`attempts
      modifies inodes`entries
      ensures inodes.generation == old(inodes.generation) && old(deleted) <= deleted
      ensures Leaves(op, old(inodes.View()), inodes.View())
      ensures es == before + [TriedAt(old(clock), unplugged, inodes.generation, r)] && TriesOnly(op, before, es)
      ensures Tally(es, inodes.generation + 1, tried + 1, round, slept)
      ensures EndsOrHitsStale(op, unplugged, r, !MayRetry(before), es)
      ensures old(LosesFirstTry(op, clock)) ==>
          !unplugged && r == Err(LinkLost) && JustRetry(op, old(clock) + 3, old(device))
      ensures old(RetryFrom(op, clock)) ==> LeftoversGone(deleted, op, old(device))
      ensures old(Favoured(op, clock)) ==> !unplugged && Succeeds(op, r, old(device), old(attempts) > 0)
    {
      unplugged, r := LookAndTry(op);
      TryCounts(op, old(clock), unplugged, r, before, tried, round, slept);
      es := before + [TriedAt(old(clock), unplugged, inodes.generation, r)];
    }

    lemma TryCounts(
      op: Operation, at: nat, unplugged: bool, r: MtpResult<()>, before: seq<Event>, tried: nat, round: nat,
      slept: nat)
      requires CanTry(before) && Tally(before, inodes.generation, tried, round, slept)
      requires if unplugged then Ready(op) else Settled(op, r)
      requires EventTrue(op, TriedAt(at, unplugged, inodes.generation, r))
      ensures var es := before + [TriedAt(at, unplugged, inodes.generation, r)];
        && TriesOnly(op, before, es) && Tally(es, inodes.generation + 1, tried + 1, round, slept)
        && EndsOrHitsStale(op, unplugged, r, !MayRetry(before), es)
    {
      if unplugged {
        AddUnplugged(before, inodes.generation, at, tried, round, slept);
      } else {
        AddAttempt(before, inodes.generation, r, at, tried, round, slept);
      }
      EndsUnlessStale(op, unplugged, r, before, before + [TriedAt(at, unplugged, inodes.generation, r)]);
    }

    /** A try, as an event. */
    function TriedAt(at: nat, unplugged: bool, generation: nat, r: MtpResult<()>): Event {
      if unplugged then FoundUnplugged(at) else Attempted(generation, r, at)
    }

    /** The world has it so: an attempt is made exactly if the device is plugged in, and a plain operation
        answers what the device answers; and a session is taken up with a device that is there. */
    ghost predicate EventTrue(op: Operation, e: Event) {
      match e
      case Attempted(_, answer, at) =>
        !world(at).unplugged && (op.Plain? ==> answer == world(at + 1).answer)
      case FoundUnplugged(at) => world(at).unplugged
      case Invalidated => true
      case Reconnected(_, at) => Returns(world(at))
      case GaveUp(_, at) => |Pauses()| <= at && !ReturnsWithin(at - |Pauses()|, at)
    }

    /** The operation is tried if the device is plugged in. */
    method LookAndTry(op: Operation) returns (unplugged: bool, r: MtpResult<()>)
      requires Ready(op)
      modifies this`clock, this`device, this`history, this`pinned, this`deleted, this`resolved, this`attempts
      modifies inodes`entries
      ensures inodes.generation == old(inodes.generation) && old(deleted) <= deleted
      ensures Leaves(op, old(inodes.View()), inodes.View())
      ensures if unplugged then Ready(op) else Settled(op, r)
      ensures unplugged <==> world(old(clock)).unplugged
      ensures !unplugged && op.Plain? ==> r == world(old(clock) + 1).answer
      ensures old(LosesFirstTry(op, clock)) ==>
          !unplugged && r == Err(LinkLost) && JustRetry(op, old(clock) + 3, old(device))
      ensures old(RetryFrom(op, clock)) ==> LeftoversGone(deleted, op, old(device))
      ensures old(Favoured(op, clock)) ==> !unplugged && Succeeds(op, r, old(device), old(attempts) > 0)
    {
      NothingLeft(op, inodes.View());
      UnhinderedLater(clock, clock + 1, device);
      unplugged := IsUnplugged(op);
      if unplugged {
        r := Err(LinkLost);
      } else {
        r := Attempt(op);
      }
    }

    method IsUnplugged(op: Operation) returns (unplugged: bool)
      requires Ready(op)
      modifies this`clock
      ensures Ready(op) && clock == old(clock) + 1 && unplugged == world(old(clock)).unplugged
      ensures old(Favoured(op, clock)) ==> !unplugged && Favoured(op, clock)
    {
      FavouredLater(op, clock, clock + 1);
      var m := Look();
      unplugged := m.unplugged;
    }

    // -------------------------------------------------------------------------------------
    // The flush on close

    /** Flushes what was spooled for a handle; nothing spooled, or nothing dirty, is nothing to do. */
    method FlushToMtp(buffers: S.WriteBuffer, fh: nat, dir: Directory, original: Original)
      returns (r: MtpResult<()>, ghost job: Job)
      requires buffers.Valid() && Consistent(device) && PinnedExist()
      requires Pending(buffers, fh) ==>
          var job := JobFor(buffers.buffers[fh], dir, original);
          OriginalPinned(device, pinned, job) && OriginalElsewhere(job) && HandleKnown(job)
      modifies this, inodes`entries, inodes`generation, buffers
      ensures old(Pending(buffers, fh)) ==> job == old(JobFor(buffers.buffers[fh], dir, original))
      ensures old(Pending(buffers, fh)) ==>
          Flushed(job, r, old(inodes.View()), old(Ahead(job)))
      ensures !old(Pending(buffers, fh)) ==> device == old(device) && inodes.View() == old(inodes.View())
      ensures !old(Pending(buffers, fh)) ==>
          r == if fh in old(buffers.buffers) && old(buffers.buffers[fh].dirty) then Err(NotFound) else Ok(())
      ensures fh !in buffers.buffers
    {
      job := Job(0, "", dir, [], original);
      r := Ok(());
      var closed := buffers.Close(fh);
      if closed.Some? && closed.value.dirty {
        var buffer := closed.value;
        if buffer.inode in inodes.entries {
          var flush := JobFor(buffer, dir, original);
          job := flush;
          r := FlushJob(flush);
        } else {
          r := Err(NotFound);
        }
      }
    }

    /** What a flush promises. Whatever fails on the way, in every state the device goes through one
        version or the other is whole; an error means the original was never deleted; and success
        means the complete new version is there and a fresh entry points at it. It does not matter
        whether the original goes by the name that the table has, only that it does not go by the
        temporary one.

        Nothing is deleted but what the file's handle was given out for and what went by the temporary
        name; of what was there at the beginning nothing but the former, if none of it went by that
        name then (and the world gives it to none), while one outage is enough to lose all of it that
        did.

        Of the table only the file's own entry, stale handles, storage IDs and the generation change;
        and a directory's names still agree exactly if the file is in another one or still goes by
        its name. */
    ghost predicate Flushed(job: Job, r: MtpResult<()>, t: Table, ahead: Outlook)
      reads this, inodes
    {
      && (forall k :: 0 <= k < |history| ==> Safe(history[k], job))
      && Safe(device, job)
      && (r.Err? ==> OriginalIntact(device, job))
      && (r.Ok? ==> exists id :: NewVersionAt(job, id))
      && (forall id :: id in deleted ==> MayDelete(resolved, history, id, job))
      && (ahead.quiet ==>
            forall id :: id in deleted && id < ahead.start.nextId ==> WasAimedAt(resolved, history, id))
      && (ahead.outage ==> LeftoversDeleted(deleted, ahead.start, job))
      && (ahead.calm ==> Succeeds(Flush(job), r, ahead.start, false))
      && (ahead.rides ==> Succeeds(Flush(job), r, ahead.start, true))
      && OnlyFlushed(t, inodes.View(), {job.inode})
      && (GoesBy(job, job.name) || (r.Ok? && GoesBy(job, TempName(job.name))))
      && (job.inode in t.entries && job.inode != ROOT ==>
            forall p :: DirInv(t, p) ==>
              (DirInv(inodes.View(), p) <==> p != t.entries[job.inode].parent || GoesBy(job, job.name)))
    }

    /** The flush of one job, to its end. */
    method FlushJob(job: Job) returns (r: MtpResult<()>)
      requires Consistent(device) && PinnedExist() && OriginalPinned(device, pinned, job)
      requires OriginalElsewhere(job) && HandleKnown(job) && GoesBy(job, job.name)
      modifies this, inodes`entries, inodes`generation
      ensures Flushed(job, r, old(inodes.View()), old(Ahead(job)))
    {
      ghost var t, ahead := inodes.View(), Ahead(job);
      BeginFlush(job);
      assert inodes.View() == t;
      ghost var hope := HopeFor(Flush(job));
      OutageIsAhead(job);
      ghost var es;
      r, es := WithRecovery(Flush(job));
      SettledIsFlushed(job, r, t, ahead, hope);
    }

    lemma SettledIsFlushed(job: Job, r: MtpResult<()>, t: Table, ahead: Outlook, hope: Hope)
      requires Settled(Flush(job), r) && OnlyFlushed(t, inodes.View(), {job.inode})
      requires job.inode in t.entries ==> NameIn(t, job.inode) == job.name
      requires ahead.quiet == quiet && ahead.start.nextId == began
      requires hope.start == ahead.start && !hope.isRetry && HopeKept(Flush(job), r, hope)
      requires (ahead.outage ==> hope.outage) && (ahead.calm ==> hope.favoured) && (ahead.rides ==> hope.rides)
      ensures Flushed(job, r, t, ahead)
    {
      QuietMeansAimed(job);
      NamesFollowFlush(job, t);
    }

    lemma NamesFollowFlush(job: Job, t: Table)
      requires OnlyFlushed(t, inodes.View(), {job.inode})
      ensures job.inode in t.entries && job.inode != ROOT ==>
          forall p :: DirInv(t, p) ==>
            (DirInv(inodes.View(), p) <==> p != t.entries[job.inode].parent || GoesBy(job, NameIn(t, job.inode)))
    {
      if job.inode in t.entries && job.inode != ROOT {
        FlushKeepsIffSameName(t, inodes.View(), job.inode);
      }
    }

    function NameIn(t: Table, inode: Inode): string {
      if inode in t.entries then t.entries[inode].name else ""
    }

    /** In a quiet flush nothing old was taken for a leftover. */
    lemma QuietMeansAimed(job: Job)
      requires Sound(job) && Careful(job)
      ensures Safe(device, job)
      ensures quiet ==> forall id :: id in deleted && id < began ==> WasAimedAt(resolved, history, id)
    {
      assert StateOk(world, began, quiet, history[|history| - 1], job);
    }

    /** The flush to come will lose its first try to an outage, and nothing hinders the second. */
    ghost predicate OutageAhead(job: Job)
      reads this, inodes
    {
      FileThere(job) && OutageFrom(clock, device)
    }

    ghost predicate OutageFrom(c: nat, d: Device) {
      && policy.timeout > 0
      && !world(c).unplugged && world(c + 1).fault.None? && LinkDown(world(c + 2))
      && Unhindered(c + 3, d)
    }

    /** Nothing will get in the way of the flush to come but one outage. */
    ghost predicate RidesAhead(job: Job)
      reads this, inodes
    {
      && OutageAhead(job) && S.SpoolReadable(spoolReads) && NotAhead(inodes.View(), job)
      && WellAimed(clock + 3, device, job)
    }

    ghost function Ahead(job: Job): Outlook
      reads this, inodes
    {
      Outlook(Quiet(job), OutageAhead(job), Favoured(Flush(job), clock), RidesAhead(job), device)
    }

    /** Nothing goes by the temporary name, and the world gives it to nothing that is there. */
    ghost predicate Quiet(job: Job)
      reads this
    {
      NoOldLeftover(device, device.nextId, job) && KeepsOff(world, device.nextId, job)
    }

    /** What is remembered of a flush, at its beginning. */
    method BeginFlush(job: Job)
      requires Consistent(device) && PinnedExist() && OriginalPinned(device, pinned, job)
      requires OriginalElsewhere(job) && HandleKnown(job) && GoesBy(job, job.name)
      modifies this`attempts, this`history, this`deleted, this`resolved, this`began, this`quiet
      ensures Ready(Flush(job)) && began == device.nextId && quiet == old(Quiet(job)) && attempts == 0
    {
      GuardedIsSafe(device, pinned, job);
      quiet, began, attempts := Quiet(job), device.nextId, 0;
      history, deleted, resolved := [device], {}, {};
    }

    lemma OutageIsAhead(job: Job)
      requires attempts == 0
      ensures OutageAhead(job) ==> OneOutage(Flush(job), clock)
      ensures RidesAhead(job) ==> RidesOut(Flush(job), clock)
    {
    }

    /** The handle holds a dirty buffer of a file the table knows. */
    predicate Pending(buffers: S.WriteBuffer, fh: nat)
      reads buffers, buffers.buffers.Values, inodes
    {
      fh in buffers.buffers && buffers.buffers[fh].dirty && buffers.buffers[fh].inode in inodes.entries
    }

    function JobFor(buffer: S.FileBuffer, dir: Directory, original: Original): Job
      reads buffer, inodes
      requires buffer.inode in inodes.entries
    {
      Job(buffer.inode, inodes.entries[buffer.inode].name, dir, buffer.file, original)
    }
  }
}
