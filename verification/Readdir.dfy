/** `readdir` paging: the kernel asks again from the last offset it was given until nothing comes
    back (src/fs.rs). */
module DirectoryPaging {
  import opened Basics
  import opened InodeTables
  import opened InodeInvariants
  import opened TableRuns

  datatype DirEntry = DirEntry(offset: nat, inode: Inode, isDir: bool, name: string)

  /** The children part of the reply, from the child at position `k` on. */
  function ChildEntries(t: Table, children: seq<Inode>, k: nat): (r: seq<DirEntry>)
    requires k <= |children|
    decreases |children| - k
  {
    if k == |children| then []
    else
      var rest := ChildEntries(t, children, k + 1);
      if children[k] in t.entries then
        var child := t.entries[children[k]];
        [DirEntry(k + 3, children[k], child.IsDir(), child.name)] + rest
      else rest
  }

  /** All that `readdir` has to say about a directory. */
  function AllEntries(t: Table, inode: Inode): seq<DirEntry> {
    var parent := if inode in t.entries then t.entries[inode].parent else ROOT;
    [DirEntry(1, inode, true, "."), DirEntry(2, parent, true, "..")]
    + ChildEntries(t, Children(t, inode), 0)
  }

  /** One `readdir` call: the entries from position `offset` on, until the reply is full. */
  method Readdir(table: InodeTable, inode: Inode, offset: nat, capacity: nat) returns (page: seq<DirEntry>)
    ensures page == Page(AllEntries(table.View(), inode), offset, capacity)
    ensures var all := |AllEntries(table.View(), inode)|;
      |page| == if offset < all then Min(capacity, all - offset) else 0
    ensures forall k :: 0 <= k < |page| ==>
        offset + k < |AllEntries(table.View(), inode)| && page[k] == AllEntries(table.View(), inode)[offset + k]
  {
    var parent := if inode in table.entries then table.entries[inode].parent else ROOT;
    var entries := [DirEntry(1, inode, true, "."), DirEntry(2, parent, true, "..")];
    var children := table.ListChildren(inode);
    ghost var head := entries;
    var i := 0;
    while i < |children|
      invariant 0 <= i <= |children|
      invariant entries + ChildEntries(table.View(), children, i) == AllEntries(table.View(), inode)
    {
      if children[i] in table.entries {
        var child := table.entries[children[i]];
        entries := entries + [DirEntry(i + 3, children[i], child.IsDir(), child.name)];
      }
      i := i + 1;
    }
    assert entries == AllEntries(table.View(), inode);
    page := [];
    i := 0;
    while i < |entries|
      invariant 0 <= i <= |entries|
      invariant page == if i <= offset then [] else entries[offset..i]
      invariant |page| <= capacity
    {
      if i >= offset {
        if |page| == capacity {
          break;
        }
        page := page + [entries[i]];
      }
      i := i + 1;
    }
  }

  function Page(entries: seq<DirEntry>, offset: nat, capacity: nat): seq<DirEntry> {
    if offset >= |entries| then []
    else if capacity <= |entries| - offset then entries[offset..offset + capacity]
    else entries[offset..]
  }

  /** What the kernel collects, asking again from the last offset with each of these capacities
      until a page comes back empty. */
  function Collected(entries: seq<DirEntry>, offset: nat, capacities: seq<nat>): (r: seq<DirEntry>)
    decreases |capacities|
  {
    if capacities == [] then []
    else
      var page := Page(entries, offset, capacities[0]);
      if page == [] then []
      else page + Collected(entries, page[|page| - 1].offset, capacities[1..])
  }

  /** Each entry's offset names the position after it. */
  ghost predicate OffsetsArePositions(entries: seq<DirEntry>) {
    forall k :: 0 <= k < |entries| ==> entries[k].offset == k + 1
  }

  function EntryFor(t: Table, child: Inode, position: nat): DirEntry
    requires child in t.entries
  {
    DirEntry(position + 3, child, t.entries[child].IsDir(), t.entries[child].name)
  }

  lemma {:induction false} ChildrenAllThere(t: Table, children: seq<Inode>, k: nat)
    requires k <= |children| && forall c :: c in children ==> c in t.entries
    ensures |ChildEntries(t, children, k)| == |children| - k
    ensures forall m :: 0 <= m < |children| - k ==>
        ChildEntries(t, children, k)[m] == EntryFor(t, children[k + m], k + m)
    decreases |children| - k
  {
    if k < |children| {
      ChildrenAllThere(t, children, k + 1);
      var rest := ChildEntries(t, children, k + 1);
      forall m | 0 <= m < |children| - k
        ensures ChildEntries(t, children, k)[m] == EntryFor(t, children[k + m], k + m)
      {
        if m > 0 {
          assert rest[m - 1] == EntryFor(t, children[k + 1 + (m - 1)], k + 1 + (m - 1));
        }
      }
    }
  }

  /** With the lists in agreement no child is skipped, so offsets are positions. */
  lemma OffsetsAgree(t: Table, inode: Inode)
    requires KidsOk(t)
    ensures OffsetsArePositions(AllEntries(t, inode))
    ensures |AllEntries(t, inode)| == |Children(t, inode)| + 2
    ensures forall j :: 0 <= j < |Children(t, inode)| ==>
        AllEntries(t, inode)[j + 2].inode == Children(t, inode)[j]
  {
    assert inode in t.kids ==> ListOk(t, inode);
    var children := Children(t, inode);
    ChildrenAllThere(t, children, 0);
    var entries := AllEntries(t, inode);
    forall k | 2 <= k < |entries|
      ensures entries[k].offset == k + 1 && entries[k].inode == children[k - 2]
    {
      assert entries[k] == ChildEntries(t, children, 0)[k - 2];
    }
  }

  /** A page is the next stretch of the entries, and its last offset is where it ends. */
  lemma PageIsNext(entries: seq<DirEntry>, offset: nat, capacity: nat) returns (next: nat)
    requires OffsetsArePositions(entries) && offset < |entries| && capacity > 0
    ensures offset < next <= |entries|
    ensures var page := Page(entries, offset, capacity);
      page == entries[offset..next] && page != [] && page[|page| - 1].offset == next
  {
    var page := Page(entries, offset, capacity);
    next := offset + |page|;
    assert page[|page| - 1] == entries[next - 1];
  }

  lemma {:induction false} PagesConcatenate(entries: seq<DirEntry>, offset: nat, capacities: seq<nat>)
    requires OffsetsArePositions(entries) && offset <= |entries|
    requires forall k :: 0 <= k < |capacities| ==> capacities[k] > 0
    requires |capacities| >= |entries| - offset
    ensures Collected(entries, offset, capacities) == entries[offset..]
    decreases |capacities|
  {
    if offset < |entries| {
      var next := PageIsNext(entries, offset, capacities[0]);
      PagesConcatenate(entries, next, capacities[1..]);
      SplitAt(entries, offset, next);
    }
  }

  lemma SplitAt(entries: seq<DirEntry>, offset: nat, next: nat)
    requires offset <= next <= |entries|
    ensures entries[offset..] == entries[offset..next] + entries[next..]
  {
  }

  /** Whatever room the kernel gives each reply (at least one entry), following the returned
      offsets over a table of any run, as long as it does not change, yields ".", ".." and then each
      child exactly once, in order. */
  lemma PagingIsLossless(tables: seq<Table>, ops: seq<Op>, k: nat, inode: Inode, capacities: seq<nat>)
    requires MountRun(tables, ops) && k < |tables|
    requires forall j :: 0 <= j < |capacities| ==> capacities[j] > 0
    requires |capacities| >= |AllEntries(tables[k], inode)|
    ensures var t := tables[k];
      var seen := Collected(AllEntries(t, inode), 0, capacities);
      && seen == AllEntries(t, inode)
      && |seen| == |Children(t, inode)| + 2
      && seen[0] == DirEntry(1, inode, true, ".")
      && seen[1] == DirEntry(2, if inode in t.entries then t.entries[inode].parent else ROOT, true, "..")
      && forall j :: 0 <= j < |Children(t, inode)| ==>
          && Children(t, inode)[j] in t.entries
          && var child := t.entries[Children(t, inode)[j]];
          && seen[j + 2].inode == Children(t, inode)[j] && seen[j + 2].offset == j + 3
          && seen[j + 2].name == child.name && (seen[j + 2].isDir <==> !child.kind.File?)
  {
    var t := tables[k];
    RunKeepsTree(tables, ops, k);
    OffsetsAgree(t, inode);
    PagesConcatenate(AllEntries(t, inode), 0, capacities);
    assert inode in t.kids ==> ListOk(t, inode);
    ChildrenAllThere(t, Children(t, inode), 0);
  }
}
