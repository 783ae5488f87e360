/** Folder-to-dataSet flattening (server/resources/misc.py): every item and
    folder below a folder becomes a dataSet entry whose mount point is its
    path below the folder. */
module FolderDataset {
  import opened Base

  datatype ItemNode = ItemNode(id: string, name: string)

  /** A folder with its child items and child folders, in the order Girder
      lists them. */
  datatype FolderNode = FolderNode(id: string, name: string, items: seq<ItemNode>, folders: seq<FolderNode>)

  datatype Entry = Entry(itemId: string, mountPoint: string)

  predicate Absolute(name: string) {
    name != "" && name[0] == '/'
  }

  /** POSIX `os.path.join` of two parts: an absolute second part replaces the
      first, otherwise the parts are joined with exactly one '/' unless the
      first is empty or already ends in one. */
  function PathJoin(a: string, b: string): string {
    if Absolute(b) then b
    else if a == "" || a[|a| - 1] == '/' then a + b
    else a + "/" + b
  }

  /** The joined path ends with the second part; a relative second part is
      joined below the first with exactly one '/' between them. */
  lemma PathJoinShape(a: string, b: string)
    ensures var r := PathJoin(a, b);
      && |b| <= |r| && r[|r| - |b|..] == b
      && (!Absolute(b) ==> a <= r)
      && (!Absolute(b) && a != "" ==> r[..|r| - |b|] == if a[|a| - 1] == '/' then a else a + "/")
  {
  }

  /** The number of items and folders below a folder. */
  function Count(f: FolderNode): nat
    decreases f, 1
  {
    |f.items| + CountAll(f.folders)
  }

  function CountAll(fs: seq<FolderNode>): nat
    decreases fs, 0
  {
    if fs == [] then 0 else 1 + Count(fs[0]) + CountAll(fs[1..])
  }

  /** The entries for a folder's items, in order. */
  function ItemEntries(items: seq<ItemNode>, path: string): (r: seq<Entry>)
    ensures |r| == |items|
    ensures forall k :: 0 <= k < |items| ==> r[k] == Entry(items[k].id, PathJoin(path, items[k].name))
  {
    seq(|items|, k requires 0 <= k < |items| => Entry(items[k].id, PathJoin(path, items[k].name)))
  }

  /** `_recurse`: the folder's items first, then each child folder followed
      by its own listing. */
  function Recurse(f: FolderNode, path: string): (r: seq<Entry>)
    ensures |r| == Count(f)
    decreases f, 1
  {
    ItemEntries(f.items, path) + FolderEntries(f.folders, path)
  }

  function FolderEntries(fs: seq<FolderNode>, path: string): (r: seq<Entry>)
    ensures |r| == CountAll(fs)
    decreases fs, 0
  {
    if fs == [] then []
    else
      var sub := PathJoin(path, fs[0].name);
      [Entry(fs[0].id, sub)] + Recurse(fs[0], sub) + FolderEntries(fs[1..], path)
  }

  /** `folderToDataset`: the listing starts at "/". */
  function FolderToDataset(f: FolderNode): (r: seq<Entry>)
    ensures |r| == Count(f)
  {
    Recurse(f, "/")
  }

  /** A folder's items come first, each mounted at the path joined with its
      name. */
  lemma ItemsFirst(f: FolderNode, path: string)
    ensures forall k :: 0 <= k < |f.items| ==>
      Recurse(f, path)[k] == Entry(f.items[k].id, PathJoin(path, f.items[k].name))
  {
    var r := Recurse(f, path);
    assert r == ItemEntries(f.items, path) + FolderEntries(f.folders, path);
  }

  /** At the top, an item with a relative name is mounted at "/" and its name. */
  lemma TopLevelItems(f: FolderNode, k: nat)
    requires k < |f.items| && !Absolute(f.items[k].name)
    ensures FolderToDataset(f)[k] == Entry(f.items[k].id, "/" + f.items[k].name)
  {
    ItemsFirst(f, "/");
  }

  /** Where the entries of the `k`-th child folder start in `FolderEntries`. */
  function Offset(fs: seq<FolderNode>, k: nat): nat
    requires k <= |fs|
  {
    if k == 0 then 0 else Offset(fs, k - 1) + 1 + Count(fs[k - 1])
  }

  /** `r` holds, at index `o`, the entry of folder `f` mounted at `sub`,
      immediately followed by that folder's own listing. */
  predicate ListedAt(r: seq<Entry>, o: nat, f: FolderNode, sub: string) {
    && o + 1 + Count(f) <= |r|
    && r[o] == Entry(f.id, sub)
    && r[o + 1..o + 1 + Count(f)] == Recurse(f, sub)
  }

  /** Prefixing a listing shifts where a folder is listed by the prefix length. */
  lemma ListedAtShift(h: seq<Entry>, r: seq<Entry>, o: nat, f: FolderNode, sub: string)
    requires ListedAt(r, o, f, sub)
    ensures ListedAt(h + r, |h| + o, f, sub)
  {
    var c := Count(f);
    assert (h + r)[|h| + o + 1..|h| + o + 1 + c] == r[o + 1..o + 1 + c];
  }

  /** The entry of the `k`-th child folder sits at its offset, and is
      immediately followed by that folder's own listing. */
  lemma {:induction false} FolderEntriesAt(fs: seq<FolderNode>, path: string, k: nat)
    requires k < |fs|
    ensures ListedAt(FolderEntries(fs, path), Offset(fs, k), fs[k], PathJoin(path, fs[k].name))
    decreases k
  {
    var sub0 := PathJoin(path, fs[0].name);
    var listing := Recurse(fs[0], sub0);
    var rest := FolderEntries(fs[1..], path);
    assert FolderEntries(fs, path) == [Entry(fs[0].id, sub0)] + listing + rest;
    if k == 0 {
      assert ([Entry(fs[0].id, sub0)] + listing + rest)[1..1 + |listing|] == listing;
    } else {
      FolderEntriesAt(fs[1..], path, k - 1);
      OffsetShift(fs, k);
      assert fs[1..][k - 1] == fs[k];
      ListedAtShift([Entry(fs[0].id, sub0)] + listing, rest, Offset(fs[1..], k - 1), fs[k], PathJoin(path, fs[k].name));
    }
  }

  /** Offsets after the first folder are shifted by its entry and listing. */
  lemma {:induction false} OffsetShift(fs: seq<FolderNode>, k: nat)
    requires 0 < k <= |fs|
    ensures Offset(fs, k) == 1 + Count(fs[0]) + Offset(fs[1..], k - 1)
    decreases k
  {
    if k > 1 {
      OffsetShift(fs, k - 1);
      assert fs[1..][k - 2] == fs[k - 1];
    }
  }

  /** In a folder's listing the `k`-th child folder's entry comes after all
      the items, and its own listing follows it directly. */
  lemma SubfolderFollowedByItsListing(f: FolderNode, path: string, k: nat)
    requires k < |f.folders|
    ensures ListedAt(Recurse(f, path), |f.items| + Offset(f.folders, k), f.folders[k], PathJoin(path, f.folders[k].name))
  {
    var items := ItemEntries(f.items, path);
    var rest := FolderEntries(f.folders, path);
    var o := Offset(f.folders, k);
    var sub := PathJoin(path, f.folders[k].name);
    FolderEntriesAt(f.folders, path, k);
    ListedAtShift(items, rest, o, f.folders[k], sub);
    assert |items| == |f.items|;
    assert Recurse(f, path) == items + rest;
  }

  /** The ids of the items and folders anywhere below a folder. */
  function Descendants(f: FolderNode): set<string>
    decreases f, 1
  {
    (set i | i in f.items :: i.id) + DescendantsAll(f.folders)
  }

  function DescendantsAll(fs: seq<FolderNode>): set<string>
    decreases fs, 0
  {
    if fs == [] then {} else {fs[0].id} + Descendants(fs[0]) + DescendantsAll(fs[1..])
  }

  /** The ids a listing names. */
  function Ids(entries: seq<Entry>): set<string> {
    set e | e in entries :: e.itemId
  }

  lemma IdsAppend(a: seq<Entry>, b: seq<Entry>)
    ensures Ids(a + b) == Ids(a) + Ids(b)
  {
    assert forall e :: e in a + b <==> e in a || e in b;
  }

  lemma ItemIds(items: seq<ItemNode>, path: string)
    ensures Ids(ItemEntries(items, path)) == set i | i in items :: i.id
  {
    var r := ItemEntries(items, path);
    forall x | x in set i | i in items :: i.id
      ensures x in Ids(r)
    {
      var i :| i in items && i.id == x;
      var k :| 0 <= k < |items| && items[k] == i;
      assert r[k] in r;
    }
  }

  /** The ids in the listing are exactly the ids of the items and folders
      anywhere below the folder. */
  lemma {:induction false} ListingIds(f: FolderNode, path: string)
    ensures Ids(Recurse(f, path)) == Descendants(f)
    decreases f, 1
  {
    IdsAppend(ItemEntries(f.items, path), FolderEntries(f.folders, path));
    ItemIds(f.items, path);
    ListingIdsAll(f.folders, path);
  }

  lemma {:induction false} ListingIdsAll(fs: seq<FolderNode>, path: string)
    ensures Ids(FolderEntries(fs, path)) == DescendantsAll(fs)
    decreases fs, 0
  {
    if fs != [] {
      var sub := PathJoin(path, fs[0].name);
      var head := [Entry(fs[0].id, sub)];
      var mid := Recurse(fs[0], sub);
      var tail := FolderEntries(fs[1..], path);
      assert FolderEntries(fs, path) == head + mid + tail;
      IdsAppend(head + mid, tail);
      IdsAppend(head, mid);
      assert Ids(head) == {fs[0].id};
      ListingIds(fs[0], sub);
      ListingIdsAll(fs[1..], path);
    }
  }
}
