/** The index builder of the web-storage archive: for each backup set of
    a host it walks the set's manifest and fills three stores, the file index
    (absolute path -> checksums), the checksum index (checksum -> backup set)
    and the log of finished backup sets (basename -> time it was finished).
    Items go through a work queue to four workers; a drained queue is
    modelled as the items applied one after the other in queue order. */
module Indexer {
  import opened Common

  /** The backup set record as the archive lists it. */
  datatype BackupSet = BackupSet(basename: string, date: string, time: string, datetime: string)

  /** One queue entry: `[backupset, absfilename, checksum]`. */
  datatype Item = Item(backupset: BackupSet, path: string, checksum: string)

  /** The "filedata" of a manifest: absolute path -> checksum. */
  type Manifest = map<string, string>

  /** The three stores. */
  datatype Indices = Indices(
    files: map<string, seq<string>>,
    checksums: map<string, BackupSet>,
    log: map<string, string>)

  datatype Outcome = Completed | Aborted(at: nat)

  const Workers: nat := 4

  // ---------------------------------------------------------------------
  // One item, as the worker applies it

  /** The worker's update for one item. A path already in the file index
      keeps its stored list: the checksum is appended to a decoded copy that
      is never written back. The checksum index is then pointed at the item's
      backup set on both branches of the datetime test; only when the set's
      datetime is itself a key of the checksum index and the checksum is not
      does the lookup raise KeyError, and the worker drops the rest of the
      item. */
  function ApplyItem(ix: Indices, it: Item): Indices
  {
    var files := if it.path in ix.files then ix.files else ix.files[it.path := [it.checksum]];
    var checksums :=
      if it.backupset.datetime in ix.checksums && it.checksum !in ix.checksums then ix.checksums
      else ix.checksums[it.checksum := it.backupset];
    Indices(files, checksums, ix.log)
  }

  /** The items applied in order, the last one last. */
  function ApplyItems(ix: Indices, items: seq<Item>): Indices
    decreases |items|
  {
    if items == [] then ix else ApplyItem(ApplyItems(ix, items[..|items| - 1]), items[|items| - 1])
  }

  lemma ApplyItemsAppend(ix: Indices, items: seq<Item>, it: Item)
    ensures ApplyItems(ix, items + [it]) == ApplyItem(ApplyItems(ix, items), it)
  {
    assert (items + [it])[..|items|] == items;
  }

  lemma ApplyTwo(ix: Indices, a: Item, b: Item)
    ensures ApplyItems(ix, [a, b]) == ApplyItem(ApplyItem(ix, a), b)
  {
    assert [a, b][..1] == [a];
    assert [a][..0] == [];
    assert ApplyItems(ix, [a]) == ApplyItem(ApplyItems(ix, []), a);
    assert ApplyItems(ix, [a, b]) == ApplyItem(ApplyItems(ix, [a]), b);
  }

  lemma {:induction false} ApplyItemsKeepsLog(ix: Indices, items: seq<Item>)
    ensures ApplyItems(ix, items).log == ix.log
    decreases |items|
  {
    if items != [] {
      ApplyItemsKeepsLog(ix, items[..|items| - 1]);
    }
  }

  /** The file index after a run of items: a path that was there keeps its
      list, and the new paths are exactly those the items name. The log is
      not touched. */
  lemma {:induction false} FileIndexAfterItems(ix: Indices, items: seq<Item>)
    ensures ApplyItems(ix, items).log == ix.log
    ensures forall p :: p in ix.files ==>
      (p in ApplyItems(ix, items).files && ApplyItems(ix, items).files[p] == ix.files[p])
    ensures forall p :: p in ApplyItems(ix, items).files <==>
      (p in ix.files || exists k :: 0 <= k < |items| && items[k].path == p)
    decreases |items|
  {
    if items != [] {
      var n := |items| - 1;
      var pre := items[..n];
      FileIndexAfterItems(ix, pre);
      var rp := ApplyItems(ix, pre);
      var r := ApplyItems(ix, items);
      assert r == ApplyItem(rp, items[n]);
      forall p
        ensures p in r.files <==> (p in ix.files || exists k :: 0 <= k < |items| && items[k].path == p)
      {
        NamedByPrefixOrLast(items, pre, p);
      }
    }
  }

  /** Some item names `p` exactly when an earlier one or the last one does. */
  lemma NamedByPrefixOrLast(items: seq<Item>, pre: seq<Item>, p: string)
    requires items != [] && pre == items[..|items| - 1]
    ensures (exists k :: 0 <= k < |items| && items[k].path == p) <==>
      ((exists k :: 0 <= k < |pre| && pre[k].path == p) || items[|items| - 1].path == p)
  {
    if exists k :: 0 <= k < |items| && items[k].path == p {
      var k :| 0 <= k < |items| && items[k].path == p;
      if k < |pre| {
        assert pre[k] == items[k];
      }
    }
    if exists k :: 0 <= k < |pre| && pre[k].path == p {
      var k :| 0 <= k < |pre| && pre[k].path == p;
      assert items[k].path == p;
    }
  }

  /** No item before the `k`-th names its path. */
  ghost predicate FirstToName(items: seq<Item>, k: int)
    requires 0 <= k < |items|
  {
    forall j :: 0 <= j < k ==> items[j].path != items[k].path
  }

  lemma FirstToNameOfPrefix(items: seq<Item>, n: nat, k: nat)
    requires k < n <= |items| && FirstToName(items, k)
    ensures FirstToName(items[..n], k)
  {
    var pre := items[..n];
    forall j | 0 <= j < k
      ensures pre[j].path != pre[k].path
    {
      assert pre[j] == items[j] && pre[k] == items[k];
    }
  }

  /** A path that neither the index nor any item names stays out. */
  lemma UnnamedPathAbsent(ix: Indices, items: seq<Item>, p: string)
    requires p !in ix.files
    requires forall j :: 0 <= j < |items| ==> items[j].path != p
    ensures p !in ApplyItems(ix, items).files
  {
    FileIndexAfterItems(ix, items);
  }

  /** The first item naming a path new to the file index leaves its
      checksum there as a one-element list. */
  lemma {:induction false} FirstChecksumKeptAt(ix: Indices, items: seq<Item>, k: nat)
    requires k < |items| && items[k].path !in ix.files && FirstToName(items, k)
    ensures items[k].path in ApplyItems(ix, items).files
    ensures ApplyItems(ix, items).files[items[k].path] == [items[k].checksum]
    decreases |items|
  {
    var n := |items| - 1;
    var pre := items[..n];
    var last := items[n];
    var rp := ApplyItems(ix, pre);
    assert ApplyItems(ix, items) == ApplyItem(rp, last);
    if k < n {
      FirstToNameOfPrefix(items, n, k);
      FirstChecksumKeptAt(ix, pre, k);
      assert pre[k] == items[k];
    } else {
      forall j | 0 <= j < |pre|
        ensures pre[j].path != last.path
      {
        assert pre[j] == items[j];
      }
      UnnamedPathAbsent(ix, pre, last.path);
    }
  }

  /** A path new to the file index holds the checksum of the first item
      that named it, and nothing more. */
  lemma FirstChecksumKept(ix: Indices, items: seq<Item>)
    ensures forall k :: 0 <= k < |items| && items[k].path !in ix.files && FirstToName(items, k) ==>
      (items[k].path in ApplyItems(ix, items).files &&
       ApplyItems(ix, items).files[items[k].path] == [items[k].checksum])
  {
    forall k | 0 <= k < |items| && items[k].path !in ix.files && FirstToName(items, k)
      ensures items[k].path in ApplyItems(ix, items).files
      ensures ApplyItems(ix, items).files[items[k].path] == [items[k].checksum]
    {
      FirstChecksumKeptAt(ix, items, k);
    }
  }

  /** No backup set's datetime can collide with a checksum key on the way. */
  ghost predicate NoCollision(ix: Indices, items: seq<Item>)
  {
    forall j :: 0 <= j < |items| ==>
      items[j].backupset.datetime !in ix.checksums && Unnamed(items, items[j].backupset.datetime)
  }

  /** No item names checksum `c`. */
  ghost predicate Unnamed(items: seq<Item>, c: string)
  {
    forall j :: 0 <= j < |items| ==> items[j].checksum != c
  }

  /** A checksum no item names keeps its entry, or stays absent. */
  lemma {:induction false} UnnamedChecksumsUntouched(ix: Indices, items: seq<Item>)
    ensures forall c :: Unnamed(items, c) ==>
      ((c in ApplyItems(ix, items).checksums <==> c in ix.checksums) &&
       (c in ix.checksums ==> ApplyItems(ix, items).checksums[c] == ix.checksums[c]))
    decreases |items|
  {
    if items != [] {
      var n := |items| - 1;
      var pre := items[..n];
      UnnamedChecksumsUntouched(ix, pre);
      var r := ApplyItems(ix, items);
      assert r == ApplyItem(ApplyItems(ix, pre), items[n]);
      forall c | Unnamed(items, c)
        ensures (c in r.checksums <==> c in ix.checksums) && (c in ix.checksums ==> r.checksums[c] == ix.checksums[c])
      {
        assert Unnamed(pre, c) by {
          forall j | 0 <= j < |pre|
            ensures pre[j].checksum != c
          {
            assert pre[j] == items[j];
          }
        }
        assert items[n].checksum != c;
      }
    }
  }

  lemma NoCollisionOfPrefix(ix: Indices, items: seq<Item>, n: nat)
    requires n <= |items| && NoCollision(ix, items)
    ensures NoCollision(ix, items[..n])
  {
    var pre := items[..n];
    forall j | 0 <= j < |pre|
      ensures pre[j].backupset.datetime !in ix.checksums && Unnamed(pre, pre[j].backupset.datetime)
    {
      assert pre[j] == items[j];
      UnnamedOfPrefix(items, n, items[j].backupset.datetime);
    }
  }

  lemma UnnamedOfPrefix(items: seq<Item>, n: nat, c: string)
    requires n <= |items| && Unnamed(items, c)
    ensures Unnamed(items[..n], c)
  {
    forall j | 0 <= j < n
      ensures items[..n][j].checksum != c
    {
      assert items[..n][j] == items[j];
    }
  }

  /** No item after the `k`-th names its checksum. */
  ghost predicate LastToName(items: seq<Item>, k: int)
    requires 0 <= k < |items|
  {
    forall j :: k < j < |items| ==> items[j].checksum != items[k].checksum
  }

  lemma LastToNameOfPrefix(items: seq<Item>, n: nat, k: nat)
    requires k < n <= |items| && LastToName(items, k)
    ensures LastToName(items[..n], k)
  {
    forall j | k < j < n
      ensures items[..n][j].checksum != items[..n][k].checksum
    {
      assert items[..n][j] == items[j];
    }
  }

  /** When no datetime collides with a checksum key, each checksum ends
      mapped to the backup set of the LAST item that named it, whatever the
      datetimes say. */
  lemma {:induction false} LastProcessedWins(ix: Indices, items: seq<Item>)
    requires NoCollision(ix, items)
    ensures forall k :: 0 <= k < |items| && LastToName(items, k) ==>
      (items[k].checksum in ApplyItems(ix, items).checksums &&
       ApplyItems(ix, items).checksums[items[k].checksum] == items[k].backupset)
    decreases |items|
  {
    if items != [] {
      var n := |items| - 1;
      var pre := items[..n];
      var last := items[n];
      var rp := ApplyItems(ix, pre);
      var r := ApplyItems(ix, items);
      assert r == ApplyItem(rp, last);
      assert last.backupset.datetime !in rp.checksums by {
        UnnamedOfPrefix(items, n, last.backupset.datetime);
        UnnamedChecksumsUntouched(ix, pre);
      }
      assert r.checksums == rp.checksums[last.checksum := last.backupset];
      forall k | 0 <= k < n && LastToName(items, k)
        ensures items[k].checksum in r.checksums && r.checksums[items[k].checksum] == items[k].backupset
      {
        assert pre[k] == items[k];
        assert last.checksum != items[k].checksum;
        assert items[k].checksum in rp.checksums && rp.checksums[items[k].checksum] == items[k].backupset by {
          LastToNameOfPrefix(items, n, k);
          NoCollisionOfPrefix(ix, items, n);
          LastProcessedWins(ix, pre);
        }
      }
    }
  }

  /** The file index keeps only the first checksum ever seen for a path. */
  lemma AppendIsLost()
    ensures var b := BackupSet("host_tag_1", "d", "t", "2020");
      var r := ApplyItems(Indices(map[], map[], map[]), [Item(b, "/p", "c1"), Item(b, "/p", "c2")]);
      "/p" in r.files && r.files["/p"] == ["c1"]
  {
    var b := BackupSet("host_tag_1", "d", "t", "2020");
    ApplyTwo(Indices(map[], map[], map[]), Item(b, "/p", "c1"), Item(b, "/p", "c2"));
  }

  /** An older backup set processed after a newer one takes the checksum
      over: the datetime test does not keep the newest. */
  lemma OlderSetCanWin()
    ensures var newer := BackupSet("host_tag_2", "d2", "t2", "2021");
      var older := BackupSet("host_tag_1", "d1", "t1", "2020");
      var r := ApplyItems(Indices(map[], map[], map[]), [Item(newer, "/p", "c"), Item(older, "/p", "c")]);
      && Below(older.datetime, newer.datetime)
      && "c" in r.checksums && r.checksums["c"] == older
  {
    var newer := BackupSet("host_tag_2", "d2", "t2", "2021");
    var older := BackupSet("host_tag_1", "d1", "t1", "2020");
    ApplyTwo(Indices(map[], map[], map[]), Item(newer, "/p", "c"), Item(older, "/p", "c"));
    assert Below("2020", "2021") by {
      assert "2020"[1..] == "020" && "2021"[1..] == "021";
      assert "020"[1..] == "20" && "021"[1..] == "21";
      assert "20"[1..] == "0" && "21"[1..] == "1";
    }
  }

  // ---------------------------------------------------------------------
  // The update the worker was evidently meant to make

  ghost predicate Distinct(s: seq<string>)
  {
    forall i, j :: 0 <= i < j < |s| ==> s[i] != s[j]
  }

  ghost predicate DistinctLists(files: map<string, seq<string>>)
  {
    forall p :: p in files ==> Distinct(files[p])
  }

  /** Append the checksum to the path's list unless it is already there, and
      let the checksum point at the newer of the stored and the item's
      backup set. */
  function MergeItem(ix: Indices, it: Item): Indices
  {
    Indices(MergeFiles(ix.files, it), MergeChecksums(ix.checksums, it), ix.log)
  }

  function MergeFiles(files: map<string, seq<string>>, it: Item): map<string, seq<string>>
  {
    if it.path !in files then files[it.path := [it.checksum]]
    else if it.checksum in files[it.path] then files
    else files[it.path := files[it.path] + [it.checksum]]
  }

  function MergeChecksums(checksums: map<string, BackupSet>, it: Item): map<string, BackupSet>
  {
    if it.checksum in checksums && !Below(checksums[it.checksum].datetime, it.backupset.datetime)
    then checksums
    else checksums[it.checksum := it.backupset]
  }

  function MergeItems(ix: Indices, items: seq<Item>): Indices
    decreases |items|
  {
    if items == [] then ix else MergeItem(MergeItems(ix, items[..|items| - 1]), items[|items| - 1])
  }

  lemma MergeTwo(ix: Indices, a: Item, b: Item)
    ensures MergeItems(ix, [a, b]) == MergeItem(MergeItem(ix, a), b)
  {
    assert [a, b][..1] == [a];
    assert [a][..0] == [];
    assert MergeItems(ix, [a]) == MergeItem(MergeItems(ix, []), a);
    assert MergeItems(ix, [a, b]) == MergeItem(MergeItems(ix, [a]), b);
  }

  lemma PrefixKeeps(s: seq<string>, t: seq<string>, c: string)
    requires s <= t && c in s
    ensures c in t
  {
    var i :| 0 <= i < |s| && s[i] == c;
    assert t[i] == c;
  }

  /** One MergeItem keeps the lists duplicate-free, only extends them, and
      records the item's checksum under its path. */
  lemma MergeItemGrows(ix: Indices, it: Item)
    requires DistinctLists(ix.files)
    ensures DistinctLists(MergeItem(ix, it).files)
    ensures forall p :: p in ix.files ==>
      (p in MergeItem(ix, it).files && ix.files[p] <= MergeItem(ix, it).files[p])
    ensures it.path in MergeItem(ix, it).files && it.checksum in MergeItem(ix, it).files[it.path]
  {
    var r := MergeItem(ix, it);
    if it.path in ix.files && it.checksum !in ix.files[it.path] {
      var s := ix.files[it.path] + [it.checksum];
      forall i, j | 0 <= i < j < |s|
        ensures s[i] != s[j]
      {
        if j == |s| - 1 {
          assert s[i] in ix.files[it.path];
        }
      }
    }
  }

  /** `c` was stored under `p` before, or some item named `c` for `p`. */
  ghost predicate SeenFor(ix: Indices, items: seq<Item>, p: string, c: string)
  {
    (p in ix.files && c in ix.files[p]) ||
    exists k :: 0 <= k < |items| && items[k].path == p && items[k].checksum == c
  }

  /** With MergeItem a path lists only checksums seen for it. */
  lemma {:induction false} MergeListsOnlySeen(ix: Indices, items: seq<Item>, p: string, c: string)
    requires p in MergeItems(ix, items).files && c in MergeItems(ix, items).files[p]
    ensures SeenFor(ix, items, p, c)
    decreases |items|
  {
    if items != [] {
      var n := |items| - 1;
      var pre := items[..n];
      var last := items[n];
      var rp := MergeItems(ix, pre);
      assert MergeItems(ix, items) == MergeItem(rp, last);
      if p == last.path && c == last.checksum {
        assert items[n].path == p && items[n].checksum == c;
      } else {
        assert p in rp.files && c in rp.files[p];
        MergeListsOnlySeen(ix, pre, p, c);
        if !(p in ix.files && c in ix.files[p]) {
          var k :| 0 <= k < |pre| && pre[k].path == p && pre[k].checksum == c;
          assert items[k] == pre[k];
        }
      }
    }
  }

  /** With MergeItem every checksum seen for a path is recorded once, a
      stored list only grows, and a list holds nothing but checksums seen
      for its path. */
  lemma {:induction false} MergeRecordsEveryChecksum(ix: Indices, items: seq<Item>)
    requires DistinctLists(ix.files)
    ensures DistinctLists(MergeItems(ix, items).files)
    ensures forall p :: p in ix.files ==>
      (p in MergeItems(ix, items).files && ix.files[p] <= MergeItems(ix, items).files[p])
    ensures forall k :: 0 <= k < |items| ==>
      (items[k].path in MergeItems(ix, items).files &&
       items[k].checksum in MergeItems(ix, items).files[items[k].path])
    ensures forall p :: p in MergeItems(ix, items).files ==>
      forall c :: c in MergeItems(ix, items).files[p] ==> SeenFor(ix, items, p, c)
    decreases |items|
  {
    forall p, c | p in MergeItems(ix, items).files && c in MergeItems(ix, items).files[p]
      ensures SeenFor(ix, items, p, c)
    {
      MergeListsOnlySeen(ix, items, p, c);
    }
    if items != [] {
      var n := |items| - 1;
      var pre := items[..n];
      var last := items[n];
      MergeRecordsEveryChecksum(ix, pre);
      var rp := MergeItems(ix, pre);
      MergeItemGrows(rp, last);
      var r := MergeItems(ix, items);
      assert r == MergeItem(rp, last);
      forall p | p in ix.files
        ensures p in r.files && ix.files[p] <= r.files[p]
      {
        assert ix.files[p] <= rp.files[p] <= r.files[p];
      }
      forall k | 0 <= k < |items|
        ensures items[k].path in r.files && items[k].checksum in r.files[items[k].path]
      {
        if k < n {
          assert pre[k] == items[k];
          PrefixKeeps(rp.files[items[k].path], r.files[items[k].path], items[k].checksum);
        }
      }
    }
  }

  /** `a` is at least as new as `b`. */
  predicate NotOlder(a: string, b: string)
  {
    !Below(a, b)
  }

  lemma NotOlderTransitive(a: string, b: string, c: string)
    requires NotOlder(a, b) && NotOlder(b, c)
    ensures NotOlder(a, c)
  {
    BelowTotal(a, b);
    BelowTotal(b, c);
    if Below(a, c) {
      if a != b && b != c {
        BelowTransitive(c, b, a);
        BelowAsymmetric(c, a);
      }
    }
  }

  /** One MergeItem never replaces a stored backup set by an older one, and
      leaves the item's checksum at a set at least as new as the item's. */
  lemma MergeItemNoOlder(ix: Indices, it: Item)
    ensures forall c :: c in ix.checksums ==>
      (c in MergeItem(ix, it).checksums &&
       NotOlder(MergeItem(ix, it).checksums[c].datetime, ix.checksums[c].datetime))
    ensures it.checksum in MergeItem(ix, it).checksums &&
      NotOlder(MergeItem(ix, it).checksums[it.checksum].datetime, it.backupset.datetime)
  {
    var r := MergeItem(ix, it);
    forall c | c in ix.checksums
      ensures NotOlder(r.checksums[c].datetime, ix.checksums[c].datetime)
    {
      if c == it.checksum && Below(ix.checksums[c].datetime, it.backupset.datetime) {
        BelowAsymmetric(ix.checksums[c].datetime, it.backupset.datetime);
      } else {
        BelowIrreflexive(ix.checksums[c].datetime);
      }
    }
    BelowIrreflexive(it.backupset.datetime);
  }

  /** `b` is the set stored for `c` before, or the set of an item that
      named `c`. */
  ghost predicate NamedSet(ix: Indices, items: seq<Item>, c: string, b: BackupSet)
  {
    (c in ix.checksums && ix.checksums[c] == b) ||
    exists k :: 0 <= k < |items| && items[k].checksum == c && items[k].backupset == b
  }

  /** With MergeItem a checksum maps only to a set that held or named it. */
  lemma {:induction false} MergeMapsToNamedSet(ix: Indices, items: seq<Item>, c: string)
    requires c in MergeItems(ix, items).checksums
    ensures NamedSet(ix, items, c, MergeItems(ix, items).checksums[c])
    decreases |items|
  {
    if items != [] {
      var n := |items| - 1;
      var pre := items[..n];
      var last := items[n];
      var rp := MergeItems(ix, pre);
      var b := MergeItems(ix, items).checksums[c];
      assert MergeItems(ix, items) == MergeItem(rp, last);
      if c == last.checksum && b == last.backupset {
        assert items[n].checksum == c && items[n].backupset == b;
      } else {
        assert c in rp.checksums && rp.checksums[c] == b;
        MergeMapsToNamedSet(ix, pre, c);
        if !(c in ix.checksums && ix.checksums[c] == b) {
          var k :| 0 <= k < |pre| && pre[k].checksum == c && pre[k].backupset == b;
          assert items[k] == pre[k];
        }
      }
    }
  }

  /** With MergeItem a stored backup set is never replaced by an older one,
      and each checksum ends at a backup set at least as new as every item
      that named it, which is the stored set or one of those items' sets:
      the newest set that contains it. */
  lemma {:induction false} MergeKeepsNewest(ix: Indices, items: seq<Item>)
    ensures forall c :: c in ix.checksums ==>
      (c in MergeItems(ix, items).checksums &&
       NotOlder(MergeItems(ix, items).checksums[c].datetime, ix.checksums[c].datetime))
    ensures forall k :: 0 <= k < |items| ==>
      (items[k].checksum in MergeItems(ix, items).checksums &&
       NotOlder(MergeItems(ix, items).checksums[items[k].checksum].datetime, items[k].backupset.datetime))
    ensures forall c :: c in MergeItems(ix, items).checksums ==>
      NamedSet(ix, items, c, MergeItems(ix, items).checksums[c])
    decreases |items|
  {
    forall c | c in MergeItems(ix, items).checksums
      ensures NamedSet(ix, items, c, MergeItems(ix, items).checksums[c])
    {
      MergeMapsToNamedSet(ix, items, c);
    }
    if items == [] {
      forall c | c in ix.checksums
        ensures NotOlder(ix.checksums[c].datetime, ix.checksums[c].datetime)
      {
        BelowIrreflexive(ix.checksums[c].datetime);
      }
    } else {
      var n := |items| - 1;
      var pre := items[..n];
      var last := items[n];
      MergeKeepsNewest(ix, pre);
      var rp := MergeItems(ix, pre);
      MergeItemNoOlder(rp, last);
      var r := MergeItems(ix, items);
      assert r == MergeItem(rp, last);
      forall c | c in ix.checksums
        ensures c in r.checksums && NotOlder(r.checksums[c].datetime, ix.checksums[c].datetime)
      {
        NotOlderTransitive(r.checksums[c].datetime, rp.checksums[c].datetime, ix.checksums[c].datetime);
      }
      forall k | 0 <= k < |items|
        ensures items[k].checksum in r.checksums &&
          NotOlder(r.checksums[items[k].checksum].datetime, items[k].backupset.datetime)
      {
        if k < n {
          var c := items[k].checksum;
          assert pre[k] == items[k];
          NotOlderTransitive(r.checksums[c].datetime, rp.checksums[c].datetime, items[k].backupset.datetime);
        }
      }
    }
  }

  /** With MergeItem the newer backup set wins whichever order two items
      with the same checksum are processed in. */
  lemma MergeOrderIndependent(ix: Indices, a: Item, b: Item)
    requires a.checksum == b.checksum && a.backupset.datetime != b.backupset.datetime
    ensures MergeItems(ix, [a, b]).checksums == MergeItems(ix, [b, a]).checksums
  {
    MergeTwo(ix, a, b);
    MergeTwo(ix, b, a);
    BelowTotal(a.backupset.datetime, b.backupset.datetime);
    if Below(a.backupset.datetime, b.backupset.datetime) {
      NewerWinsEitherWay(ix.checksums, a, b);
    } else {
      NewerWinsEitherWay(ix.checksums, b, a);
    }
  }

  /** Two merges of one checksum, the second item newer than the first,
      end the same in either order. */
  lemma NewerWinsEitherWay(cs: map<string, BackupSet>, a: Item, b: Item)
    requires a.checksum == b.checksum && Below(a.backupset.datetime, b.backupset.datetime)
    ensures MergeChecksums(MergeChecksums(cs, a), b) == MergeChecksums(MergeChecksums(cs, b), a)
  {
    var c := a.checksum;
    BelowAsymmetric(a.backupset.datetime, b.backupset.datetime);
    if c in cs {
      var s := cs[c].datetime;
      BelowTotal(s, a.backupset.datetime);
      BelowTotal(s, b.backupset.datetime);
      if Below(s, a.backupset.datetime) {
        BelowTransitive(s, a.backupset.datetime, b.backupset.datetime);
      } else if !Below(s, b.backupset.datetime) {
      } else {
        if s != a.backupset.datetime {
          BelowTransitive(a.backupset.datetime, s, b.backupset.datetime);
        }
      }
    }
  }

  // ---------------------------------------------------------------------
  // The two lookups

  /** What a lookup answers: a file index entry or a checksum index entry. */
  datatype Found = Checksums(list: seq<string>) | Location(backupset: BackupSet)

  /** `db[key]` on the file index (the "absfilename_checksums" database). */
  function LookupFile(ix: Indices, path: string): (r: Option<Found>)
    ensures r.Some? <==> path in ix.files
    ensures r.Some? ==> r.value == Checksums(ix.files[path])
  {
    if path in ix.files then Some(Checksums(ix.files[path])) else None
  }

  /** `db[key]` on the checksum index (the "checksum_backupset" database). */
  function LookupChecksum(ix: Indices, checksum: string): (r: Option<Found>)
    ensures r.Some? <==> checksum in ix.checksums
    ensures r.Some? ==> r.value == Location(ix.checksums[checksum])
  {
    if checksum in ix.checksums then Some(Location(ix.checksums[checksum])) else None
  }

  /** `search_checksum` as written: it opens the file index, which is keyed
      by path, and looks the checksum up there. */
  function SearchChecksumAsWritten(ix: Indices, checksum: string): (r: Option<Found>)
    ensures r.Some? <==> checksum in ix.files
  {
    LookupFile(ix, checksum)
  }

  /** `search_absfile` as written: it opens the checksum index, which is
      keyed by checksum, and looks the path up there. */
  function SearchAbsfileAsWritten(ix: Indices, path: string): (r: Option<Found>)
    ensures r.Some? <==> path in ix.checksums
  {
    LookupChecksum(ix, path)
  }

  /** After one item is indexed into empty stores, the written lookups find
      neither its checksum nor its path, while each looked up in its own
      index is found. */
  lemma LookupsMissIndexedItem()
    ensures var b := BackupSet("host_tag_1", "d", "t", "2020");
      var ix := ApplyItem(Indices(map[], map[], map[]), Item(b, "/p", "c"));
      && SearchChecksumAsWritten(ix, "c") == None
      && SearchAbsfileAsWritten(ix, "/p") == None
      && LookupChecksum(ix, "c") == Some(Location(b))
      && LookupFile(ix, "/p") == Some(Checksums(["c"]))
  {
  }

  /** Looked up in its own index, every indexed path is
      found, with the first checksum seen for it, and every checksum with
      the backup set that named it last. */
  lemma IndexedItemsAreFound(items: seq<Item>)
    requires NoCollision(Indices(map[], map[], map[]), items)
    ensures var ix := ApplyItems(Indices(map[], map[], map[]), items);
      forall k :: 0 <= k < |items| ==>
        && LookupFile(ix, items[k].path).Some?
        && (FirstToName(items, k) ==>
              LookupFile(ix, items[k].path) == Some(Checksums([items[k].checksum])))
        && (LastToName(items, k) ==>
              LookupChecksum(ix, items[k].checksum) == Some(Location(items[k].backupset)))
  {
    var ix0 := Indices(map[], map[], map[]);
    FileIndexAfterItems(ix0, items);
    FirstChecksumKept(ix0, items);
    LastProcessedWins(ix0, items);
    var ix := ApplyItems(ix0, items);
    forall k | 0 <= k < |items|
      ensures LookupFile(ix, items[k].path).Some?
    {
      assert items[k].path in ix.files;
    }
  }

  // ---------------------------------------------------------------------
  // A run over the host's backup sets

  /** The items queued for one backup set: one per manifest path, in
      ascending path order. */
  ghost function SetItems(bs: BackupSet, manifest: Manifest): seq<Item>
  {
    var paths := SortedSet(manifest.Keys);
    seq(|paths|, j requires 0 <= j < |paths| => Item(bs, paths[j], manifest[paths[j]]))
  }

  /** The items of a set are those of its paths in ascending order. */
  lemma SetItemsAre(bs: BackupSet, manifest: Manifest, paths: seq<string>)
    requires paths == SortedSet(manifest.Keys)
    ensures |SetItems(bs, manifest)| == |paths|
    ensures forall j :: 0 <= j < |paths| ==> paths[j] in manifest && SetItems(bs, manifest)[j] == Item(bs, paths[j], manifest[paths[j]])
  {
  }

  lemma SetItemsOnePerPath(bs: BackupSet, manifest: Manifest)
    ensures |SetItems(bs, manifest)| == |manifest|
    ensures forall j :: 0 <= j < |SetItems(bs, manifest)| ==>
      (SetItems(bs, manifest)[j].backupset == bs && SetItems(bs, manifest)[j].path in manifest &&
       SetItems(bs, manifest)[j].checksum == manifest[SetItems(bs, manifest)[j].path])
    ensures forall p :: p in manifest ==>
      exists j :: 0 <= j < |SetItems(bs, manifest)| && SetItems(bs, manifest)[j].path == p
    ensures forall i, j :: 0 <= i < j < |SetItems(bs, manifest)| ==>
      Below(SetItems(bs, manifest)[i].path, SetItems(bs, manifest)[j].path)
  {
    var paths := SortedSet(manifest.Keys);
    var items := SetItems(bs, manifest);
    SetItemsAre(bs, manifest, paths);
    assert |manifest.Keys| == |manifest|;
    forall p | p in manifest
      ensures exists j :: 0 <= j < |items| && items[j].path == p
    {
      var j :| 0 <= j < |paths| && paths[j] == p;
      assert items[j].path == p;
    }
    forall i, j | 0 <= i < j < |items|
      ensures Below(items[i].path, items[j].path)
    {
      assert items[i].path == paths[i] && items[j].path == paths[j];
    }
  }

  /** One backup set handled: its items applied in queue order, then the set
      logged with `stamp` unless it is logged already. */
  ghost function IndexSet(ix: Indices, bs: BackupSet, manifest: Manifest, stamp: string): Indices
  {
    var ix1 := ApplyItems(ix, SetItems(bs, manifest));
    if bs.basename in ix1.log then ix1 else ix1.(log := ix1.log[bs.basename := stamp])
  }

  /** Handling a backup set logs it, with `stamp` when it was not logged
      before, and rewrites no earlier log or file index entry. */
  lemma IndexSetLogs(ix: Indices, bs: BackupSet, manifest: Manifest, stamp: string)
    ensures IndexSet(ix, bs, manifest, stamp).log.Keys == ix.log.Keys + {bs.basename}
    ensures bs.basename !in ix.log ==> IndexSet(ix, bs, manifest, stamp).log[bs.basename] == stamp
    ensures forall b :: b in ix.log ==> IndexSet(ix, bs, manifest, stamp).log[b] == ix.log[b]
    ensures forall p :: p in ix.files ==>
      (p in IndexSet(ix, bs, manifest, stamp).files && IndexSet(ix, bs, manifest, stamp).files[p] == ix.files[p])
  {
    FileIndexAfterItems(ix, SetItems(bs, manifest));
  }

  /** The run from the `i`-th backup set on: a logged set is skipped, a
      basename that is not three "_"-separated parts ends the run, and any
      other set is handled and logged with the time `clock(i)`. */
  ghost function Run(ix: Indices, sets: seq<BackupSet>, archive: string -> Manifest, clock: nat -> string, i: nat): (Indices, Outcome)
    requires i <= |sets|
    decreases |sets| - i
  {
    if i == |sets| then (ix, Completed)
    else if sets[i].basename in ix.log then Run(ix, sets, archive, clock, i + 1)
    else if |Split(sets[i].basename, '_')| != 3 then (ix, Aborted(i))
    else Run(IndexSet(ix, sets[i], archive(sets[i].basename), clock(i)), sets, archive, clock, i + 1)
  }

  /** A run never rewrites a log entry nor a file index entry that was
      there before it. */
  lemma {:induction false} RunKeepsEarlierEntries(ix: Indices, sets: seq<BackupSet>, archive: string -> Manifest, clock: nat -> string, i: nat)
    requires i <= |sets|
    ensures forall b :: b in ix.log ==>
      (b in Run(ix, sets, archive, clock, i).0.log && Run(ix, sets, archive, clock, i).0.log[b] == ix.log[b])
    ensures forall p :: p in ix.files ==>
      (p in Run(ix, sets, archive, clock, i).0.files && Run(ix, sets, archive, clock, i).0.files[p] == ix.files[p])
    decreases |sets| - i
  {
    if i < |sets| {
      if sets[i].basename in ix.log {
        RunKeepsEarlierEntries(ix, sets, archive, clock, i + 1);
      } else if |Split(sets[i].basename, '_')| == 3 {
        var ix1 := IndexSet(ix, sets[i], archive(sets[i].basename), clock(i));
        IndexSetLogs(ix, sets[i], archive(sets[i].basename), clock(i));
        RunKeepsEarlierEntries(ix1, sets, archive, clock, i + 1);
      }
    }
  }

  /** A run ends Aborted(k) only at an unlogged backup set whose basename
      does not split into three parts, and that set stays unlogged. */
  lemma {:induction false} RunAbortsAtBadName(ix: Indices, sets: seq<BackupSet>, archive: string -> Manifest, clock: nat -> string, i: nat)
    requires i <= |sets|
    ensures Run(ix, sets, archive, clock, i).1.Aborted? ==>
      var k := Run(ix, sets, archive, clock, i).1.at;
      && i <= k < |sets|
      && sets[k].basename !in Run(ix, sets, archive, clock, i).0.log
      && |Split(sets[k].basename, '_')| != 3
    decreases |sets| - i
  {
    if i < |sets| {
      if sets[i].basename in ix.log {
        RunAbortsAtBadName(ix, sets, archive, clock, i + 1);
      } else if |Split(sets[i].basename, '_')| == 3 {
        RunAbortsAtBadName(IndexSet(ix, sets[i], archive(sets[i].basename), clock(i)), sets, archive, clock, i + 1);
      }
    }
  }

  /** A completed run has logged every backup set it was given. */
  lemma {:induction false} CompletedRunLogsEverySet(ix: Indices, sets: seq<BackupSet>, archive: string -> Manifest, clock: nat -> string, i: nat)
    requires i <= |sets|
    ensures Run(ix, sets, archive, clock, i).1 == Completed ==>
      forall k :: i <= k < |sets| ==> sets[k].basename in Run(ix, sets, archive, clock, i).0.log
    decreases |sets| - i
  {
    if i < |sets| {
      if sets[i].basename in ix.log {
        var res := Run(ix, sets, archive, clock, i + 1);
        assert Run(ix, sets, archive, clock, i) == res;
        if res.1 == Completed {
          forall k | i <= k < |sets|
            ensures sets[k].basename in res.0.log
          {
            if k == i {
              RunKeepsEarlierEntries(ix, sets, archive, clock, i + 1);
            } else {
              CompletedRunLogsEverySet(ix, sets, archive, clock, i + 1);
            }
          }
        }
      } else if |Split(sets[i].basename, '_')| == 3 {
        var ix1 := IndexSet(ix, sets[i], archive(sets[i].basename), clock(i));
        var res := Run(ix1, sets, archive, clock, i + 1);
        assert Run(ix, sets, archive, clock, i) == res;
        if res.1 == Completed {
          forall k | i <= k < |sets|
            ensures sets[k].basename in res.0.log
          {
            if k == i {
              IndexSetLogs(ix, sets[i], archive(sets[i].basename), clock(i));
              RunKeepsEarlierEntries(ix1, sets, archive, clock, i + 1);
            } else {
              CompletedRunLogsEverySet(ix1, sets, archive, clock, i + 1);
            }
          }
        }
      }
    }
  }

  /** When every basename splits into three parts the run completes. */
  lemma {:induction false} WellNamedRunCompletes(ix: Indices, sets: seq<BackupSet>, archive: string -> Manifest, clock: nat -> string, i: nat)
    requires i <= |sets|
    requires forall k :: 0 <= k < |sets| ==> |Split(sets[k].basename, '_')| == 3
    ensures Run(ix, sets, archive, clock, i).1 == Completed
    decreases |sets| - i
  {
    if i < |sets| {
      if sets[i].basename in ix.log {
        WellNamedRunCompletes(ix, sets, archive, clock, i + 1);
      } else {
        WellNamedRunCompletes(IndexSet(ix, sets[i], archive(sets[i].basename), clock(i)), sets, archive, clock, i + 1);
      }
    }
  }

  /** When every backup set is logged already the run changes nothing. */
  lemma {:induction false} LoggedSetsAreSkipped(ix: Indices, sets: seq<BackupSet>, archive: string -> Manifest, clock: nat -> string, i: nat)
    requires i <= |sets|
    requires forall k :: i <= k < |sets| ==> sets[k].basename in ix.log
    ensures Run(ix, sets, archive, clock, i) == (ix, Completed)
    decreases |sets| - i
  {
    if i < |sets| {
      LoggedSetsAreSkipped(ix, sets, archive, clock, i + 1);
    }
  }

  /** Running again over the same backup sets after a completed run
      changes nothing, whatever the archive and the clock answer then. */
  lemma RerunChangesNothing(ix: Indices, sets: seq<BackupSet>, archive: string -> Manifest, clock: nat -> string,
                            archive2: string -> Manifest, clock2: nat -> string)
    requires Run(ix, sets, archive, clock, 0).1 == Completed
    ensures Run(Run(ix, sets, archive, clock, 0).0, sets, archive2, clock2, 0) == (Run(ix, sets, archive, clock, 0).0, Completed)
  {
    CompletedRunLogsEverySet(ix, sets, archive, clock, 0);
    LoggedSetsAreSkipped(Run(ix, sets, archive, clock, 0).0, sets, archive2, clock2, 0);
  }

  // ---------------------------------------------------------------------
  // The queue and the workers

  /** The entries a worker takes before it meets a None. */
  function Pending(q: seq<Option<Item>>): (r: seq<Item>)
    ensures |r| <= |q|
  {
    if q == [] || q[0].None? then [] else [q[0].value] + Pending(q[1..])
  }

  /** A worker takes the entries up to the first None, each unwrapped. */
  lemma {:induction false} PendingIsPrefix(q: seq<Option<Item>>)
    ensures forall j :: 0 <= j < |Pending(q)| ==> q[j] == Some(Pending(q)[j])
    ensures |Pending(q)| < |q| ==> q[|Pending(q)|] == None
  {
    if q != [] && q[0].Some? {
      PendingIsPrefix(q[1..]);
      forall j | 0 <= j < |Pending(q)|
        ensures q[j] == Some(Pending(q)[j])
      {
        if j > 0 {
          assert Pending(q)[j] == Pending(q[1..])[j - 1];
        }
      }
    }
  }

  /** A queue of Some(items[k]) hands all of its items to one worker. */
  lemma PendingOfSomes(q: seq<Option<Item>>, items: seq<Item>)
    requires |q| == |items|
    requires forall k :: 0 <= k < |q| ==> q[k] == Some(items[k])
    ensures Pending(q) == items
  {
    var r := Pending(q);
    PendingIsPrefix(q);
    assert |r| == |q|;
    assert forall j :: 0 <= j < |r| ==> r[j] == items[j];
  }

  /** A work queue: its entries and its count of unfinished tasks. */
  class WorkQueue {
    var entries: seq<Option<Item>>
    var unfinished: nat

    constructor ()
      ensures entries == [] && unfinished == 0
    {
      entries := [];
      unfinished := 0;
    }

    /** `put`: every entry, None included, is one more unfinished task. */
    method Put(x: Option<Item>)
      modifies this
      ensures entries == old(entries) + [x] && unfinished == old(unfinished) + 1
    {
      entries := entries + [x];
      unfinished := unfinished + 1;
    }

    /** `get` on a non-empty queue. */
    method Get() returns (x: Option<Item>)
      requires entries != []
      modifies this
      ensures x == old(entries)[0] && entries == old(entries)[1..] && unfinished == old(unfinished)
    {
      x := entries[0];
      entries := entries[1..];
    }

    /** `task_done`: called more often than tasks were put, it raises. */
    method TaskDone()
      requires unfinished > 0
      modifies this
      ensures entries == old(entries) && unfinished == old(unfinished) - 1
    {
      unfinished := unfinished - 1;
    }
  }

  /** The three stores, updated in place by the workers and the driver. */
  class IndexBuilder {
    var files: map<string, seq<string>>
    var checksums: map<string, BackupSet>
    var log: map<string, string>

    ghost function State(): Indices
      reads this
    {
      Indices(files, checksums, log)
    }

    constructor (ix: Indices)
      ensures State() == ix
    {
      files := ix.files;
      checksums := ix.checksums;
      log := ix.log;
    }

    /** The body of the worker's try block for one item; an exception ends
        the item early and is swallowed. */
    method IndexItem(it: Item)
      modifies this
      ensures State() == ApplyItem(old(State()), it)
    {
      // for a path already indexed the checksum goes onto a decoded copy,
      // which is then dropped: only a new path is written
      if it.path !in files {
        files := files[it.path := [it.checksum]];
      }
      if it.backupset.datetime in checksums {
        if it.checksum !in checksums {
          // looking up the stored set raises KeyError: the item ends here
          return;
        }
        if Below(checksums[it.checksum].datetime, it.backupset.datetime) {
          checksums := checksums[it.checksum := it.backupset];
        } else {
          checksums := checksums[it.checksum := it.backupset];
        }
      } else {
        checksums := checksums[it.checksum := it.backupset];
      }
    }

    /** `checksum_thread` run until it meets None (stopped) or finds the
        queue empty, where the real worker would wait: the items it took are
        applied in queue order and each is marked done once. */
    method ChecksumThread(q: WorkQueue) returns (stopped: bool)
      requires q.unfinished >= |q.entries|
      modifies this, q
      ensures State() == ApplyItems(old(State()), Pending(old(q.entries)))
      ensures stopped <==> |Pending(old(q.entries))| < |old(q.entries)|
      ensures q.entries == (if stopped then old(q.entries)[|Pending(old(q.entries))| + 1..] else [])
      ensures q.unfinished == old(q.unfinished) - |Pending(old(q.entries))|
    {
      ghost var q0 := q.entries;
      ghost var s0 := State();
      ghost var done: seq<Item> := [];
      stopped := false;
      while q.entries != []
        invariant |done| <= |q0| && q.entries == q0[|done|..]
        invariant Pending(q0) == done + Pending(q.entries)
        invariant State() == ApplyItems(s0, done)
        invariant q.unfinished == old(q.unfinished) - |done| && q.unfinished >= |q.entries|
        decreases |q.entries|
      {
        ghost var before := q.entries;
        var x := q.Get();
        if x.None? {
          assert Pending(before) == [];
          assert done + [] == done;
          assert q.entries == q0[|done| + 1..];
          stopped := true;
          return;
        }
        assert Pending(before) == [x.value] + Pending(q.entries);
        assert done + ([x.value] + Pending(q.entries)) == (done + [x.value]) + Pending(q.entries);
        IndexItem(x.value);
        ApplyItemsAppend(s0, done, x.value);
        done := done + [x.value];
        q.TaskDone();
      }
      assert Pending(q.entries) == [];
      assert done + [] == done;
    }

    /** One item per manifest path put on the queue, in the order of
        `paths`. */
    method Enqueue(q: WorkQueue, bs: BackupSet, manifest: Manifest, paths: seq<string>)
      requires q.entries == [] && q.unfinished == 0
      requires forall p :: p in paths ==> p in manifest
      modifies q
      ensures |q.entries| == q.unfinished == |paths|
      ensures forall k :: 0 <= k < |q.entries| ==> q.entries[k] == Some(Item(bs, paths[k], manifest[paths[k]]))
    {
      for j := 0 to |paths|
        invariant |q.entries| == q.unfinished == j
        invariant forall k :: 0 <= k < j ==> q.entries[k] == Some(Item(bs, paths[k], manifest[paths[k]]))
      {
        q.Put(Some(Item(bs, paths[j], manifest[paths[j]])));
      }
    }

    /** One backup set, from fetching its manifest to logging it: one item
        per path in ascending order, the queue joined, then the log entry
        written if the set is not a log key yet. */
    method IndexBackupSet(q: WorkQueue, bs: BackupSet, manifest: Manifest, stamp: string)
      requires q.entries == [] && q.unfinished == 0
      modifies this, q
      ensures State() == IndexSet(old(State()), bs, manifest, stamp)
      ensures q.entries == [] && q.unfinished == 0
    {
      ghost var items := SetItems(bs, manifest);
      ghost var s0 := State();
      var paths := SortStrings(manifest.Keys);
      SetItemsAre(bs, manifest, paths);
      Enqueue(q, bs, manifest, paths);
      assert State() == s0;
      PendingOfSomes(q.entries, items);
      var _ := ChecksumThread(q);
      ApplyItemsKeepsLog(s0, items);
      if bs.basename !in log {
        log := log[bs.basename := stamp];
      }
    }

    /** The shutdown: one None per worker, then each worker runs until its
        None stops it. */
    method Shutdown(q: WorkQueue) returns (stopped: nat)
      requires q.entries == [] && q.unfinished == 0
      modifies this, q
      ensures State() == old(State()) && stopped == Workers
      ensures q.entries == [] && q.unfinished == Workers
    {
      for w := 0 to Workers
        invariant q.entries == seq(w, _ => None) && q.unfinished == w
        invariant State() == old(State())
      {
        q.Put(None);
        assert q.entries == seq(w + 1, _ => None);
      }
      stopped := 0;
      for w := 0 to Workers
        invariant q.entries == seq(Workers - w, _ => None)
        invariant q.unfinished == Workers && stopped == w
        invariant State() == old(State())
      {
        var s := ChecksumThread(q);
        assert q.entries == seq(Workers - w - 1, _ => None);
        if s {
          stopped := stopped + 1;
        }
      }
    }

    /** `create_nosql` over the host's backup sets, with the archive's
        manifests and the clock as parameters. The stores end where Run
        puts them; on completion each of the four workers has been stopped
        by its None, on an abort none has. */
    method CreateNosql(sets: seq<BackupSet>, archive: string -> Manifest, clock: nat -> string)
      returns (outcome: Outcome, stopped: nat)
      modifies this
      ensures (State(), outcome) == Run(old(State()), sets, archive, clock, 0)
      ensures outcome.Completed? ==> stopped == Workers
      ensures outcome.Aborted? ==> stopped == 0
    {
      var q := new WorkQueue();
      var i := 0;
      while i < |sets|
        invariant i <= |sets|
        invariant q.entries == [] && q.unfinished == 0
        invariant Run(State(), sets, archive, clock, i) == Run(old(State()), sets, archive, clock, 0)
        decreases |sets| - i
      {
        var bs := sets[i];
        if bs.basename !in log {
          if |Split(bs.basename, '_')| != 3 {
            // unpacking the basename into three names raises ValueError
            return Aborted(i), 0;
          }
          IndexBackupSet(q, bs, archive(bs.basename), clock(i));
        }
        i := i + 1;
      }
      stopped := Shutdown(q);
      outcome := Completed;
    }
  }
}
