/**
  Retention by count (`delete_old_backups` in app/app.py). The listing of the
  backup root is an input: one entry per name `os.listdir` returns, with what
  `os.path.isdir` and `os.path.getmtime` say about it. The result is the
  sequence of paths handed to `shutil.rmtree`, in the order they are removed.
 */
module Retention {
  import opened Text

  /** One entry of the backup root. */
  datatype Entry = Entry(name: string, isDir: bool, mtime: int)

  /** The directories of a listing, in listing order (the list comprehension). */
  function Dirs(listing: seq<Entry>): (r: seq<Entry>)
    ensures |r| <= |listing|
    decreases |listing|
  {
    if listing == [] then []
    else Dirs(listing[..|listing| - 1]) + (if listing[|listing| - 1].isDir then [listing[|listing| - 1]] else [])
  }

  /** The candidates are exactly the directory entries of the listing, as often as they are listed. */
  lemma {:induction false} DirsAreTheDirectories(listing: seq<Entry>)
    ensures forall e :: multiset(Dirs(listing))[e] == if e.isDir then multiset(listing)[e] else 0
    decreases |listing|
  {
    if listing != [] {
      var init, last := listing[..|listing| - 1], listing[|listing| - 1];
      SplitLast(listing);
      DirsAreTheDirectories(init);
    }
  }

  lemma SplitLast<T>(s: seq<T>)
    requires s != []
    ensures s == s[..|s| - 1] + [s[|s| - 1]]
  {
  }

  /** Newest first: modification times never increase along `s`. */
  predicate SortedDesc(s: seq<Entry>) {
    forall i, j :: 0 <= i < j < |s| ==> s[i].mtime >= s[j].mtime
  }

  lemma SortedCons(x: Entry, s: seq<Entry>)
    requires SortedDesc(s)
    requires s == [] || x.mtime >= s[0].mtime
    ensures SortedDesc([x] + s)
  {
    var t := [x] + s;
    forall i, j | 0 <= i < j < |t|
      ensures t[i].mtime >= t[j].mtime
    {
      if i == 0 {
        assert t[j] == s[j - 1];
        assert s[0].mtime >= s[j - 1].mtime;
      } else {
        assert t[i] == s[i - 1] && t[j] == s[j - 1];
      }
    }
  }

  /** Insert `e` before the first entry older than `e` (after every entry at least as new). */
  function Insert(s: seq<Entry>, e: Entry): (r: seq<Entry>)
    ensures |r| == |s| + 1
    ensures r[0] == e || (s != [] && r[0] == s[0])
    decreases |s|
  {
    if s == [] then [e]
    else if s[0].mtime >= e.mtime then [s[0]] + Insert(s[1..], e)
    else [e] + s
  }

  /** Inserting adds exactly the new entry. */
  lemma {:induction false} InsertAddsEntry(s: seq<Entry>, e: Entry)
    ensures multiset(Insert(s, e)) == multiset(s) + multiset{e}
    decreases |s|
  {
    if s != [] && s[0].mtime >= e.mtime {
      InsertAddsEntry(s[1..], e);
      assert s == [s[0]] + s[1..];
    }
  }

  /** Inserting into a newest-first sequence keeps it newest first. */
  lemma {:induction false} InsertSorted(s: seq<Entry>, e: Entry)
    requires SortedDesc(s)
    ensures SortedDesc(Insert(s, e))
    decreases |s|
  {
    if s != [] {
      if s[0].mtime >= e.mtime {
        SortedTail(s);
        InsertSorted(s[1..], e);
        var rest := Insert(s[1..], e);
        assert |s| > 1 ==> s[1..][0] == s[1] && s[0].mtime >= s[1].mtime;
        SortedCons(s[0], rest);
        assert Insert(s, e) == [s[0]] + rest;
      } else {
        SortedCons(e, s);
        assert Insert(s, e) == [e] + s;
      }
    }
  }

  /**
    `list.sort(key=getmtime, reverse=True)`: Python's sort is stable, also when
    reversed, so entries with equal times keep their listing order. Modelled as
    an insertion sort that takes the entries in listing order.
   */
  function SortDesc(s: seq<Entry>): (r: seq<Entry>)
    ensures |r| == |s|
    decreases |s|
  {
    if s == [] then []
    else Insert(SortDesc(s[..|s| - 1]), s[|s| - 1])
  }

  /** The sort is a permutation of its input. */
  lemma {:induction false} SortDescPermutes(s: seq<Entry>)
    ensures multiset(SortDesc(s)) == multiset(s)
    decreases |s|
  {
    if s != [] {
      var init := s[..|s| - 1];
      SortDescPermutes(init);
      InsertAddsEntry(SortDesc(init), s[|s| - 1]);
      SplitLast(s);
    }
  }

  /** The sort puts the entries newest first. */
  lemma {:induction false} SortDescSorted(s: seq<Entry>)
    ensures SortedDesc(SortDesc(s))
    decreases |s|
  {
    if s != [] {
      var init := s[..|s| - 1];
      SortDescSorted(init);
      InsertSorted(SortDesc(init), s[|s| - 1]);
    }
  }

  /** The entries of `s` whose modification time is `m`, in order. */
  function WithMtime(s: seq<Entry>, m: int): seq<Entry>
    decreases |s|
  {
    if s == [] then [] else (if s[0].mtime == m then [s[0]] else []) + WithMtime(s[1..], m)
  }

  lemma {:induction false} WithMtimeAppend(a: seq<Entry>, b: seq<Entry>, m: int)
    ensures WithMtime(a + b, m) == WithMtime(a, m) + WithMtime(b, m)
    decreases |a|
  {
    if a == [] {
      assert a + b == b;
    } else {
      var tie := if a[0].mtime == m then [a[0]] else [];
      assert a + b == [a[0]] + (a[1..] + b);
      WithMtimeCons(a[0], a[1..] + b, m);
      WithMtimeAppend(a[1..], b, m);
      assert a == [a[0]] + a[1..];
      WithMtimeCons(a[0], a[1..], m);
      ConcatAssoc(tie, WithMtime(a[1..], m), WithMtime(b, m));
    }
  }

  lemma {:induction false} WithMtimeNone(s: seq<Entry>, m: int)
    requires forall i :: 0 <= i < |s| ==> s[i].mtime < m
    ensures WithMtime(s, m) == []
    decreases |s|
  {
    if s != [] {
      WithMtimeNone(s[1..], m);
    }
  }

  lemma {:induction false} InsertStable(s: seq<Entry>, e: Entry, m: int)
    requires SortedDesc(s)
    ensures WithMtime(Insert(s, e), m) == WithMtime(s, m) + (if e.mtime == m then [e] else [])
    decreases |s|
  {
    if s == [] {
    } else if s[0].mtime >= e.mtime {
      SortedTail(s);
      InsertStable(s[1..], e, m);
      InsertBehindStable(s, e, m);
    } else {
      InsertInFrontStable(s, e, m);
    }
  }

  /** The step of `InsertStable` where `e` goes behind the first entry. */
  lemma InsertBehindStable(s: seq<Entry>, e: Entry, m: int)
    requires s != [] && s[0].mtime >= e.mtime
    requires WithMtime(Insert(s[1..], e), m) == WithMtime(s[1..], m) + (if e.mtime == m then [e] else [])
    ensures WithMtime(Insert(s, e), m) == WithMtime(s, m) + (if e.mtime == m then [e] else [])
  {
    assert Insert(s, e) == [s[0]] + Insert(s[1..], e);
    assert s == [s[0]] + s[1..];
    ConsStable(s[0], Insert(s[1..], e), s[1..], if e.mtime == m then [e] else [], m);
  }

  /** Putting the same entry in front of two sequences keeps an equation between their entries of time `m`. */
  lemma ConsStable(x: Entry, r: seq<Entry>, t: seq<Entry>, tie: seq<Entry>, m: int)
    requires WithMtime(r, m) == WithMtime(t, m) + tie
    ensures WithMtime([x] + r, m) == WithMtime([x] + t, m) + tie
  {
    WithMtimeCons(x, r, m);
    WithMtimeCons(x, t, m);
    ConcatAssoc(if x.mtime == m then [x] else [], WithMtime(t, m), tie);
  }

  lemma WithMtimeCons(x: Entry, r: seq<Entry>, m: int)
    ensures WithMtime([x] + r, m) == (if x.mtime == m then [x] else []) + WithMtime(r, m)
  {
    assert ([x] + r)[0] == x && ([x] + r)[1..] == r;
  }

  lemma ConcatAssoc<T>(a: seq<T>, b: seq<T>, c: seq<T>)
    ensures a + (b + c) == (a + b) + c
  {
  }

  /** The step of `InsertStable` where `e` goes in front. */
  lemma InsertInFrontStable(s: seq<Entry>, e: Entry, m: int)
    requires SortedDesc(s) && s != [] && s[0].mtime < e.mtime
    ensures WithMtime(Insert(s, e), m) == WithMtime(s, m) + (if e.mtime == m then [e] else [])
  {
    var tie := if e.mtime == m then [e] else [];
    assert Insert(s, e) == [e] + s;
    assert ([e] + s)[0] == e && ([e] + s)[1..] == s;
    assert WithMtime([e] + s, m) == tie + WithMtime(s, m);
    if e.mtime == m {
      assert forall i :: 0 <= i < |s| ==> s[i].mtime <= s[0].mtime;
      WithMtimeNone(s, m);
    } else {
      assert WithMtime(s, m) + [] == WithMtime(s, m);
    }
  }

  lemma SortedTail(s: seq<Entry>)
    requires SortedDesc(s) && s != []
    ensures SortedDesc(s[1..])
  {
    var t := s[1..];
    assert forall i :: 0 <= i < |t| ==> t[i] == s[i + 1];
  }

  /** `InsertStable` for the sorted prefix that `SortDesc` inserts into. */
  lemma InsertIntoSortedStable(init: seq<Entry>, last: Entry, m: int)
    ensures WithMtime(Insert(SortDesc(init), last), m)
         == WithMtime(SortDesc(init), m) + (if last.mtime == m then [last] else [])
  {
    SortDescSorted(init);
    InsertStable(SortDesc(init), last, m);
  }

  /** The sort is stable: for every time, the entries with that time keep their relative order. */
  lemma {:induction false} SortDescStable(s: seq<Entry>, m: int)
    ensures WithMtime(SortDesc(s), m) == WithMtime(s, m)
    decreases |s|
  {
    if s != [] {
      var init, last := s[..|s| - 1], s[|s| - 1];
      assert SortDesc(s) == Insert(SortDesc(init), last);
      InsertIntoSortedStable(init, last, m);
      SortDescStable(init, m);
      WithMtimeSnoc(s, m);
    }
  }

  /** Dropping the last entry drops it from the entries with its time. */
  lemma WithMtimeSnoc(s: seq<Entry>, m: int)
    requires s != []
    ensures WithMtime(s, m)
         == WithMtime(s[..|s| - 1], m) + (if s[|s| - 1].mtime == m then [s[|s| - 1]] else [])
  {
    var init, last := s[..|s| - 1], s[|s| - 1];
    SplitLast(s);
    WithMtimeAppend(init, [last], m);
    assert [last] == [last] + [];
    WithMtimeCons(last, [], m);
  }

  /** Where Python's slice `xs[k:]` starts for a list of length `n`. */
  function SliceStart(n: nat, k: int): (r: nat)
    ensures r <= n
  {
    if k >= 0 then (if k <= n then k else n)
    else if n + k >= 0 then n + k
    else 0
  }

  /** `backup_dirs[keep_count:]` after the sort, when there are more directories than `keep_count`. */
  function Doomed(listing: seq<Entry>, keepCount: int): (r: seq<Entry>)
    ensures |Dirs(listing)| <= keepCount ==> r == []
    ensures 0 <= keepCount < |Dirs(listing)| ==> |r| == |Dirs(listing)| - keepCount
    ensures keepCount < 0 ==> |r| == if |Dirs(listing)| < -keepCount then |Dirs(listing)| else -keepCount
  {
    var dirs := Dirs(listing);
    if |dirs| > keepCount then
      var sorted := SortDesc(dirs);
      sorted[SliceStart(|sorted|, keepCount)..]
    else []
  }

  /** Only directories of the listing are ever removed. */
  lemma DoomedAreListedDirs(listing: seq<Entry>, keepCount: int)
    ensures forall e :: e in Doomed(listing, keepCount) ==> e.isDir && e in listing
  {
    var dirs := Dirs(listing);
    DirsAreTheDirectories(listing);
    if |dirs| > keepCount {
      var sorted := SortDesc(dirs);
      var r := sorted[SliceStart(|sorted|, keepCount)..];
      assert Doomed(listing, keepCount) == r;
      SortDescPermutes(dirs);
      assert forall e :: e in r ==> e in multiset(sorted);
    }
  }

  /** The directories that stay: the complement of `Doomed` (the source never names them). */
  function Survivors(listing: seq<Entry>, keepCount: int): seq<Entry> {
    var dirs := Dirs(listing);
    if |dirs| > keepCount then
      var sorted := SortDesc(dirs);
      sorted[..SliceStart(|sorted|, keepCount)]
    else dirs
  }

  /** Survivors and doomed entries together are exactly the directories of the listing. */
  lemma RetentionPartitions(listing: seq<Entry>, keepCount: int)
    ensures multiset(Survivors(listing, keepCount)) + multiset(Doomed(listing, keepCount))
         == multiset(Dirs(listing))
  {
    var dirs := Dirs(listing);
    if |dirs| > keepCount {
      var sorted := SortDesc(dirs);
      var k := SliceStart(|sorted|, keepCount);
      assert Survivors(listing, keepCount) == sorted[..k];
      assert Doomed(listing, keepCount) == sorted[k..];
      SplitMultiset(sorted, k);
      SortDescPermutes(dirs);
    } else {
      assert Survivors(listing, keepCount) == dirs;
      assert Doomed(listing, keepCount) == [];
    }
  }

  lemma SplitMultiset<T>(s: seq<T>, k: nat)
    requires k <= |s|
    ensures multiset(s[..k]) + multiset(s[k..]) == multiset(s)
  {
    assert s == s[..k] + s[k..];
  }

  /** Every directory that stays is at least as new as every directory that is removed. */
  lemma SurvivorsAreNewer(listing: seq<Entry>, keepCount: int)
    ensures forall a, b :: a in Survivors(listing, keepCount) && b in Doomed(listing, keepCount) ==>
      a.mtime >= b.mtime
  {
    var dirs := Dirs(listing);
    if |dirs| > keepCount {
      var sorted := SortDesc(dirs);
      var k := SliceStart(|sorted|, keepCount);
      assert Survivors(listing, keepCount) == sorted[..k];
      assert Doomed(listing, keepCount) == sorted[k..];
      SortDescSorted(dirs);
      SortedSplit(sorted, k);
    }
  }

  /** In a sequence sorted newest first, everything before `k` is at least as new as everything after. */
  lemma SortedSplit(s: seq<Entry>, k: nat)
    requires SortedDesc(s) && k <= |s|
    ensures forall a, b :: a in s[..k] && b in s[k..] ==> a.mtime >= b.mtime
  {
    forall a, b | a in s[..k] && b in s[k..]
      ensures a.mtime >= b.mtime
    {
      var i :| 0 <= i < k && s[i] == a;
      var j :| 0 <= j < |s| - k && s[k..][j] == b;
      assert s[k + j] == b;
    }
  }

  /**
    Ties are broken by listing order: read newest first, survivors then doomed
    entries list every time's directories in the order the listing gave them.
   */
  lemma RetentionKeepsListingOrderOnTies(listing: seq<Entry>, keepCount: int, m: int)
    ensures WithMtime(Survivors(listing, keepCount) + Doomed(listing, keepCount), m)
         == WithMtime(Dirs(listing), m)
  {
    var dirs := Dirs(listing);
    if |dirs| > keepCount {
      var sorted := SortDesc(dirs);
      var k := SliceStart(|sorted|, keepCount);
      assert sorted[..k] + sorted[k..] == sorted;
      SortDescStable(dirs, m);
    } else {
      assert dirs + [] == dirs;
    }
  }

  /** The paths `rmtree` is called on, in order. */
  function RemovedPaths(root: string, doomed: seq<Entry>): (r: seq<string>)
    ensures |r| == |doomed|
    ensures forall i :: 0 <= i < |r| ==> r[i] == PathJoin(root, doomed[i].name)
    decreases |doomed|
  {
    if doomed == [] then []
    else RemovedPaths(root, doomed[..|doomed| - 1]) + [PathJoin(root, doomed[|doomed| - 1].name)]
  }

  lemma RemovedPathsSnoc(root: string, doomed: seq<Entry>, j: nat)
    requires j < |doomed|
    ensures RemovedPaths(root, doomed[..j + 1])
         == RemovedPaths(root, doomed[..j]) + [PathJoin(root, doomed[j].name)]
  {
    assert doomed[..j + 1][..j] == doomed[..j];
  }

  /**
    `delete_old_backups(backup_root_dir, keep_count)`: keep the directories,
    and when there are more than `keepCount` of them sort them newest first and
    remove every one after the first `keepCount`.
   */
  method DeleteOldBackups(root: string, listing: seq<Entry>, keepCount: int) returns (removed: seq<string>)
    ensures removed == RemovedPaths(root, Doomed(listing, keepCount))
  {
    var backupDirs := Dirs(listing);
    removed := [];
    var dirCount := |backupDirs|;
    if dirCount > keepCount {
      var sorted := SortDesc(backupDirs);
      var oldBackupDirs := sorted[SliceStart(|sorted|, keepCount)..];
      assert oldBackupDirs == Doomed(listing, keepCount);
      var j := 0;
      while j < |oldBackupDirs|
        invariant 0 <= j <= |oldBackupDirs|
        invariant removed == RemovedPaths(root, oldBackupDirs[..j])
      {
        RemovedPathsSnoc(root, oldBackupDirs, j);
        removed := removed + [PathJoin(root, oldBackupDirs[j].name)];
        j := j + 1;
      }
      assert oldBackupDirs[..|oldBackupDirs|] == oldBackupDirs;
    } else {
      assert Doomed(listing, keepCount) == [];
    }
  }
}
