/** Log retention (src/logging.rs): which files a maintenance pass deletes, and
    why the log directory never outgrows its budget. */
module LogRetention {
  import opened Namespace

  const MAX_LOG_BYTES: nat := 10 * 1024 * 1024
  const MAINTENANCE_BYTE_BUDGET: nat := 1024 * 1024
  const MAINTENANCE_INTERVAL: nat := 60
  const MAX_LOG_AGE_DAYS: nat := 3

  /** A log name carries a date; the program itself writes spelling 0, and the
      date parser may accept other spellings of the same day. */
  datatype LogPath = LogPath(date: int, spelling: nat)

  datatype LogFile = LogFile(path: LogPath, inode: nat, size: nat)

  /** log_path */
  function CurrentLog(today: int): LogPath {
    LogPath(today, 0)
  }

  function Total(files: seq<LogFile>): nat {
    if files == [] then 0 else files[0].size + Total(files[1..])
  }

  ghost predicate DistinctPaths(files: seq<LogFile>) {
    forall i, j :: 0 <= i < j < |files| ==> files[i].path != files[j].path
  }

  /** The files whose path is not in `gone`, in order. */
  function Without(files: seq<LogFile>, gone: set<LogPath>): (r: seq<LogFile>)
    ensures forall f :: f in r <==> f in files && f.path !in gone
  {
    if files == [] then []
    else if files[0].path in gone then Without(files[1..], gone)
    else [files[0]] + Without(files[1..], gone)
  }

  lemma {:induction false} WithoutTwice(files: seq<LogFile>, gone: set<LogPath>, more: set<LogPath>)
    ensures Without(Without(files, gone), more) == Without(files, gone + more)
  {
    if files != [] {
      WithoutTwice(files[1..], gone, more);
      if files[0].path !in gone {
        var kept := Without(files, gone);
        assert kept[1..] == Without(files[1..], gone);
      }
    }
  }

  lemma {:induction false} WithoutNone(files: seq<LogFile>, gone: set<LogPath>)
    requires forall f :: f in files ==> f.path !in gone
    ensures Without(files, gone) == files
  {
    if files != [] {
      WithoutNone(files[1..], gone);
      assert files == [files[0]] + files[1..];
    }
  }

  lemma HeadDiffers(files: seq<LogFile>)
    requires DistinctPaths(files) && files != []
    ensures forall f :: f in files[1..] ==> f.path != files[0].path
  {
  }

  lemma {:induction false} WithoutKeepsDistinct(files: seq<LogFile>, gone: set<LogPath>)
    requires DistinctPaths(files)
    ensures DistinctPaths(Without(files, gone))
  {
    if files != [] {
      WithoutKeepsDistinct(files[1..], gone);
      HeadDiffers(files);
      var rest := Without(files[1..], gone);
      forall k | 0 <= k < |rest|
        ensures rest[k].path != files[0].path
      {
        assert rest[k] in rest;
      }
    }
  }

  lemma {:induction false} WithoutTotal(files: seq<LogFile>, gone: set<LogPath>)
    ensures Total(Without(files, gone)) <= Total(files)
  {
    if files != [] {
      WithoutTotal(files[1..], gone);
      if files[0].path !in gone {
        assert Without(files, gone)[1..] == Without(files[1..], gone);
      }
    }
  }

  /** Deleting one file takes exactly its size off the total. */
  lemma {:induction false} TotalWithoutOne(files: seq<LogFile>, f: LogFile)
    requires DistinctPaths(files) && f in files
    ensures Total(Without(files, {f.path})) + f.size == Total(files)
  {
    if files[0] == f {
      HeadDiffers(files);
      WithoutNone(files[1..], {f.path});
    } else {
      assert f in files[1..];
      TotalWithoutOne(files[1..], f);
      HeadDiffers(files);
      assert Without(files, {f.path})[1..] == Without(files[1..], {f.path});
    }
  }

  lemma {:induction false} TotalOfConcat(a: seq<LogFile>, b: seq<LogFile>)
    ensures Total(a + b) == Total(a) + Total(b)
  {
    if a == [] {
      assert a + b == b;
    } else {
      TotalOfConcat(a[1..], b);
      assert (a + b)[1..] == a[1..] + b;
    }
  }

  lemma TotalWithMiddle(b: seq<LogFile>, j: nat)
    requires j < |b|
    ensures Total(b) == b[j].size + Total(b[..j] + b[j + 1..])
  {
    var tail := [b[j]] + b[j + 1..];
    assert b == b[..j] + tail && tail[1..] == b[j + 1..];
    TotalOfConcat(b[..j], tail);
    TotalOfConcat(b[..j], b[j + 1..]);
  }

  lemma RestIsPermutation(a: seq<LogFile>, b: seq<LogFile>, j: nat)
    requires a != [] && multiset(a) == multiset(b) && j < |b| && b[j] == a[0]
    ensures multiset(a[1..]) == multiset(b[..j] + b[j + 1..])
  {
    assert a == [a[0]] + a[1..];
    assert multiset(a) == multiset{a[0]} + multiset(a[1..]);
    assert b == b[..j] + [b[j]] + b[j + 1..];
    assert multiset(b) == multiset(b[..j]) + multiset{b[j]} + multiset(b[j + 1..]);
    assert multiset(b[..j] + b[j + 1..]) == multiset(b) - multiset{a[0]};
  }

  /** The total does not depend on the order. */
  lemma {:induction false} TotalOfPermutation(a: seq<LogFile>, b: seq<LogFile>)
    requires multiset(a) == multiset(b)
    ensures Total(a) == Total(b)
  {
    if a == [] {
      assert |b| == |multiset(b)| == 0;
    } else {
      assert a[0] in multiset(b);
      var j :| 0 <= j < |b| && b[j] == a[0];
      RestIsPermutation(a, b, j);
      TotalOfPermutation(a[1..], b[..j] + b[j + 1..]);
      TotalWithMiddle(b, j);
    }
  }

  ghost predicate OldestFirst(files: seq<LogFile>) {
    forall i, j :: 0 <= i <= j < |files| ==> files[i].path.date <= files[j].path.date
  }

  method InsertByDate(sorted: seq<LogFile>, f: LogFile) returns (r: seq<LogFile>)
    requires OldestFirst(sorted)
    ensures OldestFirst(r) && multiset(r) == multiset(sorted) + multiset{f}
  {
    var at := |sorted|;
    while at > 0 && sorted[at - 1].path.date > f.path.date
      invariant 0 <= at <= |sorted|
      invariant forall j :: at <= j < |sorted| ==> sorted[j].path.date > f.path.date
    {
      at := at - 1;
    }
    InsertedInOrder(sorted, f, at);
    r := sorted[..at] + [f] + sorted[at..];
    assert multiset(r) == multiset(sorted) + multiset{f} by {
      assert sorted == sorted[..at] + sorted[at..];
    }
  }

  lemma InsertedInOrder(sorted: seq<LogFile>, f: LogFile, at: nat)
    requires at <= |sorted| && OldestFirst(sorted)
    requires at > 0 ==> sorted[at - 1].path.date <= f.path.date
    requires forall j :: at <= j < |sorted| ==> sorted[j].path.date > f.path.date
    ensures OldestFirst(sorted[..at] + [f] + sorted[at..])
  {
    var r := sorted[..at] + [f] + sorted[at..];
    forall i, j | 0 <= i <= j < |r|
      ensures r[i].path.date <= r[j].path.date
    {
      assert r[i] == if i < at then sorted[i] else if i == at then f else sorted[i - 1];
      assert r[j] == if j < at then sorted[j] else if j == at then f else sorted[j - 1];
      assert i < at ==> sorted[i].path.date <= sorted[at - 1].path.date;
    }
  }

  /** files.sort_by_key on the date */
  method SortByDate(files: seq<LogFile>) returns (r: seq<LogFile>)
    ensures OldestFirst(r) && multiset(r) == multiset(files)
  {
    r := [];
    for i := 0 to |files|
      invariant OldestFirst(r) && multiset(r) == multiset(files[..i])
    {
      assert files[..i + 1] == files[..i] + [files[i]];
      r := InsertByDate(r, files[i]);
    }
    assert files[..|files|] == files;
  }

  /** The files that may be deleted: all but the current one. */
  function Old(files: seq<LogFile>, current: LogPath): (r: seq<LogFile>)
    ensures forall f :: f in r <==> f in files && f.path != current
  {
    Without(files, {current})
  }

  function PathsOf(files: seq<LogFile>): set<LogPath> {
    set f | f in files :: f.path
  }

  predicate Fits(files: seq<LogFile>, incoming: nat) {
    Total(files) + incoming <= MAX_LOG_BYTES
  }

  /** The directory with the current file emptied. */
  function Truncated(files: seq<LogFile>, current: LogPath): (r: seq<LogFile>)
    ensures |r| == |files|
    ensures forall i :: 0 <= i < |files| ==>
              r[i] == LogFile(files[i].path, files[i].inode, if files[i].path == current then 0 else files[i].size)
  {
    if files == [] then []
    else [if files[0].path == current then files[0].(size := 0) else files[0]] + Truncated(files[1..], current)
  }

  lemma {:induction false} TruncatedTotal(files: seq<LogFile>, current: LogPath)
    ensures Total(Truncated(files, current)) <= Total(files)
    ensures (forall f :: f in files ==> f.path == current) ==> Total(Truncated(files, current)) == 0
  {
    if files != [] {
      TruncatedTotal(files[1..], current);
      assert Truncated(files, current)[1..] == Truncated(files[1..], current);
      assert forall f :: f in files[1..] ==> f in files;
    }
  }

  /** The directory after the `k` oldest deletable files went. */
  function AfterEvicting(files: seq<LogFile>, oldestFirst: seq<LogFile>, current: LogPath, k: nat): seq<LogFile>
    requires k <= |Old(oldestFirst, current)|
  {
    Without(files, PathsOf(Old(oldestFirst, current)[..k]))
  }

  /** A size pass: the shortest oldest-first prefix of the old files that makes
      the record fit is gone; only if none does, all are gone and the current
      file is emptied. */
  ghost predicate Enforced(before: seq<LogFile>, after: seq<LogFile>, oldestFirst: seq<LogFile>, current: LogPath,
                           incoming: nat, k: nat)
  {
    && k <= |Old(oldestFirst, current)|
    && (forall j :: 0 <= j < k ==> !Fits(AfterEvicting(before, oldestFirst, current, j), incoming))
    && (if Fits(AfterEvicting(before, oldestFirst, current, k), incoming)
        then after == AfterEvicting(before, oldestFirst, current, k)
        else k == |Old(oldestFirst, current)|
             && after == Truncated(AfterEvicting(before, oldestFirst, current, k), current))
  }

  // ----- the pass ----------------------------------------------------------

  lemma OldTakesOneMore(sorted: seq<LogFile>, current: LogPath, i: nat)
    requires i < |sorted|
    ensures Old(sorted[..i + 1], current)
         == Old(sorted[..i], current) + (if sorted[i].path == current then [] else [sorted[i]])
  {
    assert sorted[..i + 1] == sorted[..i] + [sorted[i]];
    WithoutOfConcat(sorted[..i], [sorted[i]], {current});
  }

  lemma {:induction false} WithoutOfConcat(a: seq<LogFile>, b: seq<LogFile>, gone: set<LogPath>)
    ensures Without(a + b, gone) == Without(a, gone) + Without(b, gone)
  {
    if a == [] {
      assert a + b == b;
    } else {
      assert (a + b)[1..] == a[1..] + b;
      WithoutOfConcat(a[1..], b, gone);
    }
  }

  /** The old files of a prefix are a prefix of the old files. */
  lemma OldOfPrefix(sorted: seq<LogFile>, current: LogPath, i: nat)
    requires i <= |sorted|
    ensures |Old(sorted[..i], current)| <= |Old(sorted, current)|
    ensures Old(sorted[..i], current) == Old(sorted, current)[..|Old(sorted[..i], current)|]
  {
    assert sorted == sorted[..i] + sorted[i..];
    WithoutOfConcat(sorted[..i], sorted[i..], {current});
  }

  /** The record did not fit before any of these files went. */
  ghost predicate NeverFit(before: seq<LogFile>, gone: seq<LogFile>, incoming: nat) {
    forall j :: 0 <= j < |gone| ==> !Fits(Without(before, PathsOf(gone[..j])), incoming)
  }

  /** Where the eviction loop is after `i` files: the old ones among them are
      gone, and the record did not fit before any of them went. */
  ghost predicate Evicting(before: seq<LogFile>, files: seq<LogFile>, sorted: seq<LogFile>, current: LogPath,
                           incoming: nat, i: nat, total: nat)
  {
    && i <= |sorted|
    && files == Without(before, PathsOf(Old(sorted[..i], current)))
    && total == Total(files) && DistinctPaths(files)
    && NeverFit(before, Old(sorted[..i], current), incoming)
  }

  lemma EvictingBegins(before: seq<LogFile>, sorted: seq<LogFile>, current: LogPath, incoming: nat)
    requires DistinctPaths(before) && multiset(sorted) == multiset(before)
    ensures Evicting(before, before, sorted, current, incoming, 0, Total(sorted))
  {
    TotalOfPermutation(sorted, before);
    WithoutNone(before, PathsOf(Old(sorted[..0], current)));
  }

  lemma EvictingSkips(before: seq<LogFile>, files: seq<LogFile>, sorted: seq<LogFile>, current: LogPath,
                      incoming: nat, i: nat, total: nat)
    requires Evicting(before, files, sorted, current, incoming, i, total) && i < |sorted| && sorted[i].path == current
    ensures Evicting(before, files, sorted, current, incoming, i + 1, total)
  {
    OldTakesOneMore(sorted, current, i);
    assert Old(sorted[..i + 1], current) == Old(sorted[..i], current);
  }

  lemma EvictingRemoves(before: seq<LogFile>, files: seq<LogFile>, sorted: seq<LogFile>, current: LogPath,
                        incoming: nat, i: nat, total: nat)
    requires Evicting(before, files, sorted, current, incoming, i, total) && i < |sorted| && sorted[i].path != current
    requires DistinctPaths(before) && DistinctPaths(sorted) && multiset(sorted) == multiset(before) && !Fits(files, incoming)
    ensures total >= sorted[i].size
    ensures Evicting(before, Without(files, {sorted[i].path}), sorted, current, incoming, i + 1, total - sorted[i].size)
  {
    var f := sorted[i];
    var gone := PathsOf(Old(sorted[..i], current));
    OldTakesOneMore(sorted, current, i);
    assert PathsOf(Old(sorted[..i + 1], current)) == gone + {f.path};
    WithoutTwice(before, gone, {f.path});
    StillListed(before, files, sorted, current, i);
    TotalWithoutOne(files, f);
    WithoutKeepsDistinct(files, {f.path});
    DidNotFitBefore(before, sorted, current, incoming, i);
  }

  lemma StillListed(before: seq<LogFile>, files: seq<LogFile>, sorted: seq<LogFile>, current: LogPath, i: nat)
    requires i < |sorted| && files == Without(before, PathsOf(Old(sorted[..i], current)))
    requires DistinctPaths(sorted) && multiset(sorted) == multiset(before)
    ensures sorted[i] in files
  {
    var f := sorted[i];
    assert f in multiset(sorted);
    assert f in before;
    forall g | g in Old(sorted[..i], current)
      ensures g.path != f.path
    {
      assert g in sorted[..i];
    }
  }

  lemma DidNotFitBefore(before: seq<LogFile>, sorted: seq<LogFile>, current: LogPath, incoming: nat, i: nat)
    requires i < |sorted| && sorted[i].path != current
    requires !Fits(Without(before, PathsOf(Old(sorted[..i], current))), incoming)
    requires NeverFit(before, Old(sorted[..i], current), incoming)
    ensures NeverFit(before, Old(sorted[..i + 1], current), incoming)
  {
    OldTakesOneMore(sorted, current, i);
    var fewer, more := Old(sorted[..i], current), Old(sorted[..i + 1], current);
    forall j | 0 <= j < |more|
      ensures !Fits(Without(before, PathsOf(more[..j])), incoming)
    {
      if j < |fewer| {
        assert more[..j] == fewer[..j];
      } else {
        assert more[..j] == fewer;
      }
    }
  }

  lemma EvictingEnforces(before: seq<LogFile>, files: seq<LogFile>, sorted: seq<LogFile>, current: LogPath,
                         incoming: nat, i: nat, total: nat, k: nat)
    requires Evicting(before, files, sorted, current, incoming, i, total) && k == |Old(sorted[..i], current)|
    requires Fits(files, incoming) || i == |sorted|
    ensures Enforced(before, if Fits(files, incoming) then files else Truncated(files, current), sorted, current, incoming, k)
  {
    OldOfPrefix(sorted, current, i);
    var gone, all := Old(sorted[..i], current), Old(sorted, current);
    assert gone == gone[..k] && all[..k] == gone;
    assert i == |sorted| ==> sorted[..i] == sorted;
    forall j | 0 <= j < k
      ensures !Fits(AfterEvicting(before, sorted, current, j), incoming)
    {
      assert all[..j] == gone[..j];
    }
  }

  /** No file is as old as MAX_LOG_AGE_DAYS days. */
  ghost predicate NoneTooOld(files: seq<LogFile>, today: int) {
    forall f :: f in files ==> today - f.path.date < MAX_LOG_AGE_DAYS
  }

  /** What a size pass means: nothing happens to a directory with room; files go
      oldest first; the last to go was needed; and the current file is emptied
      only as the last one left, when even so the record does not fit. */
  ghost predicate RoomMade(before: seq<LogFile>, after: seq<LogFile>, current: LogPath, incoming: nat) {
    && (Total(before) + incoming <= MAX_LOG_BYTES ==> after == before)
    && (forall f :: f in after && f.path != current ==> f in before)
    && (forall f, g :: f in before && f !in after && g in after && f.path != current && g.path != current ==>
          f.path.date <= g.path.date)
    && (forall f :: f in before && f.path == current ==>
          f in after || (f.size + incoming > MAX_LOG_BYTES && after == [f.(size := 0)]))
    && (forall f :: f in before && f !in after && f.path != current ==> LastWasNeeded(before, after, current, incoming))
  }

  /** Some old file went that would not have fitted with what is left. */
  ghost predicate LastWasNeeded(before: seq<LogFile>, after: seq<LogFile>, current: LogPath, incoming: nat) {
    exists f :: f in before && f !in after && (f.path == current || Total(after) + f.size + incoming > MAX_LOG_BYTES)
  }

  lemma {:induction false} WithoutKeepsOrder(files: seq<LogFile>, gone: set<LogPath>)
    requires OldestFirst(files)
    ensures OldestFirst(Without(files, gone))
  {
    if files != [] {
      WithoutKeepsOrder(files[1..], gone);
      var rest := Without(files[1..], gone);
      forall k | 0 <= k < |rest|
        ensures files[0].path.date <= rest[k].path.date
      {
        assert rest[k] in files[1..];
      }
    }
  }

  /** An old file is among the deletable ones before `k` exactly if it went. */
  lemma GoneOrKept(before: seq<LogFile>, oldestFirst: seq<LogFile>, current: LogPath, k: nat, f: LogFile)
    requires k <= |Old(oldestFirst, current)|
    requires DistinctPaths(before) && multiset(oldestFirst) == multiset(before) && f in before && f.path != current
    ensures f in AfterEvicting(before, oldestFirst, current, k) <==> f in Old(oldestFirst, current)[k..]
    ensures f !in AfterEvicting(before, oldestFirst, current, k) <==> f in Old(oldestFirst, current)[..k]
  {
    var all := Old(oldestFirst, current);
    assert f in multiset(oldestFirst);
    assert f in all;
    PermutedPathsDistinct(before, oldestFirst);
    WithoutKeepsDistinct(oldestFirst, {current});
    assert DistinctPaths(all);
    assert all == all[..k] + all[k..];
    if f.path in PathsOf(all[..k]) {
      var g :| g in all[..k] && g.path == f.path;
      assert g == f;
    }
  }

  lemma EnforcedMakesRoom(before: seq<LogFile>, after: seq<LogFile>, oldestFirst: seq<LogFile>, current: LogPath,
                          incoming: nat, k: nat)
    requires DistinctPaths(before) && OldestFirst(oldestFirst) && multiset(oldestFirst) == multiset(before)
    requires Enforced(before, after, oldestFirst, current, incoming, k) && incoming <= MAX_LOG_BYTES
    ensures RoomMade(before, after, current, incoming)
  {
    var all := Old(oldestFirst, current);
    var kept := AfterEvicting(before, oldestFirst, current, k);
    assert Fits(before, incoming) ==> k == 0 && after == before by {
      WithoutNone(before, PathsOf(all[..0]));
      assert AfterEvicting(before, oldestFirst, current, 0) == before;
    }
    WithoutKeepsOrder(oldestFirst, {current});
    if !Fits(kept, incoming) {
      OnlyCurrentIsEmptied(before, after, oldestFirst, current, incoming, k);
    }
    forall f, g | f in before && f !in after && g in after && f.path != current && g.path != current
      ensures f.path.date <= g.path.date
    {
      GoneOrKept(before, oldestFirst, current, k, f);
      GoneOrKept(before, oldestFirst, current, k, g);
      assert exists i :: 0 <= i < k && all[i] == f;
      assert exists j :: k <= j < |all| && all[j] == g;
    }
    forall f | f in before && f !in after && f.path != current
      ensures LastWasNeeded(before, after, current, incoming)
    {
      if Fits(kept, incoming) {
        GoneOrKept(before, oldestFirst, current, k, f);
        LastEvicted(before, oldestFirst, current, incoming, k);
      }
    }
  }

  lemma SecondDiffers(files: seq<LogFile>)
    requires DistinctPaths(files)
    ensures |files| > 1 ==> files[1] in files && files[1].path != files[0].path
  {
  }

  /** The current file is emptied only when nothing else is left. */
  lemma OnlyCurrentIsEmptied(before: seq<LogFile>, after: seq<LogFile>, oldestFirst: seq<LogFile>, current: LogPath,
                             incoming: nat, k: nat)
    requires DistinctPaths(before) && multiset(oldestFirst) == multiset(before)
    requires Enforced(before, after, oldestFirst, current, incoming, k) && incoming <= MAX_LOG_BYTES
    requires !Fits(AfterEvicting(before, oldestFirst, current, k), incoming)
    ensures exists f :: f in before && f.path == current && after == [f.(size := 0)] && f.size + incoming > MAX_LOG_BYTES
  {
    var kept := AfterEvicting(before, oldestFirst, current, k);
    var all := Old(oldestFirst, current);
    assert all[..k] == all;
    forall f | f in kept
      ensures f.path == current
    {
      assert f in multiset(before);
      assert f in oldestFirst;
      assert f in all <==> f.path != current;
    }
    WithoutKeepsDistinct(before, PathsOf(all));
    assert kept[0] in kept;
    var f := kept[0];
    SecondDiffers(kept);
    assert kept[1..] == [];
    assert Total(kept) == f.size;
    assert |after| == 1 && after[0] == f.(size := 0);
    assert f in before && f.path == current && after == [f.(size := 0)];
  }

  /** Without the last one that went the record would not have fitted. */
  lemma LastEvicted(before: seq<LogFile>, oldestFirst: seq<LogFile>, current: LogPath, incoming: nat, k: nat)
    requires DistinctPaths(before) && multiset(oldestFirst) == multiset(before)
    requires 0 < k <= |Old(oldestFirst, current)|
    requires !Fits(AfterEvicting(before, oldestFirst, current, k - 1), incoming)
    ensures LastWasNeeded(before, AfterEvicting(before, oldestFirst, current, k), current, incoming)
  {
    var all := Old(oldestFirst, current);
    var f := all[k - 1];
    assert f in all && f in oldestFirst && f in multiset(before);
    var sooner := AfterEvicting(before, oldestFirst, current, k - 1);
    PermutedPathsDistinct(before, oldestFirst);
    WithoutKeepsDistinct(oldestFirst, {current});
    assert f in all[k - 1..] && f in all[..k];
    GoneOrKept(before, oldestFirst, current, k - 1, f);
    GoneOrKept(before, oldestFirst, current, k, f);
    WithoutKeepsDistinct(before, PathsOf(all[..k - 1]));
    TotalWithoutOne(sooner, f);
    assert all[..k] == all[..k - 1] + [f];
    assert PathsOf(all[..k]) == PathsOf(all[..k - 1]) + {f.path};
    WithoutTwice(before, PathsOf(all[..k - 1]), {f.path});
  }

  /** The log directory, shared by all writers under the lock file. Only with
      `faults` do filesystem calls fail. */
  class LogDirectory {
    const faults: bool
    var files: seq<LogFile>
    var nextInode: nat

    ghost predicate Valid()
      reads this
    {
      DistinctPaths(files) && forall f :: f in files ==> f.inode < nextInode
    }

    constructor (faults: bool, files: seq<LogFile>, nextInode: nat)
      requires DistinctPaths(files) && forall f :: f in files ==> f.inode < nextInode
      ensures Valid() && this.files == files && this.faults == faults
    {
      this.faults := faults;
      this.files := files;
      this.nextInode := nextInode;
    }

    /** Whether the next filesystem call fails. */
    method Fails() returns (fails: bool)
      ensures fails ==> faults
    {
      fails := *;
      fails := fails && faults;
    }

    /** A filesystem call may fail and change nothing. */
    method RemoveFile(path: LogPath) returns (r: Result<()>)
      requires Valid()
      modifies this`files
      ensures Valid() && (!faults ==> r.Success?)
      ensures files == if r.Success? then Without(old(files), {path}) else old(files)
    {
      WithoutKeepsDistinct(files, {path});
      var fails := Fails();
      if fails {
        return Failure(OsError);
      }
      files := Without(files, {path});
      return Success(());
    }

    /** Emptying the current file, which need not exist. */
    method Truncate(current: LogPath) returns (r: Result<()>)
      requires Valid()
      modifies this`files
      ensures Valid() && (!faults ==> r.Success?)
      ensures files == if r.Success? then Truncated(old(files), current) else old(files)
    {
      var fails := Fails();
      if fails {
        return Failure(OsError);
      }
      files := Truncated(files, current);
      assert forall f :: f in files ==> exists i :: 0 <= i < |files| && files[i] == f;
      return Success(());
    }

    /** prune_expired_log_files */
    method PruneExpiredLogFiles(today: int) returns (r: Result<()>)
      requires Valid()
      modifies this`files
      ensures Valid() && Total(files) <= Total(old(files)) && (!faults ==> r.Success?)
      ensures forall f :: f in files ==> f in old(files)
      ensures forall f :: f in old(files) && today - f.path.date < MAX_LOG_AGE_DAYS ==> f in files
      ensures r.Success? ==> NoneTooOld(files, today)
      ensures r.Success? ==> files == Without(old(files), Expired(old(files), today))
    {
      ghost var before := files;
      var listing := files;
      WithoutNone(before, Expired(listing[..0], today));
      assert files == Without(before, Expired(listing[..0], today));
      for i := 0 to |listing|
        invariant Valid() && files == Without(before, Expired(listing[..i], today))
      {
        PruneStep(before, listing, i, today);
        if IsExpired(listing[i], today) {
          var _ :- RemoveFile(listing[i].path);
        }
      }
      assert listing[..|listing|] == listing;
      WithoutTotal(before, Expired(listing, today));
      return Success(());
    }

    /** enforce_log_size_limit */
    method EnforceLogSizeLimit(today: int, incoming: nat) returns (r: Result<()>, ghost oldestFirst: seq<LogFile>, ghost k: nat)
      requires Valid() && incoming <= MAX_LOG_BYTES
      modifies this`files
      ensures Valid() && Total(files) <= Total(old(files)) && (!faults ==> r.Success?)
      ensures OldestFirst(oldestFirst) && multiset(oldestFirst) == multiset(old(files))
      ensures r.Success? ==> Enforced(old(files), files, oldestFirst, CurrentLog(today), incoming, k)
      ensures r.Success? ==> Fits(files, incoming) && RoomMade(old(files), files, CurrentLog(today), incoming)
      ensures forall f :: f in files ==> exists g :: g in old(files) && g.path == f.path
    {
      ghost var before := files;
      var current := CurrentLog(today);
      var sorted := SortByDate(files);
      oldestFirst := sorted;
      k := 0;
      var total: nat := Total(sorted);
      PermutedPathsDistinct(before, sorted);
      EvictingBegins(before, sorted, current, incoming);
      for i := 0 to |sorted|
        invariant Valid() && Evicting(before, files, sorted, current, incoming, i, total)
        invariant Total(files) <= Total(before)
      {
        if total + incoming <= MAX_LOG_BYTES {
          k := |Old(sorted[..i], current)|;
          EvictingEnforces(before, files, sorted, current, incoming, i, total, k);
          EnforcedMakesRoom(before, files, sorted, current, incoming, k);
          return Success(()), oldestFirst, k;
        }
        if sorted[i].path != current {
          EvictingRemoves(before, files, sorted, current, incoming, i, total);
          var removed := RemoveFile(sorted[i].path);
          if removed.Failure? {
            return Failure(removed.error), oldestFirst, k;
          }
          total := total - sorted[i].size;
        } else {
          EvictingSkips(before, files, sorted, current, incoming, i, total);
        }
      }
      k := |Old(sorted[..|sorted|], current)|;
      EvictingEnforces(before, files, sorted, current, incoming, |sorted|, total, k);
      r := Success(());
      if total + incoming > MAX_LOG_BYTES {
        OnlyCurrentLeft(before, files, sorted, current, incoming, total);
        TruncatedTotal(files, current);
        r := Truncate(current);
      }
      if r.Success? {
        EnforcedMakesRoom(before, files, sorted, current, incoming, k);
      }
    }

    /** run_log_maintenance */
    method RunLogMaintenance(today: int, incoming: nat) returns (r: Result<()>)
      requires Valid() && incoming <= MAX_LOG_BYTES
      modifies this`files
      ensures Valid() && Total(files) <= Total(old(files)) && (!faults ==> r.Success?)
      ensures r.Success? ==> Fits(files, incoming) && NoneTooOld(files, today)
    {
      r := PruneExpiredLogFiles(today);
      if r.Success? {
        ghost var oldestFirst;
        ghost var k;
        r, oldestFirst, k := EnforceLogSizeLimit(today, incoming);
      }
    }
  }

  predicate IsExpired(f: LogFile, today: int) {
    f.path.date < today - (MAX_LOG_AGE_DAYS - 1)
  }

  function Expired(files: seq<LogFile>, today: int): set<LogPath> {
    set f | f in files && IsExpired(f, today) :: f.path
  }

  lemma PruneStep(before: seq<LogFile>, listing: seq<LogFile>, i: nat, today: int)
    requires i < |listing|
    ensures
      var done := Without(before, Expired(listing[..i], today));
      && Total(done) <= Total(before)
      && Without(before, Expired(listing[..i + 1], today))
         == if IsExpired(listing[i], today) then Without(done, {listing[i].path}) else done
  {
    var gone := Expired(listing[..i], today);
    assert listing[..i + 1] == listing[..i] + [listing[i]];
    assert Expired(listing[..i + 1], today) == gone + (if IsExpired(listing[i], today) then {listing[i].path} else {});
    WithoutTotal(before, gone);
    WithoutTwice(before, gone, {listing[i].path});
  }

  lemma PermutedPathsDistinct(a: seq<LogFile>, b: seq<LogFile>)
    requires DistinctPaths(a) && multiset(a) == multiset(b)
    ensures DistinctPaths(b)
  {
    forall i, j | 0 <= i < j < |b|
      ensures b[i].path != b[j].path
    {
      assert b[i] in multiset(b) && b[j] in multiset(b);
      assert b[i] in a && b[j] in a;
      if b[i] == b[j] {
        RepeatedCountsTwice(b, i, j);
        FileCountsOnce(a, b[i]);
      }
    }
  }

  lemma RepeatedCountsTwice(b: seq<LogFile>, i: nat, j: nat)
    requires i < j < |b| && b[i] == b[j]
    ensures multiset(b)[b[i]] >= 2
  {
    assert b == b[..j] + [b[j]] + b[j + 1..];
    assert b[..j][i] == b[i];
    assert b[i] in b[..j];
  }

  lemma {:induction false} FileCountsOnce(a: seq<LogFile>, f: LogFile)
    requires DistinctPaths(a)
    ensures multiset(a)[f] <= 1
  {
    if a != [] {
      FileCountsOnce(a[1..], f);
      assert a == [a[0]] + a[1..];
      if a[0] == f {
        HeadDiffers(a);
        assert f !in a[1..];
      }
    }
  }

  /** Once every old file is gone only the current one can be left. */
  lemma OnlyCurrentLeft(before: seq<LogFile>, files: seq<LogFile>, sorted: seq<LogFile>, current: LogPath,
                        incoming: nat, total: nat)
    requires Evicting(before, files, sorted, current, incoming, |sorted|, total) && multiset(sorted) == multiset(before)
    ensures forall f :: f in files ==> f.path == current
  {
    assert sorted[..|sorted|] == sorted;
    forall f | f in files
      ensures f.path == current
    {
      assert f in multiset(before);
      assert f in sorted;
      assert f in Old(sorted, current) <==> f.path != current;
    }
  }
}
