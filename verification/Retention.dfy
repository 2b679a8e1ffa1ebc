/** Backup retention (src/auth.rs, cleanup_old_backups): of the managed backups
    beside the live file, all but the three with the greatest (stamp, nonce)
    keys are removed, each bound to the exact file that was listed. */
module Retention {
  import opened Namespace
  import opened BackupNames
  import opened BoundPath

  const MAX_BACKUPS := 3

  /** String ordering, character by character. */
  predicate StringLess(a: string, b: string) {
    b != "" && (a == "" || a[0] < b[0] || (a[0] == b[0] && StringLess(a[1..], b[1..])))
  }

  predicate KeyLess(a: SortKey, b: SortKey) {
    a.stamp < b.stamp || (a.stamp == b.stamp && StringLess(a.nonce, b.nonce))
  }

  function KeyOf(stem: string, p: Path): Option<SortKey> {
    if p.Named? then ManagedBackupSortKey(stem, p.name) else None
  }

  /** The managed backups that rank above `p`. */
  function Above(stem: string, n: Names, p: Path): set<Path> {
    set q | q in n && KeyOf(stem, q).Some? && KeyOf(stem, p).Some? && KeyLess(KeyOf(stem, p).value, KeyOf(stem, q).value)
  }

  predicate Outranked(stem: string, n: Names, p: Path) {
    KeyOf(stem, p).Some? && |Above(stem, n, p)| >= MAX_BACKUPS
  }

  lemma {:induction false} StringLessTotal(a: string, b: string)
    ensures a != b ==> (StringLess(a, b) <==> !StringLess(b, a))
    ensures !StringLess(a, a)
  {
    if a != "" {
      StringLessTotal(a[1..], a[1..]);
    }
    if a != "" && b != "" {
      StringLessTotal(a[1..], b[1..]);
      assert a == [a[0]] + a[1..] && b == [b[0]] + b[1..];
    }
  }

  /** At the first place where they differ, the smaller one has ended or has the
      smaller character. */
  predicate DifferFirstAt(a: string, b: string, i: nat) {
    i <= |a| && i < |b| && a[..i] == b[..i] && (i == |a| || a[i] < b[i])
  }

  lemma AgreeBefore(a: string, b: string, i: nat)
    requires DifferFirstAt(a, b, i)
    ensures i > 0 ==> a != "" && b != "" && a[0] == b[0]
  {
    if i > 0 {
      assert a[0] == a[..i][0] && b[0] == b[..i][0];
    }
  }

  lemma {:induction false} StringLessIff(a: string, b: string)
    ensures StringLess(a, b) <==> exists i: nat :: DifferFirstAt(a, b, i)
  {
    if a == "" || b == "" || a[0] != b[0] {
      assert b != "" && (a == "" || a[0] < b[0]) ==> DifferFirstAt(a, b, 0);
      forall i: nat | DifferFirstAt(a, b, i)
        ensures i == 0
      {
        AgreeBefore(a, b, i);
      }
    } else {
      StringLessIff(a[1..], b[1..]);
      forall i: nat | DifferFirstAt(a[1..], b[1..], i)
        ensures DifferFirstAt(a, b, i + 1)
      {
        assert a[..i + 1] == [a[0]] + a[1..][..i] && b[..i + 1] == [b[0]] + b[1..][..i];
      }
      forall i: nat | DifferFirstAt(a, b, i)
        ensures i > 0 && DifferFirstAt(a[1..], b[1..], i - 1)
      {
        assert a[1..][..i - 1] == a[..i][1..] && b[1..][..i - 1] == b[..i][1..];
      }
    }
  }

  /** Of two backups the one with the greater stamp ranks above; of equal stamps,
      the one whose nonce comes later. */
  lemma RankIff(stem: string, n: Names, p: Path, q: Path)
    requires KeyOf(stem, p).Some? && KeyOf(stem, q).Some?
    ensures
      var a, b := KeyOf(stem, p).value, KeyOf(stem, q).value;
      q in Above(stem, n, p)
      <==> q in n && (b.stamp > a.stamp || (b.stamp == a.stamp && exists i: nat :: DifferFirstAt(a.nonce, b.nonce, i)))
  {
    StringLessIff(KeyOf(stem, p).value.nonce, KeyOf(stem, q).value.nonce);
  }

  lemma {:induction false} StringLessTransitive(a: string, b: string, c: string)
    requires StringLess(a, b) && StringLess(b, c)
    ensures StringLess(a, c)
  {
    if a != "" && a[0] == b[0] == c[0] {
      StringLessTransitive(a[1..], b[1..], c[1..]);
    }
  }

  lemma KeyLessTransitive(a: SortKey, b: SortKey, c: SortKey)
    requires KeyLess(a, b) && KeyLess(b, c)
    ensures KeyLess(a, c)
  {
    if a.stamp == b.stamp == c.stamp {
      StringLessTransitive(a.nonce, b.nonce, c.nonce);
    }
  }

  lemma KeyLessAsymmetric(a: SortKey, b: SortKey)
    requires KeyLess(a, b)
    ensures !KeyLess(b, a) && a != b
  {
    StringLessTotal(a.nonce, b.nonce);
  }

  /** Two names never share a key. */
  lemma KeyNamesOne(stem: string, p: Path, q: Path)
    requires KeyOf(stem, p).Some? && KeyOf(stem, p) == KeyOf(stem, q)
    ensures p == q
  {
    var key := KeyOf(stem, p).value;
    KeyInvertsBackupName(stem, p.name, key.stamp, key.nonce);
    KeyInvertsBackupName(stem, q.name, key.stamp, key.nonce);
  }

  datatype Entry = Entry(key: SortKey, path: Path, token: FileToken)

  ghost predicate Ascending(entries: seq<Entry>) {
    forall i, j :: 0 <= i < j < |entries| ==> KeyLess(entries[i].key, entries[j].key)
  }

  ghost predicate Listed(stem: string, n: Names, entries: seq<Entry>) {
    forall e :: e in entries ==> At(n, e.path) == Some(e.token) && KeyOf(stem, e.path) == Some(e.key)
  }

  ghost predicate DistinctPaths(entries: seq<Entry>) {
    forall i, j :: 0 <= i < j < |entries| ==> entries[i].path != entries[j].path
  }

  /** Position at which `e` enters an ascending list. */
  method InsertByKey(sorted: seq<Entry>, e: Entry) returns (r: seq<Entry>)
    requires Ascending(sorted)
    requires forall x :: x in sorted ==> x.key != e.key
    ensures Ascending(r)
    ensures multiset(r) == multiset(sorted) + multiset{e}
  {
    var i := 0;
    while i < |sorted| && KeyLess(sorted[i].key, e.key)
      invariant 0 <= i <= |sorted|
      invariant forall j :: 0 <= j < i ==> KeyLess(sorted[j].key, e.key)
    {
      i := i + 1;
    }
    r := sorted[..i] + [e] + sorted[i..];
    assert sorted == sorted[..i] + sorted[i..];
    if i < |sorted| {
      StringLessTotal(sorted[i].key.nonce, e.key.nonce);
      assert sorted[i] in sorted;
    }
    InsertedAscending(sorted, e, i);
  }

  lemma InsertedAscending(sorted: seq<Entry>, e: Entry, at: nat)
    requires Ascending(sorted) && at <= |sorted|
    requires forall j :: 0 <= j < at ==> KeyLess(sorted[j].key, e.key)
    requires at < |sorted| ==> KeyLess(e.key, sorted[at].key)
    ensures Ascending(sorted[..at] + [e] + sorted[at..])
  {
    var r := sorted[..at] + [e] + sorted[at..];
    forall j | at < j < |sorted|
      ensures KeyLess(e.key, sorted[j].key)
    {
      KeyLessTransitive(e.key, sorted[at].key, sorted[j].key);
    }
    forall i, j | 0 <= i < j < |r|
      ensures KeyLess(r[i].key, r[j].key)
    {
      assert r[i] == if i < at then sorted[i] else if i == at then e else sorted[i - 1];
      assert r[j] == if j < at then sorted[j] else if j == at then e else sorted[j - 1];
    }
  }

  /** backups.sort_by on the keys */
  method SortByKey(entries: seq<Entry>) returns (r: seq<Entry>)
    requires forall i, j :: 0 <= i < j < |entries| ==> entries[i].key != entries[j].key
    ensures Ascending(r) && multiset(r) == multiset(entries)
  {
    r := [];
    for i := 0 to |entries|
      invariant Ascending(r) && multiset(r) == multiset(entries[..i])
    {
      assert entries[..i + 1] == entries[..i] + [entries[i]];
      forall x | x in r
        ensures x.key != entries[i].key
      {
        assert x in multiset(entries[..i]);
      }
      r := InsertByKey(r, entries[i]);
    }
    assert entries[..|entries|] == entries;
  }

  /** In an ascending list the last three rank above every earlier one. */
  lemma EarlyEntriesOutranked(stem: string, n: Names, entries: seq<Entry>, i: nat)
    requires Ascending(entries) && Listed(stem, n, entries) && i + MAX_BACKUPS < |entries|
    ensures Outranked(stem, n, entries[i].path)
  {
    var k := |entries|;
    var top := {entries[k - 1].path, entries[k - 2].path, entries[k - 3].path};
    forall j | k - 3 <= j < k
      ensures entries[j].path in Above(stem, n, entries[i].path)
    {
      assert entries[j] in entries && entries[i] in entries;
    }
    assert top <= Above(stem, n, entries[i].path);
    StringLessTotal(entries[k - 1].key.nonce, entries[k - 1].key.nonce);
    StringLessTotal(entries[k - 2].key.nonce, entries[k - 2].key.nonce);
    StringLessTotal(entries[k - 3].key.nonce, entries[k - 3].key.nonce);
    assert entries[k - 1] in entries && entries[k - 2] in entries && entries[k - 3] in entries;
    assert KeyLess(entries[k - 3].key, entries[k - 2].key) && KeyLess(entries[k - 2].key, entries[k - 1].key);
    assert KeyLess(entries[k - 3].key, entries[k - 1].key);
    SubsetCardinality(top, Above(stem, n, entries[i].path));
    assert |top| == 3;
  }

  lemma {:induction false} SubsetCardinality<T>(a: set<T>, b: set<T>)
    requires a <= b
    ensures |a| <= |b|
  {
    if a != {} {
      var x :| x in a;
      SubsetCardinality(a - {x}, b - {x});
    }
  }

  /** What retention may do to a directory that held `n0` when it began. */
  ghost predicate RetentionEvent(stem: string, n0: Names, e: Event) {
    match e
    case Saw(_, _) => true
    case Renamed(a, b, _) => (b.Quarantine? && Outranked(stem, n0, a)) || (a.Quarantine? && Outranked(stem, n0, b))
    case Unlinked(p, f) => p.Quarantine? && exists a :: a in n0 && Outranked(stem, n0, a) && n0[a] == f
    case _ => false
  }

  /** `n` is `n0` less some outranked backups. */
  ghost predicate Pruned(stem: string, n0: Names, n: Names, draws: nat) {
    forall p :: Drawn(p, draws) ==> At(n, p) == At(n0, p) || (p !in n && Outranked(stem, n0, p))
  }

  /** How far a retention pass begun in `w0` may have taken the world. */
  ghost predicate Retaining(stem: string, w0: World, w: World) {
    && Valid(w) && Onward(w0, w) && Accounted(w0, w, w0.env.contested)
    && (forall p :: p != w0.env.contested && Drawn(p, w0.draws) ==>
          At(w.names, p) == At(w0.names, p) || (p !in w.names && Outranked(stem, w0.names, p)))
    && (forall i :: |w0.history| <= i < |w.history| ==> RetentionEvent(stem, w0.names, w.history[i]))
    && (!w0.env.foreign ==>
          && w.owed == w0.owed
          && Pruned(stem, w0.names, w.names, w0.draws)
          && (w0.survivors == {w0.names} ==> forall s :: s in w.survivors ==> Pruned(stem, w0.names, s, w0.draws)))
  }

  lemma RetainingBetween(stem: string, w0: World, w: World, v: World)
    requires Retaining(stem, w0, w) && Valid(v) && Between(w, v) && OnlySaw(w, v)
    ensures Retaining(stem, w0, v)
  {
  }

  lemma RetainingDrops(stem: string, w0: World, w: World, v: World, path: Path, token: FileToken, dropped: bool)
    requires Retaining(stem, w0, w) && DropEffect(w, v, path, token, dropped)
    requires Drawn(path, w0.draws) && Outranked(stem, w0.names, path) && At(w0.names, path) == Some(token)
    ensures Retaining(stem, w0, v)
  {
    forall p | p != w0.env.contested && Drawn(p, w0.draws)
      ensures At(v.names, p) == At(w0.names, p) || (p !in v.names && Outranked(stem, w0.names, p))
    {
      assert p == path || At(v.names, p) == At(w.names, p);
    }
    forall i | |w0.history| <= i < |v.history|
      ensures RetentionEvent(stem, w0.names, v.history[i])
    {
      if i < |w.history| {
        assert v.history[i] == w.history[i];
      } else {
        assert DropEvent(path, token, v.history[i]);
      }
    }
    if !w0.env.foreign {
      PrunedFurther(stem, w0.names, w.names, v.names, path, w0.draws, w.draws);
      if w0.survivors == {w0.names} {
        forall s | s in v.survivors
          ensures Pruned(stem, w0.names, s, w0.draws)
        {
          var s0 :| s0 in w.survivors && MayLack(s0, s, path, w.draws);
          PrunedFurther(stem, w0.names, s0, s, path, w0.draws, w.draws);
        }
      }
    }
  }

  lemma PrunedFurther(stem: string, n0: Names, n: Names, m: Names, path: Path, draws0: nat, draws: nat)
    requires Pruned(stem, n0, n, draws0) && MayLack(n, m, path, draws) && draws0 <= draws
    requires Outranked(stem, n0, path)
    ensures Pruned(stem, n0, m, draws0)
  {
    forall p | Drawn(p, draws0)
      ensures At(m, p) == At(n0, p) || (p !in m && Outranked(stem, n0, p))
    {
      assert Drawn(p, draws);
      assert p != path ==> At(m, p) == At(n, p);
    }
  }

  function PathsOf(entries: seq<Entry>): set<Path> {
    set e | e in entries :: e.path
  }

  /** One canonical backup, bound to its present file if that can be read. */
  method BindBackup(disk: Disk, stem: string, path: Path) returns (bound: Option<Entry>)
    requires Valid(disk.w) && disk.w.env.contested == Named(stem) && KeyOf(stem, path).Some?
    modifies disk
    ensures Valid(disk.w) && Between(old(disk.w), disk.w) && OnlySaw(old(disk.w), disk.w)
    ensures bound.Some? ==> path != Named(stem) && bound.value.path == path && Listed(stem, old(disk.w).names, [bound.value])
    ensures !disk.w.env.faults && !old(disk.w).stopped && path in old(disk.w).names ==> bound.Some?
  {
    ghost var w0 := disk.w;
    StemIsUnmanaged(stem);
    var token := disk.TokenIfPresent(path);
    assert At(disk.w.names, path) == At(w0.names, path);
    if token.Failure? || token.value.None? {
      return None;
    }
    return Some(Entry(KeyOf(stem, path).value, path, token.value.value));
  }

  /** The canonical backups whose present file could be bound, in listing order. */
  method CollectBackups(disk: Disk, stem: string) returns (entries: seq<Entry>)
    requires Valid(disk.w) && disk.w.env.contested == Named(stem)
    modifies disk
    ensures Valid(disk.w) && Between(old(disk.w), disk.w) && OnlySaw(old(disk.w), disk.w)
    ensures Listed(stem, old(disk.w).names, entries) && DistinctPaths(entries) && Named(stem) !in PathsOf(entries)
    ensures !disk.w.env.faults && !old(disk.w).stopped ==>
              forall p :: p in old(disk.w).names && KeyOf(stem, p).Some? ==> p in PathsOf(entries)
  {
    ghost var w0 := disk.w;
    StemIsUnmanaged(stem);
    var paths := disk.ReadDirectory();
    ghost var w1 := disk.w;
    ListingAgrees(stem, w0, w1, paths);
    entries := BindListed(disk, stem, paths, w0);
  }

  /** The canonical names among those listed, each bound to its present file. */
  method BindListed(disk: Disk, stem: string, paths: seq<Path>, ghost w0: World) returns (entries: seq<Entry>)
    requires Valid(disk.w) && Between(w0, disk.w) && OnlySaw(w0, disk.w) && w0.env.contested == Named(stem)
    requires forall i, j :: 0 <= i < j < |paths| ==> paths[i] != paths[j]
    requires !w0.env.faults && !w0.stopped ==>
               forall i :: 0 <= i < |paths| && KeyOf(stem, paths[i]).Some? ==> paths[i] in w0.names
    modifies disk
    ensures Valid(disk.w) && Between(w0, disk.w) && OnlySaw(w0, disk.w)
    ensures Collected(stem, w0, paths, |paths|, entries)
  {
    entries := [];
    for i := 0 to |paths|
      invariant Valid(disk.w) && Between(w0, disk.w) && OnlySaw(w0, disk.w)
      invariant Collected(stem, w0, paths, i, entries)
    {
      if KeyOf(stem, paths[i]).Some? {
        ghost var w2 := disk.w;
        var bound := BindBackup(disk, stem, paths[i]);
        BetweenTwice(w0, w2, disk.w);
        assert At(w2.names, paths[i]) == At(w0.names, paths[i]);
        CollectsOne(stem, w0, w2, paths, i, entries, bound);
        if bound.Some? {
          entries := entries + [bound.value];
        }
      }
    }
  }

  /** The listing has been bound up to its first `i` names. */
  ghost predicate Collected(stem: string, w0: World, paths: seq<Path>, i: nat, entries: seq<Entry>) {
    && i <= |paths|
    && Listed(stem, w0.names, entries) && DistinctPaths(entries)
    && (forall e :: e in entries ==> e.path != Named(stem) && e.path in paths[..i])
    && (!w0.env.faults && !w0.stopped ==>
          forall j :: 0 <= j < i && KeyOf(stem, paths[j]).Some? ==> paths[j] in PathsOf(entries))
  }

  lemma CollectsOne(stem: string, w0: World, w: World, paths: seq<Path>, i: nat, entries: seq<Entry>, bound: Option<Entry>)
    requires Collected(stem, w0, paths, i, entries) && i < |paths|
    requires forall k, j :: 0 <= k < j < |paths| ==> paths[k] != paths[j]
    requires At(w.names, paths[i]) == At(w0.names, paths[i])
    requires bound.Some? ==> paths[i] != Named(stem) && bound.value.path == paths[i] && Listed(stem, w.names, [bound.value])
    requires !w0.env.faults && !w0.stopped ==> bound.Some?
    ensures Collected(stem, w0, paths, i + 1, if bound.Some? then entries + [bound.value] else entries)
  {
    assert paths[..i + 1] == paths[..i] + [paths[i]];
    if bound.Some? {
      assert bound.value in [bound.value];
      var more := entries + [bound.value];
      forall x, y | 0 <= x < y < |more|
        ensures more[x].path != more[y].path
      {
        assert more[x] in entries;
      }
      assert PathsOf(more) == PathsOf(entries) + {paths[i]} by {
        assert more[|entries|] == bound.value;
      }
    }
  }

  lemma ListingAgrees(stem: string, w0: World, w1: World, paths: seq<Path>)
    requires Between(w0, w1) && w0.env.contested == Named(stem)
    requires forall p :: p in paths ==> p in w1.names
    ensures forall i :: 0 <= i < |paths| && KeyOf(stem, paths[i]).Some? ==> paths[i] in w0.names
    ensures (forall p :: p in w1.names ==> p in paths) ==>
              forall p :: p in w0.names && KeyOf(stem, p).Some? ==> p in paths
  {
    StemIsUnmanaged(stem);
    forall i | 0 <= i < |paths| && KeyOf(stem, paths[i]).Some?
      ensures paths[i] in w0.names
    {
      assert At(w1.names, paths[i]) == At(w0.names, paths[i]) && paths[i] in w1.names;
    }
    forall p | p in w0.names && KeyOf(stem, p).Some?
      ensures p in w1.names
    {
      assert At(w1.names, p) == At(w0.names, p);
    }
  }

  lemma StemIsUnmanaged(stem: string)
    ensures ManagedBackupSortKey(stem, stem).None?
  {
  }

  lemma BetweenTwice(w: World, v: World, u: World)
    requires Between(w, v) && OnlySaw(w, v) && Between(v, u) && OnlySaw(v, u)
    ensures Between(w, u) && OnlySaw(w, u)
  {
  }

  lemma SortedStillListed(stem: string, n: Names, entries: seq<Entry>, sorted: seq<Entry>)
    requires Listed(stem, n, entries) && multiset(sorted) == multiset(entries)
    ensures Listed(stem, n, sorted) && PathsOf(sorted) == PathsOf(entries)
  {
    forall e | e in sorted || e in entries
      ensures e in sorted && e in entries
    {
      assert e in multiset(sorted) && e in multiset(entries);
    }
  }

  lemma DistinctKeys(stem: string, n: Names, entries: seq<Entry>)
    requires Listed(stem, n, entries) && DistinctPaths(entries)
    ensures forall i, j :: 0 <= i < j < |entries| ==> entries[i].key != entries[j].key
  {
    forall i, j | 0 <= i < j < |entries|
      ensures entries[i].key != entries[j].key
    {
      assert entries[i] in entries && entries[j] in entries;
      if entries[i].key == entries[j].key {
        KeyNamesOne(stem, entries[i].path, entries[j].path);
      }
    }
  }

  /** In a complete ascending list the last three are not outranked. */
  lemma LateEntriesKept(stem: string, n: Names, entries: seq<Entry>, i: nat)
    requires Ascending(entries) && Listed(stem, n, entries) && i < |entries| <= i + MAX_BACKUPS
    requires forall p :: p in n && KeyOf(stem, p).Some? ==> p in PathsOf(entries)
    ensures !Outranked(stem, n, entries[i].path)
  {
    assert entries[i] in entries;
    var second := if i + 1 < |entries| then {entries[i + 1].path} else {};
    var third := if i + 2 < |entries| then {entries[i + 2].path} else {};
    var above := Above(stem, n, entries[i].path);
    forall q | q in above
      ensures q in second + third
    {
      AboveIsLater(stem, n, entries, i, q);
      var j :| i < j < |entries| && entries[j].path == q;
      assert j == i + 1 || j == i + 2;
    }
    AtMostTwo(above, second, third);
  }

  lemma AtMostTwo(above: set<Path>, second: set<Path>, third: set<Path>)
    requires above <= second + third && |second| <= 1 && |third| <= 1
    ensures |above| <= 2
  {
    SubsetCardinality(above, second + third);
  }

  lemma AboveIsLater(stem: string, n: Names, entries: seq<Entry>, i: nat, q: Path)
    requires Ascending(entries) && Listed(stem, n, entries) && i < |entries|
    requires q in PathsOf(entries) && KeyOf(stem, q).Some? && KeyLess(entries[i].key, KeyOf(stem, q).value)
    ensures exists j :: i < j < |entries| && entries[j].path == q
  {
    var e :| e in entries && e.path == q;
    var j :| 0 <= j < |entries| && entries[j] == e;
    assert KeyOf(stem, q) == Some(e.key);
    LaterInOrder(entries, i, j);
  }

  lemma LaterInOrder(entries: seq<Entry>, i: nat, j: nat)
    requires Ascending(entries) && i < |entries| && j < |entries| && KeyLess(entries[i].key, entries[j].key)
    ensures i < j
  {
    KeyLessAsymmetric(entries[i].key, entries[j].key);
  }

  /** Which backups a calm pass over `sorted` has removed after `i` of them. */
  ghost predicate CalmProgress(w: World, w0: World, sorted: seq<Entry>, i: nat) {
    && !w.stopped
    && (forall j :: 0 <= j < i && j < |sorted| ==> sorted[j].path !in w.names)
    && (forall j :: i <= j < |sorted| ==> At(w.names, sorted[j].path) == Some(sorted[j].token))
    && (forall p :: p in w0.names && p !in PathsOf(sorted) && p.Named? ==> p in w.names)
  }

  lemma CalmEnd(stem: string, w0: World, w: World, sorted: seq<Entry>, i: nat)
    requires Ascending(sorted) && Listed(stem, w0.names, sorted)
    requires forall p :: p in w0.names && KeyOf(stem, p).Some? ==> p in PathsOf(sorted)
    requires CalmProgress(w, w0, sorted, i) && Retaining(stem, w0, w) && !w0.env.foreign
    requires if |sorted| <= MAX_BACKUPS then i == 0 else i == |sorted| - MAX_BACKUPS
    ensures forall p :: p in w0.names && p.Named? ==> (p in w.names <==> !Outranked(stem, w0.names, p))
  {
    forall p | p in w0.names && p.Named?
      ensures p in w.names <==> !Outranked(stem, w0.names, p)
    {
      if p in PathsOf(sorted) {
        var e :| e in sorted && e.path == p;
        var j :| 0 <= j < |sorted| && sorted[j] == e;
        if j < i {
          EarlyEntriesOutranked(stem, w0.names, sorted, j);
        } else {
          LateEntriesKept(stem, w0.names, sorted, j);
          assert At(w.names, sorted[j].path) == Some(sorted[j].token);
        }
      }
    }
  }

  /** cleanup_old_backups. Only outranked managed backups are touched; when
      nothing fails and nobody interferes, exactly those are gone. */
  method CleanupOldBackups(disk: Disk, stem: string)
    requires Valid(disk.w) && disk.w.env.contested == Named(stem)
    modifies disk
    ensures Retaining(stem, old(disk.w), disk.w)
    ensures !disk.w.env.foreign && !disk.w.env.faults && !old(disk.w).stopped ==>
              forall p :: p in old(disk.w).names && p.Named? ==>
                (p in disk.w.names <==> !Outranked(stem, old(disk.w).names, p))
  {
    ghost var w0 := disk.w;
    ghost var calm := !w0.env.foreign && !w0.env.faults && !w0.stopped;
    var entries := CollectBackups(disk, stem);
    RetainingBetween(stem, w0, w0, disk.w);
    DistinctKeys(stem, w0.names, entries);
    var sorted := SortByKey(entries);
    SortedStillListed(stem, w0.names, entries, sorted);
    assert forall j :: 0 <= j < |sorted| ==> sorted[j] in sorted;
    assert calm ==> CalmProgress(disk.w, w0, sorted, 0);
    if |entries| <= MAX_BACKUPS {
      assert |sorted| == |multiset(sorted)| == |entries|;
      if calm {
        CalmEnd(stem, w0, disk.w, sorted, 0);
      }
      return;
    }
    assert |sorted| == |multiset(sorted)| == |entries|;
    for i := 0 to |sorted| - MAX_BACKUPS
      invariant Retaining(stem, w0, disk.w)
      invariant calm ==> CalmProgress(disk.w, w0, sorted, i)
    {
      ghost var w1 := disk.w;
      EarlyEntriesOutranked(stem, w0.names, sorted, i);
      assert sorted[i].path in PathsOf(sorted);
      var outcome := RemoveBoundPath(disk, sorted[i].path, sorted[i].token);
      RetainingDrops(stem, w0, w1, disk.w, sorted[i].path, sorted[i].token, outcome.Success?);
      if calm {
        CalmStep(stem, w0, w1, disk.w, sorted, i);
      }
    }
    if calm {
      CalmEnd(stem, w0, disk.w, sorted, |sorted| - MAX_BACKUPS);
    }
  }

  lemma CalmStep(stem: string, w0: World, w1: World, w: World, sorted: seq<Entry>, i: nat)
    requires i < |sorted| && Ascending(sorted) && Listed(stem, w0.names, sorted)
    requires CalmProgress(w1, w0, sorted, i) && !w0.env.foreign
    requires w1.env == w0.env && !w0.env.faults
    requires DropEffect(w1, w, sorted[i].path, sorted[i].token, true)
    ensures CalmProgress(w, w0, sorted, i + 1)
  {
    forall j | 0 <= j < |sorted| && j != i
      ensures At(w.names, sorted[j].path) == At(w1.names, sorted[j].path)
    {
      assert sorted[i] in sorted && sorted[j] in sorted;
      StringLessTotal(sorted[i].key.nonce, sorted[i].key.nonce);
      assert sorted[i].path != sorted[j].path;
    }
    forall p | p in w0.names && p !in PathsOf(sorted) && p.Named?
      ensures p in w.names
    {
      assert sorted[i].path in PathsOf(sorted);
      assert At(w.names, p) == At(w1.names, p);
    }
  }
}
