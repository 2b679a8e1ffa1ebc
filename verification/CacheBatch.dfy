/** Completing a batch of core probes (src/cache.rs): one lock, one read, at
    most one write, and a result that does not depend on the order. */
module CacheBatch {
  import opened Namespace
  import opened CacheModel

  datatype CoreProbeOutcome = CoreProbeOutcome(
    alias: string,
    usage: UsageInfo,
    baseline: UsageCacheBaseline,
    resetMetadataComplete: bool)

  datatype Completed = Completed(outcomes: seq<CoreProbeOutcome>, changed: bool, cache: Cache)

  predicate Distinct(updates: seq<CoreProbeUpdate>) {
    forall i, j :: 0 <= i < j < |updates| ==> updates[i].alias != updates[j].alias
  }

  predicate OwnBaselines(updates: seq<CoreProbeUpdate>) {
    forall i :: 0 <= i < |updates| ==> updates[i].baseline.alias == updates[i].alias
  }

  /** The completions of a batch, one after the other. */
  function CompleteAll(c: Cache, updates: seq<CoreProbeUpdate>, at: nat): Result<Completed> {
    if updates == [] then Success(Completed([], false, c))
    else
      var before :- CompleteAll(c, updates[..|updates| - 1], at);
      CompleteNext(before, updates[|updates| - 1], at)
  }

  /** One more item of a batch. */
  function CompleteNext(before: Completed, u: CoreProbeUpdate, at: nat): Result<Completed> {
    var (usage, wrote, after) :- CompleteCoreProbe(before.cache, u, at);
    if u.alias !in after.entries then Failure(Refused)
    else
      var outcome := CoreProbeOutcome(u.alias, usage, Baseline(after, u.alias), after.entries[u.alias].resetMetadataComplete);
      Success(Completed(before.outcomes + [outcome], before.changed || wrote, after))
  }

  function Erased(e: CacheEntry): CacheEntry {
    e.(revision := None)
  }

  /** What completing `u` alone in `c` would do to its alias is what `after`
      has there, under revisions drawn since. */
  ghost predicate CompletedAlone(c: Cache, u: CoreProbeUpdate, at: nat, after: Cache) {
    var alone := CompleteCoreProbe(c, u, at);
    && alone.Success?
    && (if alone.value.1
        then && u.alias in after.entries && u.alias in after.usageMutations && u.alias in alone.value.2.entries
             && Erased(after.entries[u.alias]) == Erased(alone.value.2.entries[u.alias])
             && after.entries[u.alias].revision.Some? && after.entries[u.alias].revision.value >= c.draws
             && after.usageMutations[u.alias] >= c.draws
        else Baseline(after, u.alias) == Baseline(c, u.alias))
  }

  function Unversioned(u: UsageInfo): UsageInfo {
    u.(revision := None)
  }

  /** What a batch reports for `u` is what completing it alone in `c` would,
      under the revision stored in `after`. */
  ghost predicate ReportedAlone(c: Cache, u: CoreProbeUpdate, at: nat, after: Cache, o: CoreProbeOutcome) {
    var alone := CompleteCoreProbe(c, u, at);
    && alone.Success? && u.alias in alone.value.2.entries && u.alias in after.entries
    && o.alias == u.alias && o.baseline == Baseline(after, u.alias)
    && Unversioned(o.usage) == Unversioned(alone.value.0)
    && o.usage.revision == after.entries[u.alias].revision
    && o.resetMetadataComplete == alone.value.2.entries[u.alias].resetMetadataComplete
  }

  lemma CompletionIsLocal(c: Cache, u: CoreProbeUpdate, at: nat, a: string)
    requires CompleteCoreProbe(c, u, at).Success?
    ensures
      var after := CompleteCoreProbe(c, u, at).value.2;
      && (a != u.alias ==> Baseline(after, a) == Baseline(c, a))
      && after.lastUsed == c.lastUsed && after.authFailures == c.authFailures && after.draws >= c.draws
      && u.alias in after.entries
  {
  }

  /** A completion sees only its own alias. */
  lemma CompletionSeesItsAlias(c: Cache, mid: Cache, u: CoreProbeUpdate, at: nat)
    requires Baseline(mid, u.alias) == Baseline(c, u.alias) && mid.draws >= c.draws
    ensures CompleteCoreProbe(mid, u, at).Success? <==> CompleteCoreProbe(c, u, at).Success?
    ensures CompleteCoreProbe(mid, u, at).Success? ==> CompletedAlone(c, u, at, CompleteCoreProbe(mid, u, at).value.2)
    ensures CompleteCoreProbe(mid, u, at).Success? ==>
              CompleteCoreProbe(mid, u, at).value.1 == CompleteCoreProbe(c, u, at).value.1
  {
  }

  /** The usage a completion returns: the probe's, with the cards it publishes,
      if the baseline still holds, and otherwise the stored one. */
  lemma CompletionShape(c: Cache, u: CoreProbeUpdate, at: nat)
    requires CompleteCoreProbe(c, u, at).Success?
    ensures
      var (usage, _, after) := CompleteCoreProbe(c, u, at).value;
      var (cards, complete) := ProbeCards(c, u.alias, u.binding, u.usage, u.resetMetadata);
      && u.alias in after.entries && usage.revision == after.entries[u.alias].revision
      && (if Baseline(c, u.alias) == u.baseline
          then Unversioned(usage) == Unversioned(u.usage.(cards := cards))
               && after.entries[u.alias].resetMetadataComplete == complete
          else u.alias in c.entries && Some(usage) == FromEntry(c.entries[u.alias])
               && after.entries[u.alias].resetMetadataComplete == c.entries[u.alias].resetMetadataComplete)
  {
  }

  /** It returns what it returns there, under the revision it stores. */
  lemma CompletionReturns(c: Cache, mid: Cache, u: CoreProbeUpdate, at: nat)
    requires Baseline(mid, u.alias) == Baseline(c, u.alias)
    requires CompleteCoreProbe(c, u, at).Success? && CompleteCoreProbe(mid, u, at).Success?
    ensures
      var (usage, _, after) := CompleteCoreProbe(mid, u, at).value;
      var (usage', _, after') := CompleteCoreProbe(c, u, at).value;
      && u.alias in after.entries && u.alias in after'.entries
      && Unversioned(usage) == Unversioned(usage') && usage.revision == after.entries[u.alias].revision
      && after.entries[u.alias].resetMetadataComplete == after'.entries[u.alias].resetMetadataComplete
  {
    assert Lookup(mid.entries, u.alias) == Lookup(c.entries, u.alias);
    CompletionShape(c, u, at);
    CompletionShape(mid, u, at);
  }

  lemma CompletionReports(c: Cache, mid: Completed, u: CoreProbeUpdate, at: nat)
    requires Baseline(mid.cache, u.alias) == Baseline(c, u.alias) && mid.cache.draws >= c.draws
    requires CompleteNext(mid, u, at).Success?
    ensures
      var r := CompleteNext(mid, u, at).value;
      && r.outcomes == mid.outcomes + [r.outcomes[|mid.outcomes|]]
      && ReportedAlone(c, u, at, r.cache, r.outcomes[|mid.outcomes|])
  {
    CompletionSeesItsAlias(c, mid.cache, u, at);
    CompletionReturns(c, mid.cache, u, at);
    var (usage, wrote, after) := CompleteCoreProbe(mid.cache, u, at).value;
    var o := CoreProbeOutcome(u.alias, usage, Baseline(after, u.alias), after.entries[u.alias].resetMetadataComplete);
    assert CompleteNext(mid, u, at).value == Completed(mid.outcomes + [o], mid.changed || wrote, after);
    assert ReportedAlone(c, u, at, after, o);
  }

  /** The whole batch, described by the single completions alone. */
  ghost predicate Described(c: Cache, updates: seq<CoreProbeUpdate>, at: nat, r: Completed) {
    && (forall i :: 0 <= i < |updates| ==> CompletedAlone(c, updates[i], at, r.cache))
    && (forall a :: (forall i :: 0 <= i < |updates| ==> updates[i].alias != a) ==> Baseline(r.cache, a) == Baseline(c, a))
    && r.cache.lastUsed == c.lastUsed && r.cache.authFailures == c.authFailures && r.cache.draws >= c.draws
    && |r.outcomes| == |updates|
    && (forall i :: 0 <= i < |updates| ==> ReportedAlone(c, updates[i], at, r.cache, r.outcomes[i]))
    && (r.changed <==> exists i :: 0 <= i < |updates| && Writes(c, updates[i], at))
    && (!r.changed ==> r.cache == c)
  }

  predicate Writes(c: Cache, u: CoreProbeUpdate, at: nat) {
    CompleteCoreProbe(c, u, at).Success? && CompleteCoreProbe(c, u, at).value.1
  }

  predicate Completes(c: Cache, u: CoreProbeUpdate, at: nat) {
    CompleteCoreProbe(c, u, at).Success?
  }

  predicate AllComplete(c: Cache, updates: seq<CoreProbeUpdate>, at: nat) {
    forall i :: 0 <= i < |updates| ==> Completes(c, updates[i], at)
  }

  /** A batch over distinct profiles succeeds exactly when every item would
      succeed alone, and then does to each profile what that would do. */
  lemma {:induction false} BatchIsItemwise(c: Cache, updates: seq<CoreProbeUpdate>, at: nat)
    requires Distinct(updates)
    ensures CompleteAll(c, updates, at).Success? <==> AllComplete(c, updates, at)
    ensures CompleteAll(c, updates, at).Success? ==> Described(c, updates, at, CompleteAll(c, updates, at).value)
  {
    if updates == [] {
      EmptyDescribed(c, at);
    } else {
      var front := updates[..|updates| - 1];
      var last := updates[|updates| - 1];
      BatchIsItemwise(c, front, at);
      assert updates == front + [last];
      AllCompleteOneMore(c, front, last, at);
      if CompleteAll(c, front, at).Success? {
        NextIsItemwise(c, front, last, at, CompleteAll(c, front, at).value);
      }
    }
  }

  lemma EmptyDescribed(c: Cache, at: nat)
    ensures Described(c, [], at, Completed([], false, c))
  {
  }

  lemma AllCompleteOneMore(c: Cache, front: seq<CoreProbeUpdate>, last: CoreProbeUpdate, at: nat)
    ensures AllComplete(c, front + [last], at) <==> AllComplete(c, front, at) && Completes(c, last, at)
  {
    var updates := front + [last];
    assert updates[|front|] == last;
    assert forall i :: 0 <= i < |front| ==> updates[i] == front[i];
    if AllComplete(c, updates, at) {
      assert forall i :: 0 <= i < |front| ==> Completes(c, updates[i], at);
    }
  }

  lemma NextIsItemwise(c: Cache, front: seq<CoreProbeUpdate>, last: CoreProbeUpdate, at: nat, mid: Completed)
    requires Described(c, front, at, mid) && Distinct(front + [last])
    ensures CompleteNext(mid, last, at).Success? <==> Completes(c, last, at)
    ensures CompleteNext(mid, last, at).Success? ==> Described(c, front + [last], at, CompleteNext(mid, last, at).value)
  {
    assert forall i :: 0 <= i < |front| ==> (front + [last])[i] == front[i];
    assert forall i :: 0 <= i < |front| ==> front[i].alias != (front + [last])[|front|].alias;
    assert Baseline(mid.cache, last.alias) == Baseline(c, last.alias);
    CompletionSeesItsAlias(c, mid.cache, last, at);
    if CompleteCoreProbe(mid.cache, last, at).Success? {
      CompletionIsLocal(mid.cache, last, at, last.alias);
      CompletionReports(c, mid, last, at);
      DescribedFurther(c, front, last, at, mid, CompleteNext(mid, last, at).value);
    }
  }

  lemma DescribedFurther(c: Cache, front: seq<CoreProbeUpdate>, last: CoreProbeUpdate, at: nat, mid: Completed, r: Completed)
    requires Described(c, front, at, mid) && Distinct(front + [last])
    requires CompleteCoreProbe(mid.cache, last, at).Success?
    requires r.cache == CompleteCoreProbe(mid.cache, last, at).value.2
    requires r.changed == (mid.changed || CompleteCoreProbe(mid.cache, last, at).value.1)
    requires |r.outcomes| == |front| + 1 && r.outcomes[..|front|] == mid.outcomes
    requires ReportedAlone(c, last, at, r.cache, r.outcomes[|front|])
    ensures Described(c, front + [last], at, r)
  {
    var updates := front + [last];
    assert forall i :: 0 <= i < |front| ==> updates[i] == front[i];
    assert updates[|front|] == last;
    assert forall i :: 0 <= i < |front| ==> front[i].alias != updates[|front|].alias;
    CompletionSeesItsAlias(c, mid.cache, last, at);
    forall i | 0 <= i < |updates|
      ensures CompletedAlone(c, updates[i], at, r.cache) && ReportedAlone(c, updates[i], at, r.cache, r.outcomes[i])
    {
      if i < |front| {
        assert r.outcomes[i] == r.outcomes[..|front|][i];
        EarlierItemStays(c, front[i], last, at, mid.cache, mid.outcomes[i]);
      }
    }
    forall a | forall i :: 0 <= i < |updates| ==> updates[i].alias != a
      ensures Baseline(r.cache, a) == Baseline(c, a)
    {
      assert updates[|front|].alias != a;
      assert forall i :: 0 <= i < |front| ==> front[i].alias != a;
      CompletionIsLocal(mid.cache, last, at, a);
    }
    CompletionIsLocal(mid.cache, last, at, last.alias);
    ChangedFurther(c, front, last, at, mid, r);
  }

  lemma EarlierItemStays(c: Cache, u: CoreProbeUpdate, last: CoreProbeUpdate, at: nat, mid: Cache, o: CoreProbeOutcome)
    requires CompletedAlone(c, u, at, mid) && ReportedAlone(c, u, at, mid, o) && u.alias != last.alias
    requires CompleteCoreProbe(mid, last, at).Success?
    ensures
      var after := CompleteCoreProbe(mid, last, at).value.2;
      CompletedAlone(c, u, at, after) && ReportedAlone(c, u, at, after, o)
  {
    CompletionIsLocal(mid, last, at, u.alias);
    SameBaselineSameAlone(c, u, at, mid, CompleteCoreProbe(mid, last, at).value.2, o);
  }

  /** The batch writes exactly if one of its items would. */
  lemma ChangedFurther(c: Cache, front: seq<CoreProbeUpdate>, last: CoreProbeUpdate, at: nat, mid: Completed, r: Completed)
    requires mid.changed <==> exists i :: 0 <= i < |front| && Writes(c, front[i], at)
    requires !mid.changed ==> mid.cache == c
    requires CompleteCoreProbe(mid.cache, last, at).Success? && CompleteCoreProbe(c, last, at).Success?
    requires CompleteCoreProbe(mid.cache, last, at).value.1 == CompleteCoreProbe(c, last, at).value.1
    requires r.cache == CompleteCoreProbe(mid.cache, last, at).value.2
    requires r.changed == (mid.changed || CompleteCoreProbe(mid.cache, last, at).value.1)
    ensures r.changed <==> exists i :: 0 <= i < |front + [last]| && Writes(c, (front + [last])[i], at)
    ensures !r.changed ==> r.cache == c
  {
    var updates := front + [last];
    assert updates[|front|] == last;
    assert forall i :: 0 <= i < |front| ==> updates[i] == front[i];
    if i :| 0 <= i < |front| && Writes(c, front[i], at) {
      assert Writes(c, updates[i], at);
    }
  }

  lemma SameBaselineSameAlone(c: Cache, u: CoreProbeUpdate, at: nat, mid: Cache, after: Cache, o: CoreProbeOutcome)
    requires CompletedAlone(c, u, at, mid) && Baseline(after, u.alias) == Baseline(mid, u.alias)
    requires ReportedAlone(c, u, at, mid, o)
    ensures CompletedAlone(c, u, at, after) && ReportedAlone(c, u, at, after, o)
  {
  }

  /** Equal at an alias, or both stored there since with the same contents. */
  ghost predicate AgreeAt(c: Cache, x: Cache, y: Cache, a: string) {
    || Baseline(x, a) == Baseline(y, a)
    || (&& a in x.entries && a in y.entries && Erased(x.entries[a]) == Erased(y.entries[a])
        && x.entries[a].revision.Some? && x.entries[a].revision.value >= c.draws
        && y.entries[a].revision.Some? && y.entries[a].revision.value >= c.draws
        && a in x.usageMutations && a in y.usageMutations
        && x.usageMutations[a] >= c.draws && y.usageMutations[a] >= c.draws)
  }

  ghost predicate AgreeUpToRevisions(c: Cache, x: Cache, y: Cache) {
    && x.lastUsed == y.lastUsed && x.authFailures == y.authFailures
    && forall a :: AgreeAt(c, x, y, a)
  }

  lemma {:induction false} DistinctCountsOnce(us: seq<CoreProbeUpdate>, u: CoreProbeUpdate)
    requires Distinct(us)
    ensures multiset(us)[u] <= 1
  {
    if us != [] {
      DistinctCountsOnce(us[1..], u);
      assert us == [us[0]] + us[1..];
      if us[0] == u {
        assert forall i :: 0 <= i < |us[1..]| ==> us[1..][i] == us[i + 1] != u;
        assert u !in us[1..];
      }
    }
  }

  lemma RepeatedCountsTwice(us: seq<CoreProbeUpdate>, i: nat, j: nat)
    requires i < j < |us| && us[i] == us[j]
    ensures multiset(us)[us[i]] >= 2
  {
    assert us == us[..j] + [us[j]] + us[j + 1..];
    assert us[..j][i] == us[i];
    assert us[i] in us[..j];
  }

  lemma PermutedStaysDistinct(us: seq<CoreProbeUpdate>, vs: seq<CoreProbeUpdate>)
    requires Distinct(us) && multiset(us) == multiset(vs)
    ensures Distinct(vs)
  {
    forall i, j | 0 <= i < j < |vs|
      ensures vs[i].alias != vs[j].alias
    {
      if vs[i] == vs[j] {
        RepeatedCountsTwice(vs, i, j);
        DistinctCountsOnce(us, vs[i]);
      }
      assert vs[i] in multiset(vs) && vs[j] in multiset(vs);
      assert vs[i] in us && vs[j] in us;
    }
  }

  /** The same profile, data and completeness; only the revisions may differ. */
  predicate AgreeingOutcomes(o: CoreProbeOutcome, p: CoreProbeOutcome) {
    && o.alias == p.alias && Unversioned(o.usage) == Unversioned(p.usage)
    && o.resetMetadataComplete == p.resetMetadataComplete
  }

  /** Order independence: any permutation of a batch succeeds or fails alike,
      leaves the same cache up to fresh revisions, and reports the same for each
      item wherever it stands. */
  lemma BatchIsOrderIndependent(c: Cache, us: seq<CoreProbeUpdate>, vs: seq<CoreProbeUpdate>, at: nat)
    requires Distinct(us) && multiset(us) == multiset(vs)
    ensures CompleteAll(c, us, at).Success? <==> CompleteAll(c, vs, at).Success?
    ensures CompleteAll(c, us, at).Success? ==>
              var x, y := CompleteAll(c, us, at).value, CompleteAll(c, vs, at).value;
              && AgreeUpToRevisions(c, x.cache, y.cache)
              && |x.outcomes| == |us| && |y.outcomes| == |vs|
              && forall i, j :: 0 <= i < |us| && 0 <= j < |vs| && us[i] == vs[j] ==>
                   AgreeingOutcomes(x.outcomes[i], y.outcomes[j])
  {
    PermutedStaysDistinct(us, vs);
    BatchIsItemwise(c, us, at);
    BatchIsItemwise(c, vs, at);
    forall u: CoreProbeUpdate
      ensures u in us <==> u in vs
    {
      assert u in multiset(us) <==> u in multiset(vs);
    }
    if AllComplete(c, vs, at) {
      CompleteAlike(c, us, vs, at);
    }
    if AllComplete(c, us, at) {
      CompleteAlike(c, vs, us, at);
    }
    if CompleteAll(c, us, at).Success? {
      var x, y := CompleteAll(c, us, at).value, CompleteAll(c, vs, at).value;
      forall a
        ensures AgreeAt(c, x.cache, y.cache, a)
      {
        BatchesAgreeAt(c, us, vs, at, x, y, a);
      }
      forall i, j | 0 <= i < |us| && 0 <= j < |vs| && us[i] == vs[j]
        ensures AgreeingOutcomes(x.outcomes[i], y.outcomes[j])
      {
        assert ReportedAlone(c, us[i], at, x.cache, x.outcomes[i]) && ReportedAlone(c, vs[j], at, y.cache, y.outcomes[j]);
      }
    }
  }

  lemma CompleteAlike(c: Cache, us: seq<CoreProbeUpdate>, vs: seq<CoreProbeUpdate>, at: nat)
    requires (forall u :: u in us ==> u in vs) && AllComplete(c, vs, at)
    ensures AllComplete(c, us, at)
  {
    forall i | 0 <= i < |us|
      ensures Completes(c, us[i], at)
    {
      assert us[i] in us;
      var j :| 0 <= j < |vs| && vs[j] == us[i];
    }
  }

  lemma AloneTwice(c: Cache, u: CoreProbeUpdate, at: nat, x: Cache, y: Cache)
    requires CompletedAlone(c, u, at, x) && CompletedAlone(c, u, at, y)
    ensures AgreeAt(c, x, y, u.alias)
  {
  }

  lemma BatchesAgreeAt(c: Cache, us: seq<CoreProbeUpdate>, vs: seq<CoreProbeUpdate>, at: nat, x: Completed, y: Completed, a: string)
    requires Described(c, us, at, x) && Described(c, vs, at, y)
    requires forall u: CoreProbeUpdate :: u in us <==> u in vs
    ensures AgreeAt(c, x.cache, y.cache, a)
  {
    if i :| 0 <= i < |us| && us[i].alias == a {
      assert us[i] in us;
      var j :| 0 <= j < |vs| && vs[j] == us[i];
      ItemAlone(c, us, at, x, i);
      ItemAlone(c, vs, at, y, j);
      AloneTwice(c, us[i], at, x.cache, y.cache);
    } else {
      NobodyElse(us, vs, a);
      OthersUntouched(c, us, at, x, a);
      OthersUntouched(c, vs, at, y, a);
    }
  }

  lemma ItemAlone(c: Cache, us: seq<CoreProbeUpdate>, at: nat, x: Completed, i: nat)
    requires i < |us| && Described(c, us, at, x)
    ensures CompletedAlone(c, us[i], at, x.cache)
  {
  }

  lemma OthersUntouched(c: Cache, us: seq<CoreProbeUpdate>, at: nat, x: Completed, a: string)
    requires Described(c, us, at, x) && forall i :: 0 <= i < |us| ==> us[i].alias != a
    ensures Baseline(x.cache, a) == Baseline(c, a)
  {
  }

  lemma NobodyElse(us: seq<CoreProbeUpdate>, vs: seq<CoreProbeUpdate>, a: string)
    requires forall u: CoreProbeUpdate :: u in us <==> u in vs
    requires forall i :: 0 <= i < |us| ==> us[i].alias != a
    ensures forall j :: 0 <= j < |vs| ==> vs[j].alias != a
  {
    forall j | 0 <= j < |vs|
      ensures vs[j].alias != a
    {
      assert vs[j] in us;
    }
  }

  /** If nothing intervenes, a completion that starts from a returned baseline
      replaces the entry. */
  lemma {:induction false} ReturnedBaselineMatches(c: Cache, updates: seq<CoreProbeUpdate>, at: nat, i: nat, p: CoreProbeUpdate, later: nat)
    requires Distinct(updates) && i < |updates| && CompleteAll(c, updates, at).Success?
    requires |CompleteAll(c, updates, at).value.outcomes| == |updates|
    requires p.alias == updates[i].alias && p.baseline == CompleteAll(c, updates, at).value.outcomes[i].baseline
    ensures Writes(CompleteAll(c, updates, at).value.cache, p, later)
  {
    BatchIsItemwise(c, updates, at);
  }
}
