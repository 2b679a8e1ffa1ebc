/** Runs of the usage cache (src/cache.rs): any sequence of operations, each
    under the cache lock, and what holds after it. */
module CacheRuns {
  import opened Namespace
  import opened CacheModel

  datatype Op =
    | PutBound(alias: string, binding: Binding, usage: UsageInfo, recordedAt: nat)
    | CompleteProbe(update: CoreProbeUpdate, recordedAt: nat)
    | MergeEnrichment(alias: string, binding: Binding, usage: UsageInfo)
    | Invalidate(alias: string)
    | InvalidateBound(alias: string, binding: Binding)
    | PurgeProfile(alias: string)
    | RenameAlias(from: string, to: string)
    | RecordFailure(alias: string, failure: AuthFailure)
    | SetLastUsed(alias: string, seconds: int)

  function Step(c: Cache, op: Op): Cache {
    match op
    case PutBound(alias, binding, usage, at) => ReplaceBoundUsage(c, alias, binding, usage, at).0
    case CompleteProbe(update, at) =>
      var r := CompleteCoreProbe(c, update, at);
      if r.Success? then r.value.2 else c
    case MergeEnrichment(alias, binding, usage) => Enriched(c, alias, binding, usage)
    case Invalidate(alias) => FetchStateDropped(c, alias)
    case InvalidateBound(alias, binding) => if OwnedByAnother(c, alias, binding) then c else FetchStateDropped(c, alias)
    case PurgeProfile(alias) => ProfileStateDropped(c, alias)
    case RenameAlias(from, to) => AliasMigrated(c, from, to)
    case RecordFailure(alias, failure) => c.(authFailures := c.authFailures[alias := failure])
    case SetLastUsed(alias, seconds) => c.(lastUsed := c.lastUsed[alias := seconds])
  }

  function Run(c: Cache, ops: seq<Op>): Cache {
    if ops == [] then c else Step(Run(c, ops[..|ops| - 1]), ops[|ops| - 1])
  }

  /** The operation stores, changes, removes or moves the usage of `alias`. */
  predicate Mutates(c: Cache, op: Op, alias: string) {
    match op
    case PutBound(a, _, _, _) => a == alias
    case CompleteProbe(p, _) => p.alias == alias && p.baseline == Baseline(c, p.alias)
    case MergeEnrichment(a, b, u) => a == alias && Enriches(c, a, b, u)
    case Invalidate(a) => a == alias
    case InvalidateBound(a, b) => a == alias && !OwnedByAnother(c, a, b)
    case PurgeProfile(a) => a == alias
    case RenameAlias(from, to) => from != to && alias in {from, to}
    case _ => false
  }

  predicate MutatedSince(c: Cache, ops: seq<Op>, alias: string) {
    ops != [] &&
    (MutatedSince(c, ops[..|ops| - 1], alias) || Mutates(Run(c, ops[..|ops| - 1]), ops[|ops| - 1], alias))
  }

  /** Every tombstone and revision was drawn already. */
  ghost predicate Drawn(c: Cache) {
    && (forall a :: a in c.usageMutations ==> c.usageMutations[a] < c.draws)
    && forall a :: a in c.entries && c.entries[a].revision.Some? ==> c.entries[a].revision.value < c.draws
  }

  lemma StoringMarks(c: Cache, a: string, e: CacheEntry, alias: string)
    requires Drawn(c)
    ensures Drawn(Stored(c, a, e)) && Stored(c, a, e).usageMutations[a] >= c.draws
    ensures a != alias ==> Baseline(Stored(c, a, e), alias) == Baseline(c, alias)
  {
  }

  lemma EnrichingMarks(c: Cache, a: string, b: Binding, u: UsageInfo, alias: string)
    requires Drawn(c)
    ensures Drawn(Enriched(c, a, b, u))
    ensures Enriches(c, a, b, u) ==> Enriched(c, a, b, u).usageMutations[a] >= c.draws
    ensures a != alias ==> Baseline(Enriched(c, a, b, u), alias) == Baseline(c, alias)
  {
  }

  lemma DroppingMarks(c: Cache, a: string, alias: string)
    requires Drawn(c)
    ensures Drawn(FetchStateDropped(c, a)) && FetchStateDropped(c, a).usageMutations[a] >= c.draws
    ensures a != alias ==> Baseline(FetchStateDropped(c, a), alias) == Baseline(c, alias)
  {
  }

  lemma MigratingMarks(c: Cache, from: string, to: string, alias: string)
    requires Drawn(c) && from != to
    ensures Drawn(AliasMigrated(c, from, to))
    ensures AliasMigrated(c, from, to).usageMutations[from] >= c.draws
    ensures AliasMigrated(c, from, to).usageMutations[to] >= c.draws
    ensures alias !in {from, to} ==> Baseline(AliasMigrated(c, from, to), alias) == Baseline(c, alias)
  {
    var after := AliasMigrated(c, from, to);
    forall a | a in after.entries && after.entries[a].revision.Some?
      ensures after.entries[a].revision.value < after.draws
    {
      assert a == to ==> from in c.entries && after.entries[a] == c.entries[from];
      assert a != to ==> a in c.entries && after.entries[a] == c.entries[a];
    }
  }

  lemma StepDraws(c: Cache, op: Op)
    ensures c.draws <= Step(c, op).draws
  {
  }

  /** A step that mutates an alias gives it a tombstone never used before; any
      other step leaves its entry and its tombstone as they were. */
  lemma StepMarksMutations(c: Cache, op: Op, alias: string)
    requires Drawn(c)
    ensures Drawn(Step(c, op))
    ensures Mutates(c, op, alias) ==>
              alias in Step(c, op).usageMutations && Step(c, op).usageMutations[alias] >= c.draws
    ensures !Mutates(c, op, alias) ==> Baseline(Step(c, op), alias) == Baseline(c, alias)
  {
    match op {
      case PutBound(a, b, u, at) => StoringMarks(c, a, ToEntry(u, at, Some(b)), alias);
      case CompleteProbe(p, at) =>
        var (cards, complete) := ProbeCards(c, p.alias, p.binding, p.usage, p.resetMetadata);
        StoringMarks(c, p.alias, ToEntry(p.usage.(cards := cards), at, Some(p.binding)).(resetMetadataComplete := complete), alias);
      case MergeEnrichment(a, b, u) => EnrichingMarks(c, a, b, u, alias);
      case Invalidate(a) => DroppingMarks(c, a, alias);
      case InvalidateBound(a, _) => DroppingMarks(c, a, alias);
      case PurgeProfile(a) => DroppingMarks(c, a, alias);
      case RenameAlias(from, to) =>
        if from != to {
          MigratingMarks(c, from, to, alias);
        }
      case RecordFailure(_, _) =>
      case SetLastUsed(_, _) =>
    }
  }

  lemma {:induction false} RunKeepsTombstones(c: Cache, ops: seq<Op>, alias: string)
    requires Drawn(c)
    ensures Drawn(Run(c, ops)) && c.draws <= Run(c, ops).draws
    ensures if MutatedSince(c, ops, alias)
            then alias in Run(c, ops).usageMutations && Run(c, ops).usageMutations[alias] >= c.draws
            else Baseline(Run(c, ops), alias) == Baseline(c, alias)
  {
    if ops != [] {
      var before := ops[..|ops| - 1];
      RunKeepsTombstones(c, before, alias);
      StepDraws(Run(c, before), ops[|ops| - 1]);
      StepMarksMutations(Run(c, before), ops[|ops| - 1], alias);
    }
  }

  /** ABA freedom: after any run, a completed probe replaces the entry exactly
      when no operation mutated the alias since the probe's baseline was read,
      even if an absent entry came and went. Otherwise it changes nothing, and
      returns the present generation of the same account or fails. */
  lemma ProbeReplacesIffUntouched(c: Cache, ops: seq<Op>, p: CoreProbeUpdate, recordedAt: nat)
    requires Drawn(c) && p.baseline == Baseline(c, p.alias)
    ensures
      var now := Run(c, ops);
      var r := CompleteCoreProbe(now, p, recordedAt);
      && (r.Success? && r.value.1 <==> !MutatedSince(c, ops, p.alias))
      && (r.Success? && !r.value.1 ==>
            && r.value.2 == now && p.alias in now.entries && now.entries[p.alias].BelongsTo(p.binding)
            && FromEntry(now.entries[p.alias]) == Some(r.value.0))
      && (r.Failure? && p.alias in now.entries ==>
            !now.entries[p.alias].BelongsTo(p.binding) || FromEntry(now.entries[p.alias]).None?)
  {
    RunKeepsTombstones(c, ops, p.alias);
  }

  /** A rename moves the three records of an alias as one generation: none of
      the destination's old records is left among them, both tombstones are new,
      and every other alias keeps everything. */
  lemma RenameMovesGeneration(c: Cache, from: string, to: string, other: string)
    requires from != to && other != from && other != to && Drawn(c)
    ensures
      var after := AliasMigrated(c, from, to);
      && Lookup(after.entries, to) == Lookup(c.entries, from) && from !in after.entries
      && Lookup(after.lastUsed, to) == Lookup(c.lastUsed, from) && from !in after.lastUsed
      && Lookup(after.authFailures, to) == Lookup(c.authFailures, from) && from !in after.authFailures
      && after.usageMutations[from] >= c.draws && after.usageMutations[to] >= c.draws
      && after.usageMutations[from] != after.usageMutations[to]
      && Baseline(after, other) == Baseline(c, other)
      && Lookup(after.lastUsed, other) == Lookup(c.lastUsed, other)
      && Lookup(after.authFailures, other) == Lookup(c.authFailures, other)
  {
  }

  // ----- provenance --------------------------------------------------------

  /** The account an operation observed usage for, and that usage. */
  function Observation(op: Op): Option<(Binding, UsageInfo)> {
    match op
    case PutBound(_, b, u, _) => Some((b, u))
    case CompleteProbe(p, _) => Some((p.binding, p.usage))
    case MergeEnrichment(_, b, u) => Some((b, u))
    case _ => None
  }

  predicate Stores(op: Op) {
    op.PutBound? || op.CompleteProbe?
  }

  /** The quota was stored for this very account, in the run or before it. */
  ghost predicate QuotaObserved(c0: Cache, ops: seq<Op>, b: Binding, q: Quota) {
    || (exists a :: a in c0.entries && c0.entries[a].BelongsTo(b) && c0.entries[a].quota == q)
    || (exists i :: 0 <= i < |ops| && Stores(ops[i]) && Observation(ops[i]).value.0 == b
                    && QuotaOf(Observation(ops[i]).value.1) == q)
  }

  ghost predicate CardsObserved(c0: Cache, ops: seq<Op>, b: Binding, cards: ResetCards) {
    || cards == NO_CARDS
    || (exists a :: a in c0.entries && c0.entries[a].BelongsTo(b) && c0.entries[a].cards == cards)
    || (exists i :: 0 <= i < |ops| && Observation(ops[i]).Some? && Observation(ops[i]).value.0 == b
                    && Observation(ops[i]).value.1.cards == cards)
  }

  ghost predicate Provenance(c0: Cache, ops: seq<Op>, c: Cache) {
    forall a, b: Binding :: a in c.entries && c.entries[a].BelongsTo(b) ==>
      QuotaObserved(c0, ops, b, c.entries[a].quota) && CardsObserved(c0, ops, b, c.entries[a].cards)
  }

  lemma ObservedLater(c0: Cache, ops: seq<Op>, op: Op, b: Binding, q: Quota, cards: ResetCards)
    ensures QuotaObserved(c0, ops, b, q) ==> QuotaObserved(c0, ops + [op], b, q)
    ensures CardsObserved(c0, ops, b, cards) ==> CardsObserved(c0, ops + [op], b, cards)
  {
    assert forall i :: 0 <= i < |ops| ==> (ops + [op])[i] == ops[i];
  }

  lemma ObservedNow(c0: Cache, ops: seq<Op>, op: Op)
    requires Observation(op).Some?
    ensures Stores(op) ==> QuotaObserved(c0, ops + [op], Observation(op).value.0, QuotaOf(Observation(op).value.1))
    ensures CardsObserved(c0, ops + [op], Observation(op).value.0, Observation(op).value.1.cards)
  {
    assert (ops + [op])[|ops|] == op;
  }

  /** Identity provenance: after any run, the quota and the reset cards of every
      bound entry were observed for the account it is bound to. */
  lemma {:induction false} RunKeepsProvenance(c0: Cache, ops: seq<Op>)
    ensures Provenance(c0, ops, Run(c0, ops))
  {
    if ops != [] {
      var before := ops[..|ops| - 1];
      var op := ops[|ops| - 1];
      RunKeepsProvenance(c0, before);
      StepKeepsProvenance(c0, before, Run(c0, before), op);
      assert before + [op] == ops;
      assert Run(c0, ops) == Step(Run(c0, before), op);
    } else {
      NothingRun(c0);
    }
  }

  lemma NothingRun(c0: Cache)
    ensures Provenance(c0, [], c0)
  {
  }

  lemma StepKeepsProvenance(c0: Cache, ops: seq<Op>, c: Cache, op: Op)
    requires Provenance(c0, ops, c)
    ensures Provenance(c0, ops + [op], Step(c, op))
  {
    var after := Step(c, op);
    if Observation(op).Some? {
      ObservedNow(c0, ops, op);
    }
    forall a, b: Binding | a in after.entries && after.entries[a].BelongsTo(b)
      ensures QuotaObserved(c0, ops + [op], b, after.entries[a].quota)
      ensures CardsObserved(c0, ops + [op], b, after.entries[a].cards)
    {
      ObservedLater(c0, ops, op, b, after.entries[a].quota, after.entries[a].cards);
    }
  }

  /** A reader bound to an account gets only what was observed for that account,
      however the alias was rebound, renamed or reused. */
  lemma BoundReaderSeesOwnAccount(c0: Cache, ops: seq<Op>, alias: string, b: Binding, now: nat, ttl: nat)
    requires FreshUsageBound(Run(c0, ops), alias, b, now, ttl).Some?
    ensures
      var u := FreshUsageBound(Run(c0, ops), alias, b, now, ttl).value;
      && CardsObserved(c0, ops, b, u.cards)
      && exists q :: && QuotaObserved(c0, ops, b, q)
                     && u.primary == Rebuild(q.primary) && u.secondary == Rebuild(q.secondary) && u.details == q.details
  {
    RunKeepsProvenance(c0, ops);
    var q := Run(c0, ops).entries[alias].quota;
    assert QuotaObserved(c0, ops, b, q);
  }

  /** So does automatic selection. */
  lemma AutoSelectSeesOwnAccount(c0: Cache, ops: seq<Op>, alias: string, b: Binding, now: nat, ttl: nat)
    requires AutoSelectLookup(Run(c0, ops), alias, b, now, ttl).usage.Some?
    ensures
      var u := AutoSelectLookup(Run(c0, ops), alias, b, now, ttl).usage.value;
      && CardsObserved(c0, ops, b, u.cards)
      && exists q :: && QuotaObserved(c0, ops, b, q)
                     && u.primary == Rebuild(q.primary) && u.secondary == Rebuild(q.secondary) && u.details == q.details
  {
    RunKeepsProvenance(c0, ops);
    var q := Run(c0, ops).entries[alias].quota;
    assert QuotaObserved(c0, ops, b, q);
  }

  /** A probe started from what automatic selection read, a hit or a miss,
      replaces the entry exactly if nothing has mutated the alias since. */
  lemma AutoSelectProbeReplacesIffUntouched(c: Cache, ops: seq<Op>, p: CoreProbeUpdate, b: Binding, now: nat, ttl: nat, recordedAt: nat)
    requires Drawn(c) && p.baseline == AutoSelectLookup(c, p.alias, b, now, ttl).baseline
    ensures
      var r := CompleteCoreProbe(Run(c, ops), p, recordedAt);
      r.Success? && r.value.1 <==> !MutatedSince(c, ops, p.alias)
  {
    ProbeReplacesIffUntouched(c, ops, p, recordedAt);
  }

  /** Step `i` of the run stored this entry, under the revision it drew. */
  ghost predicate StoredBy(c0: Cache, ops: seq<Op>, i: nat, e: CacheEntry) {
    && i < |ops| && Stores(ops[i])
    && e.revision == Some(Run(c0, ops[..i]).draws)
    && e.quota == QuotaOf(Observation(ops[i]).value.1)
    && e.BelongsTo(Observation(ops[i]).value.0)
    && Run(c0, ops[..i]).draws < Run(c0, ops[..i + 1]).draws
  }

  ghost predicate RevisionsTraced(c0: Cache, ops: seq<Op>) {
    forall a :: a in Run(c0, ops).entries && Run(c0, ops).entries[a].revision.Some?
                && Run(c0, ops).entries[a].revision.value >= c0.draws ==>
                  exists i :: StoredBy(c0, ops, i, Run(c0, ops).entries[a])
  }

  lemma StoredByLater(c0: Cache, ops: seq<Op>, op: Op, i: nat, e: CacheEntry, f: CacheEntry)
    requires StoredBy(c0, ops, i, e) && f.revision == e.revision && f.quota == e.quota
    requires f.accountId == e.accountId && f.email == e.email
    ensures StoredBy(c0, ops + [op], i, f)
  {
    assert (ops + [op])[..i] == ops[..i] && (ops + [op])[..i + 1] == ops[..i + 1] && (ops + [op])[i] == ops[i];
  }

  lemma {:induction false} RunTracesRevisions(c0: Cache, ops: seq<Op>)
    requires Drawn(c0)
    ensures RevisionsTraced(c0, ops)
  {
    if ops != [] {
      var before := ops[..|ops| - 1];
      var op := ops[|ops| - 1];
      RunTracesRevisions(c0, before);
      assert ops == before + [op];
      var c, after := Run(c0, before), Run(c0, ops);
      forall a | a in after.entries && after.entries[a].revision.Some? && after.entries[a].revision.value >= c0.draws
        ensures exists i :: StoredBy(c0, ops, i, after.entries[a])
      {
        TraceEntry(c0, before, op, a);
      }
    }
  }

  /** The same revision, quota and owner. */
  predicate SameGeneration(e: CacheEntry, f: CacheEntry) {
    e.revision == f.revision && e.quota == f.quota && e.accountId == f.accountId && e.email == f.email
  }

  /** The entry of `a` after a step was stored by it, or is the generation of an
      entry before it. */
  lemma EntryComesFrom(c: Cache, op: Op, a: string) returns (source: Option<string>)
    requires a in Step(c, op).entries
    ensures source.Some? ==> source.value in c.entries && SameGeneration(c.entries[source.value], Step(c, op).entries[a])
    ensures source.None? ==>
              var e := Step(c, op).entries[a];
              && Stores(op) && e.revision == Some(c.draws) && c.draws < Step(c, op).draws
              && e.quota == QuotaOf(Observation(op).value.1) && e.BelongsTo(Observation(op).value.0)
  {
    if Stores(op) && Mutates(c, op, a) {
      source := None;
    } else {
      source := Some(if op.RenameAlias? && op.from != op.to && a == op.to then op.from else a);
    }
  }

  lemma StoredNow(c0: Cache, before: seq<Op>, op: Op, e: CacheEntry)
    requires Stores(op) && e.revision == Some(Run(c0, before).draws)
    requires Run(c0, before).draws < Step(Run(c0, before), op).draws
    requires e.quota == QuotaOf(Observation(op).value.1) && e.BelongsTo(Observation(op).value.0)
    ensures StoredBy(c0, before + [op], |before|, e)
  {
    var ops := before + [op];
    assert ops[..|before|] == before && ops[..|before| + 1] == ops && ops[|before|] == op;
    assert Run(c0, ops) == Step(Run(c0, before), op);
  }

  lemma TraceEntry(c0: Cache, before: seq<Op>, op: Op, a: string)
    requires RevisionsTraced(c0, before)
    requires a in Step(Run(c0, before), op).entries
    requires Step(Run(c0, before), op).entries[a].revision.Some?
    requires Step(Run(c0, before), op).entries[a].revision.value >= c0.draws
    ensures exists i :: StoredBy(c0, before + [op], i, Step(Run(c0, before), op).entries[a])
  {
    var c := Run(c0, before);
    var after := Step(c, op);
    var e := after.entries[a];
    var ops := before + [op];
    var source := EntryComesFrom(c, op, a);
    if source.None? {
      StoredNow(c0, before, op, e);
    } else {
      var i :| StoredBy(c0, before, i, c.entries[source.value]);
      StoredByLater(c0, before, op, i, c.entries[source.value], e);
    }
  }

  /** A deferred reset-card merge lands only in the generation it was fetched
      for: if the usage it carries was returned by step `i`, the entry it
      changes still holds exactly that step's quota, for that step's account. */
  lemma MergeLandsInItsRevision(c0: Cache, ops: seq<Op>, i: nat, alias: string, b: Binding, u: UsageInfo)
    requires Drawn(c0) && i < |ops| && Stores(ops[i])
    requires Run(c0, ops[..i]).draws < Run(c0, ops[..i + 1]).draws
    requires u.revision == Some(Run(c0, ops[..i]).draws) && Enriches(Run(c0, ops), alias, b, u)
    ensures Run(c0, ops).entries[alias].quota == QuotaOf(Observation(ops[i]).value.1)
    ensures b == Observation(ops[i]).value.0
  {
    RunTracesRevisions(c0, ops);
    DrawsGrow(c0, ops, 0, i);
    assert ops[..0] == [] && Run(c0, []) == c0;
    var e := Run(c0, ops).entries[alias];
    assert e.revision == u.revision && e.BelongsTo(b);
    var j :| StoredBy(c0, ops, j, e);
    OneStepPerRevision(c0, ops, i, j);
  }

  lemma OneStepPerRevision(c0: Cache, ops: seq<Op>, i: nat, j: nat)
    requires i < |ops| && j < |ops|
    requires Run(c0, ops[..i]).draws == Run(c0, ops[..j]).draws
    requires Run(c0, ops[..i]).draws < Run(c0, ops[..i + 1]).draws
    requires Run(c0, ops[..j]).draws < Run(c0, ops[..j + 1]).draws
    ensures i == j
  {
    if j < i {
      DrawsGrow(c0, ops, j + 1, i);
    } else if i < j {
      DrawsGrow(c0, ops, i + 1, j);
    }
  }

  lemma {:induction false} DrawsGrow(c0: Cache, ops: seq<Op>, i: nat, j: nat)
    requires i <= j <= |ops|
    ensures Run(c0, ops[..i]).draws <= Run(c0, ops[..j]).draws
    decreases j - i
  {
    if i < j {
      DrawsGrow(c0, ops, i, j - 1);
      LastStepDraws(c0, ops[..j]);
      assert ops[..j][..j - 1] == ops[..j - 1];
    }
  }

  lemma LastStepDraws(c0: Cache, ops: seq<Op>)
    requires ops != []
    ensures Run(c0, ops[..|ops| - 1]).draws <= Run(c0, ops).draws
  {
    StepDraws(Run(c0, ops[..|ops| - 1]), ops[|ops| - 1]);
  }
}
