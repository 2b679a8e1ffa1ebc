/** The usage cache as the program changes it (src/cache.rs): a loaded cache
    file whose maps are updated in place, and the store it is loaded from and
    saved to under the cache lock. */
module UsageCache {
  import opened Namespace
  import opened CacheModel
  import opened CacheBatch

  class CacheFile {
    var entries: map<string, CacheEntry>
    var usageMutations: map<string, nat>
    var lastUsed: map<string, int>
    var authFailures: map<string, AuthFailure>
    var draws: nat

    constructor (c: Cache)
      ensures State() == c
    {
      entries := c.entries;
      usageMutations := c.usageMutations;
      lastUsed := c.lastUsed;
      authFailures := c.authFailures;
      draws := c.draws;
    }

    function State(): Cache
      reads this
    {
      Cache(entries, usageMutations, lastUsed, authFailures, draws)
    }

    /** new_usage_cache_revision */
    method NewUsageCacheRevision() returns (revision: nat)
      modifies this`draws
      ensures revision == old(draws) && draws == old(draws) + 1
    {
      revision := draws;
      draws := draws + 1;
    }

    /** mark_usage_mutation */
    method MarkUsageMutation(alias: string)
      modifies this
      ensures State() == Marked(old(State()), alias)
      ensures entries == old(entries) && lastUsed == old(lastUsed) && authFailures == old(authFailures)
      ensures FreshlyMarked(old(State()), State(), alias) && OnlyAliasChanged(old(State()), State(), alias)
    {
      var revision := NewUsageCacheRevision();
      usageMutations := usageMutations[alias := revision];
    }

    /** replace_bound_usage_at */
    method ReplaceBoundUsageAt(alias: string, binding: Binding, usage: UsageInfo, recordedAt: nat) returns (versioned: UsageInfo)
      modifies this
      ensures (State(), versioned) == ReplaceBoundUsage(old(State()), alias, binding, usage, recordedAt)
    {
      var revision := NewUsageCacheRevision();
      versioned := usage.(revision := Some(revision));
      entries := entries[alias := ToEntry(versioned, recordedAt, Some(binding))];
      MarkUsageMutation(alias);
    }

    /** replace_core_probe_usage_at */
    method ReplaceCoreProbeUsageAt(alias: string, binding: Binding, usage: UsageInfo, mode: CoreProbeResetMetadata, recordedAt: nat)
      returns (versioned: UsageInfo)
      modifies this
      ensures (State(), versioned) == ReplaceCoreProbeUsage(old(State()), alias, binding, usage, mode, recordedAt)
    {
      var preserved := NO_CARDS;
      var complete := false;
      if alias in entries && entries[alias].BelongsTo(binding) {
        preserved, complete := entries[alias].cards, entries[alias].resetMetadataComplete;
      }
      versioned := usage;
      match mode {
        case Complete => complete := true;
        case PreserveExisting => versioned := versioned.(cards := preserved);
      }
      var revision := NewUsageCacheRevision();
      versioned := versioned.(revision := Some(revision));
      entries := entries[alias := ToEntry(versioned, recordedAt, Some(binding)).(resetMetadataComplete := complete)];
      MarkUsageMutation(alias);
    }

    /** auto_select_usage_snapshot_from_cache */
    method AutoSelectUsageSnapshot(bindings: map<string, Binding>, now: nat, ttl: nat)
      returns (lookups: map<string, AutoSelectUsageCacheLookup>)
      ensures lookups.Keys == bindings.Keys
      ensures forall alias :: alias in lookups ==> lookups[alias] == AutoSelectLookup(State(), alias, bindings[alias], now, ttl)
      ensures forall alias :: alias in lookups ==>
                (lookups[alias].usage.Some? <==>
                  && alias in entries && entries[alias].ts <= now <= entries[alias].ts + ttl && entries[alias].ts <= I64_MAX
                  && entries[alias].accountId == Some(bindings[alias].accountId)
                  && entries[alias].email == Some(bindings[alias].email))
    {
      lookups := map[];
      var rest := bindings.Keys;
      while rest != {}
        invariant rest <= bindings.Keys && lookups.Keys == bindings.Keys - rest
        invariant forall alias :: alias in lookups ==>
                    lookups[alias] == AutoSelectLookup(State(), alias, bindings[alias], now, ttl)
        decreases rest
      {
        var alias :| alias in rest;
        rest := rest - {alias};
        var entry := Lookup(entries, alias);
        var belongs := entry.Some? && entry.value.BelongsTo(bindings[alias]);
        var usage := None;
        if belongs && TimestampIsFresh(now, entry.value.ts, ttl) {
          usage := FromEntry(entry.value);
        }
        var complete := usage.Some? && entry.value.resetMetadataComplete;
        var baseline := UsageCacheBaseline(alias, entry, Lookup(usageMutations, alias));
        lookups := lookups[alias := AutoSelectUsageCacheLookup(usage, complete, baseline)];
      }
    }

    /** complete_core_probe_bound_at */
    method CompleteCoreProbeBoundAt(p: CoreProbeUpdate, recordedAt: nat) returns (r: Result<(UsageInfo, bool)>)
      modifies this
      ensures match CompleteCoreProbe(old(State()), p, recordedAt)
              case Success((usage, wrote, after)) => r == Success((usage, wrote)) && State() == after
              case Failure(_) => r.Failure? && State() == old(State())
      ensures p.baseline.alias != p.alias ==> r.Failure?
      ensures r.Failure? ==> State() == old(State())
      ensures r.Success? && !r.value.1 ==>
                && State() == old(State()) && p.alias in entries && r.value.0.cards == entries[p.alias].cards
                && r.value.0.revision == entries[p.alias].revision
                && entries[p.alias].accountId == Some(p.binding.accountId)
                && entries[p.alias].email == Some(p.binding.email)
    {
      if p.baseline.alias != p.alias {
        return Failure(Refused);
      }
      if Lookup(entries, p.alias) == p.baseline.entry && Lookup(usageMutations, p.alias) == p.baseline.mutation {
        var versioned := ReplaceCoreProbeUsageAt(p.alias, p.binding, p.usage, p.resetMetadata, recordedAt);
        return Success((versioned, true));
      }
      if p.alias in entries && entries[p.alias].BelongsTo(p.binding) {
        var current := FromEntry(entries[p.alias]);
        return if current.Some? then Success((current.value, false)) else Failure(Refused);
      }
      return Failure(Refused);
    }

    /** merge_reset_credit_enrichment */
    method MergeResetCreditEnrichment(alias: string, binding: Binding, usage: UsageInfo) returns (merged: bool)
      modifies this
      ensures merged == Enriches(old(State()), alias, binding, usage)
      ensures State() == Enriched(old(State()), alias, binding, usage)
      ensures merged <==>
                && alias in old(entries) && usage.revision.Some? && old(entries)[alias].revision == usage.revision
                && old(entries)[alias].accountId == Some(binding.accountId)
                && old(entries)[alias].email == Some(binding.email)
      ensures merged ==>
                && alias in entries && entries[alias].cards == usage.cards && entries[alias].resetMetadataComplete
                && entries[alias].quota == old(entries)[alias].quota && entries[alias].ts == old(entries)[alias].ts
                && entries[alias].revision == old(entries)[alias].revision
                && entries[alias].accountId == old(entries)[alias].accountId
                && entries[alias].email == old(entries)[alias].email
      ensures merged ==> FreshlyMarked(old(State()), State(), alias) && OnlyAliasChanged(old(State()), State(), alias)
      ensures merged ==> lastUsed == old(lastUsed) && authFailures == old(authFailures)
      ensures !merged ==> State() == old(State())
    {
      if usage.revision.None? || alias !in entries {
        return false;
      }
      if !entries[alias].BelongsTo(binding) || entries[alias].revision != usage.revision {
        return false;
      }
      entries := entries[alias := entries[alias].(cards := usage.cards, resetMetadataComplete := true)];
      MarkUsageMutation(alias);
      return true;
    }

    /** drop_fetch_state: whether a visible record was removed */
    method DropFetchState(alias: string) returns (removed: bool)
      modifies this
      ensures State() == FetchStateDropped(old(State()), alias)
      ensures removed <==> alias in old(entries) || alias in old(authFailures)
      ensures alias !in entries && alias !in authFailures && lastUsed == old(lastUsed)
      ensures FreshlyMarked(old(State()), State(), alias) && OnlyAliasChanged(old(State()), State(), alias)
    {
      removed := alias in entries || alias in authFailures;
      entries := entries - {alias};
      authFailures := authFailures - {alias};
      MarkUsageMutation(alias);
    }

    /** drop_fetch_state_bound */
    method DropFetchStateBound(alias: string, binding: Binding) returns (dropped: bool)
      modifies this
      ensures dropped <==> !OwnedByAnother(old(State()), alias, binding)
      ensures dropped <==> alias in old(entries) ==>
                && old(entries)[alias].accountId == Some(binding.accountId)
                && old(entries)[alias].email == Some(binding.email)
      ensures dropped ==> alias !in entries && alias !in authFailures && lastUsed == old(lastUsed)
      ensures dropped ==> FreshlyMarked(old(State()), State(), alias) && OnlyAliasChanged(old(State()), State(), alias)
      ensures State() == if dropped then FetchStateDropped(old(State()), alias) else old(State())
    {
      if alias in entries && !entries[alias].BelongsTo(binding) {
        return false;
      }
      var _ := DropFetchState(alias);
      return true;
    }

    /** drop_profile_state */
    method DropProfileState(alias: string) returns (removed: bool)
      modifies this
      ensures State() == ProfileStateDropped(old(State()), alias)
      ensures removed <==> alias in old(entries) || alias in old(authFailures) || alias in old(lastUsed)
      ensures alias !in entries && alias !in authFailures && alias !in lastUsed
      ensures FreshlyMarked(old(State()), State(), alias) && OnlyAliasChanged(old(State()), State(), alias)
    {
      var droppedFetchState := DropFetchState(alias);
      removed := droppedFetchState || alias in lastUsed;
      lastUsed := lastUsed - {alias};
    }

    /** migrate_alias */
    method MigrateAlias(from: string, to: string) returns (changed: bool)
      modifies this
      ensures changed <==> from != to
      ensures !changed ==> State() == old(State())
      ensures State() == AliasMigrated(old(State()), from, to)
    {
      if from == to {
        return false;
      }
      var _ := DropProfileState(to);
      if from in entries {
        var entry := entries[from];
        entries := (entries - {from})[to := entry];
      }
      if from in lastUsed {
        var ts := lastUsed[from];
        lastUsed := (lastUsed - {from})[to := ts];
      }
      if from in authFailures {
        var failure := authFailures[from];
        authFailures := (authFailures - {from})[to := failure];
      }
      MarkUsageMutation(from);
      MarkUsageMutation(to);
      return true;
    }
  }

  /** Same records; only randomness may have been used up. */
  predicate SameRecords(x: Cache, y: Cache) {
    x == y.(draws := x.draws) && x.draws >= y.draws
  }

  /** The cache file on disk, while the cache lock is held, and how often it was
      written. Only with `faults` may a write fail. */
  class CacheStore {
    const faults: bool
    var saved: Cache
    var saves: nat

    constructor (faults: bool, c: Cache)
      ensures saved == c && this.faults == faults && saves == 0
    {
      this.faults := faults;
      saved := c;
      saves := 0;
    }

    /** save_cache: an error may come before or after the new file is visible. */
    method Save(c: Cache) returns (r: Result<()>)
      requires c.draws >= saved.draws
      modifies this
      ensures r.Success? ==> saved == c
      ensures saved == c || SameRecords(saved, old(saved))
      ensures saves == old(saves) + 1 && (!faults ==> r.Success?)
    {
      var fails: bool := *;
      var visible: bool := *;
      fails := fails && faults;
      saves := saves + 1;
      if !fails || visible {
        saved := c;
      } else {
        saved := saved.(draws := c.draws);
      }
      r := if fails then Failure(OsError) else Success(());
    }

    /** The checks complete_core_probes_bound makes before taking the lock. */
    method CheckBatch(updates: seq<CoreProbeUpdate>) returns (ok: bool)
      ensures ok <==> Distinct(updates) && OwnBaselines(updates)
    {
      var aliases: set<string> := {};
      for i := 0 to |updates|
        invariant Distinct(updates[..i]) && OwnBaselines(updates[..i])
        invariant forall a :: a in aliases <==> exists j :: 0 <= j < i && updates[j].alias == a
      {
        if updates[i].baseline.alias != updates[i].alias || updates[i].alias in aliases {
          return false;
        }
        aliases := aliases + {updates[i].alias};
      }
      assert updates[..|updates|] == updates;
      return true;
    }

    /** One turn of the batch loop. */
    method CompleteItem(cache: CacheFile, u: CoreProbeUpdate, recordedAt: nat, ghost before: Completed)
      returns (r: Result<(CoreProbeOutcome, bool)>)
      requires before.cache == cache.State()
      modifies cache
      ensures cache.draws >= old(cache.draws)
      ensures match CompleteNext(before, u, recordedAt)
              case Success(next) =>
                r.Success? && next == Completed(before.outcomes + [r.value.0], before.changed || r.value.1, cache.State())
              case Failure(_) => r.Failure?
    {
      var completed := cache.CompleteCoreProbeBoundAt(u, recordedAt);
      if completed.Failure? {
        return Failure(completed.error);
      }
      if u.alias !in cache.entries {
        return Failure(Refused);
      }
      return Success((CoreProbeOutcome(u.alias, completed.value.0, Baseline(cache.State(), u.alias),
                                       cache.entries[u.alias].resetMetadataComplete),
                      completed.value.1));
    }

    static lemma OneMore(c: Cache, updates: seq<CoreProbeUpdate>, i: nat, at: nat)
      requires i < |updates| && CompleteAll(c, updates[..i], at).Success?
      ensures CompleteAll(c, updates[..i + 1], at) == CompleteNext(CompleteAll(c, updates[..i], at).value, updates[i], at)
    {
      assert updates[..i + 1][..i] == updates[..i];
    }

    /** If an item fails after those before it, it fails alone. */
    static lemma FailsAlone(c: Cache, updates: seq<CoreProbeUpdate>, i: nat, at: nat)
      requires i < |updates| && Distinct(updates) && CompleteAll(c, updates[..i + 1], at).Failure?
      ensures !AllComplete(c, updates, at)
    {
      BatchIsItemwise(c, updates[..i + 1], at);
      PrefixCompletes(c, updates, i + 1, at);
    }

    static lemma PrefixCompletes(c: Cache, updates: seq<CoreProbeUpdate>, n: nat, at: nat)
      requires n <= |updates|
      ensures AllComplete(c, updates, at) ==> AllComplete(c, updates[..n], at)
    {
      assert forall j :: 0 <= j < n ==> updates[..n][j] == updates[j];
    }

    static lemma UnchangedIsSame(c: Cache, updates: seq<CoreProbeUpdate>, at: nat)
      requires Distinct(updates)
      ensures CompleteAll(c, updates, at).Success? && !CompleteAll(c, updates, at).value.changed ==>
                CompleteAll(c, updates, at).value.cache == c
    {
    }

    /** complete_core_probes_bound. All items are saved or none is, and the
        outcomes and the saved records are those of the completions in order. */
    method CompleteCoreProbesBound(updates: seq<CoreProbeUpdate>, recordedAt: nat) returns (r: Result<seq<CoreProbeOutcome>>)
      modifies this
      ensures !faults ==>
                (r.Success? <==> Distinct(updates) && OwnBaselines(updates) && AllComplete(old(saved), updates, recordedAt))
      ensures r.Success? ==>
                saves == old(saves) + if exists i :: 0 <= i < |updates| && Writes(old(saved), updates[i], recordedAt) then 1 else 0
      ensures saves <= old(saves) + 1
      ensures r.Success? ==> Distinct(updates) && OwnBaselines(updates) && CompleteAll(old(saved), updates, recordedAt).Success?
      ensures r.Success? ==>
                var all := CompleteAll(old(saved), updates, recordedAt).value;
                r.value == all.outcomes && saved == all.cache
      ensures r.Failure? ==>
                || SameRecords(saved, old(saved))
                || (CompleteAll(old(saved), updates, recordedAt).Success?
                    && saved == CompleteAll(old(saved), updates, recordedAt).value.cache)
    {
      var ok := CheckBatch(updates);
      if !ok {
        return Failure(Refused);
      }
      UnchangedIsSame(saved, updates, recordedAt);
      var cache := new CacheFile(saved);
      var changed := false;
      var outcomes: seq<CoreProbeOutcome> := [];
      for i := 0 to |updates|
        invariant saved == old(saved) && saves == old(saves) && fresh(cache) && cache.draws >= saved.draws
        invariant CompleteAll(saved, updates[..i], recordedAt) == Success(Completed(outcomes, changed, cache.State()))
      {
        OneMore(saved, updates, i, recordedAt);
        var item := CompleteItem(cache, updates[i], recordedAt, Completed(outcomes, changed, cache.State()));
        if item.Failure? {
          FailsAlone(saved, updates, i, recordedAt);
          saved := saved.(draws := cache.draws);
          return Failure(item.error);
        }
        outcomes := outcomes + [item.value.0];
        changed := changed || item.value.1;
      }
      assert updates[..|updates|] == updates;
      BatchIsItemwise(saved, updates, recordedAt);
      if changed {
        var written := Save(cache.State());
        if written.Failure? {
          return Failure(written.error);
        }
      }
      return Success(outcomes);
    }
  }
}
