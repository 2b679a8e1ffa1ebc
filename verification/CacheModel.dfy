/** The usage cache (src/cache.rs) as a value: entries bound to an account,
    alias-scoped mutation tombstones, and the operations on them. */
module CacheModel {
  import opened Namespace

  const I64_MAX := 0x7fff_ffff_ffff_ffff

  datatype Binding = Binding(accountId: string, email: string)

  /** One usage window; all three parts missing stands for no window. */
  datatype Window = Window(used: Option<real>, resetsAt: Option<int>, minutes: Option<int>)

  datatype ResetCards = ResetCards(available: Option<nat>, credits: seq<string>, error: Option<string>)

  const NO_CARDS := ResetCards(None, [], None)

  /** `details` stands for the remaining quota fields, copied verbatim. */
  datatype Quota = Quota(primary: Window, secondary: Window, details: string)

  datatype UsageInfo = UsageInfo(
    revision: Option<nat>,
    fetchedAt: Option<int>,
    primary: Option<Window>,
    secondary: Option<Window>,
    details: string,
    cards: ResetCards)

  datatype CacheEntry = CacheEntry(
    revision: Option<nat>,
    accountId: Option<string>,
    email: Option<string>,
    ts: nat,
    quota: Quota,
    cards: ResetCards,
    resetMetadataComplete: bool)
  {
    predicate BelongsTo(binding: Binding) {
      accountId == Some(binding.accountId) && email == Some(binding.email)
    }
  }

  datatype AuthFailure = AuthFailure(ts: nat, credential: string, summary: string, detail: string)

  /** The cache file. Revisions and mutations are random and never repeat: both
      are drawn from `draws`. */
  datatype Cache = Cache(
    entries: map<string, CacheEntry>,
    usageMutations: map<string, nat>,
    lastUsed: map<string, int>,
    authFailures: map<string, AuthFailure>,
    draws: nat)

  function Lookup<V>(m: map<string, V>, key: string): (r: Option<V>)
    ensures r.Some? <==> key in m
    ensures key in m ==> r == Some(m[key])
  {
    if key in m then Some(m[key]) else None
  }

  function Flatten(w: Option<Window>): Window {
    if w.Some? then w.value else Window(None, None, None)
  }

  /** from_entry keeps a window only for a percentage or a reset time. */
  function Rebuild(w: Window): Option<Window> {
    if w.used.Some? || w.resetsAt.Some? then Some(w) else None
  }

  function QuotaOf(u: UsageInfo): Quota {
    Quota(Flatten(u.primary), Flatten(u.secondary), u.details)
  }

  /** to_entry_with_binding */
  function ToEntry(u: UsageInfo, recordedAt: nat, binding: Option<Binding>): CacheEntry {
    CacheEntry(
      u.revision,
      if binding.Some? then Some(binding.value.accountId) else None,
      if binding.Some? then Some(binding.value.email) else None,
      recordedAt, QuotaOf(u), u.cards, true)
  }

  /** from_entry */
  function FromEntry(e: CacheEntry): Option<UsageInfo> {
    if e.ts > I64_MAX then None
    else Some(UsageInfo(e.revision, Some(e.ts), Rebuild(e.quota.primary), Rebuild(e.quota.secondary), e.quota.details, e.cards))
  }

  /** timestamp_is_fresh, over unsigned seconds */
  predicate TimestampIsFresh(now: nat, recordedAt: nat, ttl: nat) {
    now >= recordedAt && now - recordedAt <= ttl
  }

  /** fresh_usage_bound */
  function FreshUsageBound(c: Cache, alias: string, binding: Binding, now: nat, ttl: nat): Option<UsageInfo> {
    if alias !in c.entries then None
    else
      var e := c.entries[alias];
      if !e.BelongsTo(binding) || !e.resetMetadataComplete || !TimestampIsFresh(now, e.ts, ttl) then None else FromEntry(e)
  }

  /** A usage whose windows carry something survives storage, stamped with the
      time it was recorded; a window with neither percentage nor reset time is
      lost. */
  lemma EntryRoundTrip(u: UsageInfo, recordedAt: nat, binding: Option<Binding>)
    ensures FromEntry(ToEntry(u, recordedAt, binding)) == Some(u.(fetchedAt := Some(recordedAt)))
       <==> && recordedAt <= I64_MAX
            && (u.primary.Some? ==> u.primary.value.used.Some? || u.primary.value.resetsAt.Some?)
            && (u.secondary.Some? ==> u.secondary.value.used.Some? || u.secondary.value.resetsAt.Some?)
  {
  }

  /** mark_usage_mutation */
  function Marked(c: Cache, alias: string): Cache {
    c.(usageMutations := c.usageMutations[alias := c.draws], draws := c.draws + 1)
  }

  /** Store an entry under a revision of its own. */
  function Stored(c: Cache, alias: string, e: CacheEntry): Cache {
    Marked(c.(entries := c.entries[alias := e.(revision := Some(c.draws))], draws := c.draws + 1), alias)
  }

  /** replace_bound_usage_at, with the usage it returns */
  function ReplaceBoundUsage(c: Cache, alias: string, binding: Binding, u: UsageInfo, recordedAt: nat): (Cache, UsageInfo) {
    (Stored(c, alias, ToEntry(u, recordedAt, Some(binding))), u.(revision := Some(c.draws)))
  }

  datatype CoreProbeResetMetadata = PreserveExisting | Complete

  /** The reset cards a probe publishes: its own after a reset-card lookup,
      otherwise those of the same account's entry, otherwise none. */
  function ProbeCards(c: Cache, alias: string, binding: Binding, u: UsageInfo, mode: CoreProbeResetMetadata): (ResetCards, bool) {
    if mode.Complete? then (u.cards, true)
    else if alias in c.entries && c.entries[alias].BelongsTo(binding)
    then (c.entries[alias].cards, c.entries[alias].resetMetadataComplete)
    else (NO_CARDS, false)
  }

  /** replace_core_probe_usage_at, with the usage it returns */
  function ReplaceCoreProbeUsage(c: Cache, alias: string, binding: Binding, u: UsageInfo, mode: CoreProbeResetMetadata,
                                 recordedAt: nat): (Cache, UsageInfo)
  {
    var (cards, complete) := ProbeCards(c, alias, binding, u, mode);
    var e := ToEntry(u.(cards := cards), recordedAt, Some(binding)).(resetMetadataComplete := complete);
    (Stored(c, alias, e), u.(cards := cards, revision := Some(c.draws)))
  }

  /** The raw entry and the alias mutation seen under one lock. */
  datatype UsageCacheBaseline = UsageCacheBaseline(alias: string, entry: Option<CacheEntry>, mutation: Option<nat>)

  /** usage_cache_baseline */
  function Baseline(c: Cache, alias: string): UsageCacheBaseline {
    UsageCacheBaseline(alias, Lookup(c.entries, alias), Lookup(c.usageMutations, alias))
  }

  /** What automatic selection reads for one alias. */
  datatype AutoSelectUsageCacheLookup = AutoSelectUsageCacheLookup(
    usage: Option<UsageInfo>,
    resetMetadataComplete: bool,
    baseline: UsageCacheBaseline)

  /** One turn of auto_select_usage_snapshot_from_cache: a fresh entry of the
      same account counts even without complete reset-card metadata. */
  function AutoSelectLookup(c: Cache, alias: string, binding: Binding, now: nat, ttl: nat): AutoSelectUsageCacheLookup {
    var entry := Lookup(c.entries, alias);
    var usage := if entry.Some? && entry.value.BelongsTo(binding) && TimestampIsFresh(now, entry.value.ts, ttl)
                 then FromEntry(entry.value) else None;
    AutoSelectUsageCacheLookup(usage, usage.Some? && entry.value.resetMetadataComplete, Baseline(c, alias))
  }

  /** The other bound reader sees exactly the lookups with complete metadata. */
  lemma BoundReadersAgree(c: Cache, alias: string, binding: Binding, now: nat, ttl: nat)
    ensures
      var lookup := AutoSelectLookup(c, alias, binding, now, ttl);
      FreshUsageBound(c, alias, binding, now, ttl) == if lookup.resetMetadataComplete then lookup.usage else None
  {
  }

  datatype CoreProbeUpdate = CoreProbeUpdate(
    alias: string,
    binding: Binding,
    baseline: UsageCacheBaseline,
    usage: UsageInfo,
    resetMetadata: CoreProbeResetMetadata)

  /** complete_core_probe_bound_at: the usage it returns, whether it wrote, and
      the cache after it. */
  function CompleteCoreProbe(c: Cache, p: CoreProbeUpdate, recordedAt: nat): Result<(UsageInfo, bool, Cache)> {
    if p.baseline.alias != p.alias then Failure(Refused)
    else if Baseline(c, p.alias) == p.baseline then
      var (after, versioned) := ReplaceCoreProbeUsage(c, p.alias, p.binding, p.usage, p.resetMetadata, recordedAt);
      Success((versioned, true, after))
    else if p.alias in c.entries && c.entries[p.alias].BelongsTo(p.binding) then
      match FromEntry(c.entries[p.alias])
      case Some(current) => Success((current, false, c))
      case None => Failure(Refused)
    else Failure(Refused)
  }

  /** merge_reset_credit_enrichment would change the entry of `alias`. */
  predicate Enriches(c: Cache, alias: string, binding: Binding, u: UsageInfo) {
    && u.revision.Some? && alias in c.entries
    && c.entries[alias].BelongsTo(binding) && c.entries[alias].revision == u.revision
  }

  /** merge_reset_credit_enrichment */
  function Enriched(c: Cache, alias: string, binding: Binding, u: UsageInfo): Cache {
    if !Enriches(c, alias, binding, u) then c
    else
      var e := c.entries[alias].(cards := u.cards, resetMetadataComplete := true);
      Marked(c.(entries := c.entries[alias := e]), alias)
  }

  /** drop_fetch_state */
  function FetchStateDropped(c: Cache, alias: string): Cache {
    Marked(c.(entries := c.entries - {alias}, authFailures := c.authFailures - {alias}), alias)
  }

  /** The entry of `alias`, if any, is bound to someone else. */
  predicate OwnedByAnother(c: Cache, alias: string, binding: Binding) {
    alias in c.entries && !c.entries[alias].BelongsTo(binding)
  }

  /** drop_profile_state */
  function ProfileStateDropped(c: Cache, alias: string): Cache {
    var dropped := FetchStateDropped(c, alias);
    dropped.(lastUsed := dropped.lastUsed - {alias})
  }

  function Moved<V>(m: map<string, V>, from: string, to: string): map<string, V> {
    if from in m then (m - {from})[to := m[from]] else m
  }

  /** migrate_alias */
  function AliasMigrated(c: Cache, from: string, to: string): Cache {
    if from == to then c
    else
      var cleared := ProfileStateDropped(c, to);
      var moved := cleared.(entries := Moved(cleared.entries, from, to),
                            lastUsed := Moved(cleared.lastUsed, from, to),
                            authFailures := Moved(cleared.authFailures, from, to));
      Marked(Marked(moved, from), to)
  }

  // ----- what the operations mean to a reader ------------------------------

  /** Every alias but this one keeps all its records. */
  ghost predicate OnlyAliasChanged(before: Cache, after: Cache, alias: string) {
    forall a :: a != alias ==>
      && Lookup(after.entries, a) == Lookup(before.entries, a)
      && Lookup(after.usageMutations, a) == Lookup(before.usageMutations, a)
      && Lookup(after.lastUsed, a) == Lookup(before.lastUsed, a)
      && Lookup(after.authFailures, a) == Lookup(before.authFailures, a)
  }

  /** The alias has a tombstone that was never used before. */
  predicate FreshlyMarked(before: Cache, after: Cache, alias: string) {
    alias in after.usageMutations && before.draws <= after.usageMutations[alias] < after.draws
  }

  /** A window nobody can read anything from is not carried. */
  function CarriedWindow(w: Option<Window>): Option<Window> {
    match w
    case Some(Window(None, None, _)) => None
    case _ => w
  }

  /** A usage as a reader gets it back. */
  function Carried(u: UsageInfo, recordedAt: nat): UsageInfo {
    u.(fetchedAt := Some(recordedAt), primary := CarriedWindow(u.primary), secondary := CarriedWindow(u.secondary))
  }

  /** What a stored usage is to its readers: the same account gets it back while
      it is fresh, under the revision it was returned with, and any other account
      gets nothing. */
  lemma ReplacedIsReadBack(c: Cache, alias: string, binding: Binding, u: UsageInfo, recordedAt: nat,
                           reader: Binding, now: nat, ttl: nat)
    requires recordedAt <= I64_MAX
    ensures
      var (after, versioned) := ReplaceBoundUsage(c, alias, binding, u, recordedAt);
      && FreshUsageBound(after, alias, reader, now, ttl)
         == (if reader == binding && recordedAt <= now <= recordedAt + ttl then Some(Carried(versioned, recordedAt)) else None)
      && versioned == u.(revision := versioned.revision)
      && versioned.revision.Some? && c.draws <= versioned.revision.value < after.draws
      && after.lastUsed == c.lastUsed && after.authFailures == c.authFailures
      && FreshlyMarked(c, after, alias) && OnlyAliasChanged(c, after, alias)
  {
  }

  /** What a probe that replaces the entry publishes: its quota, and its own
      reset cards only after a reset-card lookup. Otherwise the entry of the same
      account keeps its cards and their completeness, and without one there are
      none and they are incomplete. */
  lemma ProbeIsReadBack(c: Cache, p: CoreProbeUpdate, recordedAt: nat, reader: Binding, now: nat, ttl: nat)
    requires recordedAt <= I64_MAX && p.baseline.alias == p.alias
    requires p.baseline.entry == Lookup(c.entries, p.alias) && p.baseline.mutation == Lookup(c.usageMutations, p.alias)
    ensures CompleteCoreProbe(c, p, recordedAt).Success?
    ensures
      var (versioned, wrote, after) := CompleteCoreProbe(c, p, recordedAt).value;
      var lookup := AutoSelectLookup(after, p.alias, reader, now, ttl);
      && wrote && versioned == p.usage.(revision := versioned.revision, cards := versioned.cards)
      && versioned.revision.Some? && c.draws <= versioned.revision.value < after.draws
      && lookup.usage
         == (if reader == p.binding && recordedAt <= now <= recordedAt + ttl then Some(Carried(versioned, recordedAt)) else None)
      && lookup.resetMetadataComplete == (lookup.usage.Some? && after.entries[p.alias].resetMetadataComplete)
      && lookup.baseline.alias == p.alias && lookup.baseline.entry == Some(after.entries[p.alias])
      && lookup.baseline.mutation == Some(after.usageMutations[p.alias])
      && FreshlyMarked(c, after, p.alias) && OnlyAliasChanged(c, after, p.alias)
      && after.lastUsed == c.lastUsed && after.authFailures == c.authFailures
  {
  }

  lemma ProbeCardsKept(c: Cache, p: CoreProbeUpdate, recordedAt: nat)
    requires p.baseline.alias == p.alias
    requires p.baseline.entry == Lookup(c.entries, p.alias) && p.baseline.mutation == Lookup(c.usageMutations, p.alias)
    ensures CompleteCoreProbe(c, p, recordedAt).Success?
    ensures
      var (versioned, _, after) := CompleteCoreProbe(c, p, recordedAt).value;
      var before := Lookup(c.entries, p.alias);
      && p.alias in after.entries && after.entries[p.alias].cards == versioned.cards
      && match p.resetMetadata
         case Complete => versioned.cards == p.usage.cards && after.entries[p.alias].resetMetadataComplete
         case PreserveExisting =>
           if && before.Some? && before.value.accountId == Some(p.binding.accountId)
              && before.value.email == Some(p.binding.email)
           then versioned.cards == before.value.cards
                && after.entries[p.alias].resetMetadataComplete == before.value.resetMetadataComplete
           else versioned.cards == ResetCards(None, [], None) && !after.entries[p.alias].resetMetadataComplete
  {
  }

  /** A merged reset-card lookup is what every fresh reader of the account gets,
      with the quota it was fetched for. */
  lemma EnrichedIsReadBack(c: Cache, alias: string, binding: Binding, u: UsageInfo, now: nat, ttl: nat)
    requires Enriches(c, alias, binding, u)
    ensures
      var e := c.entries[alias];
      var after := Enriched(c, alias, binding, u);
      var read := FreshUsageBound(after, alias, binding, now, ttl);
      && (read.Some? <==> e.ts <= now <= e.ts + ttl && e.ts <= I64_MAX)
      && (read.Some? ==> read.value.cards == u.cards && read.value.revision == u.revision
                         && FromEntry(e) == Some(read.value.(cards := e.cards)))
      && FreshlyMarked(c, after, alias) && OnlyAliasChanged(c, after, alias)
      && after.lastUsed == c.lastUsed && after.authFailures == c.authFailures
  {
  }

  /** The two ways of dropping an alias take exactly its records. */
  lemma DroppedIsGone(c: Cache, alias: string)
    ensures
      var fetch, profile := FetchStateDropped(c, alias), ProfileStateDropped(c, alias);
      && alias !in fetch.entries && alias !in fetch.authFailures && fetch.lastUsed == c.lastUsed
      && alias !in profile.entries && alias !in profile.authFailures && alias !in profile.lastUsed
      && FreshlyMarked(c, fetch, alias) && FreshlyMarked(c, profile, alias)
      && OnlyAliasChanged(c, fetch, alias) && OnlyAliasChanged(c, profile, alias)
  {
  }
}
