/** One private directory as a map from names to files, and the namespace
    primitives the program relies on (no-replace rename, exchange, ReplaceFileW,
    unlink, fsync), each with every outcome the operating system may report.

    The directory is shared: before each step of ours a foreign writer may act
    on one contested name, and at each step our process may stop for good. */
module Namespace {

  datatype Option<+T> = None | Some(value: T)

  datatype IoError = AlreadyExists | OsError | Refused

  datatype Result<+T> = Success(value: T) | Failure(error: IoError) {
    predicate IsFailure() {
      Failure?
    }
    function PropagateFailure<U>(): Result<U>
      requires Failure?
    {
      Failure(error)
    }
    function Extract(): T
      requires Success?
    {
      value
    }
  }

  /** Random names are drawn from 128 bits; a draw never repeats. */
  datatype Path =
    | Named(name: string)
    | Quarantine(draw: nat)
    | Staged(draw: nat)

  /** A token is a file's identity with a digest of its contents. The digest is
      taken to be injective, so a file stands for its own token. */
  datatype File = File(identity: nat, contents: Contents)

  datatype Contents =
    | Raw(data: seq<bv8>)
    | Encoded(record: PublicationRecord)

  /** The serialized publication record of src/auth.rs. */
  datatype PublicationRecord = PublicationRecord(
    version: nat,
    nonce: string,
    backupStamp: string,
    expected: File,
    candidate: File,
    backup: File)

  type FileToken = File

  predicate SameContents(a: FileToken, b: FileToken) {
    a.contents == b.contents
  }

  predicate MatchesBytes(token: FileToken, contents: Contents) {
    token.contents == contents
  }

  type Names = map<Path, File>

  function At(n: Names, p: Path): Option<File> {
    if p in n then Some(n[p]) else None
  }

  /** One atomic change of the namespace. */
  datatype Op =
    | Rename(source: Path, destination: Path)
    | Swap(left: Path, right: Path)
    | Replace(replacement: Path, target: Path, displaced: Path)
    | Displace(target: Path, displaced: Path)
    | Remove(path: Path)
    | Link(path: Path, file: File)

  function Apply(n: Names, op: Op): (r: Names)
    ensures op.Rename? ==> forall p :: p != op.source && p != op.destination ==> At(r, p) == At(n, p)
    ensures op.Swap? ==> forall p :: p != op.left && p != op.right ==> At(r, p) == At(n, p)
    ensures op.Replace? ==>
              forall p :: p != op.replacement && p != op.target && p != op.displaced ==> At(r, p) == At(n, p)
    ensures op.Displace? ==> forall p :: p != op.target && p != op.displaced ==> At(r, p) == At(n, p)
    ensures op.Remove? ==> forall p :: p != op.path ==> At(r, p) == At(n, p)
    ensures op.Link? ==> forall p :: p != op.path ==> At(r, p) == At(n, p)
  {
    match op
    case Rename(a, b) => if a in n && b !in n then (n - {a})[b := n[a]] else n
    case Swap(a, b) => if a in n && b in n then n[a := n[b]][b := n[a]] else n
    case Replace(r, t, d) => if r in n && t in n then (n - {r})[d := n[t]][t := n[r]] else n
    case Displace(t, d) => if t in n then (n - {t})[d := n[t]] else n
    case Remove(p) => n - {p}
    case Link(p, f) => if p in n then n else n[p := f]
  }

  /** What a power loss may leave once `op` is issued and not yet synced: each
      operation since the last sync may or may not have reached the disk, on
      its own and whatever the others did. */
  function Surviving(survivors: set<Names>, op: Op): set<Names> {
    survivors + set s | s in survivors :: Apply(s, op)
  }

  /** What this process saw and did, in order. */
  datatype Event =
    | Saw(path: Path, seen: Option<File>)
    | Created(path: Path, file: File)
    | Renamed(source: Path, destination: Path, file: File)
    | Swapped(left: Path, right: Path, fromLeft: File, fromRight: File)
    | Replaced(replacement: Path, target: Path, displaced: Path, placed: File, removed: File)
    | OnlyDisplaced(target: Path, displaced: Path, removed: File)
    | Unlinked(path: Path, file: File)
    | WrittenThroughHandle(before: File, after: File)

  /** What a ReplaceFileW call did, whatever it reported. */
  datatype ReplaceOutcome =
    | Untouched
    | FullyReplaced(placed: File, removed: File)
    | TargetDisplaced(removed: File)

  datatype Platform = Unix | Windows

  /** `contested`: the name foreign writers act on. `foreign`: whether there are
      any. `faults`: whether calls may fail or the process may stop. */
  datatype Surroundings = Surroundings(contested: Path, foreign: bool, faults: bool, platform: Platform)

  datatype World = World(
    env: Surroundings,
    names: Names,
    survivors: set<Names>,
    flushed: set<nat>,
    owed: set<File>,          // files foreign writers placed and have not taken away
    history: seq<Event>,
    draws: nat,
    nextIdentity: nat,
    stopped: bool)

  /** No two names share a file. */
  ghost predicate NoAlias(n: Names) {
    forall p, q :: p in n && q in n && n[p].identity == n[q].identity ==> p == q
  }

  predicate Drawn(p: Path, draws: nat) {
    p.Named? || p.draw < draws
  }

  /** No sharing, and only names and identities handed out so far. */
  ghost predicate Sane(n: Names, draws: nat, nextIdentity: nat) {
    && NoAlias(n)
    && (forall p :: p in n ==> n[p].identity < nextIdentity)
    && (forall p :: p in n ==> Drawn(p, draws))
  }

  ghost predicate Valid(w: World) {
    && w.env.contested.Named?
    && w.names in w.survivors
    && Sane(w.names, w.draws, w.nextIdentity)
    && forall s :: s in w.survivors ==> Sane(s, w.draws, w.nextIdentity)
  }

  lemma DrawingKeepsValid(w: World)
    requires Valid(w)
    ensures Valid(w.(draws := w.draws + 1))
  {
  }

  /** Names other than those in `except` keep their occupant. */
  ghost predicate Elsewhere(n: Names, m: Names, except: set<Path>) {
    forall p :: p !in except ==> At(m, p) == At(n, p)
  }

  /** Every file foreign writers are owed is at `spot`, or was owed before and
      was not under the contested name then. */
  ghost predicate Accounted(w: World, v: World, spot: Path) {
    forall f :: f in v.owed ==>
      At(v.names, spot) == Some(f) || (f in w.owed && At(w.names, w.env.contested) != Some(f))
  }

  /** The fields no step of ours changes, and those that only grow. */
  ghost predicate Onward(w: World, v: World) {
    && v.env == w.env
    && w.draws <= v.draws && w.nextIdentity <= v.nextIdentity
    && w.flushed <= v.flushed
    && w.history <= v.history
    && (w.stopped ==> v.stopped)
    && (!w.env.faults ==> v.stopped == w.stopped)
  }

  /** Nothing of ours changed the namespace: only foreign writers acted. */
  ghost predicate Between(w: World, v: World) {
    && Onward(w, v)
    && v.draws == w.draws
    && Elsewhere(w.names, v.names, {w.env.contested})
    && Accounted(w, v, w.env.contested)
    && (!w.env.foreign ==> v.names == w.names && v.owed == w.owed && v.survivors == w.survivors)
  }

  lemma BetweenAgain(w: World, v: World, u: World)
    requires Between(w, v) && Between(v, u)
    ensures Between(w, u)
  {
  }

  /** Only observations were added to the history. */
  ghost predicate OnlySaw(w: World, v: World)
    requires w.history <= v.history
  {
    forall i :: |w.history| <= i < |v.history| ==> v.history[i].Saw?
  }

  /** The namespace after foreign writers made `file` the contested name's
      occupant, or removed it. */
  function Occupy(w: World, file: Option<File>): (v: World) {
    var live := w.env.contested;
    var occupied := (n: Names) => if file.Some? then n[live := file.value] else n - {live};
    w.(names := occupied(w.names),
       survivors := w.survivors + {occupied(w.names)},
       owed := (w.owed - (if live in w.names then {w.names[live]} else {}))
               + (if file.Some? then {file.value} else {}),
       nextIdentity := if file.Some? && file.value.identity >= w.nextIdentity
                       then file.value.identity + 1 else w.nextIdentity)
  }

  predicate MayOccupy(w: World, file: Option<File>) {
    file.Some? ==> forall p | p in w.names && p != w.env.contested :: w.names[p].identity != file.value.identity
  }

  lemma OccupyKeepsValid(w: World, file: Option<File>)
    requires Valid(w) && MayOccupy(w, file) && w.env.foreign
    ensures Valid(Occupy(w, file)) && Between(w, Occupy(w, file))
  {
  }

  /** A change the namespace admits: what it moves or adds aliases nothing. */
  ghost predicate Admits(w: World, op: Op) {
    match op
    case Rename(a, b) => a != b && Drawn(b, w.draws)
    case Swap(a, b) => a != b
    case Replace(r, t, d) => r != t && d != t && d != r && Drawn(d, w.draws)
    case Displace(t, d) => t != d && Drawn(d, w.draws)
    case Remove(_) => true
    case Link(p, f) =>
      && Drawn(p, w.draws) && f.identity < w.nextIdentity
      && forall s: Names, q: Path :: s in w.survivors && q in s ==> s[q].identity != f.identity
  }

  lemma RenameKeepsSane(n: Names, a: Path, b: Path, draws: nat, nextIdentity: nat)
    requires Sane(n, draws, nextIdentity) && a != b && Drawn(b, draws)
    ensures Sane(Apply(n, Rename(a, b)), draws, nextIdentity)
    ensures Sane(Apply(n, Displace(a, b)), draws, nextIdentity)
  {
  }

  lemma SwapKeepsSane(n: Names, a: Path, b: Path, draws: nat, nextIdentity: nat)
    requires Sane(n, draws, nextIdentity) && a != b
    ensures Sane(Apply(n, Swap(a, b)), draws, nextIdentity)
  {
  }

  lemma ReplaceKeepsSane(n: Names, r: Path, t: Path, d: Path, draws: nat, nextIdentity: nat)
    requires Sane(n, draws, nextIdentity) && r != t && d != t && d != r && Drawn(d, draws)
    ensures Sane(Apply(n, Replace(r, t, d)), draws, nextIdentity)
  {
  }

  lemma ApplyKeepsSane(w: World, n: Names, op: Op)
    requires Valid(w) && Admits(w, op) && n in w.survivors
    ensures Sane(Apply(n, op), w.draws, w.nextIdentity)
  {
    match op
    case Rename(a, b) => RenameKeepsSane(n, a, b, w.draws, w.nextIdentity);
    case Swap(a, b) => SwapKeepsSane(n, a, b, w.draws, w.nextIdentity);
    case Replace(r, t, d) => ReplaceKeepsSane(n, r, t, d, w.draws, w.nextIdentity);
    case Displace(t, d) => RenameKeepsSane(n, t, d, w.draws, w.nextIdentity);
    case Remove(_) =>
    case Link(_, _) =>
  }

  lemma IssueKeepsValid(w: World, op: Op, event: Event)
    requires Valid(w) && Admits(w, op)
    ensures Valid(w.(names := Apply(w.names, op),
                     survivors := Surviving(w.survivors, op),
                     history := w.history + [event]))
  {
    ApplyKeepsSane(w, w.names, op);
    forall s | s in w.survivors
      ensures Sane(Apply(s, op), w.draws, w.nextIdentity)
    {
      ApplyKeepsSane(w, s, op);
    }
  }

  ghost predicate RenameEffect(w: World, v: World, source: Path, destination: Path, moved: Option<File>) {
    && Onward(w, v) && v.draws == w.draws
    && (moved.None? ==> Between(w, v) && v.history == w.history)
    && (moved.Some? ==>
          && At(v.names, destination) == moved && source !in v.names
          && Elsewhere(w.names, v.names, {source, destination, w.env.contested})
          && (source != w.env.contested ==> moved == At(w.names, source))
          && (destination != w.env.contested ==> destination !in w.names)
          && Accounted(w, v, if source == w.env.contested then destination else w.env.contested)
          && v.history == w.history + [Renamed(source, destination, moved.value)])
    && (!w.env.foreign ==>
          && v.owed == w.owed
          && v.names == (if moved.Some? then Apply(w.names, Rename(source, destination)) else w.names)
          && (moved.None? ==> v.survivors == w.survivors)
          && (moved.Some? ==>
                v.survivors == {v.names} || v.survivors == Surviving(w.survivors, Rename(source, destination))))
  }

  ghost predicate ExchangeEffect(w: World, v: World, left: Path, right: Path, swapped: Option<(File, File)>) {
    && Onward(w, v) && v.draws == w.draws
    && (swapped.None? ==> Between(w, v) && v.history == w.history)
    && (swapped.Some? ==>
          && (left != w.env.contested ==> At(w.names, left) == Some(swapped.value.0))
          && At(v.names, left) == Some(swapped.value.1)
          && At(v.names, right) == Some(swapped.value.0)
          && (right != w.env.contested ==> At(w.names, right) == Some(swapped.value.1))
          && Elsewhere(w.names, v.names, {left, right, w.env.contested})
          && Accounted(w, v, if right == w.env.contested then left else if left == w.env.contested then right else w.env.contested)
          && v.history == w.history + [Swapped(left, right, swapped.value.0, swapped.value.1)])
    && (!w.env.foreign ==>
          && v.owed == w.owed
          && v.names == (if swapped.Some? then Apply(w.names, Swap(left, right)) else w.names)
          && (swapped.None? ==> v.survivors == w.survivors)
          && (swapped.Some? ==>
                v.survivors == {v.names} || v.survivors == Surviving(w.survivors, Swap(left, right))))
  }

  ghost predicate ReplaceEffect(w: World, v: World, replacement: Path, target: Path, displaced: Path, o: ReplaceOutcome) {
    && Onward(w, v) && v.draws == w.draws
    && (!w.env.foreign ==> v.owed == w.owed)
    && match o
       case Untouched => Between(w, v) && v.history == w.history
       case FullyReplaced(placed, removed) =>
         && At(w.names, replacement) == Some(placed) && replacement !in v.names
         && At(v.names, target) == Some(placed) && At(v.names, displaced) == Some(removed)
         && (target != w.env.contested ==> At(w.names, target) == Some(removed))
         && Elsewhere(w.names, v.names, {replacement, target, displaced, w.env.contested})
         && Accounted(w, v, if target == w.env.contested then displaced else w.env.contested)
         && v.history == w.history + [Replaced(replacement, target, displaced, placed, removed)]
         && (!w.env.foreign ==> v.names == Apply(w.names, Replace(replacement, target, displaced)))
       case TargetDisplaced(removed) =>
         && target !in v.names && At(v.names, displaced) == Some(removed)
         && (target != w.env.contested ==> At(w.names, target) == Some(removed))
         && At(v.names, replacement) == At(w.names, replacement)
         && Elsewhere(w.names, v.names, {target, displaced, w.env.contested})
         && Accounted(w, v, if target == w.env.contested then displaced else w.env.contested)
         && v.history == w.history + [OnlyDisplaced(target, displaced, removed)]
         && (!w.env.foreign ==> v.names == Apply(w.names, Displace(target, displaced)))
  }

  /** As Accounted, but the file `lost` may be gone. */
  ghost predicate AccountedBut(w: World, v: World, spot: Path, lost: Option<File>) {
    forall f :: f in v.owed ==>
      At(v.names, spot) == Some(f) || lost == Some(f) || (f in w.owed && At(w.names, w.env.contested) != Some(f))
  }

  /** The same step whichever of the three names writers act on. `lost` is the
      file the step found at the displaced name, and overwrote. */
  ghost predicate ReplaceEffectAnywhere(w: World, v: World, replacement: Path, target: Path, displaced: Path,
                                        o: ReplaceOutcome, lost: Option<File>)
  {
    && Onward(w, v) && v.draws == w.draws
    && (!w.env.foreign ==> v.owed == w.owed)
    && ((displaced != w.env.contested || !w.env.foreign) && !o.Untouched? ==> lost == At(w.names, displaced))
    && match o
       case Untouched => Between(w, v) && v.history == w.history && lost.None?
       case FullyReplaced(placed, removed) =>
         && (replacement != w.env.contested ==> At(w.names, replacement) == Some(placed)) && replacement !in v.names
         && At(v.names, target) == Some(placed) && At(v.names, displaced) == Some(removed)
         && (target != w.env.contested ==> At(w.names, target) == Some(removed))
         && Elsewhere(w.names, v.names, {replacement, target, displaced, w.env.contested})
         && AccountedBut(w, v, if replacement == w.env.contested then target
                               else if target == w.env.contested then displaced else w.env.contested, lost)
         && v.history == w.history + [Replaced(replacement, target, displaced, placed, removed)]
         && (!w.env.foreign ==> v.names == Apply(w.names, Replace(replacement, target, displaced)))
       case TargetDisplaced(removed) =>
         && target !in v.names && At(v.names, displaced) == Some(removed)
         && (target != w.env.contested ==> At(w.names, target) == Some(removed))
         && (replacement != w.env.contested ==> At(v.names, replacement) == At(w.names, replacement))
         && Elsewhere(w.names, v.names, {target, displaced, w.env.contested})
         && AccountedBut(w, v, if target == w.env.contested then displaced else w.env.contested, lost)
         && v.history == w.history + [OnlyDisplaced(target, displaced, removed)]
         && (!w.env.foreign ==> v.names == Apply(w.names, Displace(target, displaced)))
  }

  ghost predicate UnlinkEffect(w: World, v: World, p: Path, unlinked: bool) {
    && Onward(w, v) && v.draws == w.draws
    && (!unlinked ==> Between(w, v) && v.history == w.history)
    && (unlinked ==>
          && p in w.names && p !in v.names
          && Elsewhere(w.names, v.names, {p, w.env.contested})
          && Accounted(w, v, w.env.contested)
          && v.history == w.history + [Unlinked(p, w.names[p])])
    && (!w.env.foreign && unlinked ==>
          && v.owed == w.owed
          && v.names == Apply(w.names, Remove(p))
          && v.survivors == Surviving(w.survivors, Remove(p)))
  }

  /** `x` is `v` after `op`, issued and perhaps synced. */
  ghost predicate Issued(v: World, x: World, op: Op, event: Event) {
    && Onward(v, x) && x.draws == v.draws && x.owed == v.owed
    && x.names == Apply(v.names, op)
    && (x.survivors == {x.names} || x.survivors == Surviving(v.survivors, op))
    && x.history == v.history + [event]
  }

  lemma RenameTakesEffect(w: World, v: World, x: World, source: Path, destination: Path)
    requires Between(w, v) && v.history == w.history
    requires source != destination && source in v.names && destination !in v.names
    requires Issued(v, x, Rename(source, destination), Renamed(source, destination, v.names[source]))
    ensures RenameEffect(w, x, source, destination, Some(v.names[source]))
  {
    assert source != w.env.contested ==> At(v.names, source) == At(w.names, source);
    assert destination != w.env.contested ==> At(v.names, destination) == At(w.names, destination);
    forall p | p !in {source, destination, w.env.contested}
      ensures At(x.names, p) == At(w.names, p)
    {
      assert At(x.names, p) == At(v.names, p);
    }
  }

  lemma ExchangeTakesEffect(w: World, v: World, x: World, left: Path, right: Path)
    requires Between(w, v) && v.history == w.history
    requires left != right && left in v.names && right in v.names
    requires Issued(v, x, Swap(left, right), Swapped(left, right, v.names[left], v.names[right]))
    ensures ExchangeEffect(w, x, left, right, Some((v.names[left], v.names[right])))
  {
  }

  lemma ReplaceTakesEffect(w: World, v: World, x: World, replacement: Path, target: Path, displaced: Path)
    requires Between(w, v) && v.history == w.history
    requires replacement != target && displaced != target && displaced != replacement
    requires replacement != w.env.contested && displaced != w.env.contested
    requires replacement in v.names && target in v.names
    requires Issued(v, x, Replace(replacement, target, displaced),
                    Replaced(replacement, target, displaced, v.names[replacement], v.names[target]))
    ensures ReplaceEffect(w, x, replacement, target, displaced, FullyReplaced(v.names[replacement], v.names[target]))
  {
  }

  lemma DisplaceTakesEffect(w: World, v: World, x: World, replacement: Path, target: Path, displaced: Path)
    requires Between(w, v) && v.history == w.history
    requires replacement != target && displaced != target && displaced != replacement
    requires replacement != w.env.contested && displaced != w.env.contested && target in v.names
    requires Issued(v, x, Displace(target, displaced), OnlyDisplaced(target, displaced, v.names[target]))
    ensures ReplaceEffect(w, x, replacement, target, displaced, TargetDisplaced(v.names[target]))
  {
  }

  lemma ReplaceTakesEffectAnywhere(w: World, v: World, x: World, replacement: Path, target: Path, displaced: Path)
    requires Between(w, v) && v.history == w.history
    requires replacement != target && displaced != target && displaced != replacement
    requires replacement in v.names && target in v.names
    requires Issued(v, x, Replace(replacement, target, displaced),
                    Replaced(replacement, target, displaced, v.names[replacement], v.names[target]))
    ensures ReplaceEffectAnywhere(w, x, replacement, target, displaced,
                                  FullyReplaced(v.names[replacement], v.names[target]), At(v.names, displaced))
  {
    assert replacement != w.env.contested ==> At(v.names, replacement) == At(w.names, replacement);
    assert target != w.env.contested ==> At(v.names, target) == At(w.names, target);
    assert displaced != w.env.contested ==> At(v.names, displaced) == At(w.names, displaced);
  }

  lemma DisplaceTakesEffectAnywhere(w: World, v: World, x: World, replacement: Path, target: Path, displaced: Path)
    requires Between(w, v) && v.history == w.history
    requires replacement != target && displaced != target && displaced != replacement && target in v.names
    requires Issued(v, x, Displace(target, displaced), OnlyDisplaced(target, displaced, v.names[target]))
    ensures ReplaceEffectAnywhere(w, x, replacement, target, displaced, TargetDisplaced(v.names[target]), At(v.names, displaced))
  {
    assert replacement != w.env.contested ==> At(v.names, replacement) == At(w.names, replacement);
    assert target != w.env.contested ==> At(v.names, target) == At(w.names, target);
    assert displaced != w.env.contested ==> At(v.names, displaced) == At(w.names, displaced);
  }

  lemma CountingKeepsValid(w: World)
    requires Valid(w)
    ensures Valid(w.(draws := w.draws + 1, nextIdentity := w.nextIdentity + 1))
  {
  }

  /** The namespace `s` with arbitrary data in the files that were never flushed. */
  function Torn(s: Names, flushed: set<nat>, torn: map<nat, Contents>): Names {
    map p | p in s ::
      if s[p].identity in flushed || s[p].identity !in torn then s[p] else File(s[p].identity, torn[s[p].identity])
  }

  /** The two namespaces agree on the names in one directory. */
  predicate AgreeIn(inDirectory: Path -> bool, n: Names, s: Names) {
    forall p | p in n.Keys + s.Keys :: inDirectory(p) ==> At(s, p) == At(n, p)
  }

  lemma TearingKeepsSane(s: Names, flushed: set<nat>, torn: map<nat, Contents>, draws: nat, nextIdentity: nat)
    requires Sane(s, draws, nextIdentity)
    ensures Sane(Torn(s, flushed, torn), draws, nextIdentity) && TornFrom(s, Torn(s, flushed, torn), flushed)
  {
  }

  ghost predicate TornFrom(s: Names, n: Names, flushed: set<nat>) {
    && n.Keys == s.Keys
    && forall p :: p in s ==>
         && n[p].identity == s[p].identity
         && (s[p].identity in flushed ==> n[p] == s[p])
  }

  /** A namespace a power loss may leave. */
  ghost predicate AfterPowerLoss(w: World, n: Names) {
    exists s :: s in w.survivors && TornFrom(s, n, w.flushed)
  }

  /** Our last act took the file now at `p` off the contested name. */
  predicate JustDisplaced(w: World, p: Path) {
    && p in w.names && w.history != []
    && match w.history[|w.history| - 1]
       case Swapped(a, b, _, f) => a == p && b == w.env.contested && f == w.names[p]
       case Replaced(_, b, c, _, f) => c == p && b == w.env.contested && f == w.names[p]
       case _ => false
  }

  ghost predicate ComesFrom(before: set<Names>, s: Names, p: Path) {
    exists s0 :: s0 in before && Elsewhere(s0, s, {p})
  }

  /** Each of `after` is one of `before`, apart from name `p`. */
  ghost predicate DifferAt(before: set<Names>, after: set<Names>, p: Path) {
    forall s {:trigger ComesFrom(before, s, p)} :: s in after ==> ComesFrom(before, s, p)
  }

  lemma IssueDiffersAt(before: set<Names>, op: Op, p: Path)
    requires op.Link? || op.Remove?
    requires op.path == p
    ensures DifferAt(before, Surviving(before, op), p)
  {
    forall s | s in Surviving(before, op)
      ensures ComesFrom(before, s, p)
    {
      if s in before {
        assert Elsewhere(s, s, {p});
      } else {
        var s0 :| s0 in before && s == Apply(s0, op);
        assert Elsewhere(s0, s, {p});
      }
    }
  }

  lemma DifferAtTwice(before: set<Names>, between: set<Names>, after: set<Names>, p: Path)
    requires DifferAt(before, between, p) && DifferAt(between, after, p)
    ensures DifferAt(before, after, p)
  {
    forall s | s in after
      ensures ComesFrom(before, s, p)
    {
      assert ComesFrom(between, s, p);
      var s1 :| s1 in between && Elsewhere(s1, s, {p});
      assert ComesFrom(before, s1, p);
      var s0 :| s0 in before && Elsewhere(s0, s1, {p});
      forall q | q != p
        ensures At(s, q) == At(s0, q)
      {
        assert At(s, q) == At(s1, q) && At(s1, q) == At(s0, q);
      }
      assert Elsewhere(s0, s, {p});
    }
  }

  lemma SameDiffersAt(before: set<Names>, p: Path)
    ensures DifferAt(before, before, p)
  {
    forall s | s in before
      ensures ComesFrom(before, s, p)
    {
      assert Elsewhere(s, s, {p});
    }
  }

  class Disk {
    var w: World

    constructor (world: World)
      ensures w == world
    {
      w := world;
    }

    /** Between two steps foreign writers may replace, create, delete or rewrite
        the contested name (several acts in a row amount to their last), and
        the process may stop. */
    method Pause()
      requires Valid(w)
      modifies this
      ensures Valid(w) && Between(old(w), w) && w.history == old(w).history
      ensures forall s :: s in w.survivors && s !in old(w).survivors ==> s == w.names
    {
      if w.env.foreign {
        var file: Option<File> := *;
        var acts: bool := *;
        if acts && MayOccupy(w, file) {
          OccupyKeepsValid(w, file);
          w := Occupy(w, file);
        }
      }
      if w.env.faults {
        var stops: bool := *;
        if stops {
          w := w.(stopped := true);
        }
      }
    }

    method Fails() returns (fails: bool)
      ensures w.stopped ==> fails
      ensures fails ==> w.stopped || w.env.faults
    {
      var unlucky: bool := *;
      fails := w.stopped || (w.env.faults && unlucky);
    }

    /** token_if_present */
    method TokenIfPresent(p: Path) returns (r: Result<Option<FileToken>>)
      requires Valid(w)
      modifies this
      ensures Valid(w) && Between(old(w), w) && OnlySaw(old(w), w)
      ensures r.Success? ==> r.value == At(w.names, p) && !w.stopped
      ensures r.Success? ==> w.history == old(w).history + [Saw(p, r.value)]
      ensures r.Failure? ==> w.history == old(w).history
      ensures !w.env.faults && !old(w).stopped ==> r.Success?
    {
      Pause();
      var fails := Fails();
      if fails {
        return Failure(OsError);
      }
      r := Success(At(w.names, p));
      w := w.(history := w.history + [Saw(p, r.value)]);
    }

    /** Issue one atomic change: visible at once, durable only after a sync. */
    method Issue(op: Op, event: Event)
      requires Valid(w) && Admits(w, op)
      modifies this
      ensures Valid(w)
      ensures w == old(w).(names := Apply(old(w).names, op),
                           survivors := Surviving(old(w).survivors, op),
                           history := old(w).history + [event])
    {
      IssueKeepsValid(w, op, event);
      w := w.(names := Apply(w.names, op),
              survivors := Surviving(w.survivors, op),
              history := w.history + [event]);
    }

    /** fsync of the directory: afterwards only the present namespace can survive. */
    method SyncDirectory() returns (r: Result<()>)
      requires Valid(w)
      modifies this
      ensures Valid(w) && w.history == old(w).history && w.names == old(w).names && w.owed == old(w).owed
      ensures Onward(old(w), w) && w.draws == old(w).draws
      ensures r.Success? ==> w.survivors == {w.names} && !w.stopped
      ensures r.Failure? ==> w.survivors == old(w).survivors && r.error == OsError
      ensures !w.env.faults && !old(w).stopped ==> r.Success?
    {
      if w.env.faults {
        var stops: bool := *;
        if stops {
          w := w.(stopped := true);
        }
      }
      var fails := Fails();
      if fails {
        return Failure(OsError);
      }
      w := w.(survivors := {w.names});
      r := Success(());
    }

    /** fsync of one of several directories: afterwards whatever survives agrees
        with the present on the names in it. */
    method SyncOne(inDirectory: Path -> bool) returns (r: Result<()>)
      requires Valid(w)
      modifies this
      ensures Valid(w) && w.history == old(w).history
      ensures Onward(old(w), w) && Elsewhere(old(w).names, w.names, {w.env.contested})
      ensures w.draws == old(w).draws && Accounted(old(w), w, w.env.contested)
      ensures !w.env.foreign ==> w.names == old(w).names && w.owed == old(w).owed && w.survivors <= old(w).survivors
      ensures r.Success? ==> !w.stopped && forall s :: s in w.survivors ==> AgreeIn(inDirectory, w.names, s)
      ensures forall s :: s in w.survivors && s !in old(w).survivors ==> s == w.names
      ensures !w.env.faults && !old(w).stopped ==> r.Success?
    {
      Pause();
      var fails := Fails();
      if fails {
        return Failure(OsError);
      }
      w := w.(survivors := set s | s in w.survivors && AgreeIn(inDirectory, w.names, s));
      r := Success(());
    }

    /** sync_parent */
    method SyncParent() returns (r: Result<()>)
      requires Valid(w)
      modifies this
      ensures Valid(w) && w.history == old(w).history
      ensures Onward(old(w), w) && Elsewhere(old(w).names, w.names, {w.env.contested})
      ensures w.draws == old(w).draws && Accounted(old(w), w, w.env.contested)
      ensures !w.env.foreign ==> w.names == old(w).names && w.owed == old(w).owed
      ensures !w.env.foreign ==> w.survivors == {w.names} || w.survivors == old(w).survivors
      ensures r.Success? ==> w.survivors == {w.names}
      ensures !w.env.faults && !old(w).stopped ==> r.Success?
    {
      Pause();
      r := SyncDirectory();
    }

    /** rename_noreplace of src/fs_ops.rs: the rename, then the directory sync.
        `moved` is the file the rename moved, if it took place. */
    method RenameNoReplace(source: Path, destination: Path) returns (r: Result<()>, ghost moved: Option<File>)
      requires Valid(w)
      requires source != destination && Drawn(destination, w.draws) && Drawn(source, w.draws)
      modifies this
      ensures Valid(w) && RenameEffect(old(w), w, source, destination, moved)
      ensures moved.None? ==> r.Failure?
      ensures r.Success? ==> moved.Some? && w.survivors == {w.names} && !w.stopped
      ensures (!w.env.faults && !old(w).stopped && source in old(w).names && destination !in old(w).names
               && (!w.env.foreign || w.env.contested !in {source, destination}))
              ==> r.Success?
      ensures r == Failure(AlreadyExists) ==> moved.None?
      ensures !w.env.faults && !old(w).stopped && moved.None? ==> source !in w.names || destination in w.names
    {
      moved := None;
      Pause();
      assert source != w.env.contested ==> At(w.names, source) == At(old(w).names, source);
      assert destination != w.env.contested ==> At(w.names, destination) == At(old(w).names, destination);
      ghost var seen := w;
      var fails := Fails();
      if fails || source !in w.names {
        return Failure(OsError), None;
      }
      if destination in w.names {
        return Failure(AlreadyExists), None;
      }
      moved := Some(w.names[source]);
      Issue(Rename(source, destination), Renamed(source, destination, w.names[source]));
      r := SyncDirectory();
      RenameTakesEffect(old(w), seen, w, source, destination);
    }

    /** rename_directory_entry_noreplace: the rename alone. */
    method RenameEntry(source: Path, destination: Path) returns (r: Result<()>, ghost moved: Option<File>)
      requires Valid(w)
      requires source != destination && Drawn(destination, w.draws) && Drawn(source, w.draws)
      modifies this
      ensures Valid(w) && RenameEffect(old(w), w, source, destination, moved)
      ensures r.Success? <==> moved.Some?
      ensures (!w.env.foreign && !w.env.faults && !old(w).stopped && source in old(w).names && destination !in old(w).names)
              ==> r.Success?
    {
      moved := None;
      Pause();
      ghost var seen := w;
      var fails := Fails();
      if fails || source !in w.names {
        return Failure(OsError), None;
      }
      if destination in w.names {
        return Failure(AlreadyExists), None;
      }
      moved := Some(w.names[source]);
      Issue(Rename(source, destination), Renamed(source, destination, w.names[source]));
      r := Success(());
      RenameTakesEffect(old(w), seen, w, source, destination);
    }

    /** exchange of src/fs_ops.rs: the atomic swap, then the directory sync. */
    method Exchange(left: Path, right: Path)
      returns (r: Result<()>, ghost swapped: Option<(File, File)>)
      requires Valid(w)
      requires left != right && Drawn(left, w.draws) && Drawn(right, w.draws)
      modifies this
      ensures Valid(w) && ExchangeEffect(old(w), w, left, right, swapped)
      ensures swapped.None? ==> r.Failure?
      ensures r.Success? ==> swapped.Some? && w.survivors == {w.names} && !w.stopped
      ensures (!w.env.foreign && !w.env.faults && !old(w).stopped && left in old(w).names && right in old(w).names)
              ==> r.Success?
    {
      swapped := None;
      Pause();
      ghost var seen := w;
      var fails := Fails();
      if fails || left !in w.names || right !in w.names {
        return Failure(OsError), None;
      }
      swapped := Some((w.names[left], w.names[right]));
      Issue(Swap(left, right), Swapped(left, right, w.names[left], w.names[right]));
      r := SyncDirectory();
      ExchangeTakesEffect(old(w), seen, w, left, right);
    }

    /** replace_with_displaced (ReplaceFileW). It may fail untouched, fail after
        displacing the target only, or replace and still report failure. A file
        already at `displaced` is overwritten: `lost`. */
    method ReplaceWithDisplaced(replacement: Path, target: Path, displaced: Path)
      returns (r: Result<()>, ghost o: ReplaceOutcome, ghost lost: Option<File>)
      requires Valid(w)
      requires replacement != target && displaced != target && displaced != replacement && Drawn(displaced, w.draws)
      modifies this
      ensures Valid(w) && ReplaceEffectAnywhere(old(w), w, replacement, target, displaced, o, lost)
      ensures replacement != w.env.contested && displaced != w.env.contested ==>
                ReplaceEffect(old(w), w, replacement, target, displaced, o)
      ensures r.Success? ==> o.FullyReplaced?
      ensures !w.env.faults ==> !o.TargetDisplaced?
      ensures (!w.env.foreign && !w.env.faults && !old(w).stopped && replacement in old(w).names && target in old(w).names)
              ==> r.Success?
    {
      o := Untouched;
      lost := None;
      Pause();
      var fails := Fails();
      if fails || replacement !in w.names || target !in w.names {
        var partly: bool := *;
        if partly && w.env.faults && !w.stopped && target in w.names {
          o, lost := DisplaceTarget(old(w), replacement, target, displaced);
        }
        return Failure(OsError), o, lost;
      }
      o, lost := ReplaceTarget(old(w), replacement, target, displaced);
      fails := Fails();
      r := if fails then Failure(OsError) else Success(());
    }

    method DisplaceTarget(ghost w0: World, replacement: Path, target: Path, displaced: Path)
      returns (ghost o: ReplaceOutcome, ghost lost: Option<File>)
      requires Valid(w) && Between(w0, w) && w.history == w0.history
      requires replacement != target && displaced != target && displaced != replacement && Drawn(displaced, w.draws)
      requires target in w.names
      modifies this
      ensures Valid(w) && ReplaceEffectAnywhere(w0, w, replacement, target, displaced, o, lost) && o.TargetDisplaced?
      ensures replacement != w.env.contested && displaced != w.env.contested ==>
                ReplaceEffect(w0, w, replacement, target, displaced, o)
    {
      ghost var seen := w;
      o, lost := TargetDisplaced(w.names[target]), At(w.names, displaced);
      Issue(Displace(target, displaced), OnlyDisplaced(target, displaced, w.names[target]));
      DisplaceTakesEffectAnywhere(w0, seen, w, replacement, target, displaced);
      if replacement != w.env.contested && displaced != w.env.contested {
        DisplaceTakesEffect(w0, seen, w, replacement, target, displaced);
      }
    }

    method ReplaceTarget(ghost w0: World, replacement: Path, target: Path, displaced: Path)
      returns (ghost o: ReplaceOutcome, ghost lost: Option<File>)
      requires Valid(w) && Between(w0, w) && w.history == w0.history
      requires replacement != target && displaced != target && displaced != replacement && Drawn(displaced, w.draws)
      requires replacement in w.names && target in w.names
      modifies this
      ensures Valid(w) && ReplaceEffectAnywhere(w0, w, replacement, target, displaced, o, lost) && o.FullyReplaced?
      ensures w.stopped == old(w).stopped && w.env == old(w).env
      ensures replacement != w.env.contested && displaced != w.env.contested ==>
                ReplaceEffect(w0, w, replacement, target, displaced, o)
    {
      ghost var seen := w;
      o, lost := FullyReplaced(w.names[replacement], w.names[target]), At(w.names, displaced);
      Issue(Replace(replacement, target, displaced),
            Replaced(replacement, target, displaced, w.names[replacement], w.names[target]));
      ReplaceTakesEffectAnywhere(w0, seen, w, replacement, target, displaced);
      if replacement != w.env.contested && displaced != w.env.contested {
        ReplaceTakesEffect(w0, seen, w, replacement, target, displaced);
      }
    }

    /** unlink of a private name */
    method Unlink(p: Path) returns (r: Result<()>)
      requires Valid(w) && p != w.env.contested
      modifies this
      ensures Valid(w) && UnlinkEffect(old(w), w, p, r.Success?)
      ensures !w.env.faults && !old(w).stopped && p in old(w).names ==> r.Success?
    {
      Pause();
      assert At(w.names, p) == At(old(w).names, p);
      var fails := Fails();
      if fails || p !in w.names {
        return Failure(OsError);
      }
      assert At(w.names, p) == At(old(w).names, p);
      Issue(Remove(p), Unlinked(p, w.names[p]));
      r := Success(());
    }

    /** A fresh random sibling name. */
    method DrawQuarantine() returns (q: Path)
      requires Valid(w)
      modifies this
      ensures Valid(w) && q == Quarantine(old(w).draws)
      ensures w == old(w).(draws := old(w).draws + 1)
    {
      DrawingKeepsValid(w);
      q := Quarantine(w.draws);
      w := w.(draws := w.draws + 1);
    }

    /** read_dir: the names in some order; an entry that cannot be read is skipped. */
    method ReadDirectory() returns (paths: seq<Path>)
      requires Valid(w)
      modifies this
      ensures Valid(w) && Between(old(w), w) && w.history == old(w).history
      ensures forall i, j :: 0 <= i < j < |paths| ==> paths[i] != paths[j]
      ensures forall p :: p in paths ==> p in w.names
      ensures !w.env.faults && !w.stopped ==> forall p :: p in w.names ==> p in paths
    {
      Pause();
      paths := [];
      var rest := w.names.Keys;
      ghost var now := w;
      while rest != {}
        invariant w == now
        invariant forall p :: p in rest ==> p in w.names && p !in paths
        invariant forall i, j :: 0 <= i < j < |paths| ==> paths[i] != paths[j]
        invariant forall p :: p in paths ==> p in w.names
        invariant !w.env.faults && !w.stopped ==> forall p :: p in w.names ==> p in rest || p in paths
        decreases rest
      {
        var p :| p in rest;
        rest := rest - {p};
        var skipped := Fails();
        if !skipped {
          paths := paths + [p];
        }
      }
    }

    /** A private file under a fresh random name, its data not yet on disk. A
        failure after it was created may leave it there with anything in it, or
        it was deleted again. */
    method CreateStaged(contents: Contents) returns (r: Result<(Path, FileToken)>)
      requires Valid(w)
      modifies this
      ensures Valid(w) && Onward(old(w), w) && Accounted(old(w), w, w.env.contested)
      ensures r.Failure? ==> Elsewhere(old(w).names, w.names, {Staged(old(w).draws), w.env.contested})
      ensures r.Failure? && !w.env.foreign ==> DifferAt(old(w).survivors, w.survivors, Staged(old(w).draws))
      ensures r.Success? ==>
                && r.value.0 == Staged(old(w).draws) && w.draws == old(w).draws + 1
                && r.value.1.contents == contents
                && old(w).nextIdentity <= r.value.1.identity < w.nextIdentity
                && At(w.names, r.value.0) == Some(r.value.1)
                && Elsewhere(old(w).names, w.names, {r.value.0, w.env.contested})
                && w.history == old(w).history + [Created(r.value.0, r.value.1)]
      ensures !w.env.foreign ==>
                && w.owed == old(w).owed
                && At(w.names, w.env.contested) == At(old(w).names, w.env.contested)
                && (r.Success? ==>
                      w.survivors == Surviving(old(w).survivors, Link(r.value.0, r.value.1)))
      ensures !w.env.faults && !old(w).stopped ==> r.Success?
    {
      ghost var w0 := w;
      Pause();
      ghost var seen := w;
      var fails := Fails();
      if fails {
        LeaveStaged();
        return Failure(OsError);
      }
      var path, file := LinkStaged(contents);
      forall p | p !in {path, w.env.contested}
        ensures At(w.names, p) == At(w0.names, p)
      {
        assert At(w.names, p) == At(seen.names, p);
      }
      assert At(w.names, w.env.contested) == At(seen.names, w.env.contested);
      r := Success((path, file));
    }

    /** A new file under a new random name. */
    method LinkStaged(contents: Contents) returns (path: Path, file: File)
      requires Valid(w)
      modifies this
      ensures Valid(w) && path == Staged(old(w).draws) && file == File(old(w).nextIdentity, contents)
      ensures path !in old(w).names
      ensures w == old(w).(draws := old(w).draws + 1, nextIdentity := old(w).nextIdentity + 1,
                           names := Apply(old(w).names, Link(path, file)),
                           survivors := Surviving(old(w).survivors, Link(path, file)),
                           history := old(w).history + [Created(path, file)])
    {
      path := Staged(w.draws);
      file := File(w.nextIdentity, contents);
      assert !Drawn(path, w.draws);
      CountingKeepsValid(w);
      w := w.(draws := w.draws + 1, nextIdentity := w.nextIdentity + 1);
      Issue(Link(path, file), Created(path, file));
    }

    /** What a failed creation may leave. */
    method LeaveStaged()
      requires Valid(w) && (w.stopped || w.env.faults)
      modifies this
      ensures Valid(w) && Onward(old(w), w) && w.owed == old(w).owed
      ensures Elsewhere(old(w).names, w.names, {Staged(old(w).draws)})
      ensures DifferAt(old(w).survivors, w.survivors, Staged(old(w).draws))
    {
      SameDiffersAt(w.survivors, Staged(w.draws));
      var created: bool := *;
      if w.stopped || !created {
        return;
      }
      ghost var w0 := w;
      var contents: Contents := *;
      var path, file := LinkStaged(contents);
      IssueDiffersAt(w0.survivors, Link(path, file), path);
      assert Elsewhere(w0.names, w.names, {path});
      var deleted: bool := *;
      if deleted {
        DeleteStaged(w0, path, file);
      }
    }

    /** A best-effort deletion of the file just created. */
    method DeleteStaged(ghost w0: World, path: Path, file: File)
      requires Valid(w) && Onward(w0, w) && Elsewhere(w0.names, w.names, {path}) && DifferAt(w0.survivors, w.survivors, path)
      modifies this
      ensures Valid(w) && Onward(w0, w) && w.owed == old(w).owed
      ensures Elsewhere(w0.names, w.names, {path}) && DifferAt(w0.survivors, w.survivors, path)
    {
      ghost var w1 := w;
      IssueDiffersAt(w.survivors, Remove(path), path);
      Issue(Remove(path), Unlinked(path, file));
      DifferAtTwice(w0.survivors, w1.survivors, w.survivors, path);
      forall p | p != path
        ensures At(w.names, p) == At(w0.names, p)
      {
        assert At(w.names, p) == At(w1.names, p);
      }
    }

    /** sync_all on an open file: its data reaches the disk. */
    method FlushFile(identity: nat) returns (r: Result<()>)
      requires Valid(w)
      modifies this
      ensures Valid(w) && Between(old(w), w) && w.history == old(w).history
      ensures r.Success? ==> identity in w.flushed
      ensures !w.env.faults && !old(w).stopped ==> r.Success?
    {
      Pause();
      var fails := Fails();
      if fails {
        return Failure(OsError);
      }
      w := w.(flushed := w.flushed + {identity});
      r := Success(());
    }

    /** token_for_file: hash an open file, wherever its name is now. A file that
        lost its last name may hold anything its other holders wrote to it. */
    method TokenForHandle(identity: nat) returns (r: Result<FileToken>)
      requires Valid(w)
      modifies this
      ensures Valid(w) && Between(old(w), w) && w.history == old(w).history
      ensures r.Success? ==> r.value.identity == identity && !w.stopped
      ensures r.Success? ==> forall p :: p in w.names && w.names[p].identity == identity ==> r.value == w.names[p]
      ensures !w.env.faults && !old(w).stopped ==> r.Success?
    {
      Pause();
      var fails := Fails();
      if fails {
        return Failure(OsError);
      }
      var contents: Contents := *;
      var token := File(identity, contents);
      if exists p | p in w.names :: w.names[p].identity == identity {
        var p :| p in w.names && w.names[p].identity == identity;
        token := w.names[p];
      }
      r := Success(token);
    }

    /** A writer that opened a file under the contested name may still write to
        it through that handle, right after the file was displaced to `p`. */
    method WritersHoldingHandles(p: Path)
      requires Valid(w) && p != w.env.contested
      modifies this
      ensures Valid(w) && Onward(old(w), w) && w.draws == old(w).draws
      ensures Elsewhere(old(w).names, w.names, {p})
      ensures p in w.names <==> p in old(w).names
      ensures p in w.names ==> w.names[p].identity == old(w).names[p].identity
      ensures w.names == old(w).names ==> w.history == old(w).history && w.owed == old(w).owed
      ensures w.names != old(w).names ==>
                && JustDisplaced(old(w), p) && p in w.names
                && w.history == old(w).history + [WrittenThroughHandle(old(w).names[p], w.names[p])]
                && w.owed == old(w).owed - {old(w).names[p]} + {w.names[p]}
      ensures !w.env.foreign ==> w == old(w)
    {
      if w.env.foreign && JustDisplaced(w, p) {
        var contents: Contents := *;
        var writes: bool := *;
        var before := w.names[p];
        var after := File(before.identity, contents);
        if writes && after != before {
          w := w.(names := w.names[p := after],
                  survivors := w.survivors + {w.names[p := after]},
                  owed := w.owed - {before} + {after},
                  history := w.history + [WrittenThroughHandle(before, after)]);
        }
      }
    }

    /** The process is started again, after a crash or after a power loss. */
    method Restart(powerLoss: bool, faults: bool)
      requires Valid(w)
      modifies this
      ensures Valid(w) && !w.stopped
      ensures w.env == old(w).env.(faults := faults)
      ensures w.flushed == old(w).flushed && w.owed == old(w).owed && w.history == old(w).history
      ensures !powerLoss ==> w.names == old(w).names && w.survivors == old(w).survivors
      ensures powerLoss ==> AfterPowerLoss(old(w), w.names) && w.survivors == {w.names}
    {
      var n := w.names;
      var left := w.survivors;
      if powerLoss {
        var s :| s in w.survivors;
        var torn: map<nat, Contents> := *;
        TearingKeepsSane(s, w.flushed, torn, w.draws, w.nextIdentity);
        n := Torn(s, w.flushed, torn);
        left := {n};
      }
      w := w.(env := w.env.(faults := faults), names := n, survivors := left, stopped := false);
    }
  }
}
