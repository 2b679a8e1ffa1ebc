/** The two locks of every cache operation (src/cache.rs): the path's OS lock
    first, the process mutex second, with any number of threads, any number of
    paths, and other processes that hold OS locks too. */
module LockOrder {
  import opened Namespace

  datatype Owner = Thread(id: nat) | OtherProcess

  /** Where a thread is in with_cache_lock_at and its variants; operations do
      not take further cache locks. */
  datatype Phase =
    | Outside
    | AwaitingFile(path: string)     // polling or trying the OS lock
    | AwaitingMutex(path: string)    // owns the OS lock
    | Operating(path: string)        // owns both
    | Releasing(path: string)        // gave the mutex back, still owns the OS lock

  datatype Locks = Locks(threads: map<nat, Phase>, files: map<string, Owner>, mutex: Option<nat>)

  datatype Action =
    | Begin(path: string)   // open the lock file
    | TakeFile              // try_lock succeeds
    | GiveUp                // busy, timed out, cancelled or failed
    | AbandonFile           // cancelled or poisoned after try_lock succeeded
    | TakeMutex
    | LeaveMutex            // the operation returned
    | LeaveFile

  function PhaseOf(l: Locks, id: nat): Phase {
    if id in l.threads then l.threads[id] else Outside
  }

  predicate Enabled(l: Locks, id: nat, a: Action) {
    match a
    case Begin(_) => PhaseOf(l, id).Outside?
    case TakeFile => PhaseOf(l, id).AwaitingFile? && PhaseOf(l, id).path !in l.files
    case GiveUp => PhaseOf(l, id).AwaitingFile?
    case AbandonFile => PhaseOf(l, id).AwaitingMutex?
    case TakeMutex => PhaseOf(l, id).AwaitingMutex? && l.mutex.None?
    case LeaveMutex => PhaseOf(l, id).Operating?
    case LeaveFile => PhaseOf(l, id).Releasing?
  }

  function Act(l: Locks, id: nat, a: Action): Locks
    requires Enabled(l, id, a)
  {
    match a
    case Begin(path) => l.(threads := l.threads[id := AwaitingFile(path)])
    case TakeFile =>
      var path := PhaseOf(l, id).path;
      l.(threads := l.threads[id := AwaitingMutex(path)], files := l.files[path := Thread(id)])
    case GiveUp => l.(threads := l.threads[id := Outside])
    case AbandonFile => l.(threads := l.threads[id := Outside], files := l.files - {PhaseOf(l, id).path})
    case TakeMutex => l.(threads := l.threads[id := Operating(PhaseOf(l, id).path)], mutex := Some(id))
    case LeaveMutex => l.(threads := l.threads[id := Releasing(PhaseOf(l, id).path)], mutex := None)
    case LeaveFile => l.(threads := l.threads[id := Outside], files := l.files - {PhaseOf(l, id).path})
  }

  /** Another process takes a free OS lock or gives one of its own back. */
  predicate OthersMay(l: Locks, after: Locks, path: string) {
    && after.threads == l.threads && after.mutex == l.mutex
    && (|| (path !in l.files && after.files == l.files[path := OtherProcess])
        || (path in l.files && l.files[path] == OtherProcess && after.files == l.files - {path}))
  }

  predicate OwnsFile(p: Phase) {
    p.AwaitingMutex? || p.Operating? || p.Releasing?
  }

  /** Locks and phases agree. */
  ghost predicate Consistent(l: Locks) {
    && (forall id :: id in l.threads && OwnsFile(l.threads[id]) ==>
          l.threads[id].path in l.files && l.files[l.threads[id].path] == Thread(id))
    && (forall path :: path in l.files && l.files[path].Thread? ==>
          OwnsFile(PhaseOf(l, l.files[path].id)) && PhaseOf(l, l.files[path].id).path == path)
    && (forall id :: id in l.threads && l.threads[id].Operating? ==> l.mutex == Some(id))
    && (l.mutex.Some? ==> PhaseOf(l, l.mutex.value).Operating?)
  }

  datatype Event = OurStep(id: nat, action: Action) | OtherStep(path: string)

  ghost predicate Steps(l: Locks, after: Locks, e: Event) {
    match e
    case OurStep(id, a) => Enabled(l, id, a) && after == Act(l, id, a)
    case OtherStep(path) => OthersMay(l, after, path)
  }

  ghost predicate IsRun(states: seq<Locks>, events: seq<Event>) {
    && |states| == |events| + 1 && states[0] == Locks(map[], map[], None)
    && forall i :: 0 <= i < |events| ==> Steps(states[i], states[i + 1], events[i])
  }

  lemma ActKeepsConsistent(l: Locks, id: nat, a: Action)
    requires Consistent(l) && Enabled(l, id, a)
    ensures Consistent(Act(l, id, a))
  {
  }

  lemma StepKeepsConsistent(l: Locks, after: Locks, e: Event)
    requires Consistent(l) && Steps(l, after, e)
    ensures Consistent(after)
  {
    match e {
      case OurStep(id, a) => ActKeepsConsistent(l, id, a);
      case OtherStep(path) =>
        forall x: nat
          ensures PhaseOf(after, x) == PhaseOf(l, x)
        {
        }
    }
  }

  lemma {:induction false} RunIsConsistent(states: seq<Locks>, events: seq<Event>, i: nat)
    requires IsRun(states, events) && i < |states|
    ensures Consistent(states[i])
  {
    if i > 0 {
      RunIsConsistent(states, events, i - 1);
      StepKeepsConsistent(states[i - 1], states[i], events[i - 1]);
    }
  }

  /** Thread `id` waits for a lock that thread `other` owns. */
  predicate WaitsFor(l: Locks, id: nat, other: nat) {
    var p := PhaseOf(l, id);
    || (p.AwaitingFile? && p.path in l.files && l.files[p.path] == Thread(other))
    || (p.AwaitingMutex? && l.mutex == Some(other))
  }

  function Rank(p: Phase): nat {
    match p
    case AwaitingFile(_) => 2
    case AwaitingMutex(_) => 1
    case _ => 0
  }

  /** Operations on one path never overlap, and no thread waits for an OS lock
      while it owns the process mutex. */
  lemma OperationsExclude(states: seq<Locks>, events: seq<Event>, i: nat, x: nat, y: nat)
    requires IsRun(states, events) && i < |states| && x != y
    ensures !(PhaseOf(states[i], x).Operating? && PhaseOf(states[i], y).Operating?)
    ensures OwnsFile(PhaseOf(states[i], x)) && OwnsFile(PhaseOf(states[i], y)) ==>
              PhaseOf(states[i], x).path != PhaseOf(states[i], y).path
    ensures states[i].mutex == Some(x) ==> !PhaseOf(states[i], x).AwaitingFile?
  {
    RunIsConsistent(states, events, i);
  }

  /** Waiting goes strictly downwards: the wait-for graph has no cycle. */
  lemma WaitingDescends(states: seq<Locks>, events: seq<Event>, i: nat, id: nat, other: nat)
    requires IsRun(states, events) && i < |states| && WaitsFor(states[i], id, other)
    ensures Rank(PhaseOf(states[i], other)) < Rank(PhaseOf(states[i], id))
  {
    RunIsConsistent(states, events, i);
  }

  ghost predicate IsWaitChain(l: Locks, chain: seq<nat>) {
    |chain| > 0 && forall k :: 0 <= k < |chain| - 1 ==> WaitsFor(l, chain[k], chain[k + 1])
  }

  /** No thread waits for itself, through however many others. */
  lemma {:induction false} NoWaitCycle(states: seq<Locks>, events: seq<Event>, i: nat, chain: seq<nat>)
    requires IsRun(states, events) && i < |states| && IsWaitChain(states[i], chain)
    ensures |chain| > 1 ==> Rank(PhaseOf(states[i], chain[|chain| - 1])) < Rank(PhaseOf(states[i], chain[0]))
    ensures |chain| > 1 ==> chain[|chain| - 1] != chain[0]
  {
    if |chain| > 1 {
      WaitingDescends(states, events, i, chain[0], chain[1]);
      NoWaitCycle(states, events, i, chain[1..]);
      if |chain| > 2 {
        assert chain[1..][|chain| - 2] == chain[|chain| - 1];
      }
    }
  }

  /** Taking or giving back a lock: a step other than starting or giving up. */
  predicate Advances(a: Action) {
    a in {TakeFile, TakeMutex, LeaveMutex, LeaveFile}
  }

  ghost predicate SomeoneAdvances(l: Locks) {
    exists id, a :: Advances(a) && Enabled(l, id, a)
  }

  /** A thread waits for an OS lock that another process holds. */
  ghost predicate HeldUpElsewhere(l: Locks) {
    exists id: nat, path :: PhaseOf(l, id) == AwaitingFile(path) && path in l.files && l.files[path] == OtherProcess
  }

  /** Progress: as long as a thread is inside, some thread can take or give back
      a lock right now, unless one waits for a lock another process holds. */
  lemma SomeThreadAdvances(states: seq<Locks>, events: seq<Event>, i: nat, id: nat)
    requires IsRun(states, events) && i < |states| && !PhaseOf(states[i], id).Outside?
    ensures SomeoneAdvances(states[i]) || HeldUpElsewhere(states[i])
  {
    RunIsConsistent(states, events, i);
    Descend(states[i], id);
  }

  /** Following the locks waited for leads to a thread that can advance or is
      held up from outside. */
  lemma {:induction false} Descend(l: Locks, id: nat)
    requires Consistent(l) && !PhaseOf(l, id).Outside?
    ensures SomeoneAdvances(l) || HeldUpElsewhere(l)
    decreases Rank(PhaseOf(l, id))
  {
    match PhaseOf(l, id) {
      case AwaitingFile(path) =>
        if path !in l.files {
          assert Advances(TakeFile) && Enabled(l, id, TakeFile);
        } else if l.files[path].Thread? {
          Descend(l, l.files[path].id);
        }
      case AwaitingMutex(_) =>
        if l.mutex.Some? {
          Descend(l, l.mutex.value);
        } else {
          assert Advances(TakeMutex) && Enabled(l, id, TakeMutex);
        }
      case Operating(_) => assert Advances(LeaveMutex) && Enabled(l, id, LeaveMutex);
      case Releasing(_) => assert Advances(LeaveFile) && Enabled(l, id, LeaveFile);
    }
  }
}
