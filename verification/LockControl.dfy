/** Cancelling a worker that waits for the cache lock (src/cache.rs): one atomic
    word decides between the worker and any number of cancellers. */
module LockControl {
  datatype AcquireState = Pending | Contended | Acquired | Cancelled | TimedOut

  // The word after an atomic update, and whether the update was made.

  function OnCancelWaiting(s: AcquireState): (AcquireState, bool) {
    if s.Pending? || s.Contended? then (Cancelled, true) else (s, false)
  }

  function OnCancelContended(s: AcquireState): (AcquireState, bool) {
    if s.Contended? then (Cancelled, true) else (s, false)
  }

  function OnMarkAcquired(s: AcquireState): (AcquireState, bool) {
    if s.Pending? || s.Contended? then (Acquired, true) else (s, false)
  }

  function OnMarkContended(s: AcquireState): (AcquireState, bool) {
    if s.Pending? then (Contended, true) else (s, s.Contended?)
  }

  function OnMarkTimedOut(s: AcquireState): (AcquireState, bool) {
    if s.Contended? then (TimedOut, true) else (s, false)
  }

  /** CacheLockAcquireControl */
  class CacheLockAcquireControl {
    var state: AcquireState
    var wakeups: nat

    constructor ()
      ensures state == Pending && wakeups == 0
    {
      state := Pending;
      wakeups := 0;
    }

    /** cancel_waiting */
    method CancelWaiting() returns (cancelled: bool)
      modifies this
      ensures (state, cancelled) == OnCancelWaiting(old(state))
      ensures cancelled <==> old(state) in {Pending, Contended}
      ensures state == if cancelled then Cancelled else old(state)
      ensures wakeups == old(wakeups) + if cancelled then 1 else 0
    {
      cancelled := state in {Pending, Contended};
      if cancelled {
        state := Cancelled;
        wakeups := wakeups + 1;
      }
    }

    /** cancel_contended */
    method CancelContended() returns (cancelled: bool)
      modifies this
      ensures (state, cancelled) == OnCancelContended(old(state))
      ensures cancelled <==> old(state) in {Contended}
      ensures state == if cancelled then Cancelled else old(state)
      ensures wakeups == old(wakeups) + if cancelled then 1 else 0
    {
      cancelled := state == Contended;
      if cancelled {
        state := Cancelled;
        wakeups := wakeups + 1;
      }
    }

    /** mark_acquired */
    method MarkAcquired() returns (made: bool)
      modifies this`state
      ensures (state, made) == OnMarkAcquired(old(state))
      ensures made <==> old(state) in {Pending, Contended}
      ensures state == if made then Acquired else old(state)
    {
      made := state in {Pending, Contended};
      if made {
        state := Acquired;
      }
    }

    /** mark_contended */
    method MarkContended() returns (made: bool)
      modifies this`state
      ensures (state, made) == OnMarkContended(old(state))
      ensures made <==> old(state) in {Pending, Contended}
      ensures state == if made then Contended else old(state)
    {
      match state {
        case Pending => state := Contended; made := true;
        case Contended => made := true;
        case _ => made := false;
      }
    }

    /** mark_timed_out */
    method MarkTimedOut() returns (made: bool)
      modifies this`state
      ensures (state, made) == OnMarkTimedOut(old(state))
      ensures made <==> old(state) in {Contended}
      ensures state == if made then TimedOut else old(state)
    {
      made := state == Contended;
      if made {
        state := TimedOut;
      }
    }
  }

  /** Where the worker is in with_cache_lock_cancellable_at: before each of its
      atomic actions, or at its end. */
  datatype Worker =
    | Checking        // before is_cancelled
    | Trying          // before try_lock
    | Owning          // try_lock succeeded, before mark_acquired
    | Blocked         // WouldBlock before the deadline, before mark_contended
    | LateBlocked     // WouldBlock at the deadline, before mark_contended
    | Expiring        // marked contended at the deadline, before mark_timed_out
    | Entering        // acquired, before the process mutex
    | Operated        // the operation ran
    | GaveUp          // returned None
    | TimeoutError
    | OtherError      // the lock call failed, or the mutex was poisoned

  datatype LockAttempt = Free | WouldBlock(late: bool) | LockError

  datatype Action =
    | Work(attempt: LockAttempt, poisoned: bool)   // the worker's next action
    | TryCancelWaiting
    | TryCancelContended

  datatype Cancel = Cancel(contendedOnly: bool, won: bool, sawBlocked: bool)

  /** `blocked`: the worker has found the OS lock held by someone else. */
  datatype Race = Race(state: AcquireState, worker: Worker, blocked: bool, cancels: seq<Cancel>)

  const START := Race(Pending, Checking, false, [])

  function WorkerStep(r: Race, attempt: LockAttempt, poisoned: bool): Race {
    match r.worker
    case Checking => r.(worker := if r.state.Cancelled? then GaveUp else Trying)
    case Trying =>
      (match attempt
       case Free => r.(worker := Owning)
       case WouldBlock(late) => r.(worker := if late then LateBlocked else Blocked, blocked := true)
       case LockError => r.(worker := OtherError))
    case Owning =>
      var (s, made) := OnMarkAcquired(r.state);
      r.(state := s, worker := if made then Entering else GaveUp)
    case Blocked =>
      var (s, made) := OnMarkContended(r.state);
      r.(state := s, worker := if made then Checking else GaveUp)
    case LateBlocked =>
      var (s, made) := OnMarkContended(r.state);
      r.(state := s, worker := if made then Expiring else GaveUp)
    case Expiring =>
      var (s, made) := OnMarkTimedOut(r.state);
      r.(state := s, worker := if made then TimeoutError else GaveUp)
    case Entering => r.(worker := if poisoned then OtherError else Operated)
    case _ => r
  }

  function Act(r: Race, action: Action): Race {
    match action
    case Work(attempt, poisoned) => WorkerStep(r, attempt, poisoned)
    case TryCancelWaiting =>
      var (s, won) := OnCancelWaiting(r.state);
      r.(state := s, cancels := r.cancels + [Cancel(false, won, r.blocked)])
    case TryCancelContended =>
      var (s, won) := OnCancelContended(r.state);
      r.(state := s, cancels := r.cancels + [Cancel(true, won, r.blocked)])
  }

  function Interleaving(actions: seq<Action>): Race {
    if actions == [] then START
    else Act(Interleaving(actions[..|actions| - 1]), actions[|actions| - 1])
  }

  predicate SomeCancelWon(r: Race) {
    AnyWon(r.cancels)
  }

  predicate NoneOrOneWon(cancels: seq<Cancel>) {
    forall i, j :: 0 <= i < j < |cancels| ==> !(cancels[i].won && cancels[j].won)
  }

  /** What holds at every point of every interleaving. */
  predicate OneWinner(r: Race) {
    && (SomeCancelWon(r) <==> r.state.Cancelled?)
    && NoneOrOneWon(r.cancels)
    && (r.worker in {Entering, Operated} ==> r.state.Acquired?)
    && (r.worker == TimeoutError ==> r.state.TimedOut?)
    && (r.state.Acquired? ==> r.worker in {Entering, Operated, OtherError})
    && (r.state.TimedOut? ==> r.worker == TimeoutError)
    && (r.state.Contended? ==> r.blocked)
    && (r.worker == GaveUp ==> r.state.Cancelled?)
    && (r.worker in {Blocked, LateBlocked, Expiring} ==> r.blocked)
    && (r.worker == Expiring ==> r.state.Contended? || r.state.Cancelled?)
    && ContendedSawBlocked(r.cancels)
  }

  predicate AnyWon(cancels: seq<Cancel>) {
    exists i :: 0 <= i < |cancels| && cancels[i].won
  }

  predicate ContendedSawBlocked(cancels: seq<Cancel>) {
    forall i :: 0 <= i < |cancels| && cancels[i].won && cancels[i].contendedOnly ==> cancels[i].sawBlocked
  }

  lemma CancelAdded(cancels: seq<Cancel>, c: Cancel)
    ensures AnyWon(cancels + [c]) <==> AnyWon(cancels) || c.won
    ensures NoneOrOneWon(cancels + [c]) <==> NoneOrOneWon(cancels) && !(AnyWon(cancels) && c.won)
    ensures ContendedSawBlocked(cancels + [c])
       <==> ContendedSawBlocked(cancels) && (c.won && c.contendedOnly ==> c.sawBlocked)
  {
    var more := cancels + [c];
    assert more[|cancels|] == c;
    assert forall i :: 0 <= i < |cancels| ==> more[i] == cancels[i];
  }

  lemma ActKeepsOneWinner(r: Race, action: Action)
    requires OneWinner(r)
    ensures OneWinner(Act(r, action))
  {
    if !action.Work? {
      var won := if action.TryCancelWaiting? then OnCancelWaiting(r.state).1 else OnCancelContended(r.state).1;
      CancelAdded(r.cancels, Cancel(action.TryCancelContended?, won, r.blocked));
    }
  }

  lemma {:induction false} EveryInterleavingHasOneWinner(actions: seq<Action>)
    ensures OneWinner(Interleaving(actions))
  {
    if actions != [] {
      EveryInterleavingHasOneWinner(actions[..|actions| - 1]);
      ActKeepsOneWinner(Interleaving(actions[..|actions| - 1]), actions[|actions| - 1]);
    }
  }

  /** In every interleaving: a cancel that won means the operation never runs, an
      operation that ran or a timeout means no cancel won, before or after; a
      worker gives up exactly for a cancel; and a contended cancel won only
      after the worker had found the OS lock blocked. */
  lemma CancellationHasOneWinner(actions: seq<Action>)
    ensures
      var r := Interleaving(actions);
      && !(SomeCancelWon(r) && r.worker in {Entering, Operated, TimeoutError})
      && (r.worker == GaveUp ==> SomeCancelWon(r))
      && NoneOrOneWon(r.cancels)
      && ContendedSawBlocked(r.cancels)
  {
    EveryInterleavingHasOneWinner(actions);
  }

  /** A cancel that won stays decisive: whatever happens later, the operation
      does not run. */
  lemma {:induction false} CancelIsFinal(actions: seq<Action>, more: seq<Action>)
    requires SomeCancelWon(Interleaving(actions))
    ensures SomeCancelWon(Interleaving(actions + more))
    ensures Interleaving(actions + more).worker !in {Entering, Operated, TimeoutError}
  {
    if more == [] {
      assert actions + more == actions;
    } else {
      CancelIsFinal(actions, more[..|more| - 1]);
      assert (actions + more)[..|actions + more| - 1] == actions + more[..|more| - 1];
      LastActKeepsCancel(actions + more);
    }
    CancellationHasOneWinner(actions + more);
  }

  lemma LastActKeepsCancel(actions: seq<Action>)
    requires actions != [] && SomeCancelWon(Interleaving(actions[..|actions| - 1]))
    ensures SomeCancelWon(Interleaving(actions))
  {
    WonStaysWon(Interleaving(actions[..|actions| - 1]), actions[|actions| - 1]);
  }

  lemma WonStaysWon(r: Race, action: Action)
    requires SomeCancelWon(r)
    ensures SomeCancelWon(Act(r, action))
  {
    var i :| 0 <= i < |r.cancels| && r.cancels[i].won;
    assert Act(r, action).cancels[i] == r.cancels[i];
  }

  /** At no point so far has the worker acquired the lock or timed out. */
  predicate StillWaiting(actions: seq<Action>) {
    actions == []
    || (StillWaiting(actions[..|actions| - 1]) && Interleaving(actions).worker !in {Entering, TimeoutError})
  }

  /** At some point so far the worker went on waiting after finding the OS lock
      blocked. */
  predicate WentOnWaiting(actions: seq<Action>) {
    actions != []
    && var front := actions[..|actions| - 1];
       WentOnWaiting(front)
       || (Interleaving(front).worker in {Blocked, LateBlocked} && Interleaving(actions).worker in {Checking, Expiring})
  }

  /** The word records exactly what has happened: whether a cancel won, whether
      the worker is through, and whether it has been seen to wait. */
  ghost predicate WordTells(actions: seq<Action>) {
    var r := Interleaving(actions);
    && (r.state in {Pending, Contended} <==> !SomeCancelWon(r) && StillWaiting(actions))
    && (r.state == Contended ==> WentOnWaiting(actions))
    && (r.state == Pending ==> !WentOnWaiting(actions))
  }

  lemma {:induction false} WordTellsHistory(actions: seq<Action>)
    ensures WordTells(actions)
  {
    EveryInterleavingHasOneWinner(actions);
    if actions != [] {
      var front := actions[..|actions| - 1];
      WordTellsHistory(front);
      EveryInterleavingHasOneWinner(front);
      ActTells(Interleaving(front), actions[|actions| - 1]);
    }
  }

  /** What one action can do to the word. */
  lemma ActTells(r: Race, action: Action)
    requires OneWinner(r)
    ensures
      var s := Act(r, action);
      && (r.state !in {Pending, Contended} ==> s.state == r.state)
      && (s.state == Acquired && r.state != Acquired ==> s.worker == Entering)
      && (s.state == TimedOut && r.state != TimedOut ==> s.worker == TimeoutError)
      && (s.worker == Entering && r.worker != Entering ==> s.state == Acquired)
      && (s.worker in {Entering, TimeoutError} ==> s.state in {Acquired, TimedOut})
      && (r.worker in {Blocked, LateBlocked} && s.worker in {Checking, Expiring} ==> s.state == Contended)
      && (s.state == Contended && r.state == Pending ==>
            r.worker in {Blocked, LateBlocked} && s.worker in {Checking, Expiring})
      && (s.state == Pending ==> r.state == Pending)
  {
  }

  /** cancel_waiting at any point of any interleaving wins exactly when no cancel
      has won and the worker has neither acquired the lock nor timed out; the
      operation then never runs, whatever follows. */
  lemma CancelWaitingDecides(actions: seq<Action>, more: seq<Action>)
    ensures
      var r := Interleaving(actions);
      var won := !SomeCancelWon(r) && StillWaiting(actions);
      && Interleaving(actions + [TryCancelWaiting]).cancels == r.cancels + [Cancel(false, won, r.blocked)]
      && (won ==> Interleaving(actions + [TryCancelWaiting] + more).worker !in {Entering, Operated, TimeoutError})
  {
    var r := Interleaving(actions);
    var after := actions + [TryCancelWaiting];
    assert after[..|after| - 1] == actions;
    WordTellsHistory(actions);
    if !SomeCancelWon(r) && StillWaiting(actions) {
      CancelAdded(r.cancels, Cancel(false, true, r.blocked));
      CancelIsFinal(after, more);
    }
  }

  /** cancel_contended wins exactly when, besides, the worker has gone on waiting
      after finding the OS lock blocked. */
  lemma CancelContendedDecides(actions: seq<Action>, more: seq<Action>)
    ensures
      var r := Interleaving(actions);
      var won := !SomeCancelWon(r) && StillWaiting(actions) && WentOnWaiting(actions);
      && Interleaving(actions + [TryCancelContended]).cancels == r.cancels + [Cancel(true, won, r.blocked)]
      && (won ==> Interleaving(actions + [TryCancelContended] + more).worker !in {Entering, Operated, TimeoutError})
  {
    var r := Interleaving(actions);
    var after := actions + [TryCancelContended];
    assert after[..|after| - 1] == actions;
    WordTellsHistory(actions);
    if !SomeCancelWon(r) && StillWaiting(actions) && WentOnWaiting(actions) {
      CancelAdded(r.cancels, Cancel(true, true, r.blocked));
      CancelIsFinal(after, more);
    }
  }

  /** The worker's marks at any point of any interleaving: they fail exactly when
      a cancel has won, and then the worker gives up. Otherwise the owner of the
      OS lock goes on to the operation, a blocked worker looks again or, at its
      deadline, times out. */
  lemma MarksDecide(actions: seq<Action>, attempt: LockAttempt, poisoned: bool)
    ensures
      var r := Interleaving(actions);
      var next := Interleaving(actions + [Work(attempt, poisoned)]).worker;
      var cancelled := SomeCancelWon(r);
      && (r.worker == Checking ==> next == if cancelled then GaveUp else Trying)
      && (r.worker == Trying ==>
            next == match attempt
                    case Free => Owning
                    case WouldBlock(late) => if late then LateBlocked else Blocked
                    case LockError => OtherError)
      && (r.worker == Owning ==> next == if cancelled then GaveUp else Entering)
      && (r.worker == Blocked ==> next == if cancelled then GaveUp else Checking)
      && (r.worker == LateBlocked ==> next == if cancelled then GaveUp else Expiring)
      && (r.worker == Expiring ==> next == if cancelled then GaveUp else TimeoutError)
      && (r.worker == Entering ==> next == if poisoned then OtherError else Operated)
  {
    var after := actions + [Work(attempt, poisoned)];
    assert after[..|after| - 1] == actions;
    EveryInterleavingHasOneWinner(actions);
  }
}
