/** The file-log writer before and during initialization (src/logging.rs): a
    bounded copy of what was logged too early, one initialization, one handover. */
module LogInit {
  import opened Namespace

  const MAX_LOG_BYTES: nat := 10 * 1024 * 1024

  type Bytes = seq<bv8>

  /** The last `n` bytes, or all of them. */
  function Last(s: Bytes, n: nat): (r: Bytes)
    ensures |r| == if |s| <= n then |s| else n
  {
    if |s| <= n then s else s[|s| - n..]
  }

  /** Only the end counts once it is long enough. */
  lemma LastOfSuffix(x: Bytes, y: Bytes, n: nat)
    requires n <= |y|
    ensures Last(x + y, n) == Last(y, n)
  {
    assert (x + y)[|x + y| - n..] == y[|y| - n..];
    assert y[0..] == y && (x + y)[0..] == x + y;
  }

  lemma LastAbsorbs(x: Bytes, y: Bytes, n: nat)
    ensures Last(Last(x, n) + y, n) == Last(x + y, n)
    ensures Last(x + Last(y, n), n) == Last(x + y, n)
  {
    if |x| > n {
      assert x + y == x[..|x| - n] + (Last(x, n) + y);
      LastOfSuffix(x[..|x| - n], Last(x, n) + y, n);
    }
    if |y| > n {
      LastOfSuffix(x, y, n);
      LastOfSuffix(x, Last(y, n), n);
    }
  }

  /** The state a writer shares with its clones. */
  datatype FileLogState =
    | Deferred(pending: Bytes)
    | Uninitialized
    | Initializing
    | Ready
    | Disabled(reported: bool)

  /** `Torn`: what a failed write left of its bytes. */
  datatype Chunk = Buffered(bytes: Bytes) | Record(bytes: Bytes) | Torn(bytes: Bytes)

  /** `inFlight`: the buffer held by the thread that set Initializing and has
      not completed. `early`: everything logged while deferred. `file`: what
      reached the log, in order. */
  datatype Writer = Writer(
    state: FileLogState,
    inFlight: Option<Bytes>,
    attempts: nat,
    early: Bytes,
    file: seq<Chunk>)

  /** One critical section of some thread, with the outcomes it cannot choose:
      a write that fails has left its first `partial` bytes. */
  datatype Action =
    | Write(record: Bytes, succeeds: bool, partial: nat)
    | FinishDeferred
    | EnsureInitialized(openSucceeds: bool)
    | Complete(opens: bool, pendingSucceeds: bool, partial: nat)
    | DisableAfterTaskFailure
    | TakeError

  /** retain_bounded_pending */
  function Retained(pending: Bytes, record: Bytes): Bytes {
    Last(pending + record, MAX_LOG_BYTES)
  }

  function Cut(bytes: Bytes, n: nat): (r: Chunk)
    ensures r.Torn? && r.bytes <= bytes
  {
    Torn(if n < |bytes| then bytes[..n] else bytes)
  }

  function Begin(w: Writer, pending: Bytes): Writer {
    w.(state := Initializing, inFlight := Some(pending))
  }

  function Act(w: Writer, action: Action): Writer {
    match action
    case Write(record, succeeds, partial) =>
      var retained := Last(record, MAX_LOG_BYTES);
      (match w.state
       case Deferred(pending) => w.(state := Deferred(Retained(pending, retained)), early := w.early + record)
       case Uninitialized => Begin(w, [])
       case Initializing => w
       case Ready => w.(file := w.file + [if succeeds then Record(retained) else Cut(retained, partial)])
       case Disabled(_) => w)
    case FinishDeferred =>
      (match w.state
       case Deferred(pending) => if pending == [] then w.(state := Uninitialized) else Begin(w, pending)
       case _ => w)
    case EnsureInitialized(openSucceeds) =>
      (match w.state
       case Deferred(pending) => Begin(w, pending)
       case Uninitialized => Begin(w, [])
       case Ready => if openSucceeds then w else w.(state := Disabled(false))
       case _ => w)
    case Complete(opens, pendingSucceeds, partial) =>
      if w.inFlight.None? then w
      else
        var pending := w.inFlight.value;
        var done := w.(inFlight := None, attempts := w.attempts + 1);
        if !opens then done.(state := Disabled(false))
        else if pending != [] && !pendingSucceeds then done.(state := Disabled(false), file := w.file + [Cut(pending, partial)])
        else done.(state := Ready, file := if pending == [] then w.file else w.file + [Buffered(pending)])
    case DisableAfterTaskFailure =>
      if w.state.Deferred? || w.state.Uninitialized? || w.state.Initializing? then w.(state := Disabled(false)) else w
    case TakeError => if w.state == Disabled(false) then w.(state := Disabled(true)) else w
  }

  function Interleaving(start: Writer, actions: seq<Action>): Writer {
    if actions == [] then start
    else Act(Interleaving(start, actions[..|actions| - 1]), actions[|actions| - 1])
  }

  /** A deferred writer, or an ordinary lazy one. */
  predicate Starts(w: Writer) {
    w in {Writer(Deferred([]), None, 0, [], []), Writer(Uninitialized, None, 0, [], [])}
  }

  /** What holds at every point of every interleaving. */
  predicate OneHandover(w: Writer) {
    && w.attempts + (if w.inFlight.Some? then 1 else 0) <= 1
    && (w.state.Initializing? ==> w.inFlight.Some?)
    && (w.state.Deferred? || w.state.Uninitialized? ==> w.inFlight.None? && w.attempts == 0)
    && (w.state.Ready? ==> w.attempts == 1)
    && (w.state.Deferred? ==> w.state.pending == Last(w.early, MAX_LOG_BYTES))
    && (w.state.Uninitialized? ==> w.early == [])
    && (w.inFlight.Some? ==> w.inFlight.value == Last(w.early, MAX_LOG_BYTES))
    && (w.attempts == 0 ==> w.file == [])
    && (forall i :: 0 <= i < |w.file| && w.file[i].Buffered? ==>
          i == 0 && w.file[i].bytes == Last(w.early, MAX_LOG_BYTES))
    && (w.file != [] && w.early != [] ==> HandedOver(w) || HandoverTorn(w))
    && (w.state.Ready? && w.early != [] ==> w.file != [] && HandedOver(w))
  }

  /** The early bytes are the first thing in the file. */
  predicate HandedOver(w: Writer) {
    w.file != [] && w.file[0] == Buffered(Last(w.early, MAX_LOG_BYTES))
  }

  /** Only a beginning of them reached the file, and nothing ever follows. */
  predicate HandoverTorn(w: Writer) {
    && |w.file| == 1 && w.file[0].Torn? && w.file[0].bytes <= Last(w.early, MAX_LOG_BYTES)
    && w.state.Disabled? && w.attempts == 1
  }

  lemma ActKeepsOneHandover(w: Writer, action: Action)
    requires OneHandover(w)
    ensures OneHandover(Act(w, action))
  {
    match action
    case Write(record, succeeds, partial) => WriteKeepsOneHandover(w, record, succeeds, partial);
    case Complete(opens, pendingSucceeds, partial) => CompleteKeepsOneHandover(w, opens, pendingSucceeds, partial);
    case _ => assert Act(w, action).file == w.file && Act(w, action).early == w.early;
  }

  lemma WriteKeepsOneHandover(w: Writer, record: Bytes, succeeds: bool, partial: nat)
    requires OneHandover(w)
    ensures OneHandover(Act(w, Write(record, succeeds, partial)))
  {
    if w.state.Deferred? {
      LastAbsorbs(w.early, Last(record, MAX_LOG_BYTES), MAX_LOG_BYTES);
      LastAbsorbs(w.early, record, MAX_LOG_BYTES);
    }
  }

  lemma CompleteKeepsOneHandover(w: Writer, opens: bool, pendingSucceeds: bool, partial: nat)
    requires OneHandover(w)
    ensures OneHandover(Act(w, Complete(opens, pendingSucceeds, partial)))
  {
  }

  lemma {:induction false} EveryInterleavingHandsOverOnce(start: Writer, actions: seq<Action>)
    requires Starts(start)
    ensures OneHandover(Interleaving(start, actions))
  {
    if actions != [] {
      EveryInterleavingHandsOverOnce(start, actions[..|actions| - 1]);
      ActKeepsOneHandover(Interleaving(start, actions[..|actions| - 1]), actions[|actions| - 1]);
    }
  }

  /** Whatever writers, initializers and failures interleave: initialization is
      attempted at most once; a deferred writer's buffer is the last bytes of
      everything logged so far; and if anything was logged early, it is the
      first thing in the file, once, ahead of every later record, unless writing
      it failed midway, after which the file gets nothing more. */
  lemma InitializationHappensOnce(start: Writer, actions: seq<Action>)
    requires Starts(start)
    ensures
      var w := Interleaving(start, actions);
      && w.attempts <= 1
      && (w.state.Deferred? ==> w.state.pending == Last(w.early, MAX_LOG_BYTES))
      && (w.state.Ready? && w.early != [] ==> HandedOver(w))
      && (w.file != [] && w.early != [] ==> HandedOver(w) || HandoverTorn(w))
      && (forall i :: 0 < i < |w.file| ==> !w.file[i].Buffered?)
  {
    EveryInterleavingHandsOverOnce(start, actions);
  }

  /** The records a log holds, in order. */
  function Records(file: seq<Chunk>): seq<Bytes> {
    if file == [] then []
    else
      var front, last := file[..|file| - 1], file[|file| - 1];
      Records(front) + if last.Record? then [last.bytes] else []
  }

  /** What was given to the successful writes that found the writer ready, in
      order. */
  function ReadyWrites(start: Writer, actions: seq<Action>): seq<Bytes> {
    if actions == [] then []
    else
      var front, last := actions[..|actions| - 1], actions[|actions| - 1];
      ReadyWrites(start, front)
      + if Interleaving(start, front).state.Ready? && last.Write? && last.succeeds then [last.record] else []
  }

  /** The same records, each cut to its last MAX_LOG_BYTES bytes. */
  predicate BoundedCopies(copies: seq<Bytes>, records: seq<Bytes>) {
    && |copies| == |records|
    && forall i :: 0 <= i < |records| ==>
         && |copies[i]| == (if |records[i]| < MAX_LOG_BYTES then |records[i]| else MAX_LOG_BYTES)
         && copies[i] == records[i][|records[i]| - |copies[i]|..]
  }

  /** What a write adds to the log, if anything. */
  lemma WriteAdds(w: Writer, record: Bytes, succeeds: bool, partial: nat)
    ensures
      var after := Act(w, Write(record, succeeds, partial));
      if w.state.Ready? then
        && |after.file| == |w.file| + 1 && after.file[..|w.file|] == w.file
        && (after.file[|w.file|].Record? <==> succeeds)
        && after.file[|w.file|].bytes <= Last(record, MAX_LOG_BYTES)
        && (succeeds ==> after.file[|w.file|].bytes == Last(record, MAX_LOG_BYTES))
      else after.file == w.file
  {
  }

  /** Nothing but a write adds a record. */
  lemma OthersAddNoRecord(w: Writer, action: Action)
    requires !action.Write?
    ensures Records(Act(w, action).file) == Records(w.file)
  {
    var after := Act(w, action).file;
    if after != w.file {
      assert after[..|after| - 1] == w.file;
    }
  }

  /** Over every interleaving: the records in the log are exactly what the
      successful writes to a ready writer were given, in order, each cut to its
      last MAX_LOG_BYTES bytes. */
  lemma {:induction false} RecordsAreReadyWrites(start: Writer, actions: seq<Action>)
    requires Starts(start)
    ensures BoundedCopies(Records(Interleaving(start, actions).file), ReadyWrites(start, actions))
  {
    if actions != [] {
      var front, last := actions[..|actions| - 1], actions[|actions| - 1];
      var w := Interleaving(start, front);
      RecordsAreReadyWrites(start, front);
      if last.Write? {
        WriteAdds(w, last.record, last.succeeds, last.partial);
        var after := Interleaving(start, actions).file;
        assert w.state.Ready? ==> after[..|after| - 1] == w.file;
      } else {
        OthersAddNoRecord(w, last);
      }
    }
  }

  function Concatenated(records: seq<Bytes>): Bytes {
    if records == [] then [] else Concatenated(records[..|records| - 1]) + records[|records| - 1]
  }

  function Writes(records: seq<Bytes>): (r: seq<Action>)
    ensures |r| == |records|
  {
    if records == [] then [] else Writes(records[..|records| - 1]) + [Write(records[|records| - 1], true, 0)]
  }

  /** The buffer refines the whole stream: after any records, it is the last
      MAX_LOG_BYTES of their concatenation. */
  lemma {:induction false} PendingIsStreamSuffix(records: seq<Bytes>)
    ensures Interleaving(Writer(Deferred([]), None, 0, [], []), Writes(records)).state
         == Deferred(Last(Concatenated(records), MAX_LOG_BYTES))
  {
    if records != [] {
      var front := records[..|records| - 1];
      var last := records[|records| - 1];
      PendingIsStreamSuffix(front);
      assert Writes(records)[..|records| - 1] == Writes(front);
      LastAbsorbs(Last(Concatenated(front), MAX_LOG_BYTES), last, MAX_LOG_BYTES);
      LastAbsorbs(Concatenated(front), last, MAX_LOG_BYTES);
    }
  }

  /** A failed write of `bytes` has left at most a beginning of them. */
  predicate TornAfter(file: seq<Chunk>, before: seq<Chunk>, bytes: Bytes) {
    |file| == |before| + 1 && file[..|before|] == before && file[|before|].Torn? && file[|before|].bytes <= bytes
  }

  /** What a writer does once it has looked at the shared state. */
  datatype Next = Finished | InitializeFirst | WaitForInitializer | Failed

  /** The shared state of a file-log writer and the log it leads to; each method
      is one critical section, and `writer` is the machine it refines. */
  class SharedLogState {
    var state: FileLogState
    var file: seq<Chunk>
    ghost var writer: Writer

    ghost predicate Valid()
      reads this
    {
      writer.state == state && writer.file == file
    }

    constructor (deferred: bool)
      ensures Valid() && Starts(writer)
      ensures state == if deferred then Deferred([]) else Uninitialized
    {
      state := if deferred then Deferred([]) else Uninitialized;
      file := [];
      writer := Writer(if deferred then Deferred([]) else Uninitialized, None, 0, [], []);
    }

    /** retain_bounded_pending */
    method RetainBoundedPending(record: Bytes)
      requires state.Deferred?
      modifies this`state
      ensures state == Deferred(Retained(old(state.pending), record))
      ensures state == Deferred(Last(old(state.pending) + record, MAX_LOG_BYTES))
    {
      var pending := state.pending;
      if |record| >= MAX_LOG_BYTES {
        LastOfLong(pending, record);
        state := Deferred(record[|record| - MAX_LOG_BYTES..]);
        return;
      }
      var overflow := if |pending| + |record| > MAX_LOG_BYTES then |pending| + |record| - MAX_LOG_BYTES else 0;
      if overflow != 0 {
        DrainedLast(pending, record, overflow);
        pending := pending[overflow..];
      }
      state := Deferred(pending + record);
    }

    /** One turn of the loop of Write::write. */
    method Write(buf: Bytes) returns (next: Next, ghost succeeds: bool, ghost partial: nat)
      requires Valid()
      modifies this
      ensures Valid() && writer == Act(old(writer), Action.Write(buf, succeeds, partial))
      ensures next == match old(state)
                      case Uninitialized => InitializeFirst
                      case Initializing => WaitForInitializer
                      case Ready => if succeeds then Finished else Failed
                      case _ => Finished
      ensures old(state).Ready? && next == Finished ==> file == old(file) + [Record(Last(buf, MAX_LOG_BYTES))]
      ensures old(state).Ready? && next != Finished ==> TornAfter(file, old(file), Last(buf, MAX_LOG_BYTES))
      ensures !old(state).Ready? ==> file == old(file)
      ensures state == match old(state)
                       case Deferred(pending) => Deferred(Last(pending + buf, MAX_LOG_BYTES))
                       case Uninitialized => Initializing
                       case _ => old(state)
    {
      var retained := if |buf| > MAX_LOG_BYTES then buf[|buf| - MAX_LOG_BYTES..] else buf;
      var ok: bool := *;
      var left: nat := *;
      succeeds, partial := ok, left;
      writer := Act(writer, Action.Write(buf, ok, left));
      next := Finished;
      match state {
        case Deferred(pending) =>
          LastAbsorbs(pending, buf, MAX_LOG_BYTES);
          RetainBoundedPending(retained);
        case Uninitialized =>
          state := Initializing;
          next := InitializeFirst;
        case Initializing => next := WaitForInitializer;
        case Ready =>
          if ok {
            file := file + [Record(retained)];
          } else {
            file := file + [Cut(retained, left)];
            next := Failed;
          }
        case Disabled(_) =>
      }
    }

    /** finish_deferred_initialization, up to the initialization it leads to:
        the buffer to be handed over. */
    method FinishDeferredInitialization() returns (handover: Option<Bytes>)
      requires Valid()
      modifies this
      ensures Valid() && writer == Act(old(writer), FinishDeferred)
      ensures handover.Some? ==> writer.inFlight == handover
      ensures handover == if old(state).Deferred? && old(state) != Deferred([]) then Some(old(state).pending) else None
      ensures state == if handover.Some? then Initializing
                       else if old(state) == Deferred([]) then Uninitialized else old(state)
      ensures file == old(file)
    {
      writer := Act(writer, FinishDeferred);
      handover := None;
      if state.Deferred? {
        var pending := state.pending;
        if pending == [] {
          state := Uninitialized;
        } else {
          state := Initializing;
          handover := Some(pending);
        }
      }
    }

    /** One turn of the loop of ensure_initialized, up to the initialization. */
    method StartInitialization() returns (handover: Option<Bytes>, ghost opens: bool)
      requires Valid()
      modifies this
      ensures Valid() && writer == Act(old(writer), EnsureInitialized(opens))
      ensures handover.Some? ==> writer.inFlight == handover
      ensures handover == match old(state)
                          case Deferred(pending) => Some(pending)
                          case Uninitialized => Some([])
                          case _ => None
      ensures state == if handover.Some? then Initializing
                       else if old(state).Ready? && !opens then Disabled(false) else old(state)
      ensures file == old(file)
    {
      var ok: bool := *;
      opens := ok;
      writer := Act(writer, EnsureInitialized(ok));
      handover := None;
      match state {
        case Deferred(pending) =>
          state := Initializing;
          handover := Some(pending);
        case Uninitialized =>
          state := Initializing;
          handover := Some([]);
        case Ready =>
          if !ok {
            state := Disabled(false);
          }
        case _ =>
      }
    }

    /** complete_initialization, by the thread that holds the buffer. */
    method CompleteInitialization(pending: Bytes)
      returns (ok: bool, ghost opens: bool, ghost pendingSucceeds: bool, ghost partial: nat)
      requires Valid() && writer.inFlight == Some(pending)
      modifies this
      ensures Valid() && writer == Act(old(writer), Complete(opens, pendingSucceeds, partial))
      ensures ok <==> state == Ready
      ensures ok <==> opens && (pending == [] || pendingSucceeds)
      ensures ok ==> file == old(file) + if pending == [] then [] else [Buffered(pending)]
      ensures !ok ==> state == Disabled(false)
      ensures !ok ==> file == old(file) || (opens && TornAfter(file, old(file), pending))
    {
      var found: bool := *;
      var written: bool := *;
      var left: nat := *;
      opens, pendingSucceeds, partial := found, written, left;
      writer := Act(writer, Complete(found, written, left));
      if !found {
        state := Disabled(false);
        return false, opens, pendingSucceeds, partial;
      }
      if pending != [] {
        if !written {
          file := file + [Cut(pending, left)];
          state := Disabled(false);
          return false, opens, pendingSucceeds, partial;
        }
        file := file + [Buffered(pending)];
      }
      state := Ready;
      return true, opens, pendingSucceeds, partial;
    }

    /** disable_initialization_after_task_failure */
    method DisableInitializationAfterTaskFailure()
      requires Valid()
      modifies this
      ensures Valid() && writer == Act(old(writer), DisableAfterTaskFailure)
      ensures state == if old(state) in {Uninitialized, Initializing} || old(state).Deferred? then Disabled(false)
                       else old(state)
      ensures file == old(file)
    {
      writer := Act(writer, DisableAfterTaskFailure);
      if state.Deferred? || state.Uninitialized? || state.Initializing? {
        state := Disabled(false);
      }
    }

    /** take_initialization_error: whether there was one to take. */
    method TakeInitializationError() returns (taken: bool)
      requires Valid()
      modifies this
      ensures Valid() && writer == Act(old(writer), TakeError)
      ensures taken <==> old(state) == Disabled(false)
      ensures state == if taken then Disabled(true) else old(state)
      ensures file == old(file)
    {
      writer := Act(writer, TakeError);
      taken := state == Disabled(false);
      if taken {
        state := Disabled(true);
      }
    }
  }

  lemma LastOfLong(pending: Bytes, record: Bytes)
    requires |record| >= MAX_LOG_BYTES
    ensures Retained(pending, record) == record[|record| - MAX_LOG_BYTES..]
  {
  }

  lemma DrainedLast(pending: Bytes, record: Bytes, overflow: nat)
    requires |record| < MAX_LOG_BYTES && |pending| + |record| == MAX_LOG_BYTES + overflow && overflow > 0
    ensures Retained(pending, record) == pending[overflow..] + record
  {
  }
}
