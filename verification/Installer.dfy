/** The installer's exact namespace operations (src/installer_fs.rs): each acts
    once, looks at what it did, and undoes it if another writer got in. The
    ledger of owed files is the conservation argument: put the operand files on
    it, and whatever writers do at the destination, every file on it that they
    did not take away is under an operand name at the end. */
module Installer {
  import opened Namespace

  datatype Outcome = Exact(token: FileToken) | NotCommitted

  /** Every owed file is at one of the operand names, those in `lost` apart. */
  ghost predicate OwedAt(w: World, a: Path, b: Path, c: Path, lost: set<File>) {
    forall f :: f in w.owed ==>
      f in lost || At(w.names, a) == Some(f) || At(w.names, b) == Some(f) || At(w.names, c) == Some(f)
  }

  ghost predicate Calm(w: World) {
    !w.env.foreign && !w.env.faults && !w.stopped
  }

  /** What is true while an operation on the names `a`, `b` and `c` runs that
      has given up the files of `lost`. */
  ghost predicate KeepingBut(w0: World, w: World, a: Path, b: Path, c: Path, lost: set<File>) {
    && Valid(w) && Onward(w0, w)
    && (OwedAt(w0, a, b, c, {}) ==> OwedAt(w, a, b, c, lost))
    && forall p :: p !in {a, b, c} && p != w0.env.contested ==> At(w.names, p) == At(w0.names, p)
  }

  ghost predicate Keeping(w0: World, w: World, a: Path, b: Path, c: Path) {
    KeepingBut(w0, w, a, b, c, {})
  }

  lemma KeepingBetween(w0: World, w: World, v: World, a: Path, b: Path, c: Path, lost: set<File>)
    requires KeepingBut(w0, w, a, b, c, lost) && Valid(v) && Between(w, v) && w0.env.contested in {a, b, c}
    ensures KeepingBut(w0, v, a, b, c, lost)
  {
  }

  lemma KeepingMoves(w0: World, w: World, v: World, a: Path, b: Path, c: Path, x: Path, y: Path, moved: Option<File>, lost: set<File>)
    requires KeepingBut(w0, w, a, b, c, lost) && Valid(v) && RenameEffect(w, v, x, y, moved) && w0.env.contested in {a, b, c}
    requires x in {a, b, c} && y in {a, b, c} && x != y
    ensures KeepingBut(w0, v, a, b, c, lost)
  {
    if moved.None? {
      KeepingBetween(w0, w, v, a, b, c, lost);
    } else {
      forall p | p !in {a, b, c} && p != w0.env.contested
        ensures At(v.names, p) == At(w0.names, p)
      {
        assert At(v.names, p) == At(w.names, p);
      }
      if OwedAt(w, a, b, c, lost) {
        MovesKeepOwed(w, v, a, b, c, x, y, moved, lost);
      }
    }
  }

  lemma MovesKeepOwed(w: World, v: World, a: Path, b: Path, c: Path, x: Path, y: Path, moved: Option<File>, lost: set<File>)
    requires OwedAt(w, a, b, c, lost) && RenameEffect(w, v, x, y, moved) && moved.Some?
    requires w.env.contested in {a, b, c} && x in {a, b, c} && y in {a, b, c} && x != y
    ensures OwedAt(v, a, b, c, lost)
  {
    var spot := if x == w.env.contested then y else w.env.contested;
    forall f | f in v.owed && At(v.names, spot) != Some(f) && f !in lost
      ensures At(v.names, a) == Some(f) || At(v.names, b) == Some(f) || At(v.names, c) == Some(f)
    {
      var p :| p in {a, b, c} && At(w.names, p) == Some(f);
      assert p != w.env.contested;
      assert y != w.env.contested ==> y !in w.names;
      assert At(w.names, p) == Some(f);
      assert p in w.names && p != y;
      assert p != x ==> At(v.names, p) == At(w.names, p);
    }
  }

  lemma KeepingSwaps(w0: World, w: World, v: World, a: Path, b: Path, swapped: Option<(File, File)>)
    requires Keeping(w0, w, a, b, a) && Valid(v) && ExchangeEffect(w, v, a, b, swapped)
    requires a != b && w0.env.contested in {a, b}
    ensures Keeping(w0, v, a, b, a)
  {
  }

  /** ReplaceFileW keeps every file of its operands exactly when the displaced
      name is free: a file another writer put there would be overwritten. */
  lemma ReplaceConservesIffFree(n: Names, r: Path, t: Path, d: Path)
    requires NoAlias(n) && r in n && t in n && r != t && d != t && d != r
    ensures (forall p :: p in n ==> exists q :: q in Apply(n, Replace(r, t, d)) && Apply(n, Replace(r, t, d))[q] == n[p])
            <==> d !in n
  {
    var n' := Apply(n, Replace(r, t, d));
    if d !in n {
      forall p | p in n
        ensures exists q :: q in n' && n'[q] == n[p]
      {
        var q := if p == r then t else if p == t then d else p;
        assert q in n' && n'[q] == n[p];
      }
    } else {
      forall q | q in n'
        ensures n'[q] != n[d]
      {
        var p := if q == t then r else if q == d then t else q;
        assert p in n && p != d && n'[q] == n[p];
      }
    }
  }

  /** So does the outcome that only displaces the target. */
  lemma DisplaceConservesIffFree(n: Names, t: Path, d: Path)
    requires NoAlias(n) && t in n && t != d
    ensures (forall p :: p in n ==> exists q :: q in Apply(n, Displace(t, d)) && Apply(n, Displace(t, d))[q] == n[p])
            <==> d !in n
  {
    var n' := Apply(n, Displace(t, d));
    if d !in n {
      forall p | p in n
        ensures exists q :: q in n' && n'[q] == n[p]
      {
        var q := if p == t then d else p;
        assert q in n' && n'[q] == n[p];
      }
    } else {
      forall q | q in n'
        ensures n'[q] != n[d]
      {
        var p := if q == d then t else q;
        assert p in n && p != d && n'[q] == n[p];
      }
    }
  }

  /** A concrete loss. Everybody's files are 1 (replacement), 2 (target) and 3,
      which a writer put at the displaced name after the look there: it is gone,
      whether the call replaces or only displaces. In the undo of a replacement,
      the same happens to a file put at the free replacement name. */
  lemma WriterAtFreeNameIsOverwritten(r: Path, t: Path, d: Path, f: File, g: File, h: File)
    requires r != t && t != d && d != r && f.identity == 1 && g.identity == 2 && h.identity == 3
    ensures
      var late := map[r := f, t := g, d := h];
      && Apply(late, Replace(r, t, d)) == map[t := f, d := g]
      && Apply(late, Displace(t, d)) == map[r := f, d := g]
    ensures
      var replaced := Apply(map[r := f, t := g], Replace(r, t, d));
      Apply(replaced[r := h], Replace(d, t, r)) == map[t := g, r := f]
  {
  }

  function Gone(lost: Option<File>): set<File> {
    if lost.Some? then {lost.value} else {}
  }

  /** ReplaceFileW gives up no file but the one it finds at the displaced name. */
  lemma KeepingReplaces(w0: World, w: World, v: World, a: Path, b: Path, c: Path, x: Path, y: Path, o: ReplaceOutcome,
                        before: set<File>, lost: Option<File>)
    requires KeepingBut(w0, w, a, b, c, before) && Valid(v) && ReplaceEffectAnywhere(w, v, x, b, y, o, lost)
    requires a != b && c != b && a != c && w0.env.contested in {a, b, c} && (x, y) in {(a, c), (c, a)}
    ensures KeepingBut(w0, v, a, b, c, before + Gone(lost))
  {
    if o.Untouched? {
      KeepingBetween(w0, w, v, a, b, c, before);
      return;
    }
    forall p | p !in {a, b, c} && p != w0.env.contested
      ensures At(v.names, p) == At(w0.names, p)
    {
      assert At(v.names, p) == At(w.names, p);
    }
    if OwedAt(w, a, b, c, before) {
      forall f | f in v.owed && lost != Some(f) && f !in before
        ensures At(v.names, a) == Some(f) || At(v.names, b) == Some(f) || At(v.names, c) == Some(f)
      {
        ReplaceKeepsOne(w, v, x, b, y, o, lost, f, before);
      }
    }
  }

  lemma ReplaceKeepsOne(w: World, v: World, x: Path, b: Path, y: Path, o: ReplaceOutcome, lost: Option<File>, f: File, before: set<File>)
    requires ReplaceEffectAnywhere(w, v, x, b, y, o, lost) && !o.Untouched? && OwedAt(w, x, b, y, before)
    requires x != b && y != b && x != y && w.env.contested in {x, b, y}
    requires f in v.owed && lost != Some(f) && f !in before
    ensures At(v.names, x) == Some(f) || At(v.names, b) == Some(f) || At(v.names, y) == Some(f)
  {
    var spot := if o.FullyReplaced? && x == w.env.contested then b else if b == w.env.contested then y else w.env.contested;
    if At(v.names, spot) != Some(f) {
      assert f in w.owed && At(w.names, w.env.contested) != Some(f);
      assert y != w.env.contested ==> At(w.names, y) != Some(f);
    }
  }

  /** Names nobody else acts on hold what they held. */
  ghost predicate PrivateSame(w: World, v: World) {
    forall p :: p != w.env.contested ==> At(v.names, p) == At(w.names, p)
  }

  /** token_if_present while an operation runs */
  method Look(disk: Disk, ghost w0: World, ghost a: Path, ghost b: Path, ghost c: Path, p: Path, ghost lost: set<File>)
    returns (r: Result<Option<FileToken>>)
    requires KeepingBut(w0, disk.w, a, b, c, lost) && w0.env.contested in {a, b, c}
    modifies disk
    ensures KeepingBut(w0, disk.w, a, b, c, lost) && Onward(old(disk.w), disk.w) && PrivateSame(old(disk.w), disk.w)
    ensures OnlySaw(old(disk.w), disk.w)
    ensures !disk.w.env.foreign ==> disk.w.names == old(disk.w).names && disk.w.survivors == old(disk.w).survivors
    ensures r.Success? ==>
              r.value == At(disk.w.names, p) && disk.w.history == old(disk.w).history + [Saw(p, r.value)]
    ensures Calm(old(disk.w)) ==> r.Success? && Calm(disk.w)
  {
    ghost var w1 := disk.w;
    r := disk.TokenIfPresent(p);
    KeepingBetween(w0, w1, disk.w, a, b, c, lost);
  }

  /** The tokens at two names, one of them contested. */
  method LookBoth(disk: Disk, ghost w0: World, a: Path, b: Path) returns (r: Result<(Option<FileToken>, Option<FileToken>)>)
    requires Keeping(w0, disk.w, a, b, a) && w0.env.contested in {a, b} && a != b
    modifies disk
    ensures Keeping(w0, disk.w, a, b, a) && Onward(old(disk.w), disk.w) && PrivateSame(old(disk.w), disk.w)
    ensures OnlySaw(old(disk.w), disk.w)
    ensures r.Success? ==>
              && (a != w0.env.contested ==> r.value.0 == At(disk.w.names, a))
              && (b != w0.env.contested ==> r.value.1 == At(disk.w.names, b))
              && disk.w.history == old(disk.w).history + [Saw(a, r.value.0), Saw(b, r.value.1)]
    ensures Calm(old(disk.w)) ==> r.Success? && Calm(disk.w)
    ensures !disk.w.env.foreign ==> disk.w.names == old(disk.w).names && disk.w.survivors == old(disk.w).survivors
    ensures !disk.w.env.foreign && r.Success? ==> r.value == (At(disk.w.names, a), At(disk.w.names, b))
  {
    ghost var w1 := disk.w;
    var atA :- Look(disk, w0, a, b, a, a, {});
    ghost var w2 := disk.w;
    var atB := Look(disk, w0, a, b, a, b, {});
    assert PrivateSame(w1, w2) && PrivateSame(w2, disk.w);
    if atB.Failure? {
      return Failure(atB.error);
    }
    return Success((atA, atB.value));
  }

  /** The operation's own step, and a name seen after it as it should be. */
  ghost predicate Committed(w: World, v: World, step: Event, b: Path, f: Option<File>) {
    exists i: nat, j: nat ::
      |w.history| <= i < j < |v.history| && v.history[i] == step && v.history[j] == Saw(b, f)
  }

  lemma CommittedNow(w0: World, w1: World, w2: World, v: World, step: Event, a: Path, fa: Option<File>, b: Path, fb: Option<File>)
    requires w0.history <= w1.history && w2.history == w1.history + [step]
    requires v.history == w2.history + [Saw(a, fa), Saw(b, fb)]
    ensures Committed(w0, v, step, a, fa) && Committed(w0, v, step, b, fb)
  {
    var i := |w1.history|;
    assert v.history[i] == step && v.history[i + 1] == Saw(a, fa) && v.history[i + 2] == Saw(b, fb);
  }

  /** Whatever these steps did besides looking came right after these looks. */
  ghost predicate ActedAfter(w: World, v: World, looks: seq<Event>) {
    && w.history <= v.history
    && forall i :: |w.history| <= i < |v.history| && !v.history[i].Saw? ==>
         i == |w.history| + |looks| && v.history[|w.history|..i] == looks
  }

  /** Looks that came before them come before the rest. */
  lemma ActedAfterMore(w: World, w1: World, v: World, first: seq<Event>, looks: seq<Event>)
    requires w1.history == w.history + first && ActedAfter(w1, v, looks)
    requires forall e :: e in first ==> e.Saw?
    ensures ActedAfter(w, v, first + looks)
  {
    forall i | |w.history| <= i < |w1.history|
      ensures v.history[i].Saw?
    {
      assert v.history[i] == w1.history[i] == first[i - |w.history|];
      assert first[i - |w.history|] in first;
    }
    forall i | |w.history| <= i < |v.history| && !v.history[i].Saw?
      ensures i == |w.history| + |first + looks| && v.history[|w.history|..i] == first + looks
    {
      assert v.history[|w.history|..i] == w1.history[|w.history|..] + v.history[|w1.history|..i];
    }
  }

  // ----- move --------------------------------------------------------------

  /** move_noreplace_exact, whichever of the two names writers act on */
  method MoveNoreplaceExact(disk: Disk, source: Path, destination: Path, expected: FileToken) returns (r: Result<FileToken>)
    requires Valid(disk.w) && disk.w.env.contested in {source, destination} && source != destination
    requires Drawn(source, disk.w.draws) && Drawn(destination, disk.w.draws)
    modifies disk
    ensures Keeping(old(disk.w), disk.w, source, destination, source)
    ensures r.Success? ==>
              && Committed(old(disk.w), disk.w, Renamed(source, destination, expected), source, None)
              && Committed(old(disk.w), disk.w, Renamed(source, destination, expected), destination, Some(expected))
              && (if source == disk.w.env.contested then At(disk.w.names, destination) == Some(expected)
                  else source !in disk.w.names)
    ensures r.Success? && !disk.w.env.foreign ==> disk.w.survivors == {disk.w.names}
    ensures !disk.w.env.foreign ==>
              disk.w.names == old(disk.w).names || disk.w.names == Apply(old(disk.w).names, Rename(source, destination))
    ensures Calm(old(disk.w)) ==>
              (r.Success? <==> At(old(disk.w).names, source) == Some(expected) && destination !in old(disk.w).names)
  {
    ghost var w0 := disk.w;
    var observed :- Look(disk, w0, source, destination, source, source, {});
    if observed != Some(expected) {
      return Failure(Refused);
    }
    ghost var w1 := disk.w;
    ghost var moved;
    var boundary;
    boundary, moved := disk.RenameNoReplace(source, destination);
    KeepingMoves(w0, w1, disk.w, source, destination, source, source, destination, moved, {});
    ghost var w2 := disk.w;
    var after :- LookBoth(disk, w0, source, destination);
    if after == (None, Some(expected)) {
      if boundary.Failure? {
        return Failure(boundary.error);
      }
      assert moved == Some(expected);
      CommittedNow(w0, w1, w2, disk.w, Renamed(source, destination, expected), source, None, destination, Some(expected));
      return Success(expected);
    }
    return Failure(if boundary.Failure? then boundary.error else Refused);
  }

  // ----- exchange ----------------------------------------------------------

  lemma SwapTwice(n: Names, a: Path, b: Path)
    requires a != b
    ensures Apply(Apply(n, Swap(a, b)), Swap(a, b)) == n
  {
  }

  /** The check, the exchange and the recovery of exchange_exact (Unix),
      whichever of the two names writers act on. */
  method ExchangeExact(disk: Disk, source: Path, destination: Path, expectedSource: FileToken, expectedDestination: FileToken)
    returns (r: Result<FileToken>)
    requires Valid(disk.w) && disk.w.env.contested in {source, destination} && source != destination
    requires Drawn(source, disk.w.draws) && Drawn(destination, disk.w.draws)
    modifies disk
    ensures Keeping(old(disk.w), disk.w, source, destination, source)
    ensures r.Success? ==>
              var step := Swapped(source, destination, expectedSource, expectedDestination);
              && Committed(old(disk.w), disk.w, step, source, Some(expectedDestination))
              && Committed(old(disk.w), disk.w, step, destination, Some(expectedSource))
              && (if source == disk.w.env.contested then At(disk.w.names, destination) == Some(expectedSource)
                  else At(disk.w.names, source) == Some(expectedDestination))
    ensures r.Success? && !disk.w.env.foreign ==> disk.w.survivors == {disk.w.names}
    ensures !disk.w.env.foreign ==>
              disk.w.names == old(disk.w).names || disk.w.names == Apply(old(disk.w).names, Swap(source, destination))
    ensures Calm(old(disk.w)) ==>
              && (r.Success? <==> At(old(disk.w).names, source) == Some(expectedSource)
                                  && At(old(disk.w).names, destination) == Some(expectedDestination))
              && (r.Failure? ==> disk.w.names == old(disk.w).names)
  {
    ghost var w0 := disk.w;
    var before :- LookBoth(disk, w0, source, destination);
    if before != (Some(expectedSource), Some(expectedDestination)) {
      return Failure(Refused);
    }
    ghost var w1 := disk.w;
    ghost var swapped;
    var boundary;
    boundary, swapped := disk.Exchange(source, destination);
    KeepingSwaps(w0, w1, disk.w, source, destination, swapped);
    ghost var w2 := disk.w;
    SwapTwice(w0.names, source, destination);
    r := AfterExchange(disk, w0, source, destination, expectedSource, expectedDestination, boundary);
    if r.Success? {
      assert swapped == Some((expectedSource, expectedDestination));
      CommittedNow(w0, w1, w2, disk.w, Swapped(source, destination, expectedSource, expectedDestination),
                   source, Some(expectedDestination), destination, Some(expectedSource));
    }
  }

  /** An exchange back only follows two equal looks at both names, which found
      one expected operand where the exchange was to put it. */
  ghost predicate SwappedBackOnEvidence(w: World, v: World, source: Path, destination: Path,
                                        expectedSource: FileToken, expectedDestination: FileToken)
  {
    w.history <= v.history
    && (OnlySaw(w, v) || exists seen: (Option<FileToken>, Option<FileToken>) ::
      && (seen.0 == Some(expectedDestination) || seen.1 == Some(expectedSource))
      && ActedAfter(w, v, BothLooks(source, destination, seen) + BothLooks(source, destination, seen)))
  }

  /** exchange_exact after its exchange: it succeeds only for the exact swap, and
      otherwise, when one expected operand proves that the exchange took place
      and nobody interferes any more, both actual operands go back. */
  method AfterExchange(disk: Disk, ghost w0: World, source: Path, destination: Path, expectedSource: FileToken,
                       expectedDestination: FileToken, boundary: Result<()>)
    returns (r: Result<FileToken>)
    requires Keeping(w0, disk.w, source, destination, source) && w0.env.contested in {source, destination} && source != destination
    requires Drawn(source, disk.w.draws) && Drawn(destination, disk.w.draws)
    modifies disk
    ensures Keeping(w0, disk.w, source, destination, source) && Onward(old(disk.w), disk.w)
    ensures r.Success? ==>
              && boundary.Success? && PrivateSame(old(disk.w), disk.w)
              && (source != w0.env.contested ==> At(disk.w.names, source) == Some(expectedDestination))
              && (destination != w0.env.contested ==> At(disk.w.names, destination) == Some(expectedSource))
              && disk.w.history
                 == old(disk.w).history + [Saw(source, Some(expectedDestination)), Saw(destination, Some(expectedSource))]
    ensures !disk.w.env.foreign ==>
              disk.w.names == old(disk.w).names || disk.w.names == Apply(old(disk.w).names, Swap(source, destination))
    ensures !disk.w.env.foreign && r.Success? ==>
              disk.w.names == old(disk.w).names && disk.w.survivors == old(disk.w).survivors
    ensures SwappedBackOnEvidence(old(disk.w), disk.w, source, destination, expectedSource, expectedDestination)
    ensures Calm(old(disk.w)) ==>
              var exact := At(old(disk.w).names, source) == Some(expectedDestination)
                           && At(old(disk.w).names, destination) == Some(expectedSource);
              && (r.Success? <==> boundary.Success? && exact)
              && (r.Failure? && source in old(disk.w).names && destination in old(disk.w).names
                  && (old(disk.w).names[source] == expectedDestination || old(disk.w).names[destination] == expectedSource)
                  && !(old(disk.w).names[source] == expectedSource
                       && old(disk.w).names[destination] == expectedDestination) ==>
                    disk.w.names == Apply(old(disk.w).names, Swap(source, destination)))
              && (At(old(disk.w).names, source) != Some(expectedDestination)
                  && At(old(disk.w).names, destination) != Some(expectedSource) ==>
                    disk.w.names == old(disk.w).names)
  {
    ghost var w1 := disk.w;
    var actual :- LookBoth(disk, w0, source, destination);
    ghost var w2 := disk.w;
    if boundary.Success? && actual == (Some(expectedDestination), Some(expectedSource)) {
      return Success(expectedSource);
    }
    if boundary.Failure? && actual == (Some(expectedSource), Some(expectedDestination)) {
      return Failure(boundary.error);
    }
    if actual.0 == Some(expectedDestination) || actual.1 == Some(expectedSource) {
      RestoreOperands(disk, w0, source, destination, actual);
      ActedAfterMore(w1, w2, disk.w, BothLooks(source, destination, actual), BothLooks(source, destination, actual));
    }
    return Failure(Refused);
  }

  function BothLooks(a: Path, b: Path, seen: (Option<FileToken>, Option<FileToken>)): seq<Event> {
    [Saw(a, seen.0), Saw(b, seen.1)]
  }

  /** Exchange the operands back unless one of them changed again; the caller
      fails in any case. */
  method RestoreOperands(disk: Disk, ghost w0: World, source: Path, destination: Path,
                         actual: (Option<FileToken>, Option<FileToken>))
    requires Keeping(w0, disk.w, source, destination, source) && w0.env.contested in {source, destination} && source != destination
    requires Drawn(source, disk.w.draws) && Drawn(destination, disk.w.draws)
    modifies disk
    ensures Keeping(w0, disk.w, source, destination, source) && Onward(old(disk.w), disk.w)
    ensures ActedAfter(old(disk.w), disk.w, BothLooks(source, destination, actual))
    ensures !disk.w.env.foreign ==>
              disk.w.names == old(disk.w).names || disk.w.names == Apply(old(disk.w).names, Swap(source, destination))
    ensures (Calm(old(disk.w)) && source in old(disk.w).names && destination in old(disk.w).names
             && actual == (At(old(disk.w).names, source), At(old(disk.w).names, destination)))
            ==> disk.w.names == Apply(old(disk.w).names, Swap(source, destination))
  {
    ghost var w1 := disk.w;
    var again := LookBoth(disk, w0, source, destination);
    if again.Failure? || again.value != actual {
      return;
    }
    ghost var w2 := disk.w;
    SwapOperandsBack(disk, w0, source, destination);
    ActedAfterMore(w1, w2, disk.w, BothLooks(source, destination, actual), []);
    assert BothLooks(source, destination, actual) + [] == BothLooks(source, destination, actual);
  }

  method SwapOperandsBack(disk: Disk, ghost w0: World, source: Path, destination: Path)
    requires Keeping(w0, disk.w, source, destination, source) && w0.env.contested in {source, destination} && source != destination
    requires Drawn(source, disk.w.draws) && Drawn(destination, disk.w.draws)
    modifies disk
    ensures Keeping(w0, disk.w, source, destination, source) && Onward(old(disk.w), disk.w)
    ensures ActedAfter(old(disk.w), disk.w, [])
    ensures !disk.w.env.foreign ==>
              disk.w.names == old(disk.w).names || disk.w.names == Apply(old(disk.w).names, Swap(source, destination))
    ensures Calm(old(disk.w)) && source in old(disk.w).names && destination in old(disk.w).names ==>
              disk.w.names == Apply(old(disk.w).names, Swap(source, destination))
  {
    ghost var w1 := disk.w;
    ghost var swapped;
    var restoration;
    restoration, swapped := disk.Exchange(source, destination);
    KeepingSwaps(w0, w1, disk.w, source, destination, swapped);
    ghost var w2 := disk.w;
    var restored := LookBoth(disk, w0, source, destination);
    OneStepThenLooks(w1, w2, disk.w);
  }

  lemma OneStepThenLooks(w: World, w1: World, v: World)
    requires w.history <= w1.history && |w1.history| <= |w.history| + 1
    requires w1.history <= v.history && OnlySaw(w1, v)
    ensures ActedAfter(w, v, [])
  {
    assert v.history[|w.history|..|w.history|] == [];
  }

  // ----- replace with displaced recovery -----------------------------------

  datatype Operands = Operands(replacement: Option<FileToken>, destination: Option<FileToken>, displaced: Option<FileToken>)

  function OperandsAt(n: Names, a: Path, b: Path, c: Path): Operands {
    Operands(At(n, a), At(n, b), At(n, c))
  }

  /** The readings that gave `o`, of all three names. */
  function Sights(o: Operands, a: Path, b: Path, c: Path): seq<Event> {
    [Saw(a, o.replacement), Saw(b, o.destination), Saw(c, o.displaced)]
  }

  /** A step to undo the replacement only follows two equal looks at the three
      names, which found it half done, or done with one expected operand. */
  ghost predicate UndoneOnEvidence(w: World, v: World, a: Path, b: Path, c: Path,
                                   expectedReplacement: FileToken, expectedDestination: FileToken)
  {
    w.history <= v.history
    && (OnlySaw(w, v) || exists o: Operands ::
      && o.displaced.Some?
      && (if o.destination.None? then o.replacement == Some(expectedReplacement)
          else o.replacement.None?
               && (o.destination == Some(expectedReplacement) || o.destination == Some(expectedDestination)
                   || o.displaced == Some(expectedDestination)))
      && ActedAfter(w, v, Sights(o, a, b, c) + Sights(o, a, b, c)))
  }

  ghost predicate ThreeNames(w: World, a: Path, b: Path, c: Path) {
    && a != b && b != c && a != c && w.env.contested in {a, b, c}
    && Drawn(a, w.draws) && Drawn(b, w.draws) && Drawn(c, w.draws)
  }

  method LookThree(disk: Disk, ghost w0: World, a: Path, b: Path, c: Path, ghost lost: set<File>) returns (r: Result<Operands>)
    requires KeepingBut(w0, disk.w, a, b, c, lost) && ThreeNames(w0, a, b, c)
    modifies disk
    ensures KeepingBut(w0, disk.w, a, b, c, lost) && Onward(old(disk.w), disk.w) && PrivateSame(old(disk.w), disk.w)
    ensures OnlySaw(old(disk.w), disk.w)
    ensures r.Success? ==>
              && (a != w0.env.contested ==> r.value.replacement == At(disk.w.names, a))
              && (b != w0.env.contested ==> r.value.destination == At(disk.w.names, b))
              && (c != w0.env.contested ==> r.value.displaced == At(disk.w.names, c))
              && disk.w.history == old(disk.w).history + Sights(r.value, a, b, c)
    ensures Calm(old(disk.w)) ==> r == Success(OperandsAt(old(disk.w).names, a, b, c)) && Calm(disk.w)
    ensures !disk.w.env.foreign ==> disk.w.names == old(disk.w).names && disk.w.survivors == old(disk.w).survivors
    ensures !disk.w.env.foreign && r.Success? ==> r.value == OperandsAt(old(disk.w).names, a, b, c)
  {
    ghost var w1 := disk.w;
    var atA :- Look(disk, w0, a, b, c, a, lost);
    ghost var w2 := disk.w;
    var atB :- Look(disk, w0, a, b, c, b, lost);
    ghost var w3 := disk.w;
    assert PrivateSame(w1, w3);
    var atC :- Look(disk, w0, a, b, c, c, lost);
    assert PrivateSame(w1, disk.w);
    return Success(Operands(atA, atB, atC));
  }

  /** What the replacement leaves when it only displaced its target. */
  predicate OnlyDisplacedEvident(o: Operands, expectedReplacement: FileToken) {
    o.destination.None? && o.displaced.Some? && o.replacement == Some(expectedReplacement)
  }

  /** What it leaves when it took place, going by one expected operand. */
  predicate ReplacedEvident(o: Operands, expectedReplacement: FileToken, expectedDestination: FileToken) {
    && o.replacement.None? && o.destination.Some? && o.displaced.Some?
    && (o.destination in {Some(expectedReplacement), Some(expectedDestination)} || o.displaced == Some(expectedDestination))
  }

  /** A replacement overwrote the name writers act on. */
  ghost predicate Overwrote(w: World, v: World) {
    exists i :: |w.history| <= i < |v.history| && OverContested(v.history[i], w.env.contested)
  }

  predicate OverContested(e: Event, contested: Path) {
    match e
    case Replaced(_, _, displaced, _, _) => displaced == contested
    case OnlyDisplaced(_, displaced, _) => displaced == contested
    case _ => false
  }

  /** What was given up: nothing, unless a replacement ran over the contested
      name, which then was the displaced or the replacement operand. */
  ghost predicate GivenUp(w: World, v: World, a: Path, c: Path, lost: Option<File>) {
    lost.Some? ==> w.env.foreign && w.env.contested in {a, c} && Overwrote(w, v)
  }

  lemma OverwroteNow(w0: World, w: World, v: World, u: World, step: Event)
    requires w0.history <= w.history && v.history == w.history + [step] && v.history <= u.history
    requires OverContested(step, w0.env.contested)
    ensures Overwrote(w0, u)
  {
    assert u.history[|w.history|] == v.history[|w.history|] == step;
  }

  lemma OverwroteSince(w0: World, w: World, v: World)
    requires w0.history <= w.history && w.env == w0.env && Overwrote(w, v)
    ensures Overwrote(w0, v)
  {
  }

  /** replace_with_displaced_exact (Windows), whichever operand writers act on.
      At most one file is given up, `lost`: one they put under the displaced name
      of the replacement, or of its undoing, after the look there. */
  method ReplaceWithDisplacedExact(disk: Disk, replacement: Path, destination: Path, displaced: Path,
                                   expectedReplacement: FileToken, expectedDestination: FileToken)
    returns (r: Result<()>, ghost lost: Option<File>)
    requires Valid(disk.w) && ThreeNames(disk.w, replacement, destination, displaced)
    modifies disk
    ensures KeepingBut(old(disk.w), disk.w, replacement, destination, displaced, Gone(lost))
    ensures GivenUp(old(disk.w), disk.w, replacement, displaced, lost)
    ensures r.Success? ==>
              var step := Replaced(replacement, destination, displaced, expectedReplacement, expectedDestination);
              && Committed(old(disk.w), disk.w, step, replacement, None)
              && Committed(old(disk.w), disk.w, step, destination, Some(expectedReplacement))
              && Committed(old(disk.w), disk.w, step, displaced, Some(expectedDestination))
              && (replacement != disk.w.env.contested ==> replacement !in disk.w.names)
              && (displaced != disk.w.env.contested ==> At(disk.w.names, displaced) == Some(expectedDestination))
    ensures Calm(old(disk.w)) ==>
              && (r.Success? <==> OperandsAt(old(disk.w).names, replacement, destination, displaced)
                                  == Operands(Some(expectedReplacement), Some(expectedDestination), None))
              && (r.Failure? ==> disk.w.names == old(disk.w).names)
  {
    ghost var w0 := disk.w;
    lost := None;
    var before := LookThree(disk, w0, replacement, destination, displaced, {});
    if before.Failure? {
      return Failure(before.error), None;
    }
    if before.value != Operands(Some(expectedReplacement), Some(expectedDestination), None) {
      return Failure(Refused), None;
    }
    r, lost := ReplaceLooked(disk, w0, replacement, destination, displaced, expectedReplacement, expectedDestination);
  }

  /** The replacement, once all three operands were as expected. */
  method ReplaceLooked(disk: Disk, ghost w0: World, replacement: Path, destination: Path, displaced: Path,
                       expectedReplacement: FileToken, expectedDestination: FileToken)
    returns (r: Result<()>, ghost lost: Option<File>)
    requires KeepingBut(w0, disk.w, replacement, destination, displaced, {})
    requires ThreeNames(w0, replacement, destination, displaced)
    requires Drawn(replacement, disk.w.draws) && Drawn(destination, disk.w.draws) && Drawn(displaced, disk.w.draws)
    requires replacement != w0.env.contested ==> At(disk.w.names, replacement) == Some(expectedReplacement)
    requires destination != w0.env.contested ==> At(disk.w.names, destination) == Some(expectedDestination)
    requires displaced != w0.env.contested ==> displaced !in disk.w.names
    requires !w0.env.foreign ==> OperandsAt(disk.w.names, replacement, destination, displaced)
                                 == Operands(Some(expectedReplacement), Some(expectedDestination), None)
    modifies disk
    ensures KeepingBut(w0, disk.w, replacement, destination, displaced, Gone(lost))
    ensures GivenUp(w0, disk.w, replacement, displaced, lost)
    ensures r.Success? ==>
              var step := Replaced(replacement, destination, displaced, expectedReplacement, expectedDestination);
              && Committed(w0, disk.w, step, replacement, None)
              && Committed(w0, disk.w, step, destination, Some(expectedReplacement))
              && Committed(w0, disk.w, step, displaced, Some(expectedDestination))
              && (replacement != disk.w.env.contested ==> replacement !in disk.w.names)
              && (displaced != disk.w.env.contested ==> At(disk.w.names, displaced) == Some(expectedDestination))
    ensures Calm(old(disk.w)) ==> r.Success?
  {
    ghost var w1 := disk.w;
    ghost var o, forward;
    var boundary;
    boundary, o, forward := disk.ReplaceWithDisplaced(replacement, destination, displaced);
    KeepingReplaces(w0, w1, disk.w, replacement, destination, displaced, replacement, displaced, o, {}, forward);
    ghost var w2 := disk.w;
    ghost var undone;
    r, undone := AfterReplace(disk, w0, replacement, destination, displaced, expectedReplacement, expectedDestination,
                              boundary, Gone(forward));
    lost := if forward.Some? then forward else undone;
    if forward.Some? {
      assert displaced == w0.env.contested && !o.Untouched?;
      OverwroteNow(w0, w1, w2, disk.w, w2.history[|w1.history|]);
    }
    if undone.Some? {
      OverwroteSince(w0, w2, disk.w);
    }
    if r.Success? {
      assert o == FullyReplaced(expectedReplacement, expectedDestination);
      ReplacementCommitted(w0, w1, w2, disk.w, replacement, destination, displaced, expectedReplacement, expectedDestination);
    }
  }

  lemma ReplacementCommitted(w0: World, w1: World, w2: World, v: World, a: Path, b: Path, c: Path, placed: File, removed: File)
    requires w0.history <= w1.history && w2.history == w1.history + [Replaced(a, b, c, placed, removed)]
    requires v.history == w2.history + Sights(Operands(None, Some(placed), Some(removed)), a, b, c)
    ensures
      var step := Replaced(a, b, c, placed, removed);
      && Committed(w0, v, step, a, None) && Committed(w0, v, step, b, Some(placed))
      && Committed(w0, v, step, c, Some(removed))
  {
    var i := |w1.history|;
    assert v.history[i] == w2.history[i] && v.history[i + 1] == Saw(a, None);
    assert v.history[i + 2] == Saw(b, Some(placed)) && v.history[i + 3] == Saw(c, Some(removed));
  }

  /** replace_with_displaced_exact after ReplaceFileW: it succeeds only for the
      exact replacement, and when nobody interferes any more, a target that was
      only displaced is moved back and a replacement of the wrong file is undone. */
  method AfterReplace(disk: Disk, ghost w0: World, replacement: Path, destination: Path, displaced: Path,
                      expectedReplacement: FileToken, expectedDestination: FileToken, boundary: Result<()>, ghost before: set<File>)
    returns (r: Result<()>, ghost undone: Option<File>)
    requires KeepingBut(w0, disk.w, replacement, destination, displaced, before)
    requires ThreeNames(w0, replacement, destination, displaced)
    modifies disk
    ensures KeepingBut(w0, disk.w, replacement, destination, displaced, before + Gone(undone)) && Onward(old(disk.w), disk.w)
    ensures undone.Some? ==> r.Failure? && w0.env.foreign && replacement == w0.env.contested && Overwrote(old(disk.w), disk.w)
    ensures r.Success? ==>
              && boundary.Success? && PrivateSame(old(disk.w), disk.w)
              && (replacement != w0.env.contested ==> replacement !in disk.w.names)
              && (destination != w0.env.contested ==> At(disk.w.names, destination) == Some(expectedReplacement))
              && (displaced != w0.env.contested ==> At(disk.w.names, displaced) == Some(expectedDestination))
              && disk.w.history == old(disk.w).history
                                   + Sights(Operands(None, Some(expectedReplacement), Some(expectedDestination)),
                                            replacement, destination, displaced)
    ensures Calm(old(disk.w)) ==>
              var n := old(disk.w).names;
              var o := OperandsAt(n, replacement, destination, displaced);
              && (r.Success? <==> boundary.Success? && o == Operands(None, Some(expectedReplacement), Some(expectedDestination)))
              && disk.w.names == if r.Success? then n
                                 else if o.destination.None? && o.displaced.Some? && o.replacement == Some(expectedReplacement)
                                 then Apply(n, Rename(displaced, destination))
                                 else if && o.replacement.None? && o.destination.Some? && o.displaced.Some?
                                         && (|| o.destination == Some(expectedReplacement)
                                             || o.destination == Some(expectedDestination)
                                             || o.displaced == Some(expectedDestination))
                                 then Apply(n, Replace(displaced, destination, replacement))
                                 else n
    ensures UndoneOnEvidence(old(disk.w), disk.w, replacement, destination, displaced, expectedReplacement, expectedDestination)
  {
    undone := None;
    assert before + Gone(undone) == before;
    ghost var w1 := disk.w;
    var actual := LookThree(disk, w0, replacement, destination, displaced, before);
    if actual.Failure? {
      r := Failure(actual.error);
    } else if boundary.Success? && actual.value == Operands(None, Some(expectedReplacement), Some(expectedDestination)) {
      r := Success(());
    } else if boundary.Failure? && actual.value == Operands(Some(expectedReplacement), Some(expectedDestination), None) {
      r := Failure(boundary.error);
    } else {
      r := Failure(Refused);
      ghost var w2 := disk.w;
      undone := Undo(disk, w0, replacement, destination, displaced, actual.value, expectedReplacement, expectedDestination, before);
      UndoneAfterLooks(w1, w2, disk.w, replacement, destination, displaced, actual.value, expectedReplacement, expectedDestination);
      if undone.Some? {
        OverwroteSince(w1, w2, disk.w);
      }
    }
  }

  lemma UndoneAfterLooks(w: World, w1: World, v: World, a: Path, b: Path, c: Path, o: Operands,
                         expectedReplacement: FileToken, expectedDestination: FileToken)
    requires w1.history == w.history + Sights(o, a, b, c) && w1.history <= v.history && ActedAfter(w1, v, Sights(o, a, b, c))
    requires OnlySaw(w1, v) || OnlyDisplacedEvident(o, expectedReplacement)
             || ReplacedEvident(o, expectedReplacement, expectedDestination)
    ensures UndoneOnEvidence(w, v, a, b, c, expectedReplacement, expectedDestination)
  {
    ActedAfterMore(w, w1, v, Sights(o, a, b, c), Sights(o, a, b, c));
    if OnlySaw(w1, v) {
      forall i | |w.history| <= i < |v.history|
        ensures v.history[i].Saw?
      {
        assert i < |w1.history| ==> v.history[i] == w1.history[i];
      }
    }
  }

  /** Which of the two recoveries the operands call for, if any. */
  method Undo(disk: Disk, ghost w0: World, replacement: Path, destination: Path, displaced: Path, actual: Operands,
              expectedReplacement: FileToken, expectedDestination: FileToken, ghost before: set<File>)
    returns (ghost undone: Option<File>)
    requires KeepingBut(w0, disk.w, replacement, destination, displaced, before)
    requires ThreeNames(w0, replacement, destination, displaced)
    modifies disk
    ensures KeepingBut(w0, disk.w, replacement, destination, displaced, before + Gone(undone)) && Onward(old(disk.w), disk.w)
    ensures undone.Some? ==> w0.env.foreign && replacement == w0.env.contested && Overwrote(old(disk.w), disk.w)
    ensures Calm(old(disk.w)) && actual == OperandsAt(old(disk.w).names, replacement, destination, displaced) ==>
              var n := old(disk.w).names;
              && (OnlyDisplacedEvident(actual, expectedReplacement) ==> disk.w.names == Apply(n, Rename(displaced, destination)))
              && (ReplacedEvident(actual, expectedReplacement, expectedDestination) ==>
                    disk.w.names == Apply(n, Replace(displaced, destination, replacement)))
              && (!OnlyDisplacedEvident(actual, expectedReplacement)
                  && !ReplacedEvident(actual, expectedReplacement, expectedDestination) ==>
                    disk.w.names == n)
    ensures ActedAfter(old(disk.w), disk.w, Sights(actual, replacement, destination, displaced))
    ensures || OnlySaw(old(disk.w), disk.w) || OnlyDisplacedEvident(actual, expectedReplacement)
            || ReplacedEvident(actual, expectedReplacement, expectedDestination)
  {
    undone := None;
    assert before + Gone(undone) == before;
    if OnlyDisplacedEvident(actual, expectedReplacement) {
      MoveDisplacedBack(disk, w0, replacement, destination, displaced, actual, before);
    } else if ReplacedEvident(actual, expectedReplacement, expectedDestination) {
      undone := ReplaceBack(disk, w0, replacement, destination, displaced, actual, before);
    }
  }

  /** Move the displaced file back without replacing anyone, unless an operand
      changed again; the caller fails in any case. */
  method MoveDisplacedBack(disk: Disk, ghost w0: World, replacement: Path, destination: Path, displaced: Path, actual: Operands,
                           ghost before: set<File>)
    requires KeepingBut(w0, disk.w, replacement, destination, displaced, before)
    requires ThreeNames(w0, replacement, destination, displaced)
    modifies disk
    ensures KeepingBut(w0, disk.w, replacement, destination, displaced, before) && Onward(old(disk.w), disk.w)
    ensures ActedAfter(old(disk.w), disk.w, Sights(actual, replacement, destination, displaced))
    ensures (Calm(old(disk.w)) && actual == OperandsAt(old(disk.w).names, replacement, destination, displaced)
             && actual.destination.None? && actual.displaced.Some?)
            ==> disk.w.names == Apply(old(disk.w).names, Rename(displaced, destination))
  {
    ghost var w := disk.w;
    var again := LookThree(disk, w0, replacement, destination, displaced, before);
    if again.Failure? || again.value != actual {
      return;
    }
    ghost var w1 := disk.w;
    ghost var moved;
    var restoration;
    restoration, moved := disk.RenameNoReplace(displaced, destination);
    KeepingMoves(w0, w1, disk.w, replacement, destination, displaced, displaced, destination, moved, before);
    ghost var w2 := disk.w;
    var restored := LookThree(disk, w0, replacement, destination, displaced, before);
    OneStepThenLooks(w1, w2, disk.w);
    ActedAfterMore(w, w1, disk.w, Sights(actual, replacement, destination, displaced), []);
    assert Sights(actual, replacement, destination, displaced) + [] == Sights(actual, replacement, destination, displaced);
  }

  /** Replace back, unless an operand changed again; the caller fails in any case. */
  method ReplaceBack(disk: Disk, ghost w0: World, replacement: Path, destination: Path, displaced: Path, actual: Operands,
                     ghost before: set<File>)
    returns (ghost undone: Option<File>)
    requires KeepingBut(w0, disk.w, replacement, destination, displaced, before)
    requires ThreeNames(w0, replacement, destination, displaced) && actual.replacement.None?
    modifies disk
    ensures KeepingBut(w0, disk.w, replacement, destination, displaced, before + Gone(undone)) && Onward(old(disk.w), disk.w)
    ensures undone.Some? ==> w0.env.foreign && replacement == w0.env.contested && Overwrote(old(disk.w), disk.w)
    ensures ActedAfter(old(disk.w), disk.w, Sights(actual, replacement, destination, displaced))
    ensures (Calm(old(disk.w)) && actual == OperandsAt(old(disk.w).names, replacement, destination, displaced)
             && actual.destination.Some? && actual.displaced.Some?)
            ==> disk.w.names == Apply(old(disk.w).names, Replace(displaced, destination, replacement))
  {
    undone := None;
    assert before + Gone(undone) == before;
    ghost var w := disk.w;
    var again := LookThree(disk, w0, replacement, destination, displaced, before);
    if again.Failure? || again.value != actual {
      return;
    }
    ghost var w1 := disk.w;
    undone := ReplaceBackNow(disk, w0, replacement, destination, displaced, before);
    ActedAfterMore(w, w1, disk.w, Sights(actual, replacement, destination, displaced), []);
    assert Sights(actual, replacement, destination, displaced) + [] == Sights(actual, replacement, destination, displaced);
    if undone.Some? {
      OverwroteSince(w, w1, disk.w);
    }
  }

  /** The step of the undoing, and the look after it. */
  method ReplaceBackNow(disk: Disk, ghost w0: World, replacement: Path, destination: Path, displaced: Path, ghost before: set<File>)
    returns (ghost undone: Option<File>)
    requires KeepingBut(w0, disk.w, replacement, destination, displaced, before)
    requires ThreeNames(w0, replacement, destination, displaced)
    requires replacement != w0.env.contested || !w0.env.foreign ==> replacement !in disk.w.names
    modifies disk
    ensures KeepingBut(w0, disk.w, replacement, destination, displaced, before + Gone(undone)) && Onward(old(disk.w), disk.w)
    ensures undone.Some? ==> w0.env.foreign && replacement == w0.env.contested && Overwrote(old(disk.w), disk.w)
    ensures ActedAfter(old(disk.w), disk.w, [])
    ensures Calm(old(disk.w)) && destination in old(disk.w).names && displaced in old(disk.w).names ==>
              disk.w.names == Apply(old(disk.w).names, Replace(displaced, destination, replacement))
  {
    ghost var w1 := disk.w;
    ghost var o;
    var restoration;
    restoration, o, undone := disk.ReplaceWithDisplaced(displaced, destination, replacement);
    KeepingReplaces(w0, w1, disk.w, replacement, destination, displaced, displaced, replacement, o, before, undone);
    ghost var w2 := disk.w;
    var restored := LookThree(disk, w0, replacement, destination, displaced, before + Gone(undone));
    OneStepThenLooks(w1, w2, disk.w);
    if undone.Some? {
      assert replacement == w0.env.contested && !o.Untouched?;
      OverwroteNow(w1, w1, w2, disk.w, w2.history[|w1.history|]);
    }
  }

  /** A replacement and its undoing: the intruder is back at the destination and
      every operand is where it was. */
  lemma ReplaceBackRestores(n: Names, a: Path, b: Path, c: Path)
    requires a != b && b != c && a != c && a in n && b in n && c !in n
    ensures Apply(Apply(n, Replace(a, b, c)), Replace(c, b, a)) == n
    ensures Apply(Apply(n, Displace(b, c)), Rename(c, b)) == n
  {
  }
}
