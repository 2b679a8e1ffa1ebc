/** Writing log records (src/logging.rs): when a record pays for maintenance,
    and the bound on the directory over all runs of any fixed set of writers. */
module LogWriters {
  import opened Namespace
  import opened LogRetention

  /** maintenance_due */
  predicate MaintenanceDue(last: Option<nat>, now: nat, bytesSince: nat) {
    last.None? || bytesSince >= MAINTENANCE_BYTE_BUDGET || now >= last.value + MAINTENANCE_INTERVAL
  }

  /** The directory once the file `inode` under `path` grew by `bytes`; a file
      that lost its name grows unseen. */
  function Grown(files: seq<LogFile>, path: LogPath, inode: nat, bytes: nat): (r: seq<LogFile>)
    ensures |r| == |files|
    ensures forall i :: 0 <= i < |files| ==> r[i].path == files[i].path && r[i].inode == files[i].inode
    ensures forall i :: 0 <= i < |files| ==>
              r[i].size - files[i].size == if files[i].path == path && files[i].inode == inode then bytes else 0
  {
    if files == [] then []
    else
      [if files[0].path == path && files[0].inode == inode then files[0].(size := files[0].size + bytes) else files[0]]
      + Grown(files[1..], path, inode, bytes)
  }

  lemma {:induction false} GrownElsewhere(files: seq<LogFile>, path: LogPath, inode: nat, bytes: nat)
    requires forall f :: f in files ==> f.path != path
    ensures Grown(files, path, inode, bytes) == files
  {
    if files != [] {
      assert files[0] in files;
      assert forall f :: f in files[1..] ==> f in files;
      GrownElsewhere(files[1..], path, inode, bytes);
      assert files == [files[0]] + files[1..];
    }
  }

  lemma {:induction false} GrownTotal(files: seq<LogFile>, path: LogPath, inode: nat, bytes: nat)
    requires DistinctPaths(files)
    ensures Total(files) <= Total(Grown(files, path, inode, bytes)) <= Total(files) + bytes
  {
    if files != [] {
      assert Grown(files, path, inode, bytes)[1..] == Grown(files[1..], path, inode, bytes);
      if files[0].path == path {
        HeadDiffers(files);
        GrownElsewhere(files[1..], path, inode, bytes);
      } else {
        GrownTotal(files[1..], path, inode, bytes);
      }
    }
  }

  /** A record written to a listed file shows in the total, byte for byte. */
  lemma {:induction false} GrownExactly(files: seq<LogFile>, path: LogPath, inode: nat, bytes: nat)
    requires DistinctPaths(files) && exists f :: f in files && f.path == path && f.inode == inode
    ensures Total(Grown(files, path, inode, bytes)) == Total(files) + bytes
  {
    assert Grown(files, path, inode, bytes)[1..] == Grown(files[1..], path, inode, bytes);
    if files[0].path == path {
      HeadDiffers(files);
      GrownElsewhere(files[1..], path, inode, bytes);
    } else {
      var f :| f in files && f.path == path && f.inode == inode;
      assert f in files[1..];
      GrownExactly(files[1..], path, inode, bytes);
    }
  }

  /** Every listed file is still listed, and none shrank. */
  ghost predicate NothingLost(before: seq<LogFile>, after: seq<LogFile>) {
    && |before| <= |after|
    && forall i :: 0 <= i < |before| ==>
         after[i].path == before[i].path && after[i].inode == before[i].inode && after[i].size >= before[i].size
  }

  datatype DailyLogFile = DailyLogFile(date: int, inode: nat)

  /** Opening the current file adds at most an empty one. */
  ghost predicate Opened(before: seq<LogFile>, after: seq<LogFile>, today: int, inode: nat) {
    || after == before
    || ((forall f :: f in before ==> f.path != CurrentLog(today)) && after == before + [LogFile(CurrentLog(today), inode, 0)])
  }

  lemma AppendingLosesNothing(before: seq<LogFile>, existing: seq<LogFile>, today: int, inode: nat, bytes: nat)
    requires Opened(before, existing, today, inode)
    ensures NothingLost(before, Grown(existing, CurrentLog(today), inode, bytes))
  {
  }

  lemma AppendingStaysRecent(before: seq<LogFile>, existing: seq<LogFile>, today: int, inode: nat, bytes: nat)
    requires Opened(before, existing, today, inode) && NoneTooOld(before, today)
    ensures NoneTooOld(Grown(existing, CurrentLog(today), inode, bytes), today)
  {
    var after := Grown(existing, CurrentLog(today), inode, bytes);
    forall f | f in after
      ensures today - f.path.date < MAX_LOG_AGE_DAYS
    {
      var i :| 0 <= i < |after| && after[i] == f;
      assert existing[i] in existing;
    }
  }

  /** How many bytes a writer may have added since it last ran maintenance. */
  function Drift(bytesSince: nat): nat {
    if bytesSince < MAINTENANCE_BYTE_BUDGET then bytesSince else MAINTENANCE_BYTE_BUDGET - 1
  }

  /** What one record may do to the total: nothing but shrink it, bring it under
      the limit, or add within the writer's own budget. */
  ghost predicate WithinBudget(totalBefore: nat, totalAfter: nat, bytesBefore: nat, bytesAfter: nat) {
    || totalAfter <= MAX_LOG_BYTES
    || (totalAfter <= totalBefore && Drift(bytesBefore) <= Drift(bytesAfter))
    || totalAfter + Drift(bytesBefore) <= totalBefore + Drift(bytesAfter)
  }

  /** LogState: one writer, with its cached handle of the current file. */
  class LogState {
    var dailyFile: Option<DailyLogFile>
    var lastMaintenance: Option<nat>
    var bytesSinceMaintenance: nat

    constructor ()
      ensures dailyFile.None? && lastMaintenance.None? && bytesSinceMaintenance == 0
    {
      dailyFile := None;
      lastMaintenance := None;
      bytesSinceMaintenance := 0;
    }

    /** The open handle of the current file, created if need be. */
    method OpenDaily(dir: LogDirectory, today: int) returns (r: Result<()>)
      requires dir.Valid() && (dailyFile.Some? ==> dailyFile.value.date == today)
      modifies this`dailyFile, dir
      ensures dir.Valid() && Total(dir.files) == Total(old(dir.files)) && (!dir.faults ==> r.Success?)
      ensures r.Failure? ==> dir.files == old(dir.files)
      ensures r.Success? ==> dailyFile.Some? && dailyFile.value.date == today
      ensures r.Success? ==> Opened(old(dir.files), dir.files, today, dailyFile.value.inode)
      ensures r.Success? && old(dailyFile).Some? ==> dailyFile == old(dailyFile) && dir.files == old(dir.files)
      ensures r.Success? && old(dailyFile).None? ==>
                exists f :: f in dir.files && f.path.date == today && f.path == CurrentLog(today) && f.inode == dailyFile.value.inode
    {
      if dailyFile.Some? {
        return Success(());
      }
      var fails := dir.Fails();
      if fails {
        return Failure(OsError);
      }
      var path := CurrentLog(today);
      for i := 0 to |dir.files|
        invariant dir.files == old(dir.files) && dir.Valid() && dailyFile.None?
        invariant forall j :: 0 <= j < i ==> dir.files[j].path != path
      {
        if dir.files[i].path == path {
          dailyFile := Some(DailyLogFile(today, dir.files[i].inode));
          return Success(());
        }
      }
      dailyFile := Some(DailyLogFile(today, dir.nextInode));
      var created := LogFile(path, dir.nextInode, 0);
      TotalOfConcat(dir.files, [created]);
      assert Total([created]) == 0;
      dir.files := dir.files + [created];
      dir.nextInode := dir.nextInode + 1;
      return Success(());
    }

    /** write_all on the daily file: an error may follow a partial write. */
    method WriteAll(dir: LogDirectory, today: int, bytes: nat) returns (r: Result<()>)
      requires dir.Valid() && dailyFile.Some?
      modifies dir
      ensures dir.Valid() && Total(dir.files) <= Total(old(dir.files)) + bytes && (!dir.faults ==> r.Success?)
      ensures r.Success? ==> dir.files == Grown(old(dir.files), CurrentLog(today), dailyFile.value.inode, bytes)
    {
      var written: nat := *;
      var fails := dir.Fails();
      if !fails || written > bytes {
        written := bytes;
      }
      var path := CurrentLog(today);
      GrownTotal(dir.files, path, dailyFile.value.inode, written);
      ghost var before := dir.files;
      dir.files := Grown(dir.files, path, dailyFile.value.inode, written);
      forall f | f in dir.files
        ensures f.inode < dir.nextInode
      {
        var i :| 0 <= i < |dir.files| && dir.files[i] == f;
        assert before[i] in before;
      }
      return if fails then Failure(OsError) else Success(());
    }

    /** The write of append_log, once maintenance is done. */
    method WriteDaily(dir: LogDirectory, today: int, bytes: nat) returns (r: Result<()>, ghost before: seq<LogFile>)
      requires dir.Valid() && (dailyFile.Some? ==> dailyFile.value.date == today)
      modifies this`dailyFile, dir
      ensures dir.Valid() && Total(dir.files) <= Total(old(dir.files)) + bytes && (!dir.faults ==> r.Success?)
      ensures r.Success? ==>
                && dailyFile.Some? && dailyFile.value.date == today
                && Opened(old(dir.files), before, today, dailyFile.value.inode)
                && dir.files == Grown(before, CurrentLog(today), dailyFile.value.inode, bytes)
                && NothingLost(old(dir.files), dir.files)
                && (NoneTooOld(old(dir.files), today) ==> NoneTooOld(dir.files, today))
                && (old(dailyFile).Some? ==> dailyFile == old(dailyFile))
                && (old(dailyFile).None? ==> Total(dir.files) == Total(old(dir.files)) + bytes)
    {
      ghost var opening, listed := dailyFile.None?, dir.files;
      r := OpenDaily(dir, today);
      before := dir.files;
      if r.Success? {
        ghost var inode := dailyFile.value.inode;
        if opening {
          GrownExactly(before, CurrentLog(today), inode, bytes);
        }
        AppendingLosesNothing(listed, before, today, inode, bytes);
        if NoneTooOld(listed, today) {
          AppendingStaysRecent(listed, before, today, inode, bytes);
        }
        r := WriteAll(dir, today, bytes);
      }
    }

    /** append_log. A record that ran maintenance leaves the total under the
        limit whatever happens to the write itself. */
    method AppendLog(dir: LogDirectory, today: int, bytes: nat, runMaintenance: bool)
      returns (r: Result<()>, ghost maintained: seq<LogFile>, ghost before: seq<LogFile>)
      requires dir.Valid() && bytes <= MAX_LOG_BYTES
      modifies this`dailyFile, dir
      ensures dir.Valid() && (!dir.faults ==> r.Success?)
      ensures r.Success? ==>
                && (runMaintenance ==> Fits(maintained, bytes)) && (!runMaintenance ==> maintained == old(dir.files))
                && dailyFile.Some? && dailyFile.value.date == today
                && Opened(maintained, before, today, dailyFile.value.inode)
                && dir.files == Grown(before, CurrentLog(today), dailyFile.value.inode, bytes)
      ensures runMaintenance ==> Total(dir.files) <= MAX_LOG_BYTES || Total(dir.files) <= Total(old(dir.files))
      ensures runMaintenance && r.Success? ==> Total(dir.files) <= MAX_LOG_BYTES
      ensures Total(dir.files) <= Total(old(dir.files)) + bytes
      ensures runMaintenance && r.Success? ==> NoneTooOld(dir.files, today)
      ensures !runMaintenance && r.Success? ==> NothingLost(old(dir.files), dir.files)
      ensures r.Success? && old(dailyFile).Some? && old(dailyFile).value.date == today ==> dailyFile == old(dailyFile)
      ensures r.Success? && !(old(dailyFile).Some? && old(dailyFile).value.date == today) ==>
                Total(dir.files) == Total(maintained) + bytes
    {
      maintained, before := dir.files, dir.files;
      var fails := dir.Fails();
      if fails {
        return Failure(OsError), maintained, before;
      }
      if dailyFile.Some? && dailyFile.value.date != today {
        dailyFile := None;
      }
      if runMaintenance {
        var pruned := dir.RunLogMaintenance(today, bytes);
        if pruned.Failure? {
          return pruned, maintained, before;
        }
      }
      maintained := dir.files;
      r, before := WriteDaily(dir, today, bytes);
    }

    /** write_log_record */
    method WriteLogRecord(dir: LogDirectory, today: int, now: nat, bytes: nat) returns (r: Result<()>)
      requires dir.Valid() && bytes <= MAX_LOG_BYTES
      modifies this, dir
      ensures dir.Valid() && (!dir.faults ==> r.Success?)
      ensures WithinBudget(Total(old(dir.files)), Total(dir.files), old(bytesSinceMaintenance), bytesSinceMaintenance)
      ensures old(lastMaintenance).None? ==> Total(dir.files) <= MAX_LOG_BYTES || Total(dir.files) <= Total(old(dir.files))
      ensures r.Success? && old(lastMaintenance).None? ==> Total(dir.files) <= MAX_LOG_BYTES
      ensures r.Success? && (old(lastMaintenance).None? || now - old(lastMaintenance).value >= MAINTENANCE_INTERVAL
                             || old(bytesSinceMaintenance) + bytes >= MAINTENANCE_BYTE_BUDGET) ==>
                && NoneTooOld(dir.files, today) && Total(dir.files) <= MAX_LOG_BYTES
                && lastMaintenance == Some(now) && bytesSinceMaintenance == 0
      ensures r.Success? && old(lastMaintenance).Some? && now - old(lastMaintenance).value < MAINTENANCE_INTERVAL
              && old(bytesSinceMaintenance) + bytes < MAINTENANCE_BYTE_BUDGET ==>
                && NothingLost(old(dir.files), dir.files)
                && lastMaintenance == old(lastMaintenance) && bytesSinceMaintenance == old(bytesSinceMaintenance) + bytes
                && (old(dailyFile).None? ==> Total(dir.files) == Total(old(dir.files)) + bytes)
      ensures
        var due := MaintenanceDue(old(lastMaintenance), now, old(bytesSinceMaintenance) + bytes);
        && (r.Success? && due ==> lastMaintenance == Some(now) && bytesSinceMaintenance == 0)
        && (!(r.Success? && due) ==>
              lastMaintenance == old(lastMaintenance) && bytesSinceMaintenance == old(bytesSinceMaintenance) + bytes)
        && (r.Success? && !due ==>
              && dailyFile.Some? && dailyFile.value.date == today
              && exists mid :: && Opened(old(dir.files), mid, today, dailyFile.value.inode)
                                  && dir.files == Grown(mid, CurrentLog(today), dailyFile.value.inode, bytes))
    {
      bytesSinceMaintenance := bytesSinceMaintenance + bytes;
      var runMaintenance := MaintenanceDue(lastMaintenance, now, bytesSinceMaintenance);
      ghost var maintained;
      ghost var before;
      r, maintained, before := AppendLog(dir, today, bytes, runMaintenance);
      if r.Failure? {
        return;
      }
      if runMaintenance {
        lastMaintenance := Some(now);
        bytesSinceMaintenance := 0;
      }
    }
  }

  function TotalDrift(bytes: seq<nat>): (r: nat)
    ensures r <= |bytes| * (MAINTENANCE_BYTE_BUDGET - 1)
  {
    if bytes == [] then 0 else Drift(bytes[0]) + TotalDrift(bytes[1..])
  }

  lemma {:induction false} TotalDriftOfUpdate(bytes: seq<nat>, i: nat, b: nat)
    requires i < |bytes|
    ensures TotalDrift(bytes[i := b]) + Drift(bytes[i]) == TotalDrift(bytes) + Drift(b)
  {
    if i == 0 {
      assert bytes[i := b][1..] == bytes[1..];
    } else {
      assert bytes[i := b][1..] == bytes[1..][i - 1 := b];
      TotalDriftOfUpdate(bytes[1..], i - 1, b);
    }
  }

  /** One record by one of several writers. */
  datatype Turn = Turn(writer: nat, today: int, now: nat, bytes: nat)

  /** The bound in force once some record was written. */
  ghost predicate Bounded(total: nat, bytes: seq<nat>) {
    total <= MAX_LOG_BYTES + TotalDrift(bytes)
  }

  lemma TurnKeepsBounded(totalBefore: nat, totalAfter: nat, bytes: seq<nat>, i: nat, b: nat)
    requires i < |bytes| && Bounded(totalBefore, bytes) && WithinBudget(totalBefore, totalAfter, bytes[i], b)
    ensures Bounded(totalAfter, bytes[i := b])
  {
    TotalDriftOfUpdate(bytes, i, b);
  }

  /** The size bound over all runs: in whatever order any number of fixed writers
      take their turns, and whatever fails, from the first record written on the
      log directory stays below the limit plus one byte budget a writer. */
  method WriteInTurns(dir: LogDirectory, writers: seq<LogState>, turns: seq<Turn>) returns (started: bool)
    requires dir.Valid()
    requires forall i, j :: 0 <= i < j < |writers| ==> writers[i] != writers[j]
    requires forall i :: 0 <= i < |writers| ==> writers[i].lastMaintenance.None?
    requires forall k :: 0 <= k < |turns| ==> turns[k].writer < |writers| && turns[k].bytes <= MAX_LOG_BYTES
    modifies dir, writers
    ensures dir.Valid() && (!dir.faults ==> (started <==> turns != []))
    ensures started ==> Total(dir.files) < MAX_LOG_BYTES + |writers| * MAINTENANCE_BYTE_BUDGET
    ensures !started ==> Total(dir.files) <= MAX_LOG_BYTES || Total(dir.files) <= Total(old(dir.files))
  {
    started := false;
    ghost var counts := seq(|writers|, i requires 0 <= i < |writers| reads writers => writers[i].bytesSinceMaintenance);
    for k := 0 to |turns|
      invariant dir.Valid() && |counts| == |writers|
      invariant forall i :: 0 <= i < |writers| ==> writers[i].bytesSinceMaintenance == counts[i]
      invariant !dir.faults ==> (started <==> k > 0)
      invariant started ==> Bounded(Total(dir.files), counts) && |writers| > 0
      invariant !started ==> forall i :: 0 <= i < |writers| ==> writers[i].lastMaintenance.None?
      invariant !started ==> Total(dir.files) <= MAX_LOG_BYTES || Total(dir.files) <= Total(old(dir.files))
    {
      var i := turns[k].writer;
      ghost var total := Total(dir.files);
      var written := writers[i].WriteLogRecord(dir, turns[k].today, turns[k].now, turns[k].bytes);
      if started {
        TurnKeepsBounded(total, Total(dir.files), counts, i, writers[i].bytesSinceMaintenance);
      }
      counts := counts[i := writers[i].bytesSinceMaintenance];
      started := started || written.Success?;
    }
  }
}
