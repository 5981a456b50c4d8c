/** The body of applyMigrations as one process executes it while it holds the
    lock, and what it leaves behind. */
module MigrationRunner {
  import opened Migrations
  import opened Options
  import opened Sequences

  /** The files applied before the first one whose SQL fails. */
  function UntilFailure(files: seq<string>, works: string -> bool): seq<string> {
    if files == [] || !works(files[0]) then [] else [files[0]] + UntilFailure(files[1..], works)
  }

  class Database {
    var locked: bool
    var table: set<string>
    var log: seq<string>

    constructor ()
      ensures !locked && table == {} && log == []
    {
      locked, table, log := false, {}, [];
    }

    /** `works` says which files' SQL the server accepts, `unlocks` whether the unlocking query succeeds. */
    method ApplyMigrations(sqlFiles: seq<string>, works: string -> bool, unlocks: bool) returns (ok: bool)
      requires !locked && table == Members(log)
      modifies this
      ensures locked == !unlocks && table == Members(log)
      ensures log == old(log) + UntilFailure(Missing(sqlFiles, old(log)), works)
      ensures ok <==> unlocks && forall f | f in Missing(sqlFiles, old(log)) :: works(f)
    {
      locked := true;
      assert sqlFiles[0..] == sqlFiles;
      for i := 0 to |sqlFiles|
        invariant locked && table == Members(log)
        invariant SameEnd(old(log), sqlFiles, log, sqlFiles[i..], works)
      {
        var file := sqlFiles[i];
        assert sqlFiles[i..][1..] == sqlFiles[i + 1..];
        OneFile(log, sqlFiles[i..], works);
        if file !in table {
          if !works(file) {
            locked := !unlocks;
            return false;
          }
          log := log + [file];
          table := table + {file};
        }
      }
      assert sqlFiles[|sqlFiles|..] == [];
      locked := !unlocks;
      ok := unlocks;
    }
  }

  /** Running `files` on top of `log` ends as running `all` on top of `start` does. */
  ghost predicate SameEnd(start: seq<string>, all: seq<string>, log: seq<string>, files: seq<string>,
                          works: string -> bool)
  {
    && log + UntilFailure(Missing(files, log), works) == start + UntilFailure(Missing(all, start), works)
    && ((forall f | f in Missing(files, log) :: works(f)) <==> (forall f | f in Missing(all, start) :: works(f)))
  }

  /** An applied file is passed over, a failing one ends the run, any other is added to the log. */
  lemma OneFile(log: seq<string>, files: seq<string>, works: string -> bool)
    requires files != []
    ensures files[0] in log ==> SameEnd(log, files, log, files[1..], works)
    ensures files[0] !in log && works(files[0]) ==> SameEnd(log, files, log + [files[0]], files[1..], works)
    ensures files[0] !in log && !works(files[0]) ==>
              UntilFailure(Missing(files, log), works) == [] && files[0] in Missing(files, log)
  {
    if files[0] !in log {
      var rest := Missing(files[1..], log + [files[0]]);
      assert Missing(files, log) == [files[0]] + rest;
      assert ([files[0]] + rest)[1..] == rest;
      Regroup(log, [files[0]], UntilFailure(rest, works));
      assert forall f :: f in [files[0]] + rest <==> f == files[0] || f in rest;
    }
  }

  lemma {:induction false} NoFailureMeansAll(files: seq<string>, works: string -> bool)
    ensures UntilFailure(files, works) <= files
    ensures UntilFailure(files, works) == files <==> forall f | f in files :: works(f)
  {
    if files != [] {
      NoFailureMeansAll(files[1..], works);
      assert files == [files[0]] + files[1..];
      if works(files[0]) {
        assert (forall f | f in files :: works(f)) <==> (forall f | f in files[1..] :: works(f));
      } else {
        assert files[0] in files;
      }
    }
  }

  /** After a failed run, a second run has exactly the rest to do, in the same order. */
  lemma RetryResumes(files: seq<string>, log: seq<string>, works: string -> bool)
    ensures var done := UntilFailure(Missing(files, log), works);
            done + Missing(files, log + done) == Missing(files, log)
  {
    NoFailureMeansAll(Missing(files, log), works);
    ResumeAt(files, log, UntilFailure(Missing(files, log), works));
  }

  lemma {:induction false} ResumeAt(files: seq<string>, log: seq<string>, done: seq<string>)
    requires done <= Missing(files, log)
    ensures done + Missing(files, log + done) == Missing(files, log)
    decreases |files|
  {
    if done == [] {
      assert log + done == log;
    } else if files[0] in log {
      ResumeAt(files[1..], log, done);
    } else {
      var x, rest := files[0], done[1..];
      StartOfCons(done, x, Missing(files[1..], log + [x]));
      Regroup(log, [x], rest);
      ResumeAt(files[1..], log + [x], rest);
      assert x in log + [x];
      Regroup([x], rest, Missing(files[1..], log + [x] + rest));
    }
  }

  lemma StartOfCons(done: seq<string>, x: string, m: seq<string>)
    requires done != [] && done <= [x] + m
    ensures done == [x] + done[1..] && done[1..] <= m
  {
  }

  // ---- every outcome is a run of the protocol ----

  /** With `missing` still to do on top of `log`, process `pid` has left its loop in `t`:
      at the end, or at the first failing file. */
  ghost predicate Leaves(procs: map<Pid, Proc>, lock: Option<Pid>, log: seq<string>, missing: seq<string>,
                         t: State, pid: Pid, works: string -> bool)
  {
    && pid in t.procs && t.procs == procs[pid := t.procs[pid]]
    && t.procs[pid].pc == Unlocking(forall f | f in missing :: works(f))
    && t.lock == lock
    && t.log == log + UntilFailure(missing, works)
  }

  ghost predicate LoopLeaves(s: State, t: State, pid: Pid, works: string -> bool)
    requires pid in s.procs && s.procs[pid].i <= |s.procs[pid].files|
  {
    Leaves(s.procs, s.lock, s.log, Missing(s.procs[pid].files[s.procs[pid].i..], s.log), t, pid, works)
  }

  lemma LeavesCons(procs: map<Pid, Proc>, procs': map<Pid, Proc>, lock: Option<Pid>, log: seq<string>, f: string,
                   rest: seq<string>, t: State, pid: Pid, works: string -> bool)
    requires works(f) && Leaves(procs', lock, log + [f], rest, t, pid, works)
    requires procs.Keys == procs'.Keys && forall q | q in procs && q != pid :: procs[q] == procs'[q]
    ensures Leaves(procs, lock, log, [f] + rest, t, pid, works)
  {
    UntilFailureCons(f, rest, works);
    Regroup(log, [f], UntilFailure(rest, works));
    assert t.procs == procs[pid := t.procs[pid]];
  }

  lemma MissingStep(s: State, pid: Pid)
    requires MidLoop(s, pid) && s.procs[pid].i < |s.procs[pid].files|
    ensures var p := s.procs[pid];
            var f, rest := p.files[p.i], p.files[p.i + 1..];
            Missing(p.files[p.i..], s.log) ==
            if f in s.log then Missing(rest, s.log) else [f] + Missing(rest, s.log + [f])
  {
    var p := s.procs[pid];
    assert p.files[p.i..][1..] == p.files[p.i + 1..];
  }

  lemma SkipLeaves(s: State, t: State, pid: Pid, works: string -> bool)
    requires MidLoop(s, pid) && Enabled(s, Skip(pid)) && LoopLeaves(Next(s, Skip(pid)), t, pid, works)
    ensures LoopLeaves(s, t, pid, works)
  {
    MissingStep(s, pid);
  }

  lemma ApplyLeaves(s: State, t: State, pid: Pid, works: string -> bool)
    requires MidLoop(s, pid) && Enabled(s, NotApplied(pid)) && works(s.procs[pid].files[s.procs[pid].i])
    requires LoopLeaves(Applied(s, pid), t, pid, works)
    ensures LoopLeaves(s, t, pid, works)
  {
    var p := s.procs[pid];
    var f := p.files[p.i];
    MissingStep(s, pid);
    var rest := Missing(p.files[p.i + 1..], s.log + [f]);
    LeavesCons(s.procs, Applied(s, pid).procs, s.lock, s.log, f, rest, t, pid, works);
  }

  lemma UntilFailureCons(f: string, rest: seq<string>, works: string -> bool)
    ensures UntilFailure([f] + rest, works) == if works(f) then [f] + UntilFailure(rest, works) else []
    ensures (forall g | g in [f] + rest :: works(g)) <==> works(f) && forall g | g in rest :: works(g)
  {
    assert ([f] + rest)[1..] == rest;
    assert forall g :: g in [f] + rest <==> g == f || g in rest;
  }

  lemma FailSteps(s: State, pid: Pid)
    requires Enabled(s, NotApplied(pid))
    ensures Next(At(s, pid, Begun(Tx([], {}))), FailInTx(pid)) == At(s, pid, RollingBack(Tx([], {})))
    ensures Next(At(s, pid, RollingBack(Tx([], {}))), Rollback(pid)) == At(s, pid, Unlocking(false))
  {
  }

  /** A file whose SQL fails: BEGIN, the failing query, ROLLBACK, and out of the loop. */
  lemma FailOne(start: State, events: seq<Event>, pid: Pid) returns (longer: seq<Event>)
    requires IsRun(start, events) && Enabled(After(start, events), NotApplied(pid))
    ensures IsRun(start, longer) && events <= longer
    ensures After(start, longer) == At(After(start, events), pid, Unlocking(false))
  {
    BeginSteps(After(start, events), pid);
    FailSteps(After(start, events), pid);
    Extend(start, events, NotApplied(pid));
    var l1 := events + [NotApplied(pid)];
    Extend(start, l1, Begin(pid));
    var l2 := l1 + [Begin(pid)];
    Extend(start, l2, FailInTx(pid));
    var l3 := l2 + [FailInTx(pid)];
    Extend(start, l3, Rollback(pid));
    longer := l3 + [Rollback(pid)];
  }

  lemma FailLeaves(s: State, pid: Pid, works: string -> bool)
    requires MidLoop(s, pid) && Enabled(s, NotApplied(pid)) && !works(s.procs[pid].files[s.procs[pid].i])
    ensures LoopLeaves(s, At(s, pid, Unlocking(false)), pid, works)
  {
    var p := s.procs[pid];
    MissingStep(s, pid);
    UntilFailureCons(p.files[p.i], Missing(p.files[p.i + 1..], s.log + [p.files[p.i]]), works);
    assert s.log + [] == s.log;
  }

  lemma {:induction false} RunLoop(start: State, events: seq<Event>, pid: Pid, works: string -> bool)
    returns (longer: seq<Event>)
    requires IsRun(start, events) && MidLoop(After(start, events), pid)
    ensures IsRun(start, longer) && events <= longer
    ensures LoopLeaves(After(start, events), After(start, longer), pid, works)
    decreases var p := After(start, events).procs[pid]; |p.files| - p.i
  {
    var s := After(start, events);
    var p := s.procs[pid];
    if p.i == |p.files| {
      Extend(start, events, EndOfList(pid));
      longer := events + [EndOfList(pid)];
      assert s.log + UntilFailure(Missing(p.files[p.i..], s.log), works) == s.log;
    } else if p.files[p.i] in s.table {
      Extend(start, events, Skip(pid));
      longer := RunLoop(start, events + [Skip(pid)], pid, works);
      SkipLeaves(s, After(start, longer), pid, works);
    } else if works(p.files[p.i]) {
      var l := ApplyOne(start, events, pid);
      assert s.table + {p.files[p.i]} == Members(s.log + [p.files[p.i]]);
      longer := RunLoop(start, l, pid, works);
      ApplyLeaves(s, After(start, longer), pid, works);
    } else {
      longer := FailOne(start, events, pid);
      FailLeaves(s, pid, works);
    }
  }

  /** Whatever state the protocol has reached, as long as the lock is free, whichever files the server
      accepts and whether the lock can be given up: what one process makes of the log, the table and
      the lock is a run of the protocol. */
  lemma OutcomeIsARun(start: State, events: seq<Event>, pid: Pid, files: seq<string>, works: string -> bool,
                      unlocks: bool)
    returns (longer: seq<Event>)
    requires Initial(start) && IsRun(start, events)
    requires var s := After(start, events); s.lock == None && pid !in s.procs
    ensures IsRun(start, longer) && events <= longer
    ensures var s, t := After(start, events), After(start, longer);
            && t.log == s.log + UntilFailure(Missing(files, s.log), works)
            && t.table == Members(t.log) && t.lock == (if unlocks then None else Some(pid))
            && pid in t.procs
            && t.procs[pid].pc == Finished(unlocks && forall f | f in Missing(files, s.log) :: works(f))
  {
    RunKeeps(start, events);
    var l3 := NewProcessCanLock(start, events, pid, files);
    var l4 := RunLoop(start, l3, pid, works);
    assert files[0..] == files;
    var last := if unlocks then Unlock(pid) else FailToUnlock(pid);
    Extend(start, l4, last);
    longer := l4 + [last];
    RunKeeps(start, longer);
  }
}
