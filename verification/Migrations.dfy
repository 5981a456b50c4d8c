/** The migration runner (src/db/applyMigrations.ts) as a protocol between any
    number of processes that share one database, one advisory lock and one
    schema_migrations table.  A step is one query, one file read, one failure,
    of a query or of the rest, or the end of some process's session. */
module Migrations {
  import opened Options
  import opened Sequences

  type Pid = nat

  /** Work done inside an open transaction: SQL bodies executed, rows inserted. */
  datatype Tx = Tx(ran: seq<string>, inserted: set<string>)

  datatype Pc =
    | Starting                 // CREATE TABLE IF NOT EXISTS, readdir, connect
    | Waiting                  // pg_advisory_lock requested
    | Checking                 // at the head of the loop, lock held
    | Reading                  // file not applied yet; reading its SQL
    | Begun(tx: Tx)            // BEGIN done
    | Executed(tx: Tx)         // the file's SQL done
    | Inserted(tx: Tx)         // the bookkeeping row inserted
    | RollingBack(tx: Tx)      // a query of the transaction failed
    | Unlocking(ok: bool)      // the finally block
    | Finished(ok: bool)
    | Crashed

  /** One process: its own sorted listing of the migrations directory, its place in it. */
  datatype Proc = Proc(files: seq<string>, pc: Pc, i: nat)

  /** `log` is every SQL body whose effects are durable, in commit order. */
  datatype State = State(procs: map<Pid, Proc>, lock: Option<Pid>, table: set<string>, log: seq<string>)

  datatype Event =
    | Spawn(pid: Pid, files: seq<string>)
    | Connect(pid: Pid)
    | FailEarly(pid: Pid)
    | Acquire(pid: Pid)
    | FailToLock(pid: Pid)
    | Skip(pid: Pid)
    | NotApplied(pid: Pid)
    | FailInLoop(pid: Pid)
    | EndOfList(pid: Pid)
    | Begin(pid: Pid)
    | Execute(pid: Pid)
    | Insert(pid: Pid)
    | Commit(pid: Pid)
    | FailInTx(pid: Pid)
    | Rollback(pid: Pid)
    | FailToRollback(pid: Pid)
    | Unlock(pid: Pid)
    | FailToUnlock(pid: Pid)
    | Crash(pid: Pid)

  predicate Enabled(s: State, e: Event) {
    if e.Spawn? then e.pid !in s.procs
    else
      && e.pid in s.procs
      && var p := s.procs[e.pid];
         match e
         case Spawn(_, _) => true
         case Connect(_) => p.pc == Starting
         case FailEarly(_) => p.pc == Starting
         case Acquire(_) => p.pc == Waiting && s.lock == None
         case FailToLock(_) => p.pc == Waiting
         case Skip(_) => p.pc == Checking && p.i < |p.files| && p.files[p.i] in s.table
         case NotApplied(_) => p.pc == Checking && p.i < |p.files| && p.files[p.i] !in s.table
         case FailInLoop(_) => p.pc == Checking || p.pc == Reading
         case EndOfList(_) => p.pc == Checking && p.i >= |p.files|
         case Begin(_) => p.pc == Reading
         case Execute(_) => p.pc.Begun? && p.i < |p.files|
         case Insert(_) => p.pc.Executed? && p.i < |p.files| && p.files[p.i] !in s.table
         case Commit(_) => p.pc.Inserted?
         case FailInTx(_) => p.pc.Begun? || p.pc.Executed? || p.pc.Inserted? || p.pc == Reading
         case Rollback(_) => p.pc.RollingBack?
         case FailToRollback(_) => p.pc.RollingBack?
         case Unlock(_) => p.pc.Unlocking?
         case FailToUnlock(_) => p.pc.Unlocking?
         case Crash(_) => p.pc != Crashed
  }

  function TxOf(pc: Pc): Tx {
    if pc.Begun? || pc.Executed? || pc.Inserted? || pc.RollingBack? then pc.tx else Tx([], {})
  }

  function MoveTo(s: State, pid: Pid, pc: Pc): State
    requires pid in s.procs
  {
    s.(procs := s.procs[pid := s.procs[pid].(pc := pc)])
  }

  function NextFile(s: State, pid: Pid): State
    requires pid in s.procs
  {
    s.(procs := s.procs[pid := s.procs[pid].(pc := Checking, i := s.procs[pid].i + 1)])
  }

  /** pg_advisory_unlock, and the end of a session, give up the lock only if it is held. */
  function Release(s: State, pid: Pid): State {
    if s.lock == Some(pid) then s.(lock := None) else s
  }

  function Next(s: State, e: Event): State
    requires Enabled(s, e)
  {
    if e.Spawn? then s.(procs := s.procs[e.pid := Proc(e.files, Starting, 0)])
    else
      var p := s.procs[e.pid];
      match e
      case Spawn(_, _) => s
      case Connect(pid) => MoveTo(s, pid, Waiting)
      case FailEarly(pid) => MoveTo(s, pid, Finished(false))
      case Acquire(pid) => MoveTo(s, pid, Checking).(lock := Some(pid))
      case FailToLock(pid) => MoveTo(s, pid, Unlocking(false))
      case Skip(pid) => NextFile(s, pid)
      case NotApplied(pid) => MoveTo(s, pid, Reading)
      case FailInLoop(pid) => MoveTo(s, pid, Unlocking(false))
      case EndOfList(pid) => MoveTo(s, pid, Unlocking(true))
      case Begin(pid) => MoveTo(s, pid, Begun(Tx([], {})))
      case Execute(pid) => MoveTo(s, pid, Executed(p.pc.tx.(ran := p.pc.tx.ran + [p.files[p.i]])))
      case Insert(pid) => MoveTo(s, pid, Inserted(p.pc.tx.(inserted := p.pc.tx.inserted + {p.files[p.i]})))
      case Commit(pid) => NextFile(s, pid).(table := s.table + p.pc.tx.inserted, log := s.log + p.pc.tx.ran)
      case FailInTx(pid) => MoveTo(s, pid, RollingBack(TxOf(p.pc)))
      case Rollback(pid) => MoveTo(s, pid, Unlocking(false))
      case FailToRollback(pid) => MoveTo(s, pid, Unlocking(false))
      case Unlock(pid) => Release(MoveTo(s, pid, Finished(p.pc.ok)), pid)
      case FailToUnlock(pid) => MoveTo(s, pid, Finished(false))
      case Crash(pid) => Release(MoveTo(s, pid, Crashed), pid)
  }

  /** Every run: any events, in any order, as long as each is enabled when it happens. */
  predicate IsRun(start: State, events: seq<Event>)
    decreases |events|, 0
  {
    events == []
    || (IsRun(start, events[..|events| - 1]) && Enabled(After(start, events[..|events| - 1]), events[|events| - 1]))
  }

  function After(start: State, events: seq<Event>): State
    requires IsRun(start, events)
    decreases |events|, 1
  {
    if events == [] then start
    else Next(After(start, events[..|events| - 1]), events[|events| - 1])
  }

  // ---- the invariant ----

  ghost function Members(s: seq<string>): set<string> {
    set x | x in s
  }

  /** No process yet, and a table that tells what has been applied. */
  ghost predicate Initial(s: State) {
    s.procs == map[] && s.lock == None && NoRepeats(s.log) && s.table == Members(s.log)
  }

  predicate InLoop(pc: Pc) {
    pc == Checking || pc == Reading || pc.Begun? || pc.Executed? || pc.Inserted? || pc.RollingBack?
  }

  /** In the loop, about to unlock, or done after the unlocking query failed. */
  predicate MayHoldLock(pc: Pc) {
    InLoop(pc) || pc.Unlocking? || pc == Finished(false)
  }

  /** What a process knows at each place in the loop. */
  predicate Knows(p: Proc, table: set<string>) {
    && (p.pc == Starting || p.pc == Waiting ==> p.i == 0)
    && (InLoop(p.pc) ==>
          && p.i <= |p.files|
          && forall j | 0 <= j < p.i :: p.files[j] in table)
    && (p.pc == Reading || p.pc.Begun? || p.pc.Executed? || p.pc.Inserted? ==>
          p.i < |p.files| && p.files[p.i] !in table)
    && (p.pc.Begun? ==> p.pc.tx == Tx([], {}))
    && (p.pc.Executed? ==> p.pc.tx == Tx([p.files[p.i]], {}))
    && (p.pc.Inserted? ==> p.pc.tx == Tx([p.files[p.i]], {p.files[p.i]}))
    && (p.pc == Unlocking(true) || p.pc == Finished(true) ==>
          forall j | 0 <= j < |p.files| :: p.files[j] in table)
  }

  ghost predicate Inv(s: State) {
    && NoRepeats(s.log)
    && s.table == Members(s.log)
    && (forall pid | pid in s.procs :: InLoop(s.procs[pid].pc) ==> s.lock == Some(pid))
    && (s.lock.Some? ==> s.lock.value in s.procs && MayHoldLock(s.procs[s.lock.value].pc))
    && (forall pid | pid in s.procs :: Knows(s.procs[pid], s.table))
  }

  lemma MoveKeeps(s: State, pid: Pid, pc: Pc)
    requires Inv(s) && pid in s.procs
    requires InLoop(pc) ==> s.lock == Some(pid)
    requires s.lock == Some(pid) ==> MayHoldLock(pc)
    requires Knows(s.procs[pid].(pc := pc), s.table)
    ensures Inv(MoveTo(s, pid, pc))
  {
  }

  lemma EndKeeps(s: State, pid: Pid, pc: Pc)
    requires Inv(s) && pid in s.procs && !InLoop(pc)
    requires Knows(s.procs[pid].(pc := pc), s.table)
    ensures Inv(Release(MoveTo(s, pid, pc), pid))
  {
  }

  lemma KnowsMore(p: Proc, table: set<string>, more: set<string>)
    requires Knows(p, table) && table <= more && !InLoop(p.pc)
    ensures Knows(p, more)
  {
  }

  lemma CommitKeeps(s: State, pid: Pid)
    requires Inv(s) && Enabled(s, Commit(pid))
    ensures Inv(Next(s, Commit(pid)))
    ensures Next(s, Commit(pid)).log == s.log + [s.procs[pid].files[s.procs[pid].i]]
  {
    var p := s.procs[pid];
    var f := p.files[p.i];
    var t := Next(s, Commit(pid));
    assert Knows(p, s.table);
    assert f !in s.log;
    assert t.table == Members(t.log);
    forall q | q in t.procs
      ensures Knows(t.procs[q], t.table)
      ensures InLoop(t.procs[q].pc) ==> t.lock == Some(q)
    {
      assert Knows(s.procs[q], s.table);
      if q != pid {
        KnowsMore(s.procs[q], s.table, t.table);
      }
    }
  }

  lemma AcquireKeeps(s: State, pid: Pid)
    requires Inv(s) && Enabled(s, Acquire(pid))
    ensures Inv(Next(s, Acquire(pid)))
  {
    assert Knows(s.procs[pid], s.table);
  }

  lemma SkipKeeps(s: State, pid: Pid)
    requires Inv(s) && Enabled(s, Skip(pid))
    ensures Inv(Next(s, Skip(pid)))
  {
    assert Knows(s.procs[pid], s.table);
  }

  /** A step inside a transaction before its commit moves one process and nothing else. */
  lemma TransactionKeeps(s: State, e: Event)
    requires Inv(s) && Enabled(s, e)
    requires e.Begin? || e.Execute? || e.Insert? || e.FailInTx? || e.Rollback? || e.FailToRollback?
    ensures Inv(Next(s, e))
  {
    assert Knows(s.procs[e.pid], s.table);
    MoveKeeps(s, e.pid, Next(s, e).procs[e.pid].pc);
  }

  lemma NextKeeps(s: State, e: Event)
    requires Inv(s) && Enabled(s, e)
    ensures Inv(Next(s, e))
  {
    if e.pid in s.procs {
      assert Knows(s.procs[e.pid], s.table);
    }
    match e
    case Spawn(_, _) =>
    case Connect(pid) => MoveKeeps(s, pid, Waiting);
    case FailEarly(pid) => MoveKeeps(s, pid, Finished(false));
    case Acquire(pid) => AcquireKeeps(s, pid);
    case FailToLock(pid) => MoveKeeps(s, pid, Unlocking(false));
    case Skip(pid) => SkipKeeps(s, pid);
    case NotApplied(pid) => MoveKeeps(s, pid, Reading);
    case FailInLoop(pid) => MoveKeeps(s, pid, Unlocking(false));
    case EndOfList(pid) => MoveKeeps(s, pid, Unlocking(true));
    case Begin(pid) => TransactionKeeps(s, e);
    case Execute(pid) => TransactionKeeps(s, e);
    case Insert(pid) => TransactionKeeps(s, e);
    case Commit(pid) => CommitKeeps(s, pid);
    case FailInTx(pid) => TransactionKeeps(s, e);
    case Rollback(pid) => TransactionKeeps(s, e);
    case FailToRollback(pid) => TransactionKeeps(s, e);
    case Unlock(pid) => EndKeeps(s, pid, Finished(s.procs[pid].pc.ok));
    case FailToUnlock(pid) => MoveKeeps(s, pid, Finished(false));
    case Crash(pid) => EndKeeps(s, pid, Crashed);
  }

  lemma {:induction false} RunKeeps(start: State, events: seq<Event>)
    requires Initial(start) && IsRun(start, events)
    ensures Inv(After(start, events))
  {
    if events != [] {
      RunKeeps(start, events[..|events| - 1]);
      NextKeeps(After(start, events[..|events| - 1]), events[|events| - 1]);
    }
  }

  // ---- safety over every interleaving ----

  /** Whatever crashes and fails: nothing is applied twice, the table is exactly what was
      applied, at most one process is inside the loop, the lock is held only by a process in the
      loop, about to unlock or done with a failure, and a process that finished normally left all
      of its files applied. */
  lemma MigrationsAreSafe(start: State, events: seq<Event>)
    requires Initial(start) && IsRun(start, events)
    ensures var s := After(start, events);
            && NoRepeats(s.log)
            && s.table == Members(s.log)
            && (forall p, q | p in s.procs && q in s.procs && InLoop(s.procs[p].pc) && InLoop(s.procs[q].pc) :: p == q)
            && (s.lock.Some? ==> s.lock.value in s.procs && MayHoldLock(s.procs[s.lock.value].pc))
            && (forall p | p in s.procs && s.procs[p].pc == Finished(true) ::
                  forall j | 0 <= j < |s.procs[p].files| :: s.procs[p].files[j] in s.log)
  {
    RunKeeps(start, events);
    var s := After(start, events);
    forall p | p in s.procs && s.procs[p].pc == Finished(true)
      ensures forall j | 0 <= j < |s.procs[p].files| :: s.procs[p].files[j] in s.log
    {
      assert Knows(s.procs[p], s.table);
    }
  }

  lemma NextGrows(s: State, e: Event)
    requires Enabled(s, e)
    ensures s.log <= Next(s, e).log
  {
  }

  /** What is committed stays committed, in the order it was committed. */
  lemma {:induction false} LogOnlyGrows(start: State, events: seq<Event>, n: nat)
    requires n <= |events| && IsRun(start, events)
    ensures IsRun(start, events[..n]) && After(start, events[..n]).log <= After(start, events).log
    decreases |events|
  {
    if n == |events| {
      assert events[..n] == events;
    } else {
      var init := events[..|events| - 1];
      LogOnlyGrows(start, init, n);
      NextGrows(After(start, init), events[|events| - 1]);
      assert init[..n] == events[..n];
    }
  }

  // ---- one shared list ----

  /** Every process spawned sees an initial part of one listing, as processes of
      older and newer versions of the program do. */
  ghost predicate SeesOneList(events: seq<Event>, list: seq<string>) {
    forall k | 0 <= k < |events| && events[k].Spawn? :: events[k].files <= list
  }

  ghost predicate ProcsSee(s: State, list: seq<string>) {
    forall pid | pid in s.procs :: s.procs[pid].files <= list
  }

  lemma NextSees(s: State, e: Event, list: seq<string>)
    requires Enabled(s, e) && ProcsSee(s, list)
    requires e.Spawn? ==> e.files <= list
    ensures ProcsSee(Next(s, e), list)
  {
  }

  lemma NextKeepsPrefix(s: State, e: Event, list: seq<string>)
    requires Inv(s) && Enabled(s, e) && ProcsSee(s, list) && NoRepeats(list)
    requires s.log <= list
    ensures Next(s, e).log <= list
  {
    if e.Commit? {
      var p := s.procs[e.pid];
      CommitKeeps(s, e.pid);
      assert Knows(p, s.table);
      NextInList(s.log, list, p.files, p.i);
    }
  }

  lemma NextInList(log: seq<string>, list: seq<string>, files: seq<string>, i: nat)
    requires log <= list && NoRepeats(list) && files <= list && i < |files|
    requires files[i] !in log && forall j | 0 <= j < i :: files[j] in log
    ensures log + [files[i]] <= list
  {
    InPrefix(log, list, i);
    assert forall j | 0 <= j < i :: files[j] == list[j];
    InPrefix(log, list, |log|);
  }

  lemma InPrefix(log: seq<string>, list: seq<string>, n: nat)
    requires log <= list && NoRepeats(list) && n < |list|
    ensures list[n] in log <==> n < |log|
  {
    if n < |log| {
      assert log[n] == list[n];
    } else {
      assert forall j | 0 <= j < |log| :: log[j] == list[j];
    }
  }

  /** If all processes see parts of one duplicate-free list, what is applied is
      at every moment an initial part of that list. */
  lemma {:induction false} AppliedIsAPrefix(start: State, events: seq<Event>, list: seq<string>)
    requires Initial(start) && IsRun(start, events)
    requires NoRepeats(list) && SeesOneList(events, list) && start.log <= list
    ensures After(start, events).log <= list
    ensures ProcsSee(After(start, events), list)
  {
    if events != [] {
      var init, e := events[..|events| - 1], events[|events| - 1];
      assert forall k | 0 <= k < |init| :: init[k] == events[k];
      AppliedIsAPrefix(start, init, list);
      RunKeeps(start, init);
      NextKeepsPrefix(After(start, init), e, list);
      NextSees(After(start, init), e, list);
    }
  }

  /** Then a process that saw the whole list and finished normally leaves exactly the list applied. */
  lemma FinishedMeansComplete(start: State, events: seq<Event>, list: seq<string>, pid: Pid)
    requires Initial(start) && IsRun(start, events)
    requires NoRepeats(list) && SeesOneList(events, list) && start.log <= list
    requires var s := After(start, events);
             pid in s.procs && s.procs[pid].pc == Finished(true) && s.procs[pid].files == list
    ensures After(start, events).log == list
  {
    var s := After(start, events);
    AppliedIsAPrefix(start, events, list);
    MigrationsAreSafe(start, events);
    if |s.log| < |list| {
      InPrefix(s.log, list, |s.log|);
    }
  }

  // ---- progress ----

  /** The files of a listing that still have to be applied, in the order of the listing. */
  function Missing(files: seq<string>, log: seq<string>): seq<string> {
    if files == [] then []
    else if files[0] in log then Missing(files[1..], log)
    else [files[0]] + Missing(files[1..], log + [files[0]])
  }

  lemma Extend(start: State, events: seq<Event>, e: Event)
    requires IsRun(start, events) && Enabled(After(start, events), e)
    ensures IsRun(start, events + [e])
    ensures After(start, events + [e]) == Next(After(start, events), e)
  {
    assert (events + [e])[..|events|] == events;
  }

  function At(s: State, pid: Pid, pc: Pc): State
    requires pid in s.procs
  {
    s.(procs := s.procs[pid := Proc(s.procs[pid].files, pc, s.procs[pid].i)])
  }

  lemma BeginSteps(s: State, pid: Pid)
    requires Enabled(s, NotApplied(pid))
    ensures Next(s, NotApplied(pid)) == At(s, pid, Reading)
    ensures Next(At(s, pid, Reading), Begin(pid)) == At(s, pid, Begun(Tx([], {})))
  {
  }

  lemma ExecuteOne(start: State, events: seq<Event>, pid: Pid) returns (longer: seq<Event>)
    requires IsRun(start, events)
    requires var s := After(start, events); Enabled(s, NotApplied(pid))
    ensures IsRun(start, longer) && events <= longer
    ensures var s := After(start, events);
            After(start, longer) == At(s, pid, Executed(Tx([s.procs[pid].files[s.procs[pid].i]], {})))
  {
    var s := After(start, events);
    BeginSteps(s, pid);
    Extend(start, events, NotApplied(pid));
    var l1 := events + [NotApplied(pid)];
    Extend(start, l1, Begin(pid));
    var l2 := l1 + [Begin(pid)];
    Extend(start, l2, Execute(pid));
    assert [] + [s.procs[pid].files[s.procs[pid].i]] == [s.procs[pid].files[s.procs[pid].i]];
    longer := l2 + [Execute(pid)];
  }

  function Applied(s: State, pid: Pid): State
    requires pid in s.procs && s.procs[pid].i < |s.procs[pid].files|
  {
    var p := s.procs[pid];
    s.(procs := s.procs[pid := Proc(p.files, Checking, p.i + 1)],
       table := s.table + {p.files[p.i]}, log := s.log + [p.files[p.i]])
  }

  /** One turn of the loop for a file that is not applied yet. */
  lemma ApplyOne(start: State, events: seq<Event>, pid: Pid) returns (longer: seq<Event>)
    requires IsRun(start, events)
    requires var s := After(start, events); Enabled(s, NotApplied(pid))
    ensures IsRun(start, longer) && events <= longer
    ensures var s := After(start, events);
            After(start, longer) == Applied(s, pid)
  {
    var s := After(start, events);
    var l := ExecuteOne(start, events, pid);
    Extend(start, l, Insert(pid));
    Extend(start, l + [Insert(pid)], Commit(pid));
    InsertThenCommit(s, pid);
    longer := l + [Insert(pid)] + [Commit(pid)];
  }

  lemma InsertThenCommit(s: State, pid: Pid)
    requires Enabled(s, NotApplied(pid))
    ensures var t := At(s, pid, Executed(Tx([s.procs[pid].files[s.procs[pid].i]], {})));
            && Enabled(t, Insert(pid))
            && Enabled(Next(t, Insert(pid)), Commit(pid))
            && Next(Next(t, Insert(pid)), Commit(pid)) == Applied(s, pid)
  {
    var f := s.procs[pid].files[s.procs[pid].i];
    var t := At(s, pid, Executed(Tx([f], {})));
    assert {} + {f} == {f};
    assert Next(t, Insert(pid)) == At(s, pid, Inserted(Tx([f], {f})));
  }

  /** `t` is `s` after process `pid` has run its loop to the end. */
  ghost predicate LoopEnds(s: State, t: State, pid: Pid)
    requires pid in s.procs && s.procs[pid].i <= |s.procs[pid].files|
  {
    var p := s.procs[pid];
    && t.procs == s.procs[pid := Proc(p.files, Unlocking(true), |p.files|)]
    && t.lock == s.lock
    && t.log == s.log + Missing(p.files[p.i..], s.log)
    && t.table == Members(t.log)
  }

  ghost predicate MidLoop(s: State, pid: Pid) {
    && pid in s.procs && s.procs[pid].pc == Checking && s.procs[pid].i <= |s.procs[pid].files|
    && s.table == Members(s.log)
  }

  lemma DoneEnds(s: State, pid: Pid)
    requires MidLoop(s, pid) && s.procs[pid].i == |s.procs[pid].files|
    ensures LoopEnds(s, Next(s, EndOfList(pid)), pid)
  {
    var p := s.procs[pid];
    assert s.log + Missing(p.files[p.i..], s.log) == s.log;
  }

  lemma SkipEnds(s: State, t: State, pid: Pid)
    requires MidLoop(s, pid) && Enabled(s, Skip(pid))
    requires LoopEnds(Next(s, Skip(pid)), t, pid)
    ensures LoopEnds(s, t, pid)
  {
    var p := s.procs[pid];
    assert p.files[p.i..][1..] == p.files[p.i + 1..];
  }

  lemma ApplyEnds(s: State, t: State, pid: Pid)
    requires MidLoop(s, pid) && Enabled(s, NotApplied(pid))
    requires LoopEnds(Applied(s, pid), t, pid)
    ensures LoopEnds(s, t, pid)
  {
    var p := s.procs[pid];
    var f := p.files[p.i];
    assert p.files[p.i..][1..] == p.files[p.i + 1..];
    assert s.log + [f] + Missing(p.files[p.i + 1..], s.log + [f]) == s.log + Missing(p.files[p.i..], s.log);
  }

  lemma {:induction false} FinishLoop(start: State, events: seq<Event>, pid: Pid) returns (longer: seq<Event>)
    requires IsRun(start, events) && MidLoop(After(start, events), pid)
    ensures IsRun(start, longer) && events <= longer
    ensures LoopEnds(After(start, events), After(start, longer), pid)
    decreases var p := After(start, events).procs[pid]; |p.files| - p.i
  {
    var s := After(start, events);
    var p := s.procs[pid];
    if p.i == |p.files| {
      Extend(start, events, EndOfList(pid));
      DoneEnds(s, pid);
      longer := events + [EndOfList(pid)];
    } else if p.files[p.i] in s.table {
      Extend(start, events, Skip(pid));
      longer := FinishLoop(start, events + [Skip(pid)], pid);
      SkipEnds(s, After(start, longer), pid);
    } else {
      var l := ApplyOne(start, events, pid);
      assert s.table + {p.files[p.i]} == Members(s.log + [p.files[p.i]]);
      longer := FinishLoop(start, l, pid);
      ApplyEnds(s, After(start, longer), pid);
    }
  }

  function With(s: State, pid: Pid, p: Proc): State {
    s.(procs := s.procs[pid := p])
  }

  lemma StartSteps(s: State, pid: Pid, files: seq<string>)
    requires s.lock == None && pid !in s.procs
    ensures Next(s, Spawn(pid, files)) == With(s, pid, Proc(files, Starting, 0))
    ensures Next(With(s, pid, Proc(files, Starting, 0)), Connect(pid)) == With(s, pid, Proc(files, Waiting, 0))
    ensures Next(With(s, pid, Proc(files, Waiting, 0)), Acquire(pid)) ==
            With(s, pid, Proc(files, Checking, 0)).(lock := Some(pid))
  {
    forall p, q
      ensures With(With(s, pid, p), pid, q) == With(s, pid, q)
    {
      assert s.procs[pid := p][pid := q] == s.procs[pid := q];
    }
  }

  /** A new process reaches the loop whenever the lock is free. */
  lemma NewProcessCanLock(start: State, events: seq<Event>, pid: Pid, files: seq<string>) returns (longer: seq<Event>)
    requires IsRun(start, events)
    requires var s := After(start, events); s.lock == None && pid !in s.procs
    ensures IsRun(start, longer) && events <= longer
    ensures var s := After(start, events);
            After(start, longer) == s.(procs := s.procs[pid := Proc(files, Checking, 0)], lock := Some(pid))
  {
    StartSteps(After(start, events), pid, files);
    Extend(start, events, Spawn(pid, files));
    var l1 := events + [Spawn(pid, files)];
    Extend(start, l1, Connect(pid));
    var l2 := l1 + [Connect(pid)];
    Extend(start, l2, Acquire(pid));
    longer := l2 + [Acquire(pid)];
  }

  /** Nothing a crash or failure leaves behind can block the next process: whenever
      the lock is free, a new process can run to the end and apply what is missing. */
  lemma NewProcessCanFinish(start: State, events: seq<Event>, pid: Pid, files: seq<string>) returns (longer: seq<Event>)
    requires Initial(start) && IsRun(start, events)
    requires var s := After(start, events); s.lock == None && pid !in s.procs
    ensures IsRun(start, longer) && events <= longer
    ensures var s := After(start, events);
            var t := After(start, longer);
            && t.procs == s.procs[pid := Proc(files, Finished(true), |files|)]
            && t.lock == None
            && t.log == s.log + Missing(files, s.log)
  {
    RunKeeps(start, events);
    var s := After(start, events);
    var l3 := NewProcessCanLock(start, events, pid, files);
    var l4 := FinishLoop(start, l3, pid);
    assert files[0..] == files;
    Extend(start, l4, Unlock(pid));
    longer := l4 + [Unlock(pid)];
    assert After(start, longer).procs == s.procs[pid := Proc(files, Finished(true), |files|)];
  }

  /** The unlocking query can fail while the session lives: a process that has applied all of its
      files is then done, reports a failure and keeps the lock. */
  lemma FailedUnlockKeepsTheLock(files: seq<string>) returns (events: seq<Event>)
    ensures var start := State(map[], None, {}, []);
            && Initial(start) && IsRun(start, events)
            && var s := After(start, events);
               && s.procs == map[0 := Proc(files, Finished(false), |files|)]
               && s.lock == Some(0) && s.log == Missing(files, [])
  {
    var start := State(map[], None, {}, []);
    assert Members([]) == {};
    var locked := NewProcessCanLock(start, [], 0, files);
    RunKeeps(start, locked);
    var done := FinishLoop(start, locked, 0);
    assert files[0..] == files && [] + Missing(files, []) == Missing(files, []);
    Extend(start, done, FailToUnlock(0));
    events := done + [FailToUnlock(0)];
    assert After(start, events).procs == map[0 := Proc(files, Finished(false), |files|)];
  }

  /** Whoever holds the lock, the end of that session frees it. */
  lemma SessionEndFreesTheLock(start: State, events: seq<Event>)
    requires Initial(start) && IsRun(start, events) && After(start, events).lock.Some?
    ensures var end := Crash(After(start, events).lock.value);
            IsRun(start, events + [end]) && After(start, events + [end]).lock == None
            && After(start, events + [end]).log == After(start, events).log
  {
    RunKeeps(start, events);
    Extend(start, events, Crash(After(start, events).lock.value));
  }

  // ---- processes with different listings ----

  /** A process with listing `a` and then one with listing `b` can each run alone on an empty database. */
  lemma OneAfterTheOther(a: seq<string>, b: seq<string>) returns (events: seq<Event>)
    ensures var start := State(map[], None, {}, []);
            && Initial(start) && IsRun(start, events)
            && After(start, events).log == Missing(a, []) + Missing(b, Missing(a, []))
            && After(start, events).procs == map[0 := Proc(a, Finished(true), |a|), 1 := Proc(b, Finished(true), |b|)]
  {
    var start := State(map[], None, {}, []);
    assert Members([]) == {};
    var first := NewProcessCanFinish(start, [], 0, a);
    assert [] + Missing(a, []) == Missing(a, []);
    events := NewProcessCanFinish(start, first, 1, b);
  }

  lemma {:induction false} NothingMissing(files: seq<string>, log: seq<string>)
    requires NoRepeats(files)
    requires forall f | f in files :: f !in log
    ensures Missing(files, log) == files
  {
    if files != [] {
      var rest := files[1..];
      assert files[0] in files;
      forall f | f in rest
        ensures f !in log + [files[0]]
      {
        var i :| 0 <= i < |rest| && rest[i] == f;
        assert files[i + 1] == f;
      }
      NothingMissing(rest, log + [files[0]]);
    }
  }

  lemma {:induction false} MissingSkips(files: seq<string>, log: seq<string>, n: nat)
    requires n <= |files| && forall i | 0 <= i < n :: files[i] in log
    ensures Missing(files, log) == Missing(files[n..], log)
  {
    if n != 0 {
      MissingSkips(files[1..], log, n - 1);
      assert files[1..][n - 1..] == files[n..];
    }
  }

  /** An older version of the program migrates, then a newer one that has all the
      older files and possibly more.  The database ends up with the newer listing
      in its own order exactly when the newer listing only appends to the older. */
  lemma OldThenNewIsInOrderIff(a: seq<string>, b: seq<string>)
    requires NoRepeats(a) && NoRepeats(b) && Members(a) <= Members(b)
    ensures Missing(a, []) + Missing(b, Missing(a, [])) == b <==> a <= b
  {
    NothingMissing(a, []);
    if a <= b {
      forall i | 0 <= i < |a|
        ensures b[i] in a
      {
        assert b[i] == a[i];
      }
      MissingSkips(b, a, |a|);
      var rest := b[|a|..];
      forall f | f in rest
        ensures f !in a
      {
        var i :| 0 <= i < |rest| && rest[i] == f;
        assert b[|a| + i] == f;
        InPrefix(a, b, |a| + i);
      }
      forall i, j | 0 <= i < j < |rest|
        ensures rest[i] != rest[j]
      {
        assert b[|a| + i] != b[|a| + j];
      }
      NothingMissing(rest, a);
    }
  }

  /** A migration inserted between two applied ones is applied after both. */
  lemma InsertedMigrationRunsLate() returns (events: seq<Event>)
    ensures var start := State(map[], None, {}, []);
            Initial(start) && IsRun(start, events)
            && After(start, events).log == ["0001.sql", "0003.sql", "0002.sql"]
  {
    var a, b := ["0001.sql", "0003.sql"], ["0001.sql", "0002.sql", "0003.sql"];
    events := OneAfterTheOther(a, b);
    assert a[1..] == ["0003.sql"] && a[1..][1..] == [];
    assert b[1..] == ["0002.sql", "0003.sql"] && b[1..][1..] == ["0003.sql"] && b[1..][1..][1..] == [];
    assert "0001.sql"[3] != "0003.sql"[3] && "0002.sql"[3] != "0003.sql"[3] && "0001.sql"[3] != "0002.sql"[3];
    assert Missing(a, []) == a;
    assert Missing(b, a) == ["0002.sql"];
  }
}
