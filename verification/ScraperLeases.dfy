/**
  One scraper run at a time across processes (scrapers/orchestrator.py,
  scrapers/run_lock.py): an advisory lock per scraper, run rows that outlive
  their process, and reconciliation of rows whose process is gone.

  Any number of worker and reconciling processes interleave. A session lock
  lives as long as its session: it is not lost while its owner is alive, and a
  crash frees it.
*/
module ScraperLeases {
  import opened Results

  type Pid = nat
  type RunId = nat
  type Name = string

  datatype Status = Running | Completed | Failed(interrupted: bool)

  datatype Row = Row(scraper: Name, status: Status)

  /** How far a process has come since it took the lock. */
  datatype Stage = Acquired | Finalized | Inserted(run: RunId) | Recorded(run: RunId)

  datatype Process = Process(scraper: Name, worker: bool, stage: Stage)

  /** `abandoned` is history: runs whose owner left before it recorded an outcome. */
  datatype World = World(
    lock: map<Name, Pid>, processes: map<Pid, Process>, rows: map<RunId, Row>, abandoned: set<RunId>)

  // --------------------------------------------------------------------- Row updates

  predicate Unfinished(rows: map<RunId, Row>, scraper: Name, run: RunId) {
    run in rows && rows[run].scraper == scraper && rows[run].status.Running?
  }

  /** `_finalize_interrupted_runs_for_scraper` */
  function FinalizeInterrupted(rows: map<RunId, Row>, scraper: Name): map<RunId, Row> {
    map run | run in rows ::
      if rows[run].scraper == scraper && rows[run].status.Running? then Row(scraper, Failed(true)) else rows[run]
  }

  function InsertRow(rows: map<RunId, Row>, scraper: Name, run: RunId): map<RunId, Row> {
    rows[run := Row(scraper, Running)]
  }

  function RecordOutcome(rows: map<RunId, Row>, scraper: Name, run: RunId, completed: bool): map<RunId, Row> {
    rows[run := Row(scraper, if completed then Completed else Failed(false))]
  }

  // ------------------------------------------------------------------------- Actions

  datatype Action =
    | Acquire(pid: Pid, scraper: Name, worker: bool)
    | Finalize(pid: Pid)
    | Insert(pid: Pid, run: RunId)
    | Record(pid: Pid, completed: bool)
    | Release(pid: Pid)
    | Crash(pid: Pid)

  predicate Enabled(w: World, a: Action) {
    match a
    case Acquire(pid, scraper, _) => pid !in w.processes && scraper !in w.lock
    case Finalize(pid) => pid in w.processes && w.processes[pid].stage.Acquired?
    case Insert(pid, run) =>
      pid in w.processes && w.processes[pid].worker && w.processes[pid].stage.Finalized? && run !in w.rows
    case Record(pid, _) => pid in w.processes && w.processes[pid].stage.Inserted?
    case Release(pid) => pid in w.processes
    case Crash(pid) => pid in w.processes
  }

  function Unlock(lock: map<Name, Pid>, scraper: Name): map<Name, Pid> {
    map n | n in lock && n != scraper :: lock[n]
  }

  /** The lock is free again, whether it was released or its session died. */
  function Leave(w: World, pid: Pid): World
    requires pid in w.processes
  {
    var p := w.processes[pid];
    World(Unlock(w.lock, p.scraper),
          map q | q in w.processes && q != pid :: w.processes[q],
          w.rows,
          w.abandoned + if p.stage.Inserted? then {p.stage.run} else {})
  }

  function Next(w: World, a: Action): World
    requires Enabled(w, a)
  {
    match a
    case Acquire(pid, scraper, worker) =>
      w.(lock := w.lock[scraper := pid], processes := w.processes[pid := Process(scraper, worker, Acquired)])
    case Finalize(pid) =>
      var p := w.processes[pid];
      w.(rows := FinalizeInterrupted(w.rows, p.scraper), processes := w.processes[pid := p.(stage := Finalized)])
    case Insert(pid, run) =>
      var p := w.processes[pid];
      w.(rows := InsertRow(w.rows, p.scraper, run), processes := w.processes[pid := p.(stage := Inserted(run))])
    case Record(pid, completed) =>
      var p := w.processes[pid];
      w.(rows := RecordOutcome(w.rows, p.scraper, p.stage.run, completed),
         processes := w.processes[pid := p.(stage := Recorded(p.stage.run))])
    case Release(pid) => Leave(w, pid)
    case Crash(pid) => Leave(w, pid)
  }

  // ----------------------------------------------------------------------- Invariant

  ghost predicate LockExact(w: World) {
    && (forall n :: n in w.lock ==> w.lock[n] in w.processes && w.processes[w.lock[n]].scraper == n)
    && (forall p :: p in w.processes ==> w.processes[p].scraper in w.lock && w.lock[w.processes[p].scraper] == p)
  }

  /** The rows a lock holder of this stage can see unfinished. */
  ghost predicate RowsFit(w: World, pid: Pid)
    requires pid in w.processes
  {
    var p := w.processes[pid];
    match p.stage
    case Acquired => true
    case Finalized => forall r :: !Unfinished(w.rows, p.scraper, r)
    case Recorded(_) => forall r :: !Unfinished(w.rows, p.scraper, r)
    case Inserted(run) => forall r :: Unfinished(w.rows, p.scraper, r) <==> r == run
  }

  ghost predicate Live(w: World, run: RunId) {
    exists p :: p in w.processes && w.processes[p].stage == Inserted(run)
  }

  ghost predicate Invariant(w: World) {
    && LockExact(w)
    && (forall p :: p in w.processes ==> RowsFit(w, p))
    && (forall s, a, b :: Unfinished(w.rows, s, a) && Unfinished(w.rows, s, b) ==> a == b)
    && (forall r :: r in w.rows && w.rows[r].status.Running? ==> r in w.abandoned || Live(w, r))
    && (forall r :: r in w.rows && w.rows[r].status == Failed(true) ==> r in w.abandoned)
    && (forall r :: r in w.abandoned ==> r in w.rows && !Live(w, r) && w.rows[r].status in {Running, Failed(true)})
    && (forall p :: p in w.processes && w.processes[p].stage.Inserted? ==> w.processes[p].stage.run in w.rows)
  }

  const EMPTY_WORLD: World := World(map[], map[], map[], {})

  lemma EmptyWorldIsFine()
    ensures Invariant(EMPTY_WORLD)
  {
  }

  lemma AcquireKeeps(w: World, a: Action)
    requires Invariant(w) && a.Acquire? && Enabled(w, a)
    ensures Invariant(Next(w, a))
  {
    var after := Next(w, a);
    forall r ensures Live(w, r) <==> Live(after, r) {
      if p :| p in w.processes && w.processes[p].stage == Inserted(r) {
        assert after.processes[p].stage == Inserted(r);
      }
    }
    forall p | p in after.processes ensures RowsFit(after, p) {
      assert p != a.pid ==> RowsFit(w, p);
    }
  }

  lemma LiveRowBelongs(w: World, pid: Pid, run: RunId)
    requires Invariant(w) && pid in w.processes && w.processes[pid].stage == Inserted(run)
    ensures Unfinished(w.rows, w.processes[pid].scraper, run) && w.lock[w.processes[pid].scraper] == pid
  {
  }

  lemma FinalizeKeeps(w: World, a: Action)
    requires Invariant(w) && a.Finalize? && Enabled(w, a)
    ensures Invariant(Next(w, a))
  {
    var after := Next(w, a);
    var scraper := w.processes[a.pid].scraper;
    forall r ensures Live(w, r) <==> Live(after, r) {
      if p :| p in w.processes && w.processes[p].stage == Inserted(r) {
        assert after.processes[p].stage == Inserted(r);
      }
    }
    forall p | p in after.processes ensures RowsFit(after, p) {
      if p != a.pid {
        assert RowsFit(w, p);
        assert w.processes[p].scraper != scraper;
        forall r ensures Unfinished(after.rows, w.processes[p].scraper, r) <==> Unfinished(w.rows, w.processes[p].scraper, r) {
        }
      }
    }
    forall r | r in w.rows && w.rows[r].scraper == scraper && w.rows[r].status.Running? ensures r in w.abandoned {
      assert !Live(w, r) by {
        if p :| p in w.processes && w.processes[p].stage == Inserted(r) {
          LiveRowBelongs(w, p, r);
        }
      }
    }
    forall s, x, y | Unfinished(after.rows, s, x) && Unfinished(after.rows, s, y) ensures x == y {
      assert Unfinished(w.rows, s, x) && Unfinished(w.rows, s, y);
    }
  }

  lemma InsertKeeps(w: World, a: Action)
    requires Invariant(w) && a.Insert? && Enabled(w, a)
    ensures Invariant(Next(w, a))
  {
    var after := Next(w, a);
    var scraper := w.processes[a.pid].scraper;
    assert RowsFit(w, a.pid);
    assert after.processes[a.pid].stage == Inserted(a.run);
    forall r ensures Live(after, r) <==> Live(w, r) || r == a.run {
      if p :| p in w.processes && w.processes[p].stage == Inserted(r) {
        assert after.processes[p].stage == Inserted(r);
      }
    }
    forall s, r ensures Unfinished(after.rows, s, r) <==> Unfinished(w.rows, s, r) || (s == scraper && r == a.run) {
    }
    forall p | p in after.processes ensures RowsFit(after, p) {
      if p != a.pid {
        assert RowsFit(w, p);
        assert w.processes[p].scraper != scraper;
      }
    }
  }

  lemma RecordKeeps(w: World, a: Action)
    requires Invariant(w) && a.Record? && Enabled(w, a)
    ensures Invariant(Next(w, a))
  {
    var after := Next(w, a);
    var scraper, run := w.processes[a.pid].scraper, w.processes[a.pid].stage.run;
    assert RowsFit(w, a.pid);
    assert Unfinished(w.rows, scraper, run);
    assert Live(w, run);
    forall p | p in w.processes && w.processes[p].stage == Inserted(run) ensures p == a.pid {
      assert RowsFit(w, p);
      assert Unfinished(w.rows, w.processes[p].scraper, run);
    }
    forall r ensures Live(after, r) <==> Live(w, r) && r != run {
      if p :| p in w.processes && w.processes[p].stage == Inserted(r) && r != run {
        assert after.processes[p].stage == Inserted(r);
      }
    }
    forall s, r ensures Unfinished(after.rows, s, r) <==> Unfinished(w.rows, s, r) && r != run {
    }
    forall p | p in after.processes ensures RowsFit(after, p) {
      if p != a.pid {
        assert RowsFit(w, p);
        assert w.processes[p].scraper != scraper;
      }
    }
  }

  lemma LeaveKeeps(w: World, pid: Pid)
    requires Invariant(w) && pid in w.processes
    ensures Invariant(Leave(w, pid))
  {
    var after := Leave(w, pid);
    var p := w.processes[pid];
    if p.stage.Inserted? {
      assert RowsFit(w, pid);
      assert Unfinished(w.rows, p.scraper, p.stage.run);
      forall q | q in w.processes && w.processes[q].stage == Inserted(p.stage.run) ensures q == pid {
        assert RowsFit(w, q);
        assert Unfinished(w.rows, w.processes[q].scraper, p.stage.run);
      }
    }
    forall r ensures Live(after, r) <==> Live(w, r) && p.stage != Inserted(r) {
      if q :| q in w.processes && w.processes[q].stage == Inserted(r) && p.stage != Inserted(r) {
        assert after.processes[q].stage == Inserted(r);
      }
    }
    forall q | q in after.processes ensures RowsFit(after, q) {
      assert RowsFit(w, q);
    }
  }

  lemma ActionKeepsInvariant(w: World, a: Action)
    requires Invariant(w) && Enabled(w, a)
    ensures Invariant(Next(w, a))
  {
    hide Invariant;
    match a
    case Acquire(_, _, _) => AcquireKeeps(w, a);
    case Finalize(_) => FinalizeKeeps(w, a);
    case Insert(_, _) => InsertKeeps(w, a);
    case Record(_, _) => RecordKeeps(w, a);
    case Release(pid) => LeaveKeeps(w, pid);
    case Crash(pid) => LeaveKeeps(w, pid);
  }

  // ----------------------------------------------------------------- Whole histories

  predicate Legal(w: World, actions: seq<Action>)
    decreases |actions|
  {
    actions == [] || (Enabled(w, actions[0]) && Legal(Next(w, actions[0]), actions[1..]))
  }

  function Execute(w: World, actions: seq<Action>): World
    requires Legal(w, actions)
    decreases |actions|
  {
    if actions == [] then w else Execute(Next(w, actions[0]), actions[1..])
  }

  lemma {:induction false} HistoryKeepsInvariant(w: World, actions: seq<Action>)
    requires Invariant(w) && Legal(w, actions)
    ensures Invariant(Execute(w, actions))
    decreases |actions|
  {
    if actions != [] {
      ActionKeepsInvariant(w, actions[0]);
      HistoryKeepsInvariant(Next(w, actions[0]), actions[1..]);
    }
  }

  /** In every reachable state a scraper has at most one unfinished row. */
  lemma AtMostOneUnfinishedRow(actions: seq<Action>, scraper: Name, a: RunId, b: RunId)
    requires Legal(EMPTY_WORLD, actions)
    requires Unfinished(Execute(EMPTY_WORLD, actions).rows, scraper, a)
    requires Unfinished(Execute(EMPTY_WORLD, actions).rows, scraper, b)
    ensures a == b
  {
    EmptyWorldIsFine();
    HistoryKeepsInvariant(EMPTY_WORLD, actions);
  }

  /** A live run's row stays unfinished whatever the others do: only its own process ends it. */
  lemma LiveRunIsNeverInterrupted(actions: seq<Action>, pid: Pid, run: RunId, a: Action)
    requires Legal(EMPTY_WORLD, actions)
    requires var w := Execute(EMPTY_WORLD, actions);
             pid in w.processes && w.processes[pid].stage == Inserted(run) && Enabled(w, a) && a.pid != pid
    ensures var w := Execute(EMPTY_WORLD, actions);
            Unfinished(w.rows, w.processes[pid].scraper, run) && Next(w, a).rows[run] == w.rows[run]
            && pid in Next(w, a).processes && Next(w, a).processes[pid] == w.processes[pid]
  {
    var w := Execute(EMPTY_WORLD, actions);
    EmptyWorldIsFine();
    HistoryKeepsInvariant(EMPTY_WORLD, actions);
    LiveRowBelongs(w, pid, run);
    if a.Record? {
      LiveRowBelongs(w, a.pid, w.processes[a.pid].stage.run);
    } else if a.Finalize? {
      assert w.processes[a.pid].scraper != w.processes[pid].scraper;
    }
  }

  /** When a new row is inserted, every earlier row of the scraper is already finished. */
  lemma CrashedRunsAreFinalizedFirst(actions: seq<Action>, pid: Pid, run: RunId)
    requires Legal(EMPTY_WORLD, actions) && Enabled(Execute(EMPTY_WORLD, actions), Insert(pid, run))
    ensures var w := Execute(EMPTY_WORLD, actions);
            forall r :: r in w.rows && w.rows[r].scraper == w.processes[pid].scraper ==> !w.rows[r].status.Running?
  {
    var w := Execute(EMPTY_WORLD, actions);
    EmptyWorldIsFine();
    HistoryKeepsInvariant(EMPTY_WORLD, actions);
    assert RowsFit(w, pid);
    forall r | r in w.rows && w.rows[r].scraper == w.processes[pid].scraper ensures !w.rows[r].status.Running? {
      assert !Unfinished(w.rows, w.processes[pid].scraper, r);
    }
  }

  /** "Interrupted" is told only of runs whose process left before recording an outcome. */
  lemma InterruptedMeansAbandoned(actions: seq<Action>, run: RunId)
    requires Legal(EMPTY_WORLD, actions)
    requires run in Execute(EMPTY_WORLD, actions).rows
    ensures var w := Execute(EMPTY_WORLD, actions);
            && (w.rows[run].status == Failed(true) ==> run in w.abandoned)
            && (run in w.abandoned ==> !Live(w, run) && w.rows[run].status in {Running, Failed(true)})
  {
    EmptyWorldIsFine();
    HistoryKeepsInvariant(EMPTY_WORLD, actions);
  }

  /** An outcome, once recorded, is never changed. */
  lemma {:induction false} OutcomesAreFinal(w: World, actions: seq<Action>, run: RunId)
    requires Invariant(w) && Legal(w, actions)
    requires run in w.rows && !w.rows[run].status.Running?
    ensures run in Execute(w, actions).rows && Execute(w, actions).rows[run] == w.rows[run]
    decreases |actions|
  {
    if actions != [] {
      var a := actions[0];
      if a.Record? {
        assert RowsFit(w, a.pid);
        assert Unfinished(w.rows, w.processes[a.pid].scraper, w.processes[a.pid].stage.run);
      }
      ActionKeepsInvariant(w, a);
      OutcomesAreFinal(Next(w, a), actions[1..], run);
    }
  }

  // --------------------------------------------------------- What the rows end up saying

  /** The process working on `run` recorded that it succeeded, or that it failed. */
  predicate Records(w: World, a: Action, run: RunId, success: bool)
    requires Enabled(w, a)
  {
    a.Record? && a.completed == success && w.processes[a.pid].stage == Inserted(run)
  }

  predicate RecordedAs(w: World, actions: seq<Action>, run: RunId, success: bool)
    requires Legal(w, actions)
    decreases |actions|
  {
    actions != [] && (Records(w, actions[0], run, success) || RecordedAs(Next(w, actions[0]), actions[1..], run, success))
  }

  lemma StatusStep(w: World, a: Action, run: RunId, success: bool)
    requires Invariant(w) && Enabled(w, a)
    ensures var status := if success then Completed else Failed(false);
            Records(w, a, run, success) ==> run in Next(w, a).rows && Next(w, a).rows[run].status == status
    ensures var status := if success then Completed else Failed(false);
            run in Next(w, a).rows && Next(w, a).rows[run].status == status ==>
              Records(w, a, run, success) || (run in w.rows && w.rows[run].status == status)
  {
  }

  lemma {:induction false} StatusOverHistory(w: World, actions: seq<Action>, run: RunId, success: bool)
    requires Invariant(w) && Legal(w, actions)
    ensures var status := if success then Completed else Failed(false);
            var after := Execute(w, actions).rows;
            run in after && after[run].status == status <==>
              RecordedAs(w, actions, run, success) || (run in w.rows && w.rows[run].status == status)
    decreases |actions|
  {
    if actions != [] {
      hide Invariant, Records;
      var status := if success then Completed else Failed(false);
      var next := Next(w, actions[0]);
      ActionKeepsInvariant(w, actions[0]);
      StatusStep(w, actions[0], run, success);
      StatusOverHistory(next, actions[1..], run, success);
      if run in w.rows && w.rows[run].status == status {
        OutcomesAreFinal(w, actions, run);
      }
    }
  }

  /** A row says completed exactly if the process of its run recorded success, and failed exactly if it recorded failure. */
  lemma RowsTellTheOutcome(actions: seq<Action>, run: RunId)
    requires Legal(EMPTY_WORLD, actions)
    ensures var rows := Execute(EMPTY_WORLD, actions).rows;
            && (run in rows && rows[run].status == Completed <==> RecordedAs(EMPTY_WORLD, actions, run, true))
            && (run in rows && rows[run].status == Failed(false) <==> RecordedAs(EMPTY_WORLD, actions, run, false))
  {
    EmptyWorldIsFine();
    StatusOverHistory(EMPTY_WORLD, actions, run, true);
    StatusOverHistory(EMPTY_WORLD, actions, run, false);
  }

  // ------------------------------------------------------------------------ The code

  const ACQUIRE_ATTEMPTS: nat := 20

  /** The session holds the scraper's lock. */
  predicate Holds(holder: map<Name, nat>, scraper: Name, connection: nat) {
    scraper in holder && holder[scraper] == connection
  }

  /** The server's table of session locks: which connection holds which scraper's lock. */
  class LockServer {
    var holder: map<Name, nat>

    constructor ()
      ensures holder == map[]
    {
      holder := map[];
    }

    /** Other sessions took and freed locks. */
    method Become(others: map<Name, nat>)
      modifies this
      ensures holder == others
    {
      holder := others;
    }

    /** `pg_try_advisory_lock` on a fresh connection. */
    method TryLock(scraper: Name, connection: nat) returns (acquired: bool)
      modifies this
      ensures acquired == (scraper !in old(holder))
      ensures holder == if acquired then old(holder)[scraper := connection] else old(holder)
    {
      acquired := scraper !in holder;
      if acquired {
        holder := holder[scraper := connection];
      }
    }

    method Unlock(scraper: Name, connection: nat) returns (unlocked: bool)
      modifies this
      ensures unlocked == (scraper in old(holder) && old(holder)[scraper] == connection)
      ensures holder == if unlocked then old(holder) - {scraper} else old(holder)
    {
      unlocked := Holds(holder, scraper, connection);
      if unlocked {
        holder := holder - {scraper};
      }
    }
  }

  class ScraperLease {
    const server: LockServer
    const scraper: Name
    const connection: nat
    var released: bool

    constructor (server: LockServer, scraper: Name, connection: nat)
      ensures this.server == server && this.scraper == scraper && this.connection == connection && !released
    {
      this.server, this.scraper, this.connection, released := server, scraper, connection, false;
    }

    /** `ensure_held` */
    method EnsureHeld() returns (held: bool)
      ensures held == (scraper in server.holder && server.holder[scraper] == connection)
    {
      held := Holds(server.holder, scraper, connection);
    }

    /**
      Releases once: a second call leaves the server alone, whoever holds the lock
      by then. `lost` reports a lock that was no longer held.
    */
    method Release() returns (lost: bool)
      modifies this, server
      ensures released
      ensures old(released) ==> !lost && server.holder == old(server.holder)
      ensures !old(released) ==>
                && lost == !Holds(old(server.holder), scraper, connection)
                && server.holder == if lost then old(server.holder) else old(server.holder) - {scraper}
    {
      if released {
        return false;
      }
      released := true;
      var unlocked := server.Unlock(scraper, connection);
      return !unlocked;
    }
  }

  class RunTable {
    var rows: map<RunId, Row>

    constructor (rows: map<RunId, Row>)
      ensures this.rows == rows
    {
      this.rows := rows;
    }

    method FinalizeInterruptedRuns(scraper: Name)
      modifies this
      ensures rows == FinalizeInterrupted(old(rows), scraper)
      ensures rows.Keys == old(rows).Keys
      ensures forall r :: r in old(rows) ==>
                rows[r] == if old(rows)[r].scraper == scraper && old(rows)[r].status == Running
                           then Row(scraper, Failed(true)) else old(rows)[r]
    {
      var stale := set run | run in rows && rows[run].scraper == scraper && rows[run].status.Running?;
      ghost var all := stale;
      while stale != {}
        invariant stale <= all && rows.Keys == old(rows).Keys
        invariant forall run :: run in rows ==>
                    rows[run] == if run in all - stale then Row(scraper, Failed(true)) else old(rows)[run]
      {
        var run :| run in stale;
        rows := rows[run := Row(scraper, Failed(true))];
        stale := stale - {run};
      }
      assert rows == FinalizeInterrupted(old(rows), scraper);
    }

    /**
      `_run_scraper_guarded`: up to twenty tries for the lock, then, under the lease,
      stale rows are finalized before the new row exists, the outcome is recorded on
      that row, and the lease is released. Meanwhile other sessions take and free
      locks: `elsewhere(k)` is the lock table try `k` meets, `atStart` and `atEnd` the
      ones before and after the scraper's work, which ends well if `finished`.
    */
    method RunScraperGuarded(
      server: LockServer, connection: nat, elsewhere: nat -> map<Name, nat>, atStart: map<Name, nat>,
      atEnd: map<Name, nat>, scraper: Name, run: RunId, finished: bool)
      returns (ran: bool, lost: bool)
      requires run !in rows
      modifies this, server
      ensures ran <==> exists k: nat :: k < ACQUIRE_ATTEMPTS && scraper !in elsewhere(k)
      ensures !ran ==> rows == old(rows) && server.holder == elsewhere(ACQUIRE_ATTEMPTS - 1) && !lost
      ensures ran ==>
                && rows == RecordOutcome(
                             InsertRow(FinalizeInterrupted(old(rows), scraper), scraper, run), scraper, run,
                             finished && Holds(atStart, scraper, connection) && Holds(atEnd, scraper, connection))
                && rows.Keys == old(rows).Keys + {run} && rows[run].scraper == scraper
                && (rows[run].status == Completed <==>
                      finished && Holds(atStart, scraper, connection) && Holds(atEnd, scraper, connection))
                && (rows[run].status != Completed ==> rows[run].status == Failed(false))
                && (forall r :: r in old(rows) ==>
                      rows[r] == if old(rows)[r].scraper == scraper && old(rows)[r].status == Running
                                 then Row(scraper, Failed(true)) else old(rows)[r])
                && lost == !Holds(atEnd, scraper, connection)
                && server.holder == if lost then atEnd else atEnd - {scraper}
    {
      hide FinalizeInterrupted;
      ran, lost := false, false;
      for attempt := 0 to ACQUIRE_ATTEMPTS
        invariant rows == old(rows) && !ran
        invariant forall k: nat :: k < attempt ==> scraper in elsewhere(k)
        invariant attempt > 0 ==> server.holder == elsewhere(attempt - 1)
      {
        server.Become(elsewhere(attempt));
        ran := server.TryLock(scraper, connection);
        if ran {
          break;
        }
      }
      if !ran {
        return;
      }
      var lease := new ScraperLease(server, scraper, connection);
      FinalizeInterruptedRuns(scraper);
      rows := InsertRow(rows, scraper, run);
      server.Become(atStart);
      var held := lease.EnsureHeld();
      server.Become(atEnd);
      if held && finished {
        held := lease.EnsureHeld();
      }
      rows := RecordOutcome(rows, scraper, run, held && finished);
      lost := lease.Release();
    }
  }
}
