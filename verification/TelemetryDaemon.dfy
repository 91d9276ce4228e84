/**
  The telemetry daemon (telemetry/daemon.py): startup attempts with a retry
  budget, one daily attempt per date, and a health state that stays unhealthy
  until some work succeeds. The worker, the clock and the configuration are the
  inputs of each loop iteration; the log records launches and exits.
*/
module TelemetryDaemons {
  import opened Results

  const STARTUP_MAX_TRANSIENT_FAILURES: nat := 5
  const EXIT_OK: int := 0
  const EXIT_TERMINAL: int := 78
  const EXIT_NOOP: int := 79

  datatype Trigger = Startup | Daily

  datatype Health = Starting | Active | Healthy | Degraded | Disabled | Unhealthy

  /** `exited`: the exit code if the worker is found finished, or 124 if it had to be stopped at its deadline. */
  datatype Input = Input(enabled: bool, exited: Option<int>, date: int, launches: bool)

  datatype Event = Launched(trigger: Trigger, date: int) | LaunchFailed(trigger: Trigger, date: int) | Exited(trigger: Trigger, code: int)

  datatype State = State(
    startupPending: bool,
    startupFailures: nat,
    lastDaily: Option<int>,
    worker: Option<Trigger>,
    lastEnabled: Option<bool>,
    health: Health,
    log: seq<Event>)

  const INITIAL: State := State(true, 0, None, None, None, Starting, [])

  // ------------------------------------------------------------- One iteration

  function NoteConfiguration(s: State, enabled: bool): State {
    if s.lastEnabled == Some(enabled) then s
    else s.(lastEnabled := Some(enabled), health := if enabled then Active else Disabled)
  }

  /** One more transient startup failure; the fifth gives up. */
  function StartupFailure(s: State): State {
    if s.startupFailures + 1 >= STARTUP_MAX_TRANSIENT_FAILURES then
      s.(startupFailures := s.startupFailures + 1, startupPending := false, health := Unhealthy)
    else
      s.(startupFailures := s.startupFailures + 1, health := Degraded)
  }

  /** Reaps a finished worker; `true` means the iteration ends here, after a pause. */
  function Reap(s: State, code: int): (State, bool)
    requires s.worker.Some?
  {
    var trigger := s.worker.value;
    var reaped := s.(worker := None, log := s.log + [Exited(trigger, code)],
                     health := if code == EXIT_OK then Healthy else s.health);
    match trigger
    case Startup =>
      if code == EXIT_OK then (reaped.(startupPending := false, startupFailures := 0), false)
      else if code == EXIT_TERMINAL then (reaped.(startupPending := false, health := Unhealthy), false)
      else
        var failed := StartupFailure(reaped);
        (failed, failed.startupPending)
    case Daily =>
      (if code == EXIT_OK || code == EXIT_NOOP then reaped else reaped.(health := Unhealthy), false)
  }

  function DueTrigger(s: State, date: int): Option<Trigger> {
    if s.startupPending then Some(Startup)
    else if s.lastDaily != Some(date) then Some(Daily)
    else None
  }

  function Launch(s: State, trigger: Trigger, input: Input): State {
    if input.launches then
      s.(worker := Some(trigger), log := s.log + [Launched(trigger, input.date)],
         health := if s.health.Unhealthy? then Unhealthy else Active,
         lastDaily := if trigger.Daily? then Some(input.date) else s.lastDaily)
    else
      var failed := s.(log := s.log + [LaunchFailed(trigger, input.date)]);
      match trigger
      case Startup => StartupFailure(failed)
      case Daily => failed.(lastDaily := Some(input.date), health := Unhealthy)
  }

  function LaunchIfDue(s: State, input: Input): State {
    if s.worker.None? && input.enabled && DueTrigger(s, input.date).Some? then
      Launch(s, DueTrigger(s, input.date).value, input)
    else s
  }

  function Step(s: State, input: Input): State {
    var noted := NoteConfiguration(s, input.enabled);
    if noted.worker.Some? && input.exited.Some? then
      var (reaped, pause) := Reap(noted, input.exited.value);
      if pause then reaped else LaunchIfDue(reaped, input)
    else LaunchIfDue(noted, input)
  }

  function Run(s: State, inputs: seq<Input>): State
    decreases |inputs|
  {
    if inputs == [] then s else Run(Step(s, inputs[0]), inputs[1..])
  }

  // ------------------------------------------------------------------ The daemon

  class TelemetryDaemon {
    var startupPending: bool
    var startupFailures: nat
    var lastDaily: Option<int>
    var worker: Option<Trigger>
    var lastEnabled: Option<bool>
    var health: Health
    var log: seq<Event>

    ghost function View(): State
      reads this
    {
      State(startupPending, startupFailures, lastDaily, worker, lastEnabled, health, log)
    }

    constructor ()
      ensures View() == INITIAL
    {
      startupPending, startupFailures, lastDaily := true, 0, None;
      worker, lastEnabled, health, log := None, None, Starting, [];
    }

    method NoteStartupFailure() returns (retry: bool)
      modifies this
      ensures View() == StartupFailure(old(View())) && retry == (startupFailures < STARTUP_MAX_TRANSIENT_FAILURES)
    {
      startupFailures := startupFailures + 1;
      if startupFailures >= STARTUP_MAX_TRANSIENT_FAILURES {
        startupPending := false;
        health := Unhealthy;
        return false;
      }
      health := Degraded;
      return true;
    }

    method ReapWorker(code: int) returns (pause: bool)
      requires worker.Some? && (worker == Some(Startup) ==> startupPending)
      modifies this
      ensures (View(), pause) == Reap(old(View()), code)
    {
      var completed := worker.value;
      worker := None;
      log := log + [Exited(completed, code)];
      if code == EXIT_OK {
        health := Healthy;
      }
      pause := false;
      if completed.Startup? {
        if code == EXIT_OK {
          startupPending, startupFailures := false, 0;
        } else if code == EXIT_TERMINAL {
          startupPending, health := false, Unhealthy;
        } else {
          pause := NoteStartupFailure();
        }
      } else if code != EXIT_OK && code != EXIT_NOOP {
        health := Unhealthy;
      }
    }

    method LaunchDueWorker(input: Input)
      modifies this
      ensures View() == LaunchIfDue(old(View()), input)
    {
      if worker.Some? || !input.enabled {
        return;
      }
      var trigger;
      if startupPending {
        trigger := Startup;
      } else if lastDaily != Some(input.date) {
        trigger := Daily;
      } else {
        return;
      }
      if input.launches {
        worker := Some(trigger);
        log := log + [Launched(trigger, input.date)];
        if health != Unhealthy {
          health := Active;
        }
        if trigger.Daily? {
          lastDaily := Some(input.date);
        }
      } else {
        log := log + [LaunchFailed(trigger, input.date)];
        if trigger.Startup? {
          var _ := NoteStartupFailure();
        } else {
          lastDaily, health := Some(input.date), Unhealthy;
        }
      }
    }

    method Iterate(input: Input)
      requires worker == Some(Startup) ==> startupPending
      modifies this
      ensures View() == Step(old(View()), input)
    {
      if lastEnabled != Some(input.enabled) {
        lastEnabled := Some(input.enabled);
        health := if input.enabled then Active else Disabled;
      }
      if worker.Some? && input.exited.Some? {
        var pause := ReapWorker(input.exited.value);
        if pause {
          return;
        }
      }
      LaunchDueWorker(input);
    }

    /** `run_telemetry_daemon` */
    method RunDaemon(inputs: seq<Input>)
      requires View() == INITIAL
      modifies this
      ensures View() == Run(INITIAL, inputs)
    {
      for i := 0 to |inputs|
        invariant Run(View(), inputs[i..]) == Run(INITIAL, inputs)
        invariant Invariant(View())
      {
        assert inputs[i..][1..] == inputs[i + 1..];
        StepKeepsInvariant(View(), inputs[i]);
        Iterate(inputs[i]);
      }
    }
  }

  // ----------------------------------------------------------- What the log shows

  function CountLaunches(log: seq<Event>, trigger: Trigger): nat {
    if log == [] then 0
    else
      var last := log[|log| - 1];
      CountLaunches(log[..|log| - 1], trigger) + if !last.Exited? && last.trigger == trigger then 1 else 0
  }

  /** Workers launched and not yet reaped. */
  function Workers(log: seq<Event>): int {
    if log == [] then 0
    else
      var last := log[|log| - 1];
      Workers(log[..|log| - 1]) + if last.Launched? then 1 else if last.Exited? then -1 else 0
  }

  predicate IsLaunch(e: Event, trigger: Trigger) {
    !e.Exited? && e.trigger == trigger
  }

  /** No startup attempt follows a daily attempt. */
  ghost predicate StartupFirst(log: seq<Event>) {
    forall i, j :: 0 <= i < j < |log| && IsLaunch(log[i], Daily) ==> !IsLaunch(log[j], Startup)
  }

  ghost predicate AttemptsAccounted(s: State) {
    var attempts := CountLaunches(s.log, Startup);
    if s.startupPending then attempts == s.startupFailures + (if s.worker == Some(Startup) then 1 else 0)
    else attempts <= STARTUP_MAX_TRANSIENT_FAILURES
  }

  predicate Coherent(s: State) {
    && (s.startupPending ==> s.startupFailures < STARTUP_MAX_TRANSIENT_FAILURES && s.lastDaily.None? && s.worker != Some(Daily))
    && (s.worker == Some(Startup) ==> s.startupPending)
    && (s.health.Unhealthy? ==> !s.startupPending)
  }

  ghost predicate Invariant(s: State) {
    && Coherent(s)
    && Workers(s.log) == (if s.worker.Some? then 1 else 0)
    && AttemptsAccounted(s)
    && StartupFirst(s.log)
    && (s.startupPending ==> forall i :: 0 <= i < |s.log| ==> !IsLaunch(s.log[i], Daily))
  }

  lemma LogGrows(log: seq<Event>, e: Event)
    ensures CountLaunches(log + [e], Startup) == CountLaunches(log, Startup) + if IsLaunch(e, Startup) then 1 else 0
    ensures Workers(log + [e]) == Workers(log) + if e.Launched? then 1 else if e.Exited? then -1 else 0
    ensures (IsLaunch(e, Startup) ==> forall i :: 0 <= i < |log| ==> !IsLaunch(log[i], Daily)) && StartupFirst(log) ==>
              StartupFirst(log + [e])
  {
  }

  lemma ReapKeepsInvariant(s: State, code: int)
    requires Invariant(s) && s.worker.Some?
    ensures Invariant(Reap(s, code).0)
  {
    hide CountLaunches, Workers, StartupFirst;
    LogGrows(s.log, Exited(s.worker.value, code));
  }

  lemma LaunchKeepsInvariant(s: State, input: Input)
    requires Invariant(s)
    ensures Invariant(LaunchIfDue(s, input))
  {
    hide CountLaunches, Workers, StartupFirst;
    var trigger := DueTrigger(s, input.date);
    if s.worker.None? && input.enabled && trigger.Some? {
      LogGrows(s.log, if input.launches then Launched(trigger.value, input.date) else LaunchFailed(trigger.value, input.date));
    }
  }

  lemma StepKeepsInvariant(s: State, input: Input)
    requires Invariant(s)
    ensures Invariant(Step(s, input))
  {
    hide LaunchIfDue, Reap;
    var noted := NoteConfiguration(s, input.enabled);
    assert Invariant(noted);
    if noted.worker.Some? && input.exited.Some? {
      ReapKeepsInvariant(noted, input.exited.value);
      LaunchKeepsInvariant(Reap(noted, input.exited.value).0, input);
    } else {
      LaunchKeepsInvariant(noted, input);
    }
  }

  lemma {:induction false} RunKeepsInvariant(s: State, inputs: seq<Input>)
    requires Invariant(s)
    ensures Invariant(Run(s, inputs))
    decreases |inputs|
  {
    if inputs != [] {
      StepKeepsInvariant(s, inputs[0]);
      RunKeepsInvariant(Step(s, inputs[0]), inputs[1..]);
    }
  }

  /**
    Over every run: at most one worker at a time, at most five startup attempts
    in all, none of them after a daily attempt, and unhealthy only once the
    startup is settled.
  */
  lemma DaemonIsSafe(inputs: seq<Input>)
    ensures var s := Run(INITIAL, inputs);
            && 0 <= Workers(s.log) <= 1
            && CountLaunches(s.log, Startup) <= STARTUP_MAX_TRANSIENT_FAILURES
            && StartupFirst(s.log)
            && (s.health.Unhealthy? ==> !s.startupPending)
            && (s.startupPending ==> CountLaunches(s.log, Daily) == 0)
  {
    RunKeepsInvariant(INITIAL, inputs);
    var s := Run(INITIAL, inputs);
    if s.startupPending {
      NoDailyCounted(s.log);
    }
  }

  lemma {:induction false} NoDailyCounted(log: seq<Event>)
    requires forall i :: 0 <= i < |log| ==> !IsLaunch(log[i], Daily)
    ensures CountLaunches(log, Daily) == 0
  {
    if log != [] {
      var before := log[..|log| - 1];
      assert forall i :: 0 <= i < |before| ==> before[i] == log[i];
      assert !IsLaunch(log[|log| - 1], Daily);
      NoDailyCounted(before);
    }
  }

  /**
    Startup is settled exactly by a startup worker that exits 0 or 78, or by one
    failure more after four: of such a worker, or of a launch.
  */
  lemma StartupSettlesWithCause(s: State, input: Input)
    requires Invariant(s) && s.startupPending
    ensures !Step(s, input).startupPending <==>
              || (s.worker == Some(Startup) && input.exited in {Some(EXIT_OK), Some(EXIT_TERMINAL)})
              || (&& s.startupFailures == STARTUP_MAX_TRANSIENT_FAILURES - 1
                  && (|| (s.worker == Some(Startup) && input.exited.Some?)
                      || (s.worker.None? && input.enabled && !input.launches)))
  {
  }

  // ------------------------------------------------------------ One daily a date

  /** The dates of the daily attempts, in order. */
  function DailiesOf(log: seq<Event>): seq<int> {
    if log == [] then []
    else
      var last := log[|log| - 1];
      DailiesOf(log[..|log| - 1]) + if IsLaunch(last, Daily) then [last.date] else []
  }

  lemma DailiesOneMore(log: seq<Event>, e: Event)
    ensures DailiesOf(log + [e]) == DailiesOf(log) + if IsLaunch(e, Daily) then [e.date] else []
  {
    assert (log + [e])[..|log|] == log;
  }

  lemma ReapAttemptsNothing(s: State, code: int)
    requires s.worker.Some?
    ensures DailiesOf(Reap(s, code).0.log) == DailiesOf(s.log) && Reap(s, code).0.lastDaily == s.lastDaily
  {
    hide DailiesOf;
    DailiesOneMore(s.log, Exited(s.worker.value, code));
  }

  lemma LaunchAttemptsOneDaily(s: State, input: Input)
    ensures var t := LaunchIfDue(s, input);
            || (t.lastDaily == s.lastDaily && DailiesOf(t.log) == DailiesOf(s.log))
            || (&& !s.startupPending && s.lastDaily != Some(input.date)
                && t.lastDaily == Some(input.date) && DailiesOf(t.log) == DailiesOf(s.log) + [input.date])
  {
    hide DailiesOf;
    var due := DueTrigger(s, input.date);
    if due.Some? {
      DailiesOneMore(s.log, Launched(due.value, input.date));
      DailiesOneMore(s.log, LaunchFailed(due.value, input.date));
    }
  }

  /** An iteration attempts at most one daily, on its own date, and not on the last one's. */
  lemma DailyStep(s: State, input: Input)
    ensures var t := Step(s, input);
            || (t.lastDaily == s.lastDaily && DailiesOf(t.log) == DailiesOf(s.log))
            || (&& !(s.startupPending && s.worker.None?) && s.lastDaily != Some(input.date)
                && t.lastDaily == Some(input.date) && DailiesOf(t.log) == DailiesOf(s.log) + [input.date])
  {
    hide DailiesOf, Reap, LaunchIfDue;
    var noted := NoteConfiguration(s, input.enabled);
    if noted.worker.Some? && input.exited.Some? {
      ReapAttemptsNothing(noted, input.exited.value);
      LaunchAttemptsOneDaily(Reap(noted, input.exited.value).0, input);
    } else {
      LaunchAttemptsOneDaily(noted, input);
    }
  }

  function DatesOf(inputs: seq<Input>): seq<int> {
    seq(|inputs|, i requires 0 <= i < |inputs| => inputs[i].date)
  }

  /** The daily attempts so far were made at iterations `at`, none of them the first, no two in a row on one date. */
  ghost predicate Traced(dates: seq<int>, n: nat, s: State, at: seq<nat>) {
    var d := DailiesOf(s.log);
    && |at| == |d| && n <= |dates|
    && s.lastDaily == (if d == [] then None else Some(d[|d| - 1]))
    && (forall q :: 0 <= q < |at| ==> 1 <= at[q] < n && dates[at[q]] == d[q])
    && (forall p, q :: 0 <= p < q < |at| ==> at[p] < at[q])
    && (forall q :: 0 < q < |d| ==> d[q - 1] != d[q])
  }

  lemma TraceStep(dates: seq<int>, n: nat, s: State, at: seq<nat>, input: Input) returns (after: seq<nat>)
    requires Traced(dates, n, s, at) && n < |dates| && input.date == dates[n]
    requires n == 0 ==> s == INITIAL
    ensures Traced(dates, n + 1, Step(s, input), after)
  {
    hide Step;
    DailyStep(s, input);
    if DailiesOf(Step(s, input).log) == DailiesOf(s.log) + [input.date] {
      after := at + [n];
    } else {
      after := at;
    }
  }

  lemma {:induction false} RunIsTraced(dates: seq<int>, n: nat, s: State, at: seq<nat>, inputs: seq<Input>)
    returns (after: seq<nat>)
    requires Traced(dates, n, s, at) && n + |inputs| == |dates| && (n == 0 ==> s == INITIAL)
    requires forall i :: 0 <= i < |inputs| ==> inputs[i].date == dates[n + i]
    ensures Traced(dates, |dates|, Run(s, inputs), after)
    decreases |inputs|
  {
    hide Step, Traced;
    if inputs == [] {
      after := at;
    } else {
      var next := TraceStep(dates, n, s, at, inputs[0]);
      after := RunIsTraced(dates, n + 1, Step(s, inputs[0]), next, inputs[1..]);
    }
  }

  ghost predicate Distinct(dates: seq<int>) {
    forall i, j :: 0 <= i < j < |dates| ==> dates[i] != dates[j]
  }

  /** Past the first iteration, which can only start the startup work, no date is left and later returned to. */
  ghost predicate NoReturn(dates: seq<int>) {
    forall i, j, k :: 1 <= i < j < k < |dates| && dates[i] == dates[k] ==> dates[j] == dates[i]
  }

  lemma NoReturnNoRepeat(inputs: seq<Input>)
    requires NoReturn(DatesOf(inputs))
    ensures Distinct(DailiesOf(Run(INITIAL, inputs).log))
  {
    var dates := DatesOf(inputs);
    var at := RunIsTraced(dates, 0, INITIAL, [], inputs);
    var d := DailiesOf(Run(INITIAL, inputs).log);
    forall p, q | 0 <= p < q < |d| ensures d[p] != d[q] {
      if p + 1 < q {
        assert at[p] < at[p + 1] < at[q] && d[p] != d[p + 1];
      }
    }
  }

  /** Startup succeeds at once; the daemon is enabled at iterations `i`, `j` and `k`, and every worker ends before the next. */
  function ThreeDailies(dates: seq<int>, i: nat, j: nat, k: nat): seq<Input> {
    seq(|dates|, n requires 0 <= n < |dates| => Input(n in {0, i, j, k}, Some(EXIT_OK), dates[n], true))
  }

  lemma {:induction false} RunOneMore(s: State, inputs: seq<Input>, input: Input)
    ensures Run(s, inputs + [input]) == Step(Run(s, inputs), input)
    decreases |inputs|
  {
    if inputs == [] {
      assert Run(Step(s, input), []) == Step(s, input);
      assert ([] + [input])[1..] == [];
    } else {
      assert (inputs + [input])[1..] == inputs[1..] + [input];
      RunOneMore(Step(s, inputs[0]), inputs[1..], input);
    }
  }

  function DatesBefore(dates: seq<int>, i: nat, j: nat, k: nat, n: nat): seq<int>
    requires i < j < k < |dates|
  {
    (if n > i then [dates[i]] else []) + (if n > j then [dates[j]] else []) + (if n > k then [dates[k]] else [])
  }

  /** Past startup, or with the startup worker just succeeding, an enabled iteration tries the day's work. */
  lemma SucceedingStep(s: State, enabled: bool, date: int)
    requires s.worker == Some(Startup) || (!s.startupPending && s.worker != Some(Startup))
    ensures var t := Step(s, Input(enabled, Some(EXIT_OK), date, true));
            && !t.startupPending && t.worker != Some(Startup)
            && t.lastDaily == (if enabled then Some(date) else s.lastDaily)
            && DailiesOf(t.log) == DailiesOf(s.log) + if enabled && s.lastDaily != Some(date) then [date] else []
  {
    hide DailiesOf;
    DailyStep(s, Input(enabled, Some(EXIT_OK), date, true));
  }

  /** What `ThreeDailies` has done after `n` iterations. */
  ghost predicate AfterThreeDailies(dates: seq<int>, i: nat, j: nat, k: nat, n: nat, s: State)
    requires i < j < k < |dates|
  {
    && DailiesOf(s.log) == DatesBefore(dates, i, j, k, n)
    && s.lastDaily == (if n > k then Some(dates[k]) else if n > j then Some(dates[j])
                       else if n > i then Some(dates[i]) else None)
    && (if n == 1 then s.worker == Some(Startup) else !s.startupPending && s.worker != Some(Startup))
  }

  lemma FirstIterationStartsUp(date: int)
    ensures var s := Step(INITIAL, Input(true, Some(EXIT_OK), date, true));
            s.worker == Some(Startup) && s.lastDaily == None && DailiesOf(s.log) == []
  {
    var s := Step(INITIAL, Input(true, Some(EXIT_OK), date, true));
    assert s.log == [] + [Launched(Startup, date)];
    DailiesOneMore([], Launched(Startup, date));
  }

  lemma OneMoreOfThree(dates: seq<int>, i: nat, j: nat, k: nat, n: nat, s: State)
    requires 1 <= i < j < k < |dates| && dates[i] != dates[j] && dates[j] != dates[k] && 1 <= n < |dates|
    requires AfterThreeDailies(dates, i, j, k, n, s)
    ensures AfterThreeDailies(dates, i, j, k, n + 1, Step(s, Input(n in {0, i, j, k}, Some(EXIT_OK), dates[n], true)))
  {
    hide Step, DailiesOf;
    SucceedingStep(s, n in {0, i, j, k}, dates[n]);
  }

  lemma {:induction false} ThreeDailiesRun(dates: seq<int>, i: nat, j: nat, k: nat, n: nat)
    requires 1 <= i < j < k < |dates| && dates[i] != dates[j] && dates[j] != dates[k] && 1 <= n <= |dates|
    ensures AfterThreeDailies(dates, i, j, k, n, Run(INITIAL, ThreeDailies(dates, i, j, k)[..n]))
  {
    hide Step, DailiesOf;
    var inputs := ThreeDailies(dates, i, j, k);
    assert inputs[..n] == inputs[..n - 1] + [inputs[n - 1]];
    RunOneMore(INITIAL, inputs[..n - 1], inputs[n - 1]);
    if n == 1 {
      assert inputs[..0] == [];
      FirstIterationStartsUp(dates[0]);
    } else {
      hide AfterThreeDailies;
      ThreeDailiesRun(dates, i, j, k, n - 1);
      OneMoreOfThree(dates, i, j, k, n - 1, Run(INITIAL, inputs[..n - 1]));
    }
  }

  /** A date that is left and returned to can see two daily attempts, all of them launched. */
  lemma ReturnRepeatsADaily(dates: seq<int>, i: nat, j: nat, k: nat)
    requires 1 <= i < j < k < |dates| && dates[i] == dates[k] != dates[j]
    ensures DailiesOf(Run(INITIAL, ThreeDailies(dates, i, j, k)).log) == [dates[i], dates[j], dates[k]]
  {
    var inputs := ThreeDailies(dates, i, j, k);
    ThreeDailiesRun(dates, i, j, k, |dates|);
    assert inputs[..|dates|] == inputs;
  }

  /**
    Whatever the worker, the launches and the configuration do, no date sees two
    daily attempts: this holds of a sequence of dates exactly if, past the first
    iteration, no date is left and later returned to.
  */
  lemma OneDailyPerDateExactly(dates: seq<int>)
    ensures (forall inputs :: DatesOf(inputs) == dates ==> Distinct(DailiesOf(Run(INITIAL, inputs).log)))
      <==> NoReturn(dates)
  {
    if NoReturn(dates) {
      forall inputs | DatesOf(inputs) == dates ensures Distinct(DailiesOf(Run(INITIAL, inputs).log)) {
        NoReturnNoRepeat(inputs);
      }
    } else {
      var i, j, k :| 1 <= i < j < k < |dates| && dates[i] == dates[k] && dates[j] != dates[i];
      ReturnRepeatsADaily(dates, i, j, k);
      var inputs := ThreeDailies(dates, i, j, k);
      assert DatesOf(inputs) == dates;
      var d := DailiesOf(Run(INITIAL, inputs).log);
      assert d[0] == d[2];
    }
  }

  /** In particular: if dates never go back, the daily attempts are on ever later dates. */
  lemma OneDailyPerDate(inputs: seq<Input>)
    requires forall i, j :: 0 <= i < j < |inputs| ==> inputs[i].date <= inputs[j].date
    ensures var d := DailiesOf(Run(INITIAL, inputs).log); forall i, j :: 0 <= i < j < |d| ==> d[i] < d[j]
  {
    var dates := DatesOf(inputs);
    var at := RunIsTraced(dates, 0, INITIAL, [], inputs);
    var d := DailiesOf(Run(INITIAL, inputs).log);
    forall p, q | 0 <= p < q < |d| ensures d[p] < d[q] {
      assert at[p] < at[q] && dates[at[p]] <= dates[at[p + 1]] <= dates[at[q]];
      assert d[p + 1 - 1] != d[p + 1];
    }
  }

  /** A clock set back by a day: dates 1, 2, 1 after startup, and two daily attempts on date 1. */
  lemma ClockGoingBackRepeatsADaily() returns (inputs: seq<Input>)
    ensures DatesOf(inputs) == [1, 1, 2, 1]
    ensures var d := DailiesOf(Run(INITIAL, inputs).log); exists i, j :: 0 <= i < j < |d| && d[i] == d[j] == 1
  {
    inputs := ThreeDailies([1, 1, 2, 1], 1, 2, 3);
    ReturnRepeatsADaily([1, 1, 2, 1], 1, 2, 3);
    var d := DailiesOf(Run(INITIAL, inputs).log);
    assert d[0] == d[2] == 1;
  }

  /** No enabled date is missed: past startup, an iteration that leaves no worker has tried today's work. */
  lemma EveryEnabledDateIsTried(s: State, input: Input)
    requires Invariant(s) && !s.startupPending && input.enabled
    ensures Step(s, input).worker.None? ==> Step(s, input).lastDaily == Some(input.date)
  {
  }

  // --------------------------------------------------- One iteration, from what it meets

  /** The worker is found finished, or was stopped. */
  predicate Ends(s: State, input: Input) {
    s.worker.Some? && input.exited.Some?
  }

  predicate Succeeds(s: State, input: Input) {
    Ends(s, input) && input.exited == Some(EXIT_OK)
  }

  /** Startup is tried when it is pending and nothing runs. */
  predicate TriesStartup(s: State, input: Input) {
    input.enabled && s.startupPending && s.worker.None?
  }

  /** A startup attempt fails for the time being: its worker exits other than with 0 or 78, or cannot be launched. */
  predicate StartupFails(s: State, input: Input) {
    || (Ends(s, input) && s.worker == Some(Startup) && input.exited !in {Some(EXIT_OK), Some(EXIT_TERMINAL)})
    || (TriesStartup(s, input) && !input.launches)
  }

  predicate FifthFailure(s: State, input: Input) {
    StartupFails(s, input) && s.startupFailures == STARTUP_MAX_TRANSIENT_FAILURES - 1
  }

  /** The day's work is tried when startup is settled, nothing runs or what ran has ended, and the date is new. */
  predicate TriesDaily(s: State, input: Input) {
    && input.enabled && s.lastDaily != Some(input.date)
    && (|| (s.worker.None? && !s.startupPending)
        || (Ends(s, input) && s.worker == Some(Daily))
        || (Ends(s, input) && s.worker == Some(Startup)
            && (input.exited in {Some(EXIT_OK), Some(EXIT_TERMINAL)} || FifthFailure(s, input))))
  }

  predicate Launches(s: State, input: Input) {
    (TriesStartup(s, input) || TriesDaily(s, input)) && input.launches
  }

  predicate Reconfigured(s: State, input: Input) {
    s.lastEnabled != Some(input.enabled)
  }

  /** Something goes wrong for good: startup ends terminally or for the fifth time, or the day's work fails or cannot start. */
  predicate GoesWrong(s: State, input: Input) {
    || (s.worker == Some(Startup) && input.exited == Some(EXIT_TERMINAL))
    || FifthFailure(s, input)
    || (Ends(s, input) && s.worker == Some(Daily) && input.exited !in {Some(EXIT_OK), Some(EXIT_NOOP)})
    || (TriesDaily(s, input) && !input.launches)
  }

  predicate UnhealthyNext(s: State, input: Input) {
    GoesWrong(s, input) || (s.health.Unhealthy? && !Succeeds(s, input) && !Reconfigured(s, input))
  }

  /** Nothing happens that would set the health anew, but maybe the configuration. */
  predicate Quiet(s: State, input: Input) {
    !UnhealthyNext(s, input) && !Launches(s, input) && !StartupFails(s, input) && !Succeeds(s, input)
  }

  /** Each health state, exactly when it is reported. */
  lemma UnhealthyReported(s: State, input: Input)
    requires Coherent(s)
    ensures Step(s, input).health == Unhealthy <==> UnhealthyNext(s, input)
  {
  }

  lemma DegradedReported(s: State, input: Input)
    requires Coherent(s)
    ensures Step(s, input).health == Degraded <==>
              || (StartupFails(s, input) && !FifthFailure(s, input))
              || (s.health == Degraded && Quiet(s, input) && !Reconfigured(s, input))
  {
  }

  lemma ActiveReported(s: State, input: Input)
    requires Coherent(s)
    ensures Step(s, input).health == Active <==>
              || (Launches(s, input) && !UnhealthyNext(s, input))
              || (Quiet(s, input) && if Reconfigured(s, input) then input.enabled else s.health == Active)
  {
  }

  lemma HealthyReported(s: State, input: Input)
    requires Coherent(s)
    ensures Step(s, input).health == Healthy <==>
              || (Succeeds(s, input) && !UnhealthyNext(s, input) && !Launches(s, input))
              || (s.health == Healthy && Quiet(s, input) && !Reconfigured(s, input))
  {
  }

  lemma DisabledReported(s: State, input: Input)
    requires Coherent(s)
    ensures Step(s, input).health == Disabled <==>
              Quiet(s, input) && if Reconfigured(s, input) then !input.enabled else s.health == Disabled
  {
  }

  /** What runs after an iteration, exactly. */
  lemma WorkerExactly(s: State, input: Input)
    requires Coherent(s)
    ensures Step(s, input).worker == Some(Startup) <==>
              (s.worker == Some(Startup) && !Ends(s, input)) || (TriesStartup(s, input) && input.launches)
    ensures Step(s, input).worker == Some(Daily) <==>
              (s.worker == Some(Daily) && !Ends(s, input)) || (TriesDaily(s, input) && input.launches)
  {
  }

  /** Which date was tried last, exactly. */
  lemma LastDateExactly(s: State, input: Input)
    requires Coherent(s)
    ensures Step(s, input).lastDaily == if TriesDaily(s, input) then Some(input.date) else s.lastDaily
    ensures Step(s, input).lastEnabled == Some(input.enabled)
  {
  }

  /** How often startup failed, exactly. */
  lemma FailuresExactly(s: State, input: Input)
    requires Coherent(s)
    ensures Step(s, input).startupFailures
         == if StartupFails(s, input) then s.startupFailures + 1
            else if s.worker == Some(Startup) && Succeeds(s, input) then 0
            else s.startupFailures
  {
  }

  /** No worker succeeds and the configuration stands. */
  predicate NeverCured(s: State, inputs: seq<Input>)
    decreases |inputs|
  {
    inputs == [] || (!Succeeds(s, inputs[0]) && !Reconfigured(s, inputs[0]) && NeverCured(Step(s, inputs[0]), inputs[1..]))
  }

  /** Some iteration went wrong and none after it cured that. */
  predicate WentWrong(s: State, inputs: seq<Input>)
    decreases |inputs|
  {
    && inputs != []
    && var next := Step(s, inputs[0]);
    (GoesWrong(s, inputs[0]) && NeverCured(next, inputs[1..])) || WentWrong(next, inputs[1..])
  }

  /** Over every run: unhealthy exactly if something went wrong and was not cured since. */
  lemma {:induction false} UnhealthyOverRuns(s: State, inputs: seq<Input>)
    requires Invariant(s)
    ensures Run(s, inputs).health == Unhealthy <==>
              WentWrong(s, inputs) || (s.health == Unhealthy && NeverCured(s, inputs))
    decreases |inputs|
  {
    if inputs != [] {
      UnhealthyReported(s, inputs[0]);
      hide Invariant, Step, GoesWrong, Succeeds, Reconfigured;
      StepKeepsInvariant(s, inputs[0]);
      UnhealthyOverRuns(Step(s, inputs[0]), inputs[1..]);
    }
  }

  /** In a whole run of the daemon. */
  lemma UnhealthyExactly(inputs: seq<Input>)
    ensures Run(INITIAL, inputs).health == Unhealthy <==> WentWrong(INITIAL, inputs)
  {
    UnhealthyOverRuns(INITIAL, inputs);
  }

  // ----------------------------------------------------------------- Sticky health

  /** While the configuration stands, only a worker that exits 0 ends an unhealthy state. */
  lemma UnhealthyIsSticky(s: State, input: Input)
    requires Invariant(s) && s.health.Unhealthy? && s.lastEnabled == Some(input.enabled)
    requires !Step(s, input).health.Unhealthy?
    ensures s.worker.Some? && input.exited == Some(EXIT_OK)
  {
  }

  lemma {:induction false} UnhealthyStaysOverRuns(s: State, inputs: seq<Input>)
    requires Invariant(s) && s.health.Unhealthy?
    requires forall i :: 0 <= i < |inputs| ==> s.lastEnabled == Some(inputs[i].enabled)
    requires forall i :: 0 <= i < |inputs| ==> inputs[i].exited != Some(EXIT_OK)
    ensures Run(s, inputs).health.Unhealthy?
    decreases |inputs|
  {
    if inputs != [] {
      if !Step(s, inputs[0]).health.Unhealthy? {
        UnhealthyIsSticky(s, inputs[0]);
      }
      StepKeepsInvariant(s, inputs[0]);
      UnhealthyStaysOverRuns(Step(s, inputs[0]), inputs[1..]);
    }
  }
}
