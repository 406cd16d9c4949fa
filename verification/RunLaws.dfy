/** Laws of every run: which statuses it requests, how it ends, and how its iteration rows and model calls
    are numbered. */
module RunLaws {
  import opened Text
  import opened ContextWindow
  import opened RunStates
  import opened RunScript
  import opened RunTrace

  // ---------------------------------------------------------------- statuses

  /** Terminal moves the runner makes although the declared table lacks them. The last needs a bound below 1. */
  predicate OffTable(bound: int, from: RunState, to: RunState) {
    || (from == Iterating && to == Completed)
    || (from == Verifying && to == HaltedMaxIters)
    || (from == Verifying && to == HaltedMaxTime)
    || (from == Planning && to == HaltedMaxTime)
    || (bound < 1 && from == Planning && to == HaltedMaxIters)
  }

  /** The status a run can have when it requests a terminal one. */
  predicate TerminalMove(cfg: Config, from: RunState, to: RunState) {
    match to
    case Completed => from == if cfg.contracts == 0 then Iterating else Verifying
    case HaltedMaxIters => from == if Bound(cfg) < 1 then Planning else Verifying
    case HaltedMaxTime => Bound(cfg) >= 1 && (from == Planning || from == Verifying)
    case Failed => from == BlastRadius || from == Planning || from == Iterating
    case Cancelled => from == Created || from == BlastRadius || from == Planning || from == Verifying
    case _ => false
  }

  /** From `from`, a list of requests that ends in its one terminal status. */
  ghost predicate MovesOK(cfg: Config, from: RunState, ss: seq<RunState>)
    decreases |ss|
  {
    ss != [] && if |ss| == 1 then Terminal(ss[0]) && TerminalMove(cfg, from, ss[0])
                else !Terminal(ss[0]) && CanTransition(from, ss[0]) && MovesOK(cfg, ss[0], ss[1..])
  }

  lemma MovesCons(cfg: Config, from: RunState, s: RunState, ss: seq<RunState>)
    requires !Terminal(s) && CanTransition(from, s) && MovesOK(cfg, s, ss)
    ensures MovesOK(cfg, from, [s] + ss)
  {
    assert ([s] + ss)[1..] == ss;
  }

  lemma MovesEnd(cfg: Config, from: RunState, s: RunState)
    requires Terminal(s) && TerminalMove(cfg, from, s)
    ensures MovesOK(cfg, from, [s])
  {
  }

  lemma {:induction false} LoopMoves(cfg: Config, env: Env, n: nat, added: seq<Entry>, from: RunState)
    requires (n == 1 && from == Planning) || (n > 1 && from == Verifying && Bound(cfg) >= 1)
    ensures MovesOK(cfg, from, Statuses(LoopActions(cfg, env, n, added)))
    decreases Bound(cfg) + 1 - n
  {
    hide Select, LoopActions, IterationActions, VerifyActions, Kept, IterationEntries, AllPass, MovesOK;
    var it := env.iterations(n);
    LoopProjection(cfg, env, n, added, StatusOf);
    EndProjections(HaltedMaxIters, RunFailed);
    EndProjections(HaltedMaxTime, RunFailed);
    EndProjections(Cancelled, RunCancelled);
    EndProjections(Failed, RunFailed);
    EndProjections(Completed, RunCompleted);
    if n > Bound(cfg) { MovesEnd(cfg, from, HaltedMaxIters); return; }
    MovesEnd(cfg, from, HaltedMaxTime);
    MovesEnd(cfg, from, Cancelled);
    if (cfg.hasDeadline && it.timeUp) || it.cancelled { return; }
    IterationProjections(n, it, Kept(added, cfg.limit));
    VerifyProjections(cfg, n, it);
    if IterationFails(it) {
      MovesEnd(cfg, Iterating, Failed);
      RoundMoves(cfg, from, false, [Failed]);
      assert [Iterating] + [] + [Failed] == [Iterating] + [Failed];
    } else if AllPass(it.outcomes, cfg.contracts) {
      MovesEnd(cfg, if cfg.contracts > 0 then Verifying else Iterating, Completed);
      RoundMoves(cfg, from, cfg.contracts > 0, [Completed]);
    } else {
      assert cfg.contracts > 0 by { if cfg.contracts == 0 { NoContractsPass(it.outcomes); } }
      var added' := added + IterationEntries(cfg, n, it);
      LoopMoves(cfg, env, n + 1, added', Verifying);
      RoundMoves(cfg, from, true, Statuses(LoopActions(cfg, env, n + 1, added')));
    }
  }

  lemma NoContractsPass(outcomes: nat -> TestOutcome)
    ensures AllPass(outcomes, 0)
  {
  }

  /** One round of the loop, with or without test contracts. */
  lemma RoundMoves(cfg: Config, from: RunState, verified: bool, rest: seq<RunState>)
    requires from == Planning || from == Verifying
    requires MovesOK(cfg, if verified then Verifying else Iterating, rest)
    ensures MovesOK(cfg, from, [Iterating] + (if verified then [Verifying] else []) + rest)
  {
    hide MovesOK;
    if verified {
      MovesCons(cfg, Iterating, Verifying, rest);
      MovesCons(cfg, from, Iterating, [Verifying] + rest);
      assert [Iterating] + [Verifying] + rest == [Iterating] + ([Verifying] + rest);
    } else {
      MovesCons(cfg, from, Iterating, rest);
      assert [Iterating] + [] + rest == [Iterating] + rest;
    }
  }

  /** The statuses after Planning. */
  ghost function RestOfRun(cfg: Config, env: Env): seq<RunState> {
    if PlanningFails(env) then [Failed] else if env.cancelledAfterPlan then [Cancelled]
    else Statuses(LoopActions(cfg, env, 1, StartingEntries(cfg, env)))
  }

  lemma PlannedMoves(cfg: Config, env: Env, from: RunState)
    requires from == Created || from == BlastRadius
    ensures MovesOK(cfg, from, [Planning] + RestOfRun(cfg, env))
  {
    hide Select, LoopActions, StartingEntries, PlanningFails, MovesOK;
    MovesEnd(cfg, Planning, Failed);
    MovesEnd(cfg, Planning, Cancelled);
    LoopMoves(cfg, env, 1, StartingEntries(cfg, env), Planning);
    MovesCons(cfg, from, Planning, RestOfRun(cfg, env));
  }

  /** The statuses of a run that got going. */
  lemma RunStatuses(cfg: Config, env: Env)
    requires Launched(env)
    ensures Statuses(RunActions(cfg, env)) ==
            (if cfg.hasFiles then [BlastRadius] else []) +
            if BlastFails(cfg, env) then [Failed] else if env.cancelledAfterBlast then [Cancelled]
            else [Planning] + RestOfRun(cfg, env)
  {
    hide Select, RunActions, LoopActions, BlastActions, PlanningActions, StartingEntries, PlanningFails, BlastFails;
    RunProjection(cfg, env, StatusOf);
    BlastProjections(cfg, env);
    PlanningProjections(env);
    EndProjections(Cancelled, RunCancelled);
    EndProjections(Failed, RunFailed);
  }

  lemma RunMoves(cfg: Config, env: Env)
    requires Launched(env)
    ensures MovesOK(cfg, Created, Statuses(RunActions(cfg, env)))
  {
    hide Statuses, RunActions, RestOfRun, MovesOK;
    RunStatuses(cfg, env);
    var from := if cfg.hasFiles then BlastRadius else Created;
    MovesEnd(cfg, BlastRadius, Failed);
    MovesEnd(cfg, from, Cancelled);
    PlannedMoves(cfg, env, from);
    var tail := if BlastFails(cfg, env) then [Failed] else if env.cancelledAfterBlast then [Cancelled]
                else [Planning] + RestOfRun(cfg, env);
    if cfg.hasFiles {
      MovesCons(cfg, Created, BlastRadius, tail);
    } else {
      assert [] + tail == tail;
    }
  }

  predicate TableMoveAt(path: seq<RunState>, i: nat)
    requires i + 1 < |path|
  {
    !Terminal(path[i + 1]) && CanTransition(path[i], path[i + 1])
  }

  /** All moves but the last are in the table and lead to non-terminal statuses; the last leads to a terminal one. */
  ghost predicate LegalPath(bound: int, path: seq<RunState>) {
    && |path| >= 2
    && (forall i :: 0 <= i < |path| - 2 ==> TableMoveAt(path, i))
    && Terminal(path[|path| - 1])
    && (CanTransition(path[|path| - 2], path[|path| - 1]) || OffTable(bound, path[|path| - 2], path[|path| - 1]))
  }

  lemma {:induction false} MovesMeaning(cfg: Config, from: RunState, ss: seq<RunState>)
    requires MovesOK(cfg, from, ss)
    ensures LegalPath(Bound(cfg), [from] + ss)
    ensures var path := [from] + ss; TerminalMove(cfg, path[|path| - 2], path[|path| - 1])
    decreases |ss|
  {
    hide TerminalMove, CanTransition, Terminal, OffTable;
    if |ss| > 1 {
      MovesMeaning(cfg, ss[0], ss[1..]);
      var path := [from] + ss;
      assert [ss[0]] + ss[1..] == ss;
      assert path[|path| - 2] == ss[|ss| - 2] && path[|path| - 1] == ss[|ss| - 1];
      forall i | 0 <= i < |path| - 2 ensures TableMoveAt(path, i) {
        if i > 0 { assert TableMoveAt(ss, i - 1); }
      }
    } else {
      TerminalMoves(cfg, from, ss[0]);
    }
  }

  /** A terminal move is in the table, or it is one of those the table lacks. */
  lemma TerminalMoves(cfg: Config, from: RunState, to: RunState)
    requires TerminalMove(cfg, from, to)
    ensures CanTransition(from, to) || OffTable(Bound(cfg), from, to)
  {
  }

  /** The statuses a run passes through, from the one its row is created with. */
  function Path(cfg: Config, env: Env): seq<RunState> {
    [Created] + Statuses(RunActions(cfg, env))
  }

  /** Every run that got going requests exactly one terminal status, last. Every other move it requests is in
      the declared table; the terminal one is too, or is one of the moves in `OffTable`. A run whose row or whose
      first event could not be written requests no status at all. */
  lemma StatusMovesOfEveryRun(cfg: Config, env: Env)
    ensures Launched(env) ==> LegalPath(Bound(cfg), Path(cfg, env))
    ensures !Launched(env) ==> Path(cfg, env) == [Created]
  {
    hide RunnerActions;
    if Launched(env) {
      RunMoves(cfg, env);
      MovesMeaning(cfg, Created, Statuses(RunActions(cfg, env)));
    } else {
      UnlaunchedRun(cfg, env);
    }
  }

  // ---------------------------------------------------------------- how a run ends

  /** How the run ends in iteration j, if the run gets there and ends in it. */
  function Exit(cfg: Config, env: Env, j: nat): Option<RunState> {
    var it := env.iterations(j);
    if cfg.hasDeadline && it.timeUp then Some(HaltedMaxTime)
    else if it.cancelled then Some(Cancelled)
    else if IterationFails(it) then Some(Failed)
    else if AllPass(it.outcomes, cfg.contracts) then Some(Completed) else None
  }

  lemma ExitCases(cfg: Config, env: Env, j: nat)
    ensures var it := env.iterations(j);
            !(cfg.hasDeadline && it.timeUp) && !it.cancelled ==>
              (Exit(cfg, env, j) == None <==> !IterationFails(it) && !AllPass(it.outcomes, cfg.contracts))
  {
    hide IterationFails, AllPass;
  }

  /** From iteration `from`, the run goes on to iteration n and starts it. */
  ghost predicate Begins(cfg: Config, env: Env, from: nat, n: nat) {
    && from <= n <= Bound(cfg) && (forall j :: from <= j < n ==> Exit(cfg, env, j) == None)
    && !(cfg.hasDeadline && env.iterations(n).timeUp) && !env.iterations(n).cancelled
  }

  ghost predicate BeginsNowOrLater(cfg: Config, env: Env, n: nat, m: nat) {
    && n <= Bound(cfg) && !(cfg.hasDeadline && env.iterations(n).timeUp) && !env.iterations(n).cancelled
    && n <= m && (m == n || (Exit(cfg, env, n) == None && Begins(cfg, env, n + 1, m)))
  }

  lemma BeginsStep(cfg: Config, env: Env, n: nat, m: nat)
    ensures Begins(cfg, env, n, m) <==> BeginsNowOrLater(cfg, env, n, m)
  {
    hide IterationFails, AllPass;
    if n < m && Exit(cfg, env, n) == None && Begins(cfg, env, n + 1, m) {
      forall j | n <= j < m ensures Exit(cfg, env, j) == None {}
    }
  }

  lemma BeginsWithin(cfg: Config, env: Env, from: nat, n: nat)
    ensures Begins(cfg, env, from, n) ==> n <= Bound(cfg)
  {
  }

  /** Iteration k is the first the run ends in, and it ends in status s. */
  ghost predicate FirstExit(cfg: Config, env: Env, from: nat, k: nat, s: RunState) {
    from <= k <= Bound(cfg) && Exit(cfg, env, k) == Some(s) && forall j :: from <= j < k ==> Exit(cfg, env, j) == None
  }

  ghost predicate NoExit(cfg: Config, env: Env, from: nat) {
    forall j :: from <= j <= Bound(cfg) ==> Exit(cfg, env, j) == None
  }

  ghost predicate LoopEndsIn(cfg: Config, env: Env, from: nat, s: RunState) {
    if s == HaltedMaxIters then NoExit(cfg, env, from) else exists k :: FirstExit(cfg, env, from, k, s)
  }

  lemma LoopEndsStep(cfg: Config, env: Env, n: nat, m: nat, s: RunState)
    requires m == n + 1 && n <= Bound(cfg)
    ensures LoopEndsIn(cfg, env, n, s) <==>
            if Exit(cfg, env, n) == None then LoopEndsIn(cfg, env, m, s) else Exit(cfg, env, n) == Some(s)
  {
    hide Exit;
    ExitStates(cfg, env, n);
    if s != HaltedMaxIters {
      if k :| FirstExit(cfg, env, n, k, s) {
        if k != n { assert FirstExit(cfg, env, m, k, s); }
      }
      if Exit(cfg, env, n) == Some(s) {
        assert FirstExit(cfg, env, n, n, s);
      }
      if k :| FirstExit(cfg, env, m, k, s) {
        if Exit(cfg, env, n) == None { assert FirstExit(cfg, env, n, k, s); }
      }
    }
  }

  lemma ExitStates(cfg: Config, env: Env, j: nat)
    ensures Exit(cfg, env, j) != Some(HaltedMaxIters)
  {
  }

  ghost function Final(ss: seq<RunState>): RunState {
    if ss == [] then Created else ss[|ss| - 1]
  }

  lemma {:induction false} LoopOutcome(cfg: Config, env: Env, n: nat, added: seq<Entry>, s: RunState)
    requires Terminal(s)
    ensures Statuses(LoopActions(cfg, env, n, added)) != []
    ensures Final(Statuses(LoopActions(cfg, env, n, added))) == s <==> LoopEndsIn(cfg, env, n, s)
    decreases Bound(cfg) + 1 - n
  {
    hide Select, LoopActions, IterationActions, VerifyActions, Kept, IterationEntries, AllPass, IterationFails, LoopEndsIn;
    var it := env.iterations(n);
    LoopProjection(cfg, env, n, added, StatusOf);
    EndProjections(HaltedMaxIters, RunFailed);
    EndProjections(HaltedMaxTime, RunFailed);
    EndProjections(Cancelled, RunCancelled);
    EndProjections(Failed, RunFailed);
    EndProjections(Completed, RunCompleted);
    if n > Bound(cfg) { PastBound(cfg, env, n, s); return; }
    LoopEndsStep(cfg, env, n, n + 1, s);
    if (cfg.hasDeadline && it.timeUp) || it.cancelled { return; }
    IterationProjections(n, it, Kept(added, cfg.limit));
    VerifyProjections(cfg, n, it);
    if !IterationFails(it) && !AllPass(it.outcomes, cfg.contracts) {
      LoopOutcome(cfg, env, n + 1, added + IterationEntries(cfg, n, it), s);
    }
  }

  lemma PastBound(cfg: Config, env: Env, n: nat, s: RunState)
    requires n > Bound(cfg)
    ensures LoopEndsIn(cfg, env, n, s) <==> s == HaltedMaxIters
  {
  }

  /** The phases before the loop succeed. */
  predicate ReachesLoop(cfg: Config, env: Env) {
    !BlastFails(cfg, env) && !env.cancelledAfterBlast && !PlanningFails(env) && !env.cancelledAfterPlan
  }

  /** When a run ends in status s, told from the configuration and the environment. */
  ghost predicate EndsIn(cfg: Config, env: Env, s: RunState) {
    Launched(env) &&
    if BlastFails(cfg, env) then s == Failed
    else if env.cancelledAfterBlast then s == Cancelled
    else if PlanningFails(env) then s == Failed
    else if env.cancelledAfterPlan then s == Cancelled
    else LoopEndsIn(cfg, env, 1, s)
  }

  /** Each of the five outcomes, exactly. In the loop a run ends with the first iteration that finds time up, a
      cancellation, a failure, or all contracts passing, in that order; it halts on its iteration limit when no
      iteration within the bound is any of those. */
  lemma OutcomeOfEveryRun(cfg: Config, env: Env, s: RunState)
    requires Terminal(s)
    ensures Final(Statuses(RunActions(cfg, env))) == s <==> EndsIn(cfg, env, s)
  {
    hide Select, RunActions, LoopActions, BlastActions, PlanningActions, StartingEntries, LoopEndsIn, BlastFails, PlanningFails;
    if !Launched(env) {
      UnlaunchedRun(cfg, env);
    } else {
      RunStatuses(cfg, env);
      if ReachesLoop(cfg, env) { LoopOutcome(cfg, env, 1, StartingEntries(cfg, env), s); }
    }
  }

  // ---------------------------------------------------------------- staying inside the table

  ghost predicate InTable(path: seq<RunState>) {
    forall i :: 0 <= i < |path| - 1 ==> CanTransition(path[i], path[i + 1])
  }

  lemma LegalInTable(bound: int, path: seq<RunState>)
    requires LegalPath(bound, path)
    ensures InTable(path) <==> CanTransition(path[|path| - 2], path[|path| - 1])
  {
    forall i | 0 <= i < |path| - 2 ensures CanTransition(path[i], path[i + 1]) { assert TableMoveAt(path, i); }
  }

  /** Which runs stay inside the declared table: those that fail, those that are cancelled, and those that complete
      with test contracts to run. Every halt, on time or on iterations, leaves it. */
  lemma WhichRunsStayInTable(cfg: Config, env: Env)
    ensures Launched(env) ==>
              (InTable(Path(cfg, env)) <==>
               EndsIn(cfg, env, Failed) || EndsIn(cfg, env, Cancelled) || (EndsIn(cfg, env, Completed) && cfg.contracts > 0))
  {
    hide InTable, EndsIn, Statuses, RunActions, MovesOK, LegalPath;
    if Launched(env) {
      RunMoves(cfg, env);
      var path := Path(cfg, env);
      MovesMeaning(cfg, Created, Statuses(RunActions(cfg, env)));
      LegalInTable(Bound(cfg), path);
      LastOfPath(cfg, env);
      LegalEnds(Bound(cfg), path);
      OutcomeOfEveryRun(cfg, env, path[|path| - 1]);
      OutcomeOfEveryRun(cfg, env, Failed);
      OutcomeOfEveryRun(cfg, env, Cancelled);
      OutcomeOfEveryRun(cfg, env, Completed);
    }
  }

  lemma LegalEnds(bound: int, path: seq<RunState>)
    requires LegalPath(bound, path)
    ensures |path| >= 2 && Terminal(path[|path| - 1])
  {
  }

  lemma LastOfPath(cfg: Config, env: Env)
    ensures Path(cfg, env) != [] && Path(cfg, env)[|Path(cfg, env)| - 1] == Final(Statuses(RunActions(cfg, env)))
  {
    hide Statuses, RunActions;
  }

  // ---------------------------------------------------------------- the off-table moves are real

  /** A world in which nothing goes wrong except that every test contract fails; time is up from `late` on. */
  function FailingTests(late: nat): Env {
    Env(true, true, true, true, false, true, true, true, "", "", false,
        (n: nat) => Iteration(n >= late, false, true, true, LlmReply([]), (i: nat) => Fail("")))
  }

  /** Each move in `OffTable` ends some run; all but the last one under a bound of at least 1. */
  lemma OffTableMovesHappen(from: RunState, to: RunState) returns (cfg: Config, env: Env, before: seq<RunState>)
    requires OffTable(0, from, to)
    ensures Launched(env) && (OffTable(1, from, to) ==> Bound(cfg) >= 1)
    ensures [Created] + Statuses(RunActions(cfg, env)) == before + [from, to]
  {
    hide Select, RunActions, LoopActions, BlastActions, PlanningActions, StartingEntries, IterationActions, VerifyActions;
    hide Kept, IterationEntries, AllPass;
    var contracts := if to == Completed then 0 else 1;
    var bound := if to == HaltedMaxIters && from == Planning then -1
                 else if from == Verifying && to == HaltedMaxTime then 2 else 1;
    cfg := Config(false, contracts, bound, 0, to == HaltedMaxTime, 0, "");
    env := FailingTests(if from == Planning then 1 else 2);
    before := if from == Planning then [Created] else if from == Iterating then [Created, Planning]
              else [Created, Planning, Iterating];
    RunProjection(cfg, env, StatusOf);
    BlastProjections(cfg, env);
    PlanningProjections(env);
    EndProjections(HaltedMaxIters, RunFailed);
    EndProjections(HaltedMaxTime, RunFailed);
    EndProjections(Completed, RunCompleted);
    var added := StartingEntries(cfg, env);
    LoopProjection(cfg, env, 1, added, StatusOf);
    if from != Planning {
      var it := env.iterations(1);
      IterationProjections(1, it, Kept(added, cfg.limit));
      VerifyProjections(cfg, 1, it);
      NoContractsPass(it.outcomes);
      OneContractFails(it.outcomes);
      LoopProjection(cfg, env, 2, added + IterationEntries(cfg, 1, it), StatusOf);
    }
  }

  lemma OneContractFails(outcomes: nat -> TestOutcome)
    ensures outcomes(0).Fail? ==> !AllPass(outcomes, 1)
  {
  }

  // ---------------------------------------------------------------- iteration rows and model calls

  /** from, from + 1, ..., from + count - 1. */
  function Consecutive(from: nat, count: nat): seq<nat>
    decreases count
  {
    if count == 0 then [] else [from] + Consecutive(from + 1, count - 1)
  }

  /** Projection f lists the iterations for which p holds. */
  ghost predicate Numbers(f: Action -> Option<nat>, p: Iteration -> bool) {
    && (forall n: nat, it, prompt :: Select(IterationActions(n, it, prompt), f) == if p(it) then [n] else [])
    && (forall cfg, n: nat, it :: Select(VerifyActions(cfg, n, it), f) == [])
    && (forall s, e :: Select([Status(s), Emit(e)], f) == [])
    && (forall s :: Select([Status(s)], f) == [])
    && (forall it :: !IterationFails(it) ==> p(it))
  }

  lemma {:induction false} LoopNumbers(cfg: Config, env: Env, n: nat, added: seq<Entry>,
                                       f: Action -> Option<nat>, p: Iteration -> bool) returns (k: nat)
    requires Numbers(f, p)
    ensures Select(LoopActions(cfg, env, n, added), f) == Consecutive(n, k)
    ensures forall m: nat :: n <= m < n + k <==> Begins(cfg, env, n, m) && p(env.iterations(m))
    decreases Bound(cfg) + 1 - n
  {
    hide Select, LoopActions, IterationActions, VerifyActions, Kept, IterationEntries, AllPass, Begins, Exit;
    var it := env.iterations(n);
    LoopProjection(cfg, env, n, added, f);
    forall m: nat ensures Begins(cfg, env, n, m) <==> BeginsNowOrLater(cfg, env, n, m) { BeginsStep(cfg, env, n, m); }
    k := 0;
    if n > Bound(cfg) || (cfg.hasDeadline && it.timeUp) || it.cancelled { return; }
    ExitCases(cfg, env, n);
    if IterationFails(it) {
      k := if p(it) then 1 else 0;
    } else if AllPass(it.outcomes, cfg.contracts) {
      k := 1;
    } else {
      var j := LoopNumbers(cfg, env, n + 1, added + IterationEntries(cfg, n, it), f, p);
      k := j + 1;
    }
  }

  lemma RowsNumbered()
    ensures Numbers(RowOf, (it: Iteration) => it.statusOk)
    ensures Numbers(AskOf, (it: Iteration) => it.statusOk && it.rowOk)
    ensures Numbers(DoneOf, (it: Iteration) => !IterationFails(it))
  {
    hide Select, IterationActions, VerifyActions;
    forall n: nat, it, prompt { IterationProjections(n, it, prompt); }
    forall cfg, n: nat, it { VerifyProjections(cfg, n, it); }
    forall s, e
      ensures Rows([Status(s), Emit(e)]) == [] && Asks([Status(s), Emit(e)]) == [] && Done([Status(s), Emit(e)]) == []
    {
      EndProjections(s, e);
    }
    forall s ensures Rows([Status(s)]) == [] && Asks([Status(s)]) == [] && Done([Status(s)]) == [] {
      EndProjections(s, RunFailed);
    }
  }

  /** The run's iteration n begins. */
  ghost predicate Starts(cfg: Config, env: Env, n: nat) {
    Launched(env) && ReachesLoop(cfg, env) && Begins(cfg, env, 1, n)
  }

  /** Iteration rows are requested with the numbers 1 to k, in order and once each, for exactly the iterations that
      begin and whose status is written. */
  lemma IterationsNumberedFromOne(cfg: Config, env: Env) returns (k: nat)
    ensures Rows(RunActions(cfg, env)) == Consecutive(1, k)
    ensures forall n: nat :: 1 <= n <= k <==> Starts(cfg, env, n) && env.iterations(n).statusOk
    ensures k == 0 || k <= Bound(cfg)
  {
    hide Select, RunActions, LoopActions, BlastActions, PlanningActions, StartingEntries, Begins, Consecutive;
    hide IterationFails, PlanningFails;
    k := 0;
    if Launched(env) {
      RunProjection(cfg, env, RowOf);
      BlastProjections(cfg, env);
      PlanningProjections(env);
      EndProjections(Cancelled, RunCancelled);
      EndProjections(Failed, RunFailed);
      if ReachesLoop(cfg, env) {
        RowsNumbered();
        k := LoopNumbers(cfg, env, 1, StartingEntries(cfg, env), RowOf, (it: Iteration) => it.statusOk);
        if k > 0 { BeginsWithin(cfg, env, 1, k); }
      } else {
        ConsecutiveNone();
      }
    } else {
      UnlaunchedRun(cfg, env);
      ConsecutiveNone();
    }
  }

  /** Each row is completed exactly when its iteration goes through, so all are but perhaps the last. */
  lemma RowsCompleted(cfg: Config, env: Env) returns (d: nat)
    ensures Done(RunActions(cfg, env)) == Consecutive(1, d)
    ensures forall n: nat :: 1 <= n <= d <==> Starts(cfg, env, n) && !IterationFails(env.iterations(n))
  {
    hide Select, RunActions, LoopActions, BlastActions, PlanningActions, StartingEntries, Begins, Consecutive;
    hide IterationFails, PlanningFails;
    d := 0;
    if Launched(env) {
      RunProjection(cfg, env, DoneOf);
      BlastProjections(cfg, env);
      PlanningProjections(env);
      EndProjections(Cancelled, RunCancelled);
      EndProjections(Failed, RunFailed);
      if ReachesLoop(cfg, env) {
        RowsNumbered();
        d := LoopNumbers(cfg, env, 1, StartingEntries(cfg, env), DoneOf, (it: Iteration) => !IterationFails(it));
      } else {
        ConsecutiveNone();
      }
    } else {
      UnlaunchedRun(cfg, env);
      ConsecutiveNone();
    }
  }

  /** The run gets as far as asking for a plan. */
  predicate AsksForPlan(cfg: Config, env: Env) {
    Launched(env) && !BlastFails(cfg, env) && !env.cancelledAfterBlast && env.planStatusOk && env.startedEmitOk
  }

  /** The model is called once for the plan and once for each iteration whose row is stored, in order: at most once
      more than the bound. */
  lemma ModelCalls(cfg: Config, env: Env) returns (a: nat)
    ensures Asks(RunActions(cfg, env)) == (if AsksForPlan(cfg, env) then [0] else []) + Consecutive(1, a)
    ensures forall n: nat :: 1 <= n <= a <==> Starts(cfg, env, n) && env.iterations(n).statusOk && env.iterations(n).rowOk
    ensures |Asks(RunActions(cfg, env))| <= if Bound(cfg) < 1 then 1 else Bound(cfg) + 1
  {
    hide Select, RunActions, LoopActions, BlastActions, PlanningActions, StartingEntries, Begins, Consecutive, IterationFails;
    a := 0;
    ConsecutiveNone();
    if Launched(env) {
      RunProjection(cfg, env, AskOf);
      BlastProjections(cfg, env);
      PlanningProjections(env);
      EndProjections(Cancelled, RunCancelled);
      EndProjections(Failed, RunFailed);
      if ReachesLoop(cfg, env) {
        RowsNumbered();
        a := LoopNumbers(cfg, env, 1, StartingEntries(cfg, env), AskOf, (it: Iteration) => it.statusOk && it.rowOk);
        if a > 0 { BeginsWithin(cfg, env, 1, a); ConsecutiveAt(1, a, 0); }
      }
    } else {
      UnlaunchedRun(cfg, env);
    }
  }

  lemma ConsecutiveNone()
    ensures forall n :: Consecutive(n, 0) == []
  {
  }

  lemma {:induction false} ConsecutiveAt(from: nat, count: nat, i: nat)
    requires i < count
    ensures |Consecutive(from, count)| == count && Consecutive(from, count)[i] == from + i
    decreases count
  {
    if i > 0 {
      ConsecutiveAt(from + 1, count - 1, i - 1);
    } else if count > 1 {
      ConsecutiveAt(from + 1, count - 1, 0);
    }
  }

  /** So UNIQUE(run_id, iter_number) cannot be violated. */
  lemma RowNumbersUnique(cfg: Config, env: Env, i: nat, j: nat)
    requires i < j < |Rows(RunActions(cfg, env))|
    ensures Rows(RunActions(cfg, env))[i] == i + 1 && Rows(RunActions(cfg, env))[j] == j + 1
  {
    hide RunActions;
    var k := IterationsNumberedFromOne(cfg, env);
    if k > 0 { ConsecutiveAt(1, k, 0); }
    ConsecutiveAt(1, k, i);
    ConsecutiveAt(1, k, j);
  }

  // ---------------------------------------------------------------- the bound, in the fields it comes from

  /** Iterations within the budget: a positive budget is the bound; without one the configured number is, where zero
      means one and a negative number none. */
  lemma RowsWithinBudget(cfg: Config, env: Env)
    ensures var rows := |Rows(RunActions(cfg, env))|;
            && (cfg.budgetMax > 0 ==> rows <= cfg.budgetMax)
            && (cfg.budgetMax <= 0 && cfg.configMax > 0 ==> rows <= cfg.configMax)
            && (cfg.budgetMax <= 0 && cfg.configMax == 0 ==> rows <= 1)
            && (cfg.budgetMax <= 0 && cfg.configMax < 0 ==> rows == 0)
  {
    hide RunActions, Rows;
    var k := IterationsNumberedFromOne(cfg, env);
    if k > 0 { ConsecutiveAt(1, k, 0); }
  }

  /** A run that halts on its iteration limit has used all of it. */
  lemma RowsOfIterationHalt(cfg: Config, env: Env)
    requires Final(Statuses(RunActions(cfg, env))) == HaltedMaxIters
    ensures var rows := |Rows(RunActions(cfg, env))|;
            && (cfg.budgetMax > 0 ==> rows == cfg.budgetMax)
            && (cfg.budgetMax <= 0 && cfg.configMax > 0 ==> rows == cfg.configMax)
            && (cfg.budgetMax <= 0 && cfg.configMax == 0 ==> rows == 1)
            && (cfg.budgetMax <= 0 && cfg.configMax < 0 ==> rows == 0)
  {
    hide RunActions, Rows, Statuses;
    OutcomeOfEveryRun(cfg, env, HaltedMaxIters);
    AllIterationsStart(cfg, env);
    var k := IterationsNumberedFromOne(cfg, env);
    if k > 0 { ConsecutiveAt(1, k, 0); }
    if Bound(cfg) >= 1 { assert Starts(cfg, env, Bound(cfg)) && env.iterations(Bound(cfg)).statusOk; }
  }

  lemma AllIterationsStart(cfg: Config, env: Env)
    requires EndsIn(cfg, env, HaltedMaxIters)
    ensures forall n: nat :: 1 <= n <= Bound(cfg) ==> Starts(cfg, env, n) && env.iterations(n).statusOk
  {
    forall n: nat | 1 <= n <= Bound(cfg) ensures Starts(cfg, env, n) && env.iterations(n).statusOk {
      assert Exit(cfg, env, n) == None;
    }
  }

  /** The outcomes once more, in the environment's own terms. */
  lemma OutcomesSpelledOut(cfg: Config, env: Env)
    requires env.createOk && env.createdEmitOk
    ensures var final := Final(Statuses(RunActions(cfg, env)));
            if cfg.hasFiles && (!env.blastStatusOk || !env.buildOk) then final == Failed
            else if env.cancelledAfterBlast then final == Cancelled
            else if !env.planStatusOk || !env.startedEmitOk || !env.planAnswered then final == Failed
            else if env.cancelledAfterPlan then final == Cancelled
            else (final == Completed <==>
                    exists k :: 1 <= k <= Bound(cfg) && PassesAll(cfg, env, k) && GoesThrough(cfg, env, k)
                                && forall j :: 1 <= j < k ==> GoesThrough(cfg, env, j) && !PassesAll(cfg, env, j))
  {
    hide RunActions, Statuses, LoopEndsIn;
    OutcomeOfEveryRun(cfg, env, Failed);
    OutcomeOfEveryRun(cfg, env, Cancelled);
    OutcomeOfEveryRun(cfg, env, Completed);
    CompletionSpelledOut(cfg, env);
  }

  /** Iteration k finds time left, no cancellation, a store that obliges and a model that answers. */
  ghost predicate GoesThrough(cfg: Config, env: Env, k: nat) {
    var it := env.iterations(k);
    !(cfg.hasDeadline && it.timeUp) && !it.cancelled && it.statusOk && it.rowOk && it.reply.LlmReply?
  }

  ghost predicate PassesAll(cfg: Config, env: Env, k: nat) {
    forall i: nat :: i < cfg.contracts ==> env.iterations(k).outcomes(i) == Pass
  }

  lemma CompletionSpelledOut(cfg: Config, env: Env)
    ensures LoopEndsIn(cfg, env, 1, Completed) <==>
            exists k :: 1 <= k <= Bound(cfg) && PassesAll(cfg, env, k) && GoesThrough(cfg, env, k)
                        && forall j :: 1 <= j < k ==> GoesThrough(cfg, env, j) && !PassesAll(cfg, env, j)
  {
    hide PassesAll, GoesThrough, Exit;
    forall j: nat
      ensures Exit(cfg, env, j) == Some(Completed) <==> GoesThrough(cfg, env, j) && PassesAll(cfg, env, j)
      ensures Exit(cfg, env, j) == None <==> GoesThrough(cfg, env, j) && !PassesAll(cfg, env, j)
    {
      ExitSpelledOut(cfg, env, j);
    }
    if k :| FirstExit(cfg, env, 1, k, Completed) {
      assert PassesAll(cfg, env, k);
    }
    if k :| 1 <= k <= Bound(cfg) && PassesAll(cfg, env, k) && GoesThrough(cfg, env, k)
            && forall j :: 1 <= j < k ==> GoesThrough(cfg, env, j) && !PassesAll(cfg, env, j) {
      assert FirstExit(cfg, env, 1, k, Completed);
    }
  }

  lemma ExitSpelledOut(cfg: Config, env: Env, j: nat)
    ensures Exit(cfg, env, j) == Some(Completed) <==> GoesThrough(cfg, env, j) && PassesAll(cfg, env, j)
    ensures Exit(cfg, env, j) == None <==> GoesThrough(cfg, env, j) && !PassesAll(cfg, env, j)
  {
  }
}
