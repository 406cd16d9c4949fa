/** Projections of a run's trace, and what each phase contributes to them. */
module RunTrace {
  import opened Text
  import opened ContextWindow
  import opened RunStates
  import opened RunScript

  // ---------------------------------------------------------------- projections of a trace

  function Select<T>(acts: seq<Action>, f: Action -> Option<T>): seq<T> {
    if acts == [] then []
    else (match f(acts[0]) case None => [] case Some(x) => [x]) + Select(acts[1..], f)
  }

  function StatusOf(a: Action): Option<RunState> { if a.Status? then Some(a.s) else None }
  function RowOf(a: Action): Option<nat> { if a.Row? then Some(a.n) else None }
  function AskOf(a: Action): Option<nat> { if a.Ask? then Some(a.n) else None }
  function DoneOf(a: Action): Option<nat> { if a.RowDone? then Some(a.n) else None }
  function EventOf(a: Action): Option<Event> { if a.Emit? then Some(a.e) else None }

  function Statuses(acts: seq<Action>): seq<RunState> { Select(acts, StatusOf) }
  function Rows(acts: seq<Action>): seq<nat> { Select(acts, RowOf) }
  function Asks(acts: seq<Action>): seq<nat> { Select(acts, AskOf) }
  function Done(acts: seq<Action>): seq<nat> { Select(acts, DoneOf) }
  function Events(acts: seq<Action>): seq<Event> { Select(acts, EventOf) }

  lemma {:induction false} SelectConcat<T>(a: seq<Action>, b: seq<Action>, f: Action -> Option<T>)
    ensures Select(a + b, f) == Select(a, f) + Select(b, f)
  {
    if a == [] {
      assert a + b == b && [] + Select(b, f) == Select(b, f);
    } else {
      assert (a + b)[1..] == a[1..] + b;
      SelectConcat(a[1..], b, f);
    }
  }

  lemma SelectCons<T>(a: Action, b: seq<Action>, f: Action -> Option<T>)
    ensures Select([a] + b, f) == (match f(a) case None => [] case Some(x) => [x]) + Select(b, f)
  {
    assert ([a] + b)[1..] == b;
  }

  lemma {:induction false} SelectNone<T>(acts: seq<Action>, f: Action -> Option<T>)
    requires forall a :: a in acts ==> f(a) == None
    ensures Select(acts, f) == []
  {
    if acts != [] {
      SelectNone(acts[1..], f);
    }
  }

  // ---------------------------------------------------------------- what one iteration contributes

  /** What dispatching tools can request. */
  predicate FromTools(a: Action) {
    a.FileChange? || (a.Emit? && (a.e.ToolCall? || a.e.ToolResult? || a.e.FileWrite? || a.e.FileRead?))
  }

  lemma {:induction false} BlocksFromTools(blocks: seq<Block>)
    ensures forall a :: a in BlocksActions(blocks) ==> FromTools(a)
  {
    hide ToolActions, FromTools;
    if blocks != [] {
      BlocksFromTools(blocks[..|blocks| - 1]);
      var last := blocks[|blocks| - 1];
      if last.ToolBlock? { OneToolFromTools(last.use); }
    }
  }

  lemma OneToolFromTools(u: ToolUse)
    ensures forall a :: a in ToolActions(u) ==> FromTools(a)
  {
  }

  lemma {:induction false} TestsOnlyTest(n: nat, outcomes: nat -> TestOutcome, upTo: nat)
    ensures forall a :: a in TestActions(n, outcomes, upTo) ==> a.Test?
  {
    if upTo > 0 {
      TestsOnlyTest(n, outcomes, upTo - 1);
    }
  }

  /** The part of an iteration after its row request. */
  function AfterRow(n: nat, it: Iteration, prompt: seq<Entry>): seq<Action> {
    if !it.rowOk then [] else
    [Emit(IterationStarted(n)), Emit(LlmRequest), Ask(n, prompt)] + AfterAsk(n, it)
  }

  function AfterAsk(n: nat, it: Iteration): seq<Action> {
    if it.reply.LlmError? then []
    else [Emit(LlmResponse), Cost] + BlocksActions(it.reply.blocks) + [RowDone(n), Emit(IterationCompleted(n))]
  }

  lemma IterationParts(n: nat, it: Iteration, prompt: seq<Entry>)
    ensures IterationActions(n, it, prompt) ==
            [Status(Iterating)] + if it.statusOk then [Row(n)] + AfterRow(n, it, prompt) else []
  {
    hide BlocksActions;
  }

  lemma IterationProjections(n: nat, it: Iteration, prompt: seq<Entry>)
    ensures Statuses(IterationActions(n, it, prompt)) == [Iterating]
    ensures Rows(IterationActions(n, it, prompt)) == if it.statusOk then [n] else []
    ensures Asks(IterationActions(n, it, prompt)) == if it.statusOk && it.rowOk then [n] else []
    ensures Done(IterationActions(n, it, prompt)) == if IterationFails(it) then [] else [n]
  {
    hide Select, AfterRow, IterationActions;
    IterationParts(n, it, prompt);
    var tail := AfterRow(n, it, prompt);
    AfterRowProjections(n, it, prompt);
    NoActions();
    var rest := if it.statusOk then [Row(n)] + tail else [];
    Row1(Row(n), tail);
    Row1(Status(Iterating), rest);
  }

  /** All four projections past one action. */
  lemma Row1(a: Action, acts: seq<Action>)
    ensures Statuses([a] + acts) == (if a.Status? then [a.s] else []) + Statuses(acts)
    ensures Rows([a] + acts) == (if a.Row? then [a.n] else []) + Rows(acts)
    ensures Asks([a] + acts) == (if a.Ask? then [a.n] else []) + Asks(acts)
    ensures Done([a] + acts) == (if a.RowDone? then [a.n] else []) + Done(acts)
  {
    hide Select;
    SelectCons(a, acts, StatusOf);
    SelectCons(a, acts, RowOf);
    SelectCons(a, acts, AskOf);
    SelectCons(a, acts, DoneOf);
  }

  lemma NoActions()
    ensures Statuses([]) == [] && Rows([]) == [] && Asks([]) == [] && Done([]) == [] && Events([]) == []
  {
  }

  lemma AfterRowProjections(n: nat, it: Iteration, prompt: seq<Entry>)
    ensures Statuses(AfterRow(n, it, prompt)) == [] && Rows(AfterRow(n, it, prompt)) == []
    ensures Asks(AfterRow(n, it, prompt)) == if it.rowOk then [n] else []
    ensures Done(AfterRow(n, it, prompt)) == if it.rowOk && it.reply.LlmReply? then [n] else []
  {
    hide Select, AfterAsk;
    NoActions();
    if it.rowOk {
      var rest := AfterAsk(n, it);
      assert AfterRow(n, it, prompt) == [Emit(IterationStarted(n))] + ([Emit(LlmRequest)] + ([Ask(n, prompt)] + rest));
      AfterAskProjections(n, it);
      Row1(Ask(n, prompt), rest);
      Row1(Emit(LlmRequest), [Ask(n, prompt)] + rest);
      Row1(Emit(IterationStarted(n)), [Emit(LlmRequest)] + ([Ask(n, prompt)] + rest));
    }
  }

  lemma AfterAskProjections(n: nat, it: Iteration)
    ensures Statuses(AfterAsk(n, it)) == [] && Rows(AfterAsk(n, it)) == [] && Asks(AfterAsk(n, it)) == []
    ensures Done(AfterAsk(n, it)) == if it.reply.LlmReply? then [n] else []
  {
    hide Select, BlocksActions;
    NoActions();
    if it.reply.LlmReply? {
      BlocksFromTools(it.reply.blocks);
      var all, blocks, end := AfterAsk(n, it), BlocksActions(it.reply.blocks), [RowDone(n), Emit(IterationCompleted(n))];
      SelectNone(all, StatusOf);
      SelectNone(all, RowOf);
      SelectNone(all, AskOf);
      var head := [Emit(LlmResponse), Cost] + blocks;
      SelectNone(head, DoneOf);
      SelectConcat(head, end, DoneOf);
      assert end == [RowDone(n)] + [Emit(IterationCompleted(n))];
      SelectNone([Emit(IterationCompleted(n))], DoneOf);
      Row1(RowDone(n), [Emit(IterationCompleted(n))]);
    }
  }

  lemma VerifyProjections(cfg: Config, n: nat, it: Iteration)
    ensures Statuses(VerifyActions(cfg, n, it)) == if cfg.contracts == 0 then [] else [Verifying]
    ensures Rows(VerifyActions(cfg, n, it)) == [] && Asks(VerifyActions(cfg, n, it)) == []
    ensures Done(VerifyActions(cfg, n, it)) == []
  {
    hide Select, TestActions;
    NoActions();
    if cfg.contracts > 0 {
      var tests := TestActions(n, it.outcomes, cfg.contracts);
      TestsOnlyTest(n, it.outcomes, cfg.contracts);
      SelectNone(tests, StatusOf);
      SelectNone(tests, RowOf);
      SelectNone(tests, AskOf);
      SelectNone(tests, DoneOf);
      Row1(Status(Verifying), tests);
    }
  }

  lemma EndProjections(s: RunState, e: Event)
    ensures Statuses([Status(s), Emit(e)]) == [s] && Statuses([Status(s)]) == [s]
    ensures Rows([Status(s), Emit(e)]) == [] && Rows([Status(s)]) == []
    ensures Asks([Status(s), Emit(e)]) == [] && Asks([Status(s)]) == []
    ensures Done([Status(s), Emit(e)]) == [] && Done([Status(s)]) == []
  {
    hide Select;
    NoActions();
    assert [Status(s), Emit(e)] == [Status(s)] + ([Emit(e)] + []) && [Status(s)] == [Status(s)] + [];
    Row1(Emit(e), []);
    Row1(Status(s), [Emit(e)] + []);
    Row1(Status(s), []);
  }

  /** The loop, one projection at a time, as the code reads. */
  lemma LoopProjection<T>(cfg: Config, env: Env, n: nat, added: seq<Entry>, f: Action -> Option<T>)
    ensures var it, all := env.iterations(n), Select(LoopActions(cfg, env, n, added), f);
            if n > Bound(cfg) then all == Select([Status(HaltedMaxIters), Emit(RunFailed)], f)
            else if cfg.hasDeadline && it.timeUp then all == Select([Status(HaltedMaxTime)], f)
            else if it.cancelled then all == Select([Status(Cancelled), Emit(RunCancelled)], f)
            else
              var once := Select(IterationActions(n, it, Kept(added, cfg.limit)), f);
              if IterationFails(it) then all == once + Select([Status(Failed), Emit(RunFailed)], f)
              else
                all == once + Select(VerifyActions(cfg, n, it), f) +
                       if AllPass(it.outcomes, cfg.contracts) then Select([Status(Completed), Emit(RunCompleted)], f)
                       else Select(LoopActions(cfg, env, n + 1, added + IterationEntries(cfg, n, it)), f)
  {
    hide IterationActions, VerifyActions, IterationEntries, Kept, Select, AllPass;
    var it := env.iterations(n);
    if n > Bound(cfg) || (cfg.hasDeadline && it.timeUp) || it.cancelled { return; }
    var once := IterationActions(n, it, Kept(added, cfg.limit));
    var rest := if IterationFails(it) then [Status(Failed), Emit(RunFailed)] else
                VerifyActions(cfg, n, it) +
                if AllPass(it.outcomes, cfg.contracts) then [Status(Completed), Emit(RunCompleted)]
                else LoopActions(cfg, env, n + 1, added + IterationEntries(cfg, n, it));
    assert LoopActions(cfg, env, n, added) == once + rest;
    SelectConcat(once, rest, f);
    if !IterationFails(it) {
      SelectConcat(VerifyActions(cfg, n, it),
                   if AllPass(it.outcomes, cfg.contracts) then [Status(Completed), Emit(RunCompleted)]
                   else LoopActions(cfg, env, n + 1, added + IterationEntries(cfg, n, it)), f);
    }
  }

  /** The phases before the loop, for any projection. `tail` is what follows them. */
  lemma RunProjection<T>(cfg: Config, env: Env, f: Action -> Option<T>)
    requires Launched(env) && f(Emit(RunCreated)) == None
    ensures var all := Select(RunActions(cfg, env), f);
            var blast := Select(BlastActions(cfg, env), f);
            if BlastFails(cfg, env) then all == blast + Select([Status(Failed), Emit(RunFailed)], f)
            else if env.cancelledAfterBlast then all == blast + Select([Status(Cancelled), Emit(RunCancelled)], f)
            else
              var plan := Select(PlanningActions(env), f);
              all == blast + plan +
                     if PlanningFails(env) then Select([Status(Failed), Emit(RunFailed)], f)
                     else if env.cancelledAfterPlan then Select([Status(Cancelled), Emit(RunCancelled)], f)
                     else Select(LoopActions(cfg, env, 1, StartingEntries(cfg, env)), f)
  {
    hide Select, BlastActions, PlanningActions, LoopActions, StartingEntries;
    var runner := RunnerActions(cfg, env);
    assert RunActions(cfg, env) == [Emit(RunCreated)] + runner;
    SelectCons(Emit(RunCreated), runner, f);
    var blast, plan := BlastActions(cfg, env), PlanningActions(env);
    if BlastFails(cfg, env) {
      SelectConcat(blast, [Status(Failed), Emit(RunFailed)], f);
    } else if env.cancelledAfterBlast {
      SelectConcat(blast, [Status(Cancelled), Emit(RunCancelled)], f);
    } else {
      var rest := if PlanningFails(env) then [Status(Failed), Emit(RunFailed)]
                  else if env.cancelledAfterPlan then [Status(Cancelled), Emit(RunCancelled)]
                  else LoopActions(cfg, env, 1, StartingEntries(cfg, env));
      assert runner == blast + (plan + rest);
      SelectConcat(blast, plan + rest, f);
      SelectConcat(plan, rest, f);
    }
  }

  lemma BlastProjections(cfg: Config, env: Env)
    ensures Statuses(BlastActions(cfg, env)) == if cfg.hasFiles then [BlastRadius] else []
    ensures Rows(BlastActions(cfg, env)) == [] && Asks(BlastActions(cfg, env)) == [] && Done(BlastActions(cfg, env)) == []
  {
    hide Select;
    NoActions();
    if cfg.hasFiles {
      EndProjections(BlastRadius, BlastRadiusComputed);
      var all := BlastActions(cfg, env);
      assert all == [Status(BlastRadius)] || all == [Status(BlastRadius), Emit(BlastRadiusComputed)];
    }
  }

  lemma PlanningProjections(env: Env)
    ensures Statuses(PlanningActions(env)) == [Planning]
    ensures Rows(PlanningActions(env)) == [] && Done(PlanningActions(env)) == []
    ensures Asks(PlanningActions(env)) == if env.planStatusOk && env.startedEmitOk then [0] else []
  {
    hide Select;
    NoActions();
    var tail := if env.planAnswered then [Emit(LlmResponse)] + ([Emit(IterationStarted(0))] + []) else [];
    var asking := [Emit(LlmRequest)] + ([Ask(0, [])] + tail);
    var starting := if env.planStatusOk then [Emit(RunStarted)] + (if env.startedEmitOk then asking else []) else [];
    assert PlanningActions(env) == [Status(Planning)] + starting;
    Row1(Emit(IterationStarted(0)), []);
    Row1(Emit(LlmResponse), [Emit(IterationStarted(0))] + []);
    Row1(Ask(0, []), tail);
    Row1(Emit(LlmRequest), [Ask(0, [])] + tail);
    Row1(Emit(RunStarted), if env.startedEmitOk then asking else []);
    Row1(Status(Planning), starting);
  }

  /** Without a stored run row and its first event nothing else is requested. */
  lemma UnlaunchedRun(cfg: Config, env: Env)
    requires !Launched(env)
    ensures RunActions(cfg, env) == if env.createOk then [Emit(RunCreated)] else []
    ensures Statuses(RunActions(cfg, env)) == [] && Rows(RunActions(cfg, env)) == []
    ensures Asks(RunActions(cfg, env)) == [] && Done(RunActions(cfg, env)) == []
    ensures Events(RunActions(cfg, env)) == if env.createOk then [RunCreated] else []
  {
    hide RunnerActions, Select;
    NoActions();
    assert [Emit(RunCreated)] == [Emit(RunCreated)] + [];
    Row1(Emit(RunCreated), []);
    SelectCons(Emit(RunCreated), [], EventOf);
  }
}
