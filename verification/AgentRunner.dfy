/** The runner itself, phase by phase: each method appends to the trace exactly what the script says. */
module AgentRunner {
  import opened Text
  import opened ContextWindow
  import opened RunStates
  import opened RunScript

  // ---------------------------------------------------------------- the script, one step at a time

  lemma LoopUnfold(cfg: Config, env: Env, n: nat, added: seq<Entry>)
    ensures var it, all := env.iterations(n), LoopActions(cfg, env, n, added);
            if n > Bound(cfg) then all == [Status(HaltedMaxIters), Emit(RunFailed)]
            else if cfg.hasDeadline && it.timeUp then all == [Status(HaltedMaxTime)]
            else if it.cancelled then all == [Status(Cancelled), Emit(RunCancelled)]
            else
              var once := IterationActions(n, it, Kept(added, cfg.limit));
              if IterationFails(it) then all == once + [Status(Failed), Emit(RunFailed)]
              else if AllPass(it.outcomes, cfg.contracts)
              then all == once + VerifyActions(cfg, n, it) + [Status(Completed), Emit(RunCompleted)]
              else all == once + VerifyActions(cfg, n, it)
                          + LoopActions(cfg, env, n + 1, added + IterationEntries(cfg, n, it))
  {
    hide IterationActions, VerifyActions, IterationEntries, Kept;
  }

  lemma CompletedIteration(n: nat, it: Iteration, prompt: seq<Entry>)
    requires !IterationFails(it)
    ensures IterationActions(n, it, prompt) ==
            [Status(Iterating), Row(n), Emit(IterationStarted(n)), Emit(LlmRequest), Ask(n, prompt)]
            + [Emit(LlmResponse), Cost] + BlocksActions(it.reply.blocks) + [RowDone(n), Emit(IterationCompleted(n))]
  {
  }

  lemma BlocksEmpty()
    ensures BlocksActions([]) == [] && BlocksEntries([]) == []
  {
  }

  lemma BlocksStep(blocks: seq<Block>, i: nat)
    requires i < |blocks|
    ensures var b := blocks[i];
            && BlocksActions(blocks[..i + 1]) == BlocksActions(blocks[..i]) + (if b.ToolBlock? then ToolActions(b.use) else [])
            && BlocksEntries(blocks[..i + 1]) == BlocksEntries(blocks[..i]) + (if b.ToolBlock? then [ToolEntry(b.use)] else [])
  {
    hide ToolActions, ToolEntry;
    assert blocks[..i + 1][..i] == blocks[..i];
  }

  lemma ToolEntryCases(u: ToolUse)
    ensures u.inputError.Some? ==> ToolEntry(u) == MakeEntry("tool_error(" + u.name + ")", u.inputError.value)
  {
  }

  lemma ToolUnfold(u: ToolUse)
    ensures ToolActions(u) == [Emit(ToolCall(u.name))] +
            if u.inputError.Some? then [] else [Emit(ToolResult(u.name))] + FileActions(u)
    ensures u.inputError.None? ==>
              ToolEntry(u) == MakeEntry("tool(" + u.name + ") result",
                                        if u.resultError.Some? then "error: " + u.resultError.value
                                        else if u.stdout != "" then u.stdout else u.content)
  {
    hide FileActions, MakeEntry;
  }

  /** The two tests on the tool's name come to one choice. */
  lemma FileUnfold(u: ToolUse, before: seq<Action>)
    ensures before + FileActions(u) ==
            if u.name == "write_file" && u.resultError.None?
            then before + if u.path != "" then [Emit(FileWrite(u.path)), FileChange(u.path)] else []
            else if u.name == "read_file" && u.resultError.None? then before + [Emit(FileRead)] else before
  {
  }

  // ---------------------------------------------------------------- the runner

  class Runner {
    var trace: seq<Action>

    constructor ()
      ensures trace == []
    {
      trace := [];
    }

    method EngineRun(cfg: Config, env: Env)
      modifies this
      ensures trace == old(trace) + RunActions(cfg, env)
    {
      hide RunnerActions;
      if !env.createOk { return; }
      trace := trace + [Emit(RunCreated)];
      if !env.createdEmitOk { return; }
      Run(cfg, env);
    }

    method Run(cfg: Config, env: Env)
      modifies this
      ensures trace == old(trace) + RunnerActions(cfg, env)
    {
      hide BlastActions, PlanningActions, LoopActions;
      var ok := PhaseBlastRadius(cfg, env);
      if !ok { Fail(); return; }
      if env.cancelledAfterBlast { Cancel(); return; }
      var cb: ContextBuilder;
      ok, cb := PhasePlanning(cfg, env);
      if !ok { Fail(); return; }
      if env.cancelledAfterPlan { Cancel(); return; }
      PhaseIterate(cfg, env, cb);
    }

    method PhaseBlastRadius(cfg: Config, env: Env) returns (ok: bool)
      modifies this
      ensures trace == old(trace) + BlastActions(cfg, env) && ok == !BlastFails(cfg, env)
    {
      if !cfg.hasFiles { return true; }
      trace := trace + [Status(BlastRadius)];
      if !env.blastStatusOk || !env.buildOk { return false; }
      trace := trace + [Emit(BlastRadiusComputed)];
      return true;
    }

    method PhasePlanning(cfg: Config, env: Env) returns (ok: bool, cb: ContextBuilder)
      modifies this
      ensures trace == old(trace) + PlanningActions(env) && ok == !PlanningFails(env)
      ensures fresh(cb) && cb.Valid() && cb.limit == cfg.limit
      ensures ok ==> cb.added == StartingEntries(cfg, env)
    {
      hide MakeEntry, Kept, Tokens;
      cb := new ContextBuilder(cfg.limit);
      trace := trace + [Status(Planning)];
      if !env.planStatusOk { return false, cb; }
      trace := trace + [Emit(RunStarted)];
      if !env.startedEmitOk { return false, cb; }
      trace := trace + [Emit(LlmRequest), Ask(0, [])];
      if !env.planAnswered { return false, cb; }
      trace := trace + [Emit(LlmResponse)];
      trace := trace + [Emit(IterationStarted(0))];
      cb.Add("spec", cfg.specText);
      cb.Add("plan", env.planText);
      if env.agentsMD != "" {
        cb.Add("agents_instructions", env.agentsMD);
      }
      return true, cb;
    }

    method PhaseIterate(cfg: Config, env: Env, cb: ContextBuilder)
      requires cb.Valid() && cb.limit == cfg.limit
      modifies this, cb
      ensures trace == old(trace) + LoopActions(cfg, env, 1, old(cb.added))
    {
      hide IterationActions, VerifyActions, LoopActions, Kept, Tokens, IterationFails, AllPass, MakeEntry;
      hide BlocksEntries, Feedback, Decimal;
      ghost var start, whole := trace, LoopActions(cfg, env, 1, cb.added);
      var iter: nat := 1;
      while iter <= Bound(cfg)
        invariant cb.Valid()
        invariant start + whole == trace + LoopActions(cfg, env, iter, cb.added)
        decreases Bound(cfg) + 1 - iter
      {
        var it := env.iterations(iter);
        ghost var before, added := trace, cb.added;
        ghost var once := IterationActions(iter, it, Kept(added, cfg.limit));
        LoopUnfold(cfg, env, iter, added);
        if cfg.hasDeadline && it.timeUp { HaltTime(); return; }
        if it.cancelled { Cancel(); return; }
        var ok := RunOneIteration(iter, it, cb);
        if !ok { Fail(); return; }
        var passed, feedback := PhaseVerify(cfg, iter, it);
        if passed { Terminate(Completed); return; }
        cb.Add("test_feedback_" + Decimal(iter), feedback);
        assert cb.added == added + IterationEntries(cfg, iter, it);
        ghost var rest := LoopActions(cfg, env, iter + 1, cb.added);
        assert trace + rest == before + (once + VerifyActions(cfg, iter, it) + rest);
        iter := iter + 1;
      }
      LoopUnfold(cfg, env, iter, cb.added);
      Terminate(HaltedMaxIters);
    }

    method RunOneIteration(n: nat, it: Iteration, cb: ContextBuilder) returns (ok: bool)
      requires cb.Valid()
      modifies this, cb
      ensures cb.Valid() && ok == !IterationFails(it)
      ensures trace == old(trace) + IterationActions(n, it, old(Kept(cb.added, cb.limit)))
      ensures ok ==> cb.added == old(cb.added) + BlocksEntries(it.reply.blocks)
    {
      hide Kept, Tokens, BlocksActions, BlocksEntries;
      trace := trace + [Status(Iterating)];
      if !it.statusOk { return false; }
      trace := trace + [Row(n)];
      if !it.rowOk { return false; }
      trace := trace + [Emit(IterationStarted(n))];
      trace := trace + [Emit(LlmRequest)];
      ghost var prompt := Kept(cb.added, cb.limit);
      trace := trace + [Ask(n, cb.entries)];
      ghost var asked := [Status(Iterating), Row(n), Emit(IterationStarted(n)), Emit(LlmRequest), Ask(n, prompt)];
      assert trace == old(trace) + asked;
      if it.reply.LlmError? { return false; }
      trace := trace + [Emit(LlmResponse)];
      trace := trace + [Cost];
      DispatchBlocks(it.reply.blocks, cb);
      trace := trace + [RowDone(n)];
      trace := trace + [Emit(IterationCompleted(n))];
      CompletedIteration(n, it, prompt);
      return true;
    }

    /** The loop over the reply's content blocks. */
    method DispatchBlocks(blocks: seq<Block>, cb: ContextBuilder)
      requires cb.Valid()
      modifies this, cb
      ensures cb.Valid() && cb.added == old(cb.added) + BlocksEntries(blocks)
      ensures trace == old(trace) + BlocksActions(blocks)
    {
      hide ToolActions, ToolEntry, MakeEntry, BlocksActions, BlocksEntries, Kept, Tokens;
      BlocksEmpty();
      for i := 0 to |blocks|
        invariant cb.Valid() && cb.added == old(cb.added) + BlocksEntries(blocks[..i])
        invariant trace == old(trace) + BlocksActions(blocks[..i])
      {
        BlocksStep(blocks, i);
        if blocks[i].ToolBlock? {
          var u := blocks[i].use;
          var err := DispatchToolUse(u, cb);
          if err.Some? {
            cb.Add("tool_error(" + u.name + ")", err.value);
          }
          ToolEntryCases(u);
        }
      }
      assert blocks[..|blocks|] == blocks;
    }

    method DispatchToolUse(u: ToolUse, cb: ContextBuilder) returns (err: Option<string>)
      requires cb.Valid()
      modifies this, cb
      ensures cb.Valid() && err == u.inputError
      ensures trace == old(trace) + ToolActions(u)
      ensures cb.added == old(cb.added) + if err.Some? then [] else [ToolEntry(u)]
    {
      hide MakeEntry, ToolActions, FileActions, ToolEntry, Kept, Tokens;
      ToolUnfold(u);
      trace := trace + [Emit(ToolCall(u.name))];
      if u.inputError.Some? { return u.inputError; }
      var resultContent := u.content;
      if u.resultError.Some? {
        resultContent := "error: " + u.resultError.value;
      } else if u.stdout != "" {
        resultContent := u.stdout;
      }
      trace := trace + [Emit(ToolResult(u.name))];
      ghost var answered := trace;
      if u.name == "write_file" && u.resultError.None? {
        RecordFileWrite(u.path);
      }
      if u.name == "read_file" && u.resultError.None? {
        trace := trace + [Emit(FileRead)];
      }
      FileUnfold(u, answered);
      cb.Add("tool(" + u.name + ") result", resultContent);
      return None;
    }

    method RecordFileWrite(path: string)
      modifies this
      ensures trace == old(trace) + if path != "" then [Emit(FileWrite(path)), FileChange(path)] else []
    {
      if path == "" { return; }
      trace := trace + [Emit(FileWrite(path))];
      trace := trace + [FileChange(path)];
    }

    method PhaseVerify(cfg: Config, n: nat, it: Iteration) returns (passed: bool, feedback: string)
      modifies this
      ensures trace == old(trace) + VerifyActions(cfg, n, it)
      ensures passed == AllPass(it.outcomes, cfg.contracts)
      ensures !passed ==> feedback == Feedback(cfg, it)
    {
      if cfg.contracts == 0 { return true, ""; }
      trace := trace + [Status(Verifying)];
      var failed := [];
      for i := 0 to cfg.contracts
        invariant failed == Failures(it.outcomes, i)
        invariant failed == [] <==> AllPass(it.outcomes, i)
        invariant trace == old(trace) + ([Status(Verifying)] + TestActions(n, it.outcomes, i))
      {
        var outcome := it.outcomes(i);
        trace := trace + [Test(n, i, outcome.Pass?)];
        if outcome.Fail? {
          failed := failed + [outcome.report];
        }
      }
      if failed == [] { return true, ""; }
      return false, "test failed:\n" + Join(failed, "\n");
    }

    method Terminate(status: RunState)
      modifies this
      ensures trace == old(trace) + [Status(status), Emit(EventFor(status))]
    {
      trace := trace + [Status(status)];
      var event := RunFailed;
      match status {
        case Completed => event := RunCompleted;
        case Cancelled => event := RunCancelled;
        case _ =>
      }
      trace := trace + [Emit(event)];
    }

    method Fail()
      modifies this
      ensures trace == old(trace) + [Status(Failed), Emit(RunFailed)]
    {
      trace := trace + [Status(Failed)];
      trace := trace + [Emit(RunFailed)];
    }

    method Cancel()
      modifies this
      ensures trace == old(trace) + [Status(Cancelled), Emit(RunCancelled)]
    {
      trace := trace + [Status(Cancelled)];
      trace := trace + [Emit(RunCancelled)];
    }

    method HaltTime()
      modifies this
      ensures trace == old(trace) + [Status(HaltedMaxTime)]
    {
      trace := trace + [Status(HaltedMaxTime)];
    }
  }
}
