/** What every run asks of the model and the test commands, and the file changes it records. */
module RunPrompts {
  import opened Text
  import opened ContextWindow
  import opened RunStates
  import opened RunScript
  import opened RunTrace
  import opened RunLaws

  // ---------------------------------------------------------------- prompts

  /** The two pinned entries come first; nothing else is pinned. */
  ghost predicate HeadPinned(cfg: Config, env: Env, entries: seq<Entry>) {
    && |entries| >= 2 && entries[0] == SpecEntry(cfg) && entries[1] == PlanEntry(env)
    && forall i :: 2 <= i < |entries| ==> !entries[i].pinned
  }

  lemma EntryPinning(tool: string, n: nat, text: string)
    ensures MakeEntry("spec", text).pinned && MakeEntry("plan", text).pinned
    ensures !MakeEntry("agents_instructions", text).pinned
    ensures !MakeEntry("tool_error(" + tool + ")", text).pinned
    ensures !MakeEntry("tool(" + tool + ") result", text).pinned
    ensures !MakeEntry("test_feedback_" + Decimal(n), text).pinned
  {
    hide ByteLength;
    NotPrefix("agents_instructions");
    NotPrefix("tool_error(" + tool + ")");
    NotPrefix("tool(" + tool + ") result");
    NotPrefix("test_feedback_" + Decimal(n));
    assert "spec"[..4] == "spec" && "plan"[..4] == "plan";
  }

  lemma NotPrefix(title: string)
    requires title != "" && title[0] != 's' && title[0] != 'p'
    ensures !HasPrefix(title, "spec") && !HasPrefix(title, "plan")
  {
  }

  lemma {:induction false} BlockEntriesUnpinned(blocks: seq<Block>)
    ensures forall e :: e in BlocksEntries(blocks) ==> !e.pinned
  {
    hide MakeEntry;
    if blocks != [] {
      BlockEntriesUnpinned(blocks[..|blocks| - 1]);
      var last := blocks[|blocks| - 1];
      if last.ToolBlock? {
        var u := last.use;
        EntryPinning(u.name, 0, if u.inputError.Some? then u.inputError.value else
                                if u.resultError.Some? then "error: " + u.resultError.value else
                                if u.stdout != "" then u.stdout else u.content);
      }
    }
  }

  /** Everything added to the context before iteration n. */
  function AddedBefore(cfg: Config, env: Env, n: nat): seq<Entry> {
    if n <= 1 then StartingEntries(cfg, env)
    else
      AddedBefore(cfg, env, n - 1) +
      if IterationFails(env.iterations(n - 1)) then [] else IterationEntries(cfg, n - 1, env.iterations(n - 1))
  }

  lemma {:induction false} HeadStaysPinned(cfg: Config, env: Env, n: nat)
    ensures HeadPinned(cfg, env, AddedBefore(cfg, env, n))
    decreases n
  {
    hide StartingEntries, IterationEntries, HeadPinned, IterationFails;
    if n <= 1 {
      HeadAtStart(cfg, env);
    } else {
      HeadStaysPinned(cfg, env, n - 1);
      var it, before := env.iterations(n - 1), AddedBefore(cfg, env, n - 1);
      if !IterationFails(it) {
        EntriesUnpinned(cfg, n - 1, it);
        HeadExtended(cfg, env, before, IterationEntries(cfg, n - 1, it));
      } else {
        assert before + [] == before;
      }
    }
  }

  lemma EntriesUnpinned(cfg: Config, n: nat, it: Iteration)
    requires !IterationFails(it)
    ensures forall e :: e in IterationEntries(cfg, n, it) ==> !e.pinned
  {
    hide MakeEntry, BlocksEntries, Feedback, Decimal;
    BlockEntriesUnpinned(it.reply.blocks);
    EntryPinning("", n, Feedback(cfg, it));
  }

  lemma HeadExtended(cfg: Config, env: Env, before: seq<Entry>, more: seq<Entry>)
    requires HeadPinned(cfg, env, before) && forall e :: e in more ==> !e.pinned
    ensures HeadPinned(cfg, env, before + more)
  {
    hide MakeEntry;
  }

  lemma HeadAtStart(cfg: Config, env: Env)
    ensures HeadPinned(cfg, env, StartingEntries(cfg, env))
    ensures SpecEntry(cfg).pinned && PlanEntry(env).pinned
  {
    hide MakeEntry;
    EntryPinning("", 0, cfg.specText);
    EntryPinning("", 0, env.planText);
    EntryPinning("", 0, env.agentsMD);
  }

  /** The requests made of the model and of the test commands, and those that tools cause. */
  predicate Probes(a: Action) {
    a.Ask? || a.Test? || FromTools(a)
  }

  /** What one tool use makes the runner request: its call; its result if the input could be read; and, unless the
      tool reports an error, the event of a file read, or the event and the record of a write to a named path. */
  ghost predicate Causes(u: ToolUse, a: Action) {
    || a == Emit(ToolCall(u.name))
    || (a == Emit(ToolResult(u.name)) && u.inputError.None?)
    || (a == Emit(FileRead) && u.inputError.None? && u.resultError.None? && u.name == "read_file")
    || ((a == Emit(FileWrite(u.path)) || a == FileChange(u.path))
        && u.inputError.None? && u.resultError.None? && u.name == "write_file" && u.path != "")
  }

  ghost predicate SomeCauses(blocks: seq<Block>, a: Action) {
    exists u :: ToolBlock(u) in blocks && Causes(u, a)
  }

  /** What iteration n asks of the model, of its tools and of the tests. */
  ghost predicate ProbeOf(cfg: Config, env: Env, n: nat, a: Action) {
    var it := env.iterations(n);
    || (a == Ask(n, Kept(AddedBefore(cfg, env, n), cfg.limit)) && it.statusOk && it.rowOk)
    || (!IterationFails(it) && SomeCauses(it.reply.blocks, a))
    || (a.Test? && a.n == n && a.contract < cfg.contracts && a.passed == it.outcomes(a.contract).Pass? && !IterationFails(it))
  }

  lemma {:induction false} BlocksCause(blocks: seq<Block>, a: Action)
    ensures a in BlocksActions(blocks) <==> SomeCauses(blocks, a)
  {
    hide ToolActions, Causes;
    if blocks != [] {
      var front, last := blocks[..|blocks| - 1], blocks[|blocks| - 1];
      assert blocks == front + [last];
      BlocksCause(front, a);
      if last.ToolBlock? { OneToolCauses(last.use, a); }
    }
  }

  lemma OneToolCauses(u: ToolUse, a: Action)
    ensures a in ToolActions(u) <==> Causes(u, a)
  {
  }

  lemma IterationProbes(cfg: Config, n: nat, it: Iteration, prompt: seq<Entry>, a: Action)
    requires Probes(a)
    ensures a in IterationActions(n, it, prompt) <==>
            || (a == Ask(n, prompt) && it.statusOk && it.rowOk)
            || (!IterationFails(it) && SomeCauses(it.reply.blocks, a))
  {
    hide BlocksActions, SomeCauses;
    if it.reply.LlmReply? { BlocksCause(it.reply.blocks, a); }
  }

  lemma {:induction false} TestsListed(n: nat, outcomes: nat -> TestOutcome, upTo: nat, a: Action)
    ensures a in TestActions(n, outcomes, upTo) <==>
            a.Test? && a.n == n && a.contract < upTo && a.passed == outcomes(a.contract).Pass?
  {
    if upTo > 0 { TestsListed(n, outcomes, upTo - 1, a); }
  }

  lemma VerifyProbes(cfg: Config, n: nat, it: Iteration, a: Action)
    requires Probes(a)
    ensures a in VerifyActions(cfg, n, it) <==>
            a.Test? && a.n == n && a.contract < cfg.contracts && a.passed == it.outcomes(a.contract).Pass?
  {
    hide TestActions;
    TestsListed(n, it.outcomes, cfg.contracts, a);
  }

  /** The loop, one action at a time, as the code reads. */
  lemma LoopMember(cfg: Config, env: Env, n: nat, added: seq<Entry>, a: Action)
    requires Probes(a)
    ensures var it := env.iterations(n);
            a in LoopActions(cfg, env, n, added) <==>
            && n <= Bound(cfg) && !(cfg.hasDeadline && it.timeUp) && !it.cancelled
            && (|| a in IterationActions(n, it, Kept(added, cfg.limit))
                || (!IterationFails(it) && a in VerifyActions(cfg, n, it))
                || (!IterationFails(it) && !AllPass(it.outcomes, cfg.contracts)
                    && a in LoopActions(cfg, env, n + 1, added + IterationEntries(cfg, n, it))))
  {
    hide IterationActions, VerifyActions, IterationEntries, Kept, AllPass, IterationFails;
  }

  lemma {:induction false} LoopProbes(cfg: Config, env: Env, n: nat, a: Action)
    requires n >= 1 && Probes(a)
    ensures a in LoopActions(cfg, env, n, AddedBefore(cfg, env, n)) <==>
            exists m :: Begins(cfg, env, n, m) && ProbeOf(cfg, env, m, a)
    decreases Bound(cfg) + 1 - n
  {
    hide LoopActions, IterationActions, VerifyActions, IterationEntries, Kept, AllPass, Begins, Exit, IterationFails;
    var it, added := env.iterations(n), AddedBefore(cfg, env, n);
    LoopMember(cfg, env, n, added, a);
    IterationProbes(cfg, n, it, Kept(added, cfg.limit), a);
    VerifyProbes(cfg, n, it, a);
    ExitCases(cfg, env, n);
    forall m: nat ensures Begins(cfg, env, n, m) <==> BeginsNowOrLater(cfg, env, n, m) { BeginsStep(cfg, env, n, m); }
    if n <= Bound(cfg) && !(cfg.hasDeadline && it.timeUp) && !it.cancelled {
      assert Begins(cfg, env, n, n);
      if Exit(cfg, env, n) == None {
        NextAdded(cfg, env, n);
        LoopProbes(cfg, env, n + 1, a);
        if m :| Begins(cfg, env, n + 1, m) && ProbeOf(cfg, env, m, a) {
          BeginsLater(cfg, env, n, m);
        }
      }
    }
  }

  lemma NextAdded(cfg: Config, env: Env, n: nat)
    requires n >= 1 && !IterationFails(env.iterations(n))
    ensures AddedBefore(cfg, env, n + 1) == AddedBefore(cfg, env, n) + IterationEntries(cfg, n, env.iterations(n))
  {
    hide IterationEntries, StartingEntries;
  }

  lemma BeginsLater(cfg: Config, env: Env, n: nat, m: nat)
    requires n <= Bound(cfg) && Exit(cfg, env, n) == None && Begins(cfg, env, n + 1, m)
    ensures Begins(cfg, env, n, m)
  {
    hide IterationFails, AllPass;
    BeginsStep(cfg, env, n, m);
  }

  /** Iteration n, and no other, asks the model with what the context window keeps of all that was added before it,
      if its row is stored; and if it goes through, it requests what its tools cause, runs every test contract and
      reports its outcome. */
  lemma ProbesOfEveryRun(cfg: Config, env: Env, a: Action)
    requires Probes(a) && !(a.Ask? && a.n == 0)
    ensures a in RunActions(cfg, env) <==> exists n :: Starts(cfg, env, n) && ProbeOf(cfg, env, n, a)
  {
    hide RunActions, LoopActions, StartingEntries, Begins, ProbeOf, IterationFails;
    RunMember(cfg, env, a);
    if Launched(env) && ReachesLoop(cfg, env) { LoopProbes(cfg, env, 1, a); }
  }

  lemma RunMember(cfg: Config, env: Env, a: Action)
    requires Probes(a) && !(a.Ask? && a.n == 0)
    ensures a in RunActions(cfg, env) <==>
            Launched(env) && ReachesLoop(cfg, env) && a in LoopActions(cfg, env, 1, StartingEntries(cfg, env))
  {
    hide LoopActions, StartingEntries, BlastActions, PlanningActions, BlastFails, PlanningFails;
    assert a !in BlastActions(cfg, env) by { NoProbeInBlast(cfg, env); }
    assert a !in PlanningActions(env) by { PlanningAsksAsZero(env); }
  }

  lemma NoProbeInBlast(cfg: Config, env: Env)
    ensures forall a :: a in BlastActions(cfg, env) ==> !Probes(a)
  {
  }

  lemma PlanningAsksAsZero(env: Env)
    ensures forall a :: a in PlanningActions(env) && Probes(a) ==> a.Ask? && a.n == 0
  {
  }

  /** Whatever the tools returned and the tests reported, every iteration's prompt begins with the spec entry and
      the plan entry, holds no other pinned entry, and is within the limit unless those two are all it holds. */
  lemma PromptsKeepSpecAndPlan(cfg: Config, env: Env, a: Action)
    requires a.Ask? && a.n >= 1
    ensures a in RunActions(cfg, env) ==>
              && HeadPinned(cfg, env, a.prompt)
              && (Tokens(a.prompt) <= cfg.limit || a.prompt == [SpecEntry(cfg), PlanEntry(env)])
  {
    hide MakeEntry, Kept, Tokens, RunActions, Starts;
    ProbesOfEveryRun(cfg, env, a);
    if a in RunActions(cfg, env) {
      var all := AddedBefore(cfg, env, a.n);
      HeadStaysPinned(cfg, env, a.n);
      HeadAtStart(cfg, env);
      PinnedHeadStaysFirst(all, cfg.limit);
      WithinLimitUnlessPinnedOnly(all, cfg.limit);
      if Unpinned(a.prompt) == [] && |a.prompt| > 2 {
        UnpinnedTail(a.prompt);
        assert false;
      }
    }
  }

  lemma UnpinnedTail(es: seq<Entry>)
    requires |es| > 2 && !es[2].pinned
    ensures Unpinned(es) != []
  {
    assert es == es[..2] + ([es[2]] + es[3..]);
    UnpinnedConcat(es[..2], [es[2]] + es[3..]);
  }

  // ---------------------------------------------------------------- tests, in order

  datatype TestRun = TestRun(n: nat, contract: nat, passed: bool)

  function TestOf(a: Action): Option<TestRun> { if a.Test? then Some(TestRun(a.n, a.contract, a.passed)) else None }

  function Tests(acts: seq<Action>): seq<TestRun> { Select(acts, TestOf) }

  /** Contracts 0 to upTo - 1 in iteration n, in order, with their outcomes. */
  function Round(n: nat, outcomes: nat -> TestOutcome, upTo: nat): seq<TestRun> {
    seq(upTo, i requires i >= 0 => TestRun(n, i, outcomes(i).Pass?))
  }

  /** The rounds of iterations from, from + 1, ..., from + count - 1. */
  function Rounds(cfg: Config, env: Env, from: nat, count: nat): seq<TestRun>
    decreases count
  {
    if count == 0 then []
    else Round(from, env.iterations(from).outcomes, cfg.contracts) + Rounds(cfg, env, from + 1, count - 1)
  }

  lemma NoTests(acts: seq<Action>)
    requires forall a :: a in acts ==> !a.Test?
    ensures Tests(acts) == []
  {
    SelectNone(acts, TestOf);
  }

  lemma {:induction false} TestsInOrder(n: nat, outcomes: nat -> TestOutcome, upTo: nat)
    ensures Tests(TestActions(n, outcomes, upTo)) == Round(n, outcomes, upTo)
  {
    hide Select;
    NoTests([]);
    if upTo > 0 {
      var last := Test(n, upTo - 1, outcomes(upTo - 1).Pass?);
      TestsInOrder(n, outcomes, upTo - 1);
      SelectConcat(TestActions(n, outcomes, upTo - 1), [last], TestOf);
      assert [last] == [last] + [];
      SelectCons(last, [], TestOf);
      assert Round(n, outcomes, upTo) == Round(n, outcomes, upTo - 1) + [TestRun(n, upTo - 1, outcomes(upTo - 1).Pass?)];
    }
  }

  lemma VerifyTests(cfg: Config, n: nat, it: Iteration)
    ensures Tests(VerifyActions(cfg, n, it)) == Round(n, it.outcomes, cfg.contracts)
  {
    hide Select, TestActions;
    NoTests([]);
    TestsInOrder(n, it.outcomes, cfg.contracts);
    SelectCons(Status(Verifying), TestActions(n, it.outcomes, cfg.contracts), TestOf);
  }

  lemma IterationHasNoTests(n: nat, it: Iteration, prompt: seq<Entry>)
    ensures Tests(IterationActions(n, it, prompt)) == []
  {
    hide Select, BlocksActions;
    if it.reply.LlmReply? { BlocksFromTools(it.reply.blocks); }
    NoTests(IterationActions(n, it, prompt));
  }

  lemma EndHasNoTests(s: RunState, e: Event)
    ensures Tests([Status(s), Emit(e)]) == [] && Tests([Status(s)]) == []
  {
    hide Select;
    NoTests([Status(s), Emit(e)]);
    NoTests([Status(s)]);
  }

  lemma {:induction false} LoopTests(cfg: Config, env: Env, n: nat, added: seq<Entry>) returns (d: nat)
    ensures Tests(LoopActions(cfg, env, n, added)) == Rounds(cfg, env, n, d)
    ensures forall m: nat :: n <= m < n + d <==> Begins(cfg, env, n, m) && !IterationFails(env.iterations(m))
    decreases Bound(cfg) + 1 - n
  {
    hide Select, LoopActions, IterationActions, VerifyActions, Kept, IterationEntries, AllPass, Begins, Exit, Round;
    hide IterationFails;
    var it := env.iterations(n);
    LoopProjection(cfg, env, n, added, TestOf);
    EndHasNoTests(HaltedMaxIters, RunFailed);
    EndHasNoTests(HaltedMaxTime, RunFailed);
    EndHasNoTests(Cancelled, RunCancelled);
    EndHasNoTests(Failed, RunFailed);
    EndHasNoTests(Completed, RunCompleted);
    forall m: nat ensures Begins(cfg, env, n, m) <==> BeginsNowOrLater(cfg, env, n, m) { BeginsStep(cfg, env, n, m); }
    d := 0;
    if n > Bound(cfg) || (cfg.hasDeadline && it.timeUp) || it.cancelled { return; }
    IterationHasNoTests(n, it, Kept(added, cfg.limit));
    VerifyTests(cfg, n, it);
    ExitCases(cfg, env, n);
    if IterationFails(it) { return; }
    var later := 0;
    if !AllPass(it.outcomes, cfg.contracts) {
      later := LoopTests(cfg, env, n + 1, added + IterationEntries(cfg, n, it));
    }
    d := later + 1;
  }

  /** The test commands of a run, exactly: for each iteration that begins and goes through, which are those from 1 to
      d, every contract once and in order, with its outcome; and no others. */
  lemma TestsOfEveryRun(cfg: Config, env: Env) returns (d: nat)
    ensures Tests(RunActions(cfg, env)) == Rounds(cfg, env, 1, d)
    ensures forall n: nat :: 1 <= n <= d <==> Starts(cfg, env, n) && !IterationFails(env.iterations(n))
  {
    hide Select, RunActions, LoopActions, BlastActions, PlanningActions, StartingEntries, Begins, Rounds;
    hide IterationFails, PlanningFails, BlastFails;
    d := 0;
    NoRounds(cfg, env);
    if Launched(env) {
      RunProjection(cfg, env, TestOf);
      EndHasNoTests(Cancelled, RunCancelled);
      EndHasNoTests(Failed, RunFailed);
      PhasesHaveNoTests(cfg, env);
      if ReachesLoop(cfg, env) {
        d := LoopTests(cfg, env, 1, StartingEntries(cfg, env));
      }
    } else {
      UnlaunchedRun(cfg, env);
      NoTests(RunActions(cfg, env));
    }
  }

  lemma NoRounds(cfg: Config, env: Env)
    ensures Rounds(cfg, env, 1, 0) == []
  {
  }

  lemma PhasesHaveNoTests(cfg: Config, env: Env)
    ensures Tests(BlastActions(cfg, env)) == [] && Tests(PlanningActions(env)) == []
  {
    hide Select;
    NoTests(BlastActions(cfg, env));
    NoTests(PlanningActions(env));
  }

  // ---------------------------------------------------------------- file changes

  function ChangeOf(a: Action): Option<string> { if a.FileChange? then Some(a.path) else None }
  function WriteOf(a: Action): Option<string> { if a.Emit? && a.e.FileWrite? then Some(a.e.path) else None }

  function Changes(acts: seq<Action>): seq<string> { Select(acts, ChangeOf) }
  function Writes(acts: seq<Action>): seq<string> { Select(acts, WriteOf) }

  /** Neither a file change nor a write event. */
  predicate LeavesFiles(a: Action) {
    !a.FileChange? && !(a.Emit? && a.e.FileWrite?)
  }

  lemma NoFiles(acts: seq<Action>)
    requires forall a :: a in acts ==> LeavesFiles(a)
    ensures Changes(acts) == [] && Writes(acts) == []
  {
    SelectNone(acts, ChangeOf);
    SelectNone(acts, WriteOf);
  }

  lemma FilesConcat(a: seq<Action>, b: seq<Action>)
    requires Changes(a) == Writes(a) && Changes(b) == Writes(b)
    ensures Changes(a + b) == Writes(a + b)
  {
    SelectConcat(a, b, ChangeOf);
    SelectConcat(a, b, WriteOf);
  }

  lemma ToolFiles(u: ToolUse)
    ensures Changes(ToolActions(u)) == Writes(ToolActions(u))
  {
    hide Select;
    var call, result := [Emit(ToolCall(u.name))], [Emit(ToolResult(u.name))];
    NoFiles(call);
    if u.inputError.Some? {
      assert ToolActions(u) == call;
    } else {
      NoFiles(call + result);
      assert ToolActions(u) == call + result + FileActions(u);
      OneFile(u);
      FilesConcat(call + result, FileActions(u));
    }
  }

  lemma OneFile(u: ToolUse)
    ensures Changes(FileActions(u)) == Writes(FileActions(u))
  {
    hide Select;
    if u.resultError.None? && u.name == "write_file" && u.path != "" {
      assert FileActions(u) == [Emit(FileWrite(u.path))] + ([FileChange(u.path)] + []);
      NoFiles([]);
      SelectCons(FileChange(u.path), [], ChangeOf);
      SelectCons(FileChange(u.path), [], WriteOf);
      SelectCons(Emit(FileWrite(u.path)), [FileChange(u.path)] + [], ChangeOf);
      SelectCons(Emit(FileWrite(u.path)), [FileChange(u.path)] + [], WriteOf);
    } else {
      NoFiles(FileActions(u));
    }
  }

  lemma {:induction false} BlocksFiles(blocks: seq<Block>)
    ensures Changes(BlocksActions(blocks)) == Writes(BlocksActions(blocks))
  {
    hide Select, ToolActions;
    NoFiles([]);
    if blocks != [] {
      var front, last := blocks[..|blocks| - 1], blocks[|blocks| - 1];
      BlocksFiles(front);
      if last.ToolBlock? { ToolFiles(last.use); }
      FilesConcat(BlocksActions(front), if last.ToolBlock? then ToolActions(last.use) else []);
    }
  }

  lemma IterationFiles(n: nat, it: Iteration, prompt: seq<Entry>)
    ensures Changes(IterationActions(n, it, prompt)) == Writes(IterationActions(n, it, prompt))
  {
    hide Select, BlocksActions;
    var all := IterationActions(n, it, prompt);
    if IterationFails(it) {
      NoFiles(all);
    } else {
      var head := [Status(Iterating), Row(n), Emit(IterationStarted(n)), Emit(LlmRequest), Ask(n, prompt),
                   Emit(LlmResponse), Cost];
      var blocks, end := BlocksActions(it.reply.blocks), [RowDone(n), Emit(IterationCompleted(n))];
      assert all == head + blocks + end;
      NoFiles(head);
      NoFiles(end);
      BlocksFiles(it.reply.blocks);
      FilesConcat(head, blocks);
      FilesConcat(head + blocks, end);
    }
  }

  lemma EndFiles(s: RunState, e: Event)
    requires !e.FileWrite?
    ensures Changes([Status(s), Emit(e)]) == Writes([Status(s), Emit(e)]) && Changes([Status(s)]) == Writes([Status(s)])
  {
    hide Select;
    NoFiles([Status(s), Emit(e)]);
    NoFiles([Status(s)]);
  }

  lemma {:induction false} LoopFiles(cfg: Config, env: Env, n: nat, added: seq<Entry>)
    ensures Changes(LoopActions(cfg, env, n, added)) == Writes(LoopActions(cfg, env, n, added))
    decreases Bound(cfg) + 1 - n
  {
    hide Select, LoopActions, IterationActions, VerifyActions, Kept, IterationEntries, AllPass, IterationFails;
    var it := env.iterations(n);
    LoopProjection(cfg, env, n, added, ChangeOf);
    LoopProjection(cfg, env, n, added, WriteOf);
    EndFiles(HaltedMaxIters, RunFailed);
    EndFiles(HaltedMaxTime, RunFailed);
    EndFiles(Cancelled, RunCancelled);
    EndFiles(Failed, RunFailed);
    EndFiles(Completed, RunCompleted);
    IterationFiles(n, it, Kept(added, cfg.limit));
    VerifyFiles(cfg, n, it);
    if n <= Bound(cfg) && !IterationFails(it) {
      LoopFiles(cfg, env, n + 1, added + IterationEntries(cfg, n, it));
    }
  }

  lemma VerifyFiles(cfg: Config, n: nat, it: Iteration)
    ensures Changes(VerifyActions(cfg, n, it)) == Writes(VerifyActions(cfg, n, it))
  {
    TestsOnlyTest(n, it.outcomes, cfg.contracts);
    NoFiles(VerifyActions(cfg, n, it));
  }

  /** The file changes a run records are the files its write events name, one for one and in order. */
  lemma FileChangesOfEveryRun(cfg: Config, env: Env)
    ensures Changes(RunActions(cfg, env)) == Writes(RunActions(cfg, env))
  {
    hide Select, RunActions, LoopActions, BlastActions, PlanningActions, StartingEntries, BlastFails, PlanningFails;
    if Launched(env) {
      RunProjection(cfg, env, ChangeOf);
      RunProjection(cfg, env, WriteOf);
      EndFiles(Cancelled, RunCancelled);
      EndFiles(Failed, RunFailed);
      QuietPhases(cfg, env);
      LoopFiles(cfg, env, 1, StartingEntries(cfg, env));
    } else {
      UnlaunchedRun(cfg, env);
      NoFiles(RunActions(cfg, env));
    }
  }

  lemma QuietPhases(cfg: Config, env: Env)
    ensures Changes(BlastActions(cfg, env)) == Writes(BlastActions(cfg, env))
    ensures Changes(PlanningActions(env)) == Writes(PlanningActions(env))
  {
    hide Select;
    NoFiles(BlastActions(cfg, env));
    NoFiles(PlanningActions(env));
  }

  // ---------------------------------------------------------------- what the entries and the feedback say

  /** Every entry ever added is one `Add` makes. */
  lemma {:induction false} AddedEstimated(cfg: Config, env: Env, n: nat)
    ensures forall e :: e in AddedBefore(cfg, env, n) ==> Estimated(e)
    decreases n
  {
    hide Estimated, MakeEntry, StartingEntries, IterationEntries, IterationFails;
    if n <= 1 {
      StartEstimated(cfg, env);
    } else {
      AddedEstimated(cfg, env, n - 1);
      if !IterationFails(env.iterations(n - 1)) { EntriesEstimated(cfg, n - 1, env.iterations(n - 1)); }
    }
  }

  lemma StartEstimated(cfg: Config, env: Env)
    ensures forall e :: e in StartingEntries(cfg, env) ==> Estimated(e)
  {
    hide Estimated, MakeEntry;
    MadeIsEstimated("spec", cfg.specText);
    MadeIsEstimated("plan", env.planText);
    MadeIsEstimated("agents_instructions", env.agentsMD);
  }

  lemma {:induction false} BlocksEstimated(blocks: seq<Block>)
    ensures forall e :: e in BlocksEntries(blocks) ==> Estimated(e)
  {
    hide Estimated, ToolEntry;
    if blocks != [] {
      BlocksEstimated(blocks[..|blocks| - 1]);
      var last := blocks[|blocks| - 1];
      if last.ToolBlock? { ToolEntryMeans(last.use); }
    }
  }

  lemma EntriesEstimated(cfg: Config, n: nat, it: Iteration)
    requires !IterationFails(it)
    ensures forall e :: e in IterationEntries(cfg, n, it) ==> Estimated(e)
  {
    hide Estimated, MakeEntry, BlocksEntries, Feedback, Decimal;
    BlocksEstimated(it.reply.blocks);
    MadeIsEstimated("test_feedback_" + Decimal(n), Feedback(cfg, it));
  }

  /** What a tool use leaves in the context: under the tool's name, the error that made its input unreadable, or else
      its error, or else its output, or else its content. */
  lemma ToolEntryMeans(u: ToolUse)
    ensures var e := ToolEntry(u);
            && Estimated(e) && !e.pinned
            && (u.inputError.Some? ==> e.title == "tool_error(" + u.name + ")" && e.content == u.inputError.value)
            && (u.inputError.None? ==> e.title == "tool(" + u.name + ") result")
            && (u.inputError.None? && u.resultError.Some? ==> e.content == "error: " + u.resultError.value)
            && (u.inputError.None? && u.resultError.None? && u.stdout != "" ==> e.content == u.stdout)
            && (u.inputError.None? && u.resultError.None? && u.stdout == "" ==> e.content == u.content)
  {
    hide Estimated, MakeEntry;
    var title := if u.inputError.Some? then "tool_error(" + u.name + ")" else "tool(" + u.name + ") result";
    var content := if u.inputError.Some? then u.inputError.value
                   else if u.resultError.Some? then "error: " + u.resultError.value
                   else if u.stdout != "" then u.stdout else u.content;
    MadeIsEstimated(title, content);
    EntryPinning(u.name, 0, content);
  }

  /** What an iteration leaves in the context, given that it goes on: the entries of its tools and then the feedback,
      under its number. */
  lemma FeedbackIsLast(cfg: Config, n: nat, it: Iteration)
    requires !IterationFails(it)
    ensures var es := IterationEntries(cfg, n, it);
            && es != [] && es[..|es| - 1] == BlocksEntries(it.reply.blocks)
            && var e := es[|es| - 1];
               e.title == "test_feedback_" + Decimal(n) && e.content == Feedback(cfg, it) && !e.pinned && Estimated(e)
  {
    hide MakeEntry, Estimated, BlocksEntries, Feedback, Decimal;
    MadeIsEstimated("test_feedback_" + Decimal(n), Feedback(cfg, it));
    EntryPinning("", n, Feedback(cfg, it));
  }

  /** Tools are dispatched block by block in the order of the reply, text passed over; their entries stand in the same
      order. */
  lemma {:induction false} BlocksInOrder(a: seq<Block>, b: seq<Block>)
    ensures BlocksActions(a + b) == BlocksActions(a) + BlocksActions(b)
    ensures BlocksEntries(a + b) == BlocksEntries(a) + BlocksEntries(b)
    ensures |b| == 1 && b[0].TextBlock? ==> BlocksActions(b) == [] && BlocksEntries(b) == []
    ensures |b| == 1 && b[0].ToolBlock? ==>
              BlocksEntries(b) == [ToolEntry(b[0].use)] && BlocksActions(b) == ToolActions(b[0].use)
  {
    hide BlocksActions, BlocksEntries, ToolActions, ToolEntry;
    NoBlocks();
    if b == [] {
      assert a + b == a;
    } else {
      var front, last := b[..|b| - 1], b[|b| - 1];
      assert a + b == (a + front) + [last] && b == front + [last];
      BlocksInOrder(a, front);
      LastBlock(a + front, last);
      LastBlock(front, last);
    }
  }

  lemma NoBlocks()
    ensures BlocksActions([]) == [] && BlocksEntries([]) == []
  {
  }

  lemma LastBlock(front: seq<Block>, last: Block)
    ensures BlocksActions(front + [last]) ==
            BlocksActions(front) + if last.ToolBlock? then ToolActions(last.use) else []
    ensures BlocksEntries(front + [last]) ==
            BlocksEntries(front) + if last.ToolBlock? then [ToolEntry(last.use)] else []
  {
    hide ToolActions, ToolEntry;
    assert (front + [last])[..|front|] == front;
  }

  /** What the context starts with. */
  lemma StartingEntriesMean(cfg: Config, env: Env)
    ensures var es := StartingEntries(cfg, env);
            && es[0].title == "spec" && es[0].content == cfg.specText && es[0].pinned
            && es[1].title == "plan" && es[1].content == env.planText && es[1].pinned
            && |es| == (if env.agentsMD == "" then 2 else 3)
            && (|es| == 3 ==> es[2].title == "agents_instructions" && es[2].content == env.agentsMD && !es[2].pinned)
  {
    hide MakeEntry;
    MadeIsEstimated("spec", cfg.specText);
    MadeIsEstimated("plan", env.planText);
    MadeIsEstimated("agents_instructions", env.agentsMD);
    HeadAtStart(cfg, env);
    EntryPinning("", 0, env.agentsMD);
  }

  /** Every prompt's size in bytes: unless only the specification and the plan are left, what it holds comes to at most
      four times the limit and three bytes an entry. */
  lemma PromptBytes(cfg: Config, env: Env, a: Action)
    requires a.Ask? && a.n >= 1
    ensures a in RunActions(cfg, env) ==>
              && (forall e :: e in a.prompt ==> Estimated(e))
              && (Bytes(a.prompt) <= 4 * cfg.limit + 3 * |a.prompt| || a.prompt == [SpecEntry(cfg), PlanEntry(env)])
  {
    hide MakeEntry, Kept, Tokens, Bytes, RunActions, Starts, Estimated;
    ProbesOfEveryRun(cfg, env, a);
    PromptsKeepSpecAndPlan(cfg, env, a);
    if a in RunActions(cfg, env) {
      var all := AddedBefore(cfg, env, a.n);
      AddedEstimated(cfg, env, a.n);
      KeptWithin(all, cfg.limit);
      BytesOfTokens(a.prompt);
    }
  }

  /** Joining, without recursion from one end: a separator between any two parts and nowhere else. */
  lemma {:induction false} JoinConcat(a: seq<string>, b: seq<string>, sep: string)
    requires a != [] && b != []
    ensures Join(a + b, sep) == Join(a, sep) + sep + Join(b, sep)
    ensures |a| == 1 ==> Join(a, sep) == a[0]
  {
    assert (a + b)[1..] == a[1..] + b;
    if |a| > 1 {
      JoinConcat(a[1..], b, sep);
    } else {
      assert a[1..] + b == b;
    }
  }

  /** Which contracts failed, in order. */
  ghost predicate FailedOnes(outcomes: nat -> TestOutcome, upTo: nat, which: seq<nat>) {
    && (forall k :: 0 <= k < |which| ==> which[k] < upTo && outcomes(which[k]).Fail?)
    && (forall k, l :: 0 <= k < l < |which| ==> which[k] < which[l])
    && forall i: nat :: i < upTo && outcomes(i).Fail? ==> i in which
  }

  /** The feedback is a heading and the reports of exactly the contracts that failed, in order, one to a line. */
  lemma FeedbackMeans(cfg: Config, it: Iteration) returns (which: seq<nat>)
    ensures FailedOnes(it.outcomes, cfg.contracts, which)
    ensures Feedback(cfg, it) ==
            "test failed:\n" + Join(seq(|which|, k requires 0 <= k < |which| => Report(it.outcomes, which[k])), "\n")
  {
    which := FailuresMean(it.outcomes, cfg.contracts);
    assert Failures(it.outcomes, cfg.contracts) == seq(|which|, k requires 0 <= k < |which| => Report(it.outcomes, which[k]));
  }

  function Report(outcomes: nat -> TestOutcome, i: nat): string {
    match outcomes(i) case Pass => "" case Fail(report) => report
  }

  lemma {:induction false} FailuresMean(outcomes: nat -> TestOutcome, upTo: nat) returns (which: seq<nat>)
    ensures FailedOnes(outcomes, upTo, which) && |Failures(outcomes, upTo)| == |which|
    ensures forall k :: 0 <= k < |which| ==> Failures(outcomes, upTo)[k] == Report(outcomes, which[k])
  {
    hide FailedOnes;
    which := [];
    if upTo == 0 {
      NoneFailed(outcomes);
    } else {
      var before := FailuresMean(outcomes, upTo - 1);
      which := if outcomes(upTo - 1).Fail? then before + [upTo - 1] else before;
      OneMoreContract(outcomes, upTo, before);
    }
  }

  lemma NoneFailed(outcomes: nat -> TestOutcome)
    ensures FailedOnes(outcomes, 0, [])
  {
  }

  lemma OneMoreContract(outcomes: nat -> TestOutcome, upTo: nat, before: seq<nat>)
    requires upTo > 0 && FailedOnes(outcomes, upTo - 1, before)
    ensures FailedOnes(outcomes, upTo, if outcomes(upTo - 1).Fail? then before + [upTo - 1] else before)
  {
    var which := if outcomes(upTo - 1).Fail? then before + [upTo - 1] else before;
    forall i: nat | i < upTo && outcomes(i).Fail? ensures i in which {
      if i < upTo - 1 {
        assert i in before;
      } else {
        assert which[|before|] == i;
      }
    }
  }
}
