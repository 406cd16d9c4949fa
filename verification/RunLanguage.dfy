/** The language of audit events: every run emits a word of it, and what being a word of it entails. */
module RunLanguage {
  import opened ContextWindow
  import opened RunStates
  import opened RunScript
  import opened RunTrace

  /** Where a reader of the event list is. n is the iteration; 0 is the planning iteration. */
  datatype Place =
    | Start | CreatedRun | Blasted | Announced | PlanAsked | PlanAnswered
    | Between(n: nat)                       // iteration n is over, the next has not begun
    | Opened(n: nat) | Asked(n: nat) | InBody(n: nat)
    | Called(n: nat, tool: string) | Returned(n: nat, tool: string)
    | Ended
    | Error

  predicate TerminalEvent(e: Event) {
    e.RunCompleted? || e.RunFailed? || e.RunCancelled?
  }

  /** Inside an iteration, after the model has answered. */
  function BodyNext(n: nat, e: Event): Place {
    match e
    case ToolCall(t) => Called(n, t)
    case IterationCompleted(m) => if m == n then Between(n) else Error
    case _ => Error
  }

  function Next(p: Place, e: Event): Place {
    match p
    case Start => if e.RunCreated? then CreatedRun else Error
    case CreatedRun =>
      if e.BlastRadiusComputed? then Blasted else if e.RunStarted? then Announced
      else if e.RunFailed? || e.RunCancelled? then Ended else Error
    case Blasted =>
      if e.RunStarted? then Announced else if e.RunFailed? || e.RunCancelled? then Ended else Error
    case Announced => if e.LlmRequest? then PlanAsked else if e.RunFailed? then Ended else Error
    case PlanAsked => if e.LlmResponse? then PlanAnswered else if e.RunFailed? then Ended else Error
    case PlanAnswered => if e == IterationStarted(0) then Between(0) else Error
    case Between(n) =>
      if e == IterationStarted(n + 1) then Opened(n + 1)
      else if e.RunFailed? || e.RunCancelled? || (e.RunCompleted? && n > 0) then Ended else Error
    case Opened(n) => if e.LlmRequest? then Asked(n) else Error
    case Asked(n) => if e.LlmResponse? then InBody(n) else if e.RunFailed? then Ended else Error
    case InBody(n) => BodyNext(n, e)
    case Called(n, t) => if e == ToolResult(t) then Returned(n, t) else BodyNext(n, e)
    case Returned(n, t) =>
      if (e.FileWrite? && e.path != "" && t == "write_file") || (e.FileRead? && t == "read_file") then InBody(n)
      else BodyNext(n, e)
    case Ended => Error
    case Error => Error
  }

  function After(p: Place, es: seq<Event>): Place {
    if es == [] then p else Next(After(p, es[..|es| - 1]), es[|es| - 1])
  }

  /** A complete run's events: one terminal event at the end, or none after the end of an iteration. Which runs end
      without one is told by `RunEndings.TerminalEventOfEveryRun`. */
  predicate InLanguage(es: seq<Event>) {
    After(Start, es).Ended? || After(Start, es).Between?
  }

  // ---------------------------------------------------------------- reading a trace

  /** The same reader over actions, which ignores everything but emits. */
  function Read(p: Place, acts: seq<Action>): Place {
    After(p, Events(acts))
  }

  lemma {:induction false} AfterConcat(p: Place, a: seq<Event>, b: seq<Event>)
    ensures After(p, a + b) == After(After(p, a), b)
  {
    hide Next;
    if b == [] {
      assert a + b == a;
    } else {
      var c := a + b;
      assert c[..|c| - 1] == a + b[..|b| - 1];
      AfterConcat(p, a, b[..|b| - 1]);
    }
  }

  lemma ReadConcat(p: Place, a: seq<Action>, b: seq<Action>)
    ensures Read(p, a + b) == Read(Read(p, a), b)
  {
    SelectConcat(a, b, EventOf);
    AfterConcat(p, Events(a), Events(b));
  }

  lemma ReadEmpty(p: Place)
    ensures Read(p, []) == p
  {
  }

  lemma ReadOther(p: Place, a: Action)
    requires !a.Emit?
    ensures Read(p, [a]) == p
  {
    SelectNone([a], EventOf);
  }

  lemma ReadEmit(p: Place, e: Event)
    ensures Read(p, [Emit(e)]) == Next(p, e)
  {
    assert [Emit(e)] == [Emit(e)] + [];
    SelectCons(Emit(e), [], EventOf);
    assert Events([Emit(e)]) == [e] + [] == [e] && [e][..0] == [];
    assert After(p, [e]) == Next(After(p, [e][..0]), e);
  }

  lemma ReadCons(p: Place, a: Action, acts: seq<Action>)
    ensures Read(p, [a] + acts) == Read(if a.Emit? then Next(p, a.e) else p, acts)
  {
    ReadConcat(p, [a], acts);
    if a.Emit? { ReadEmit(p, a.e); } else { ReadOther(p, a); }
  }

  lemma ReadEnd(p: Place, s: RunState, e: Event)
    ensures Read(p, [Status(s), Emit(e)]) == Next(p, e) && Read(p, [Status(s)]) == p
  {
    assert [Status(s), Emit(e)] == [Status(s)] + [Emit(e)];
    ReadCons(p, Status(s), [Emit(e)]);
    ReadEmit(p, e);
    ReadOther(p, Status(s));
  }

  predicate Body(p: Place, n: nat) {
    p == InBody(n) || (p.Called? && p.n == n) || (p.Returned? && p.n == n)
  }

  lemma ReadTool(p: Place, n: nat, u: ToolUse)
    requires Body(p, n)
    ensures Body(Read(p, ToolActions(u)), n)
  {
    hide Read, FileActions;
    var call, q, r := Emit(ToolCall(u.name)), Called(n, u.name), Returned(n, u.name);
    if u.inputError.Some? {
      assert ToolActions(u) == [call] + [];
      ReadCons(p, call, []);
      ReadEmpty(q);
    } else {
      var rest := [Emit(ToolResult(u.name))] + FileActions(u);
      assert ToolActions(u) == [call] + rest;
      ReadCons(p, call, rest);
      ReadCons(q, Emit(ToolResult(u.name)), FileActions(u));
      ReadFile(n, u);
    }
  }

  lemma ReadFile(n: nat, u: ToolUse)
    ensures Body(Read(Returned(n, u.name), FileActions(u)), n)
  {
    hide Read;
    var r := Returned(n, u.name);
    ReadEmpty(r);
    if u.resultError.None? && u.name == "write_file" && u.path != "" {
      assert FileActions(u) == [Emit(FileWrite(u.path))] + [FileChange(u.path)];
      ReadCons(r, Emit(FileWrite(u.path)), [FileChange(u.path)]);
      ReadOther(InBody(n), FileChange(u.path));
    } else {
      ReadEmit(r, FileRead);
    }
  }

  lemma {:induction false} ReadBlocks(p: Place, n: nat, blocks: seq<Block>)
    requires Body(p, n)
    ensures Body(Read(p, BlocksActions(blocks)), n)
  {
    hide Read, ToolActions;
    if blocks == [] {
      ReadEmpty(p);
    } else {
      var front, last := blocks[..|blocks| - 1], blocks[|blocks| - 1];
      ReadBlocks(p, n, front);
      var q := Read(p, BlocksActions(front));
      var tail := match last case TextBlock => [] case ToolBlock(u) => ToolActions(u);
      assert BlocksActions(blocks) == BlocksActions(front) + tail;
      ReadConcat(p, BlocksActions(front), tail);
      ReadEmpty(q);
      if last.ToolBlock? { ReadTool(q, n, last.use); }
    }
  }

  /** An iteration from the place before it: over if it succeeds, else where only a failure can follow. */
  lemma ReadIteration(n: nat, it: Iteration, prompt: seq<Entry>)
    requires n >= 1
    ensures var p := Read(Between(n - 1), IterationActions(n, it, prompt));
            if IterationFails(it) then p == Between(n - 1) || p == Asked(n) else p == Between(n)
  {
    hide Read, BlocksActions;
    var p := Between(n - 1);
    var afterAsk := AfterAsk(n, it);
    var afterRow := AfterRow(n, it, prompt);
    if !it.statusOk {
      assert IterationActions(n, it, prompt) == [Status(Iterating)];
      ReadOther(p, Status(Iterating));
    } else {
      assert IterationActions(n, it, prompt) == [Status(Iterating)] + ([Row(n)] + afterRow);
      ReadCons(p, Status(Iterating), [Row(n)] + afterRow);
      ReadCons(p, Row(n), afterRow);
      ReadEmpty(p);
      if it.rowOk {
        assert afterRow == [Emit(IterationStarted(n))] + ([Emit(LlmRequest)] + ([Ask(n, prompt)] + afterAsk));
        ReadCons(p, Emit(IterationStarted(n)), [Emit(LlmRequest)] + ([Ask(n, prompt)] + afterAsk));
        ReadCons(Opened(n), Emit(LlmRequest), [Ask(n, prompt)] + afterAsk);
        ReadCons(Asked(n), Ask(n, prompt), afterAsk);
        ReadEmpty(Asked(n));
        if it.reply.LlmReply? { ReadAnswer(n, it); }
      }
    }
  }

  lemma ReadAnswer(n: nat, it: Iteration)
    requires it.reply.LlmReply?
    ensures Read(Asked(n), AfterAsk(n, it)) == Between(n)
  {
    hide Read, BlocksActions;
    var blocks, done := BlocksActions(it.reply.blocks), [Emit(IterationCompleted(n))];
    assert AfterAsk(n, it) == [Emit(LlmResponse)] + ([Cost] + (blocks + ([RowDone(n)] + done)));
    ReadCons(Asked(n), Emit(LlmResponse), [Cost] + (blocks + ([RowDone(n)] + done)));
    ReadCons(InBody(n), Cost, blocks + ([RowDone(n)] + done));
    ReadConcat(InBody(n), blocks, [RowDone(n)] + done);
    ReadBlocks(InBody(n), n, it.reply.blocks);
    ReadCons(Read(InBody(n), blocks), RowDone(n), done);
    ReadEmit(Read(InBody(n), blocks), IterationCompleted(n));
  }

  lemma ReadVerification(p: Place, cfg: Config, n: nat, it: Iteration)
    ensures Read(p, VerifyActions(cfg, n, it)) == p
  {
    TestsOnlyTest(n, it.outcomes, cfg.contracts);
    SelectNone(VerifyActions(cfg, n, it), EventOf);
  }

  lemma {:induction false} ReadLoop(cfg: Config, env: Env, n: nat, added: seq<Entry>)
    requires n >= 1
    ensures var p := Read(Between(n - 1), LoopActions(cfg, env, n, added)); p.Ended? || p.Between?
    decreases Bound(cfg) + 1 - n
  {
    hide Read, IterationActions, VerifyActions, IterationEntries, Kept, AllPass;
    var it, p := env.iterations(n), Between(n - 1);
    ReadEnd(p, HaltedMaxIters, RunFailed);
    ReadEnd(p, HaltedMaxTime, RunFailed);
    ReadEnd(p, Cancelled, RunCancelled);
    if n > Bound(cfg) || (cfg.hasDeadline && it.timeUp) || it.cancelled { return; }
    var once := IterationActions(n, it, Kept(added, cfg.limit));
    ReadIteration(n, it, Kept(added, cfg.limit));
    if IterationFails(it) {
      var end := [Status(Failed), Emit(RunFailed)];
      assert LoopActions(cfg, env, n, added) == once + end;
      ReadConcat(p, once, end);
      ReadEnd(p, Failed, RunFailed);
      ReadEnd(Asked(n), Failed, RunFailed);
    } else {
      var verify := VerifyActions(cfg, n, it);
      var added' := added + IterationEntries(cfg, n, it);
      var rest := if AllPass(it.outcomes, cfg.contracts) then [Status(Completed), Emit(RunCompleted)]
                  else LoopActions(cfg, env, n + 1, added');
      assert LoopActions(cfg, env, n, added) == once + (verify + rest);
      ReadConcat(p, once, verify + rest);
      ReadConcat(Between(n), verify, rest);
      ReadVerification(Between(n), cfg, n, it);
      ReadEnd(Between(n), Completed, RunCompleted);
      if !AllPass(it.outcomes, cfg.contracts) { ReadLoop(cfg, env, n + 1, added'); }
    }
  }

  lemma ReadBlast(cfg: Config, env: Env)
    ensures Read(CreatedRun, BlastActions(cfg, env)) ==
            if cfg.hasFiles && env.blastStatusOk && env.buildOk then Blasted else CreatedRun
  {
    hide Read;
    ReadEmpty(CreatedRun);
    ReadEnd(CreatedRun, BlastRadius, BlastRadiusComputed);
    if cfg.hasFiles {
      var all := BlastActions(cfg, env);
      assert all == [Status(BlastRadius)] || all == [Status(BlastRadius), Emit(BlastRadiusComputed)];
    }
  }

  lemma ReadPlanning(p: Place, env: Env)
    requires p == CreatedRun || p == Blasted
    ensures var q := Read(p, PlanningActions(env));
            if PlanningFails(env) then q == p || q == Announced || q == PlanAsked else q == Between(0)
  {
    hide Read;
    var all := PlanningActions(env);
    ReadEnd(p, Planning, RunStarted);
    if !env.planStatusOk {
      assert all == [Status(Planning)];
    } else if !env.startedEmitOk {
      assert all == [Status(Planning), Emit(RunStarted)];
    } else {
      var tail := if env.planAnswered then [Emit(LlmResponse)] + [Emit(IterationStarted(0))] else [];
      var rest := [Emit(LlmRequest)] + ([Ask(0, [])] + tail);
      assert all == [Status(Planning), Emit(RunStarted)] + rest;
      ReadConcat(p, [Status(Planning), Emit(RunStarted)], rest);
      ReadCons(Announced, Emit(LlmRequest), [Ask(0, [])] + tail);
      ReadCons(PlanAsked, Ask(0, []), tail);
      ReadEmpty(PlanAsked);
      ReadCons(PlanAsked, Emit(LlmResponse), [Emit(IterationStarted(0))]);
      ReadEmit(PlanAnswered, IterationStarted(0));
    }
  }

  lemma ReadRun(cfg: Config, env: Env)
    requires Launched(env)
    ensures InLanguage(Events(RunActions(cfg, env)))
  {
    hide Select, After, BlastActions, PlanningActions, LoopActions, StartingEntries, IterationFails, PlanningFails;
    var blast, plan := BlastActions(cfg, env), PlanningActions(env);
    var runner := RunnerActions(cfg, env);
    ReadCons(Start, Emit(RunCreated), runner);
    ReadBlast(cfg, env);
    var p := Read(CreatedRun, blast);
    ReadEnd(p, Failed, RunFailed);
    ReadEnd(p, Cancelled, RunCancelled);
    if BlastFails(cfg, env) {
      ReadConcat(CreatedRun, blast, [Status(Failed), Emit(RunFailed)]);
    } else if env.cancelledAfterBlast {
      ReadConcat(CreatedRun, blast, [Status(Cancelled), Emit(RunCancelled)]);
    } else {
      var loop := LoopActions(cfg, env, 1, StartingEntries(cfg, env));
      var rest := if PlanningFails(env) then [Status(Failed), Emit(RunFailed)]
                  else if env.cancelledAfterPlan then [Status(Cancelled), Emit(RunCancelled)] else loop;
      assert runner == blast + (plan + rest);
      ReadConcat(CreatedRun, blast, plan + rest);
      ReadConcat(p, plan, rest);
      ReadPlanning(p, env);
      ReadEnd(Read(p, plan), Failed, RunFailed);
      ReadEnd(Between(0), Cancelled, RunCancelled);
      ReadLoop(cfg, env, 1, StartingEntries(cfg, env));
    }
  }

  // ---------------------------------------------------------------- what the language entails

  lemma {:induction false} ErrorStays(es: seq<Event>)
    ensures After(Error, es) == Error
  {
    if es != [] { ErrorStays(es[..|es| - 1]); }
  }

  /** The place reached after the first i events, and the one step from it. */
  lemma PlaceBefore(es: seq<Event>, i: nat)
    requires InLanguage(es) && i < |es|
    ensures After(Start, es[..i + 1]) == Next(After(Start, es[..i]), es[i]) && After(Start, es[..i + 1]) != Error
  {
    hide Next;
    var front := es[..i + 1];
    assert front[..|front| - 1] == es[..i];
    assert es == front + es[i + 1..];
    AfterConcat(Start, front, es[i + 1..]);
    ErrorStays(es[i + 1..]);
  }

  /** Nothing leads back to the start or on from the end. */
  lemma StartAndEnd(p: Place, e: Event)
    requires Next(p, e) != Error
    ensures p != Ended && Next(p, e) != Start && (e.RunCreated? <==> p == Start)
    ensures TerminalEvent(e) ==> Next(p, e) == Ended
  {
  }

  /** What a tool result and a file event presuppose, and what brings a reader there. */
  lemma ToolPlaces(p: Place, e: Event)
    requires Next(p, e) != Error
    ensures e.ToolResult? ==> p.Called? && p.tool == e.tool
    ensures e.FileWrite? ==> p.Returned? && p.tool == "write_file"
    ensures e.FileRead? ==> p.Returned? && p.tool == "read_file"
    ensures Next(p, e).Called? ==> e == ToolCall(Next(p, e).tool)
    ensures Next(p, e).Returned? ==> e == ToolResult(Next(p, e).tool)
  {
  }

  /** A terminal event can only be the last one, so there is at most one. */
  lemma TerminalEventIsLast(es: seq<Event>, i: nat)
    requires InLanguage(es) && i < |es| && TerminalEvent(es[i])
    ensures i == |es| - 1
  {
    hide Next, After, InLanguage;
    PlaceBefore(es, i);
    StartAndEnd(After(Start, es[..i]), es[i]);
    if i + 1 < |es| {
      PlaceBefore(es, i + 1);
      StartAndEnd(After(Start, es[..i + 1]), es[i + 1]);
    }
  }

  /** run.created is the first event and no other. */
  lemma CreatedIsFirst(es: seq<Event>, i: nat)
    requires InLanguage(es) && i < |es|
    ensures es[i].RunCreated? <==> i == 0
  {
    hide Next, InLanguage;
    PlaceBefore(es, i);
    StartAndEnd(After(Start, es[..i]), es[i]);
    if i > 0 {
      PlaceBefore(es, i - 1);
      StartAndEnd(After(Start, es[..i - 1]), es[i - 1]);
    }
  }

  /** A tool result directly follows the call of the same tool. */
  lemma ResultFollowsCall(es: seq<Event>, i: nat)
    requires InLanguage(es) && i < |es| && es[i].ToolResult?
    ensures i > 0 && es[i - 1] == ToolCall(es[i].tool)
  {
    hide Next, InLanguage;
    PlaceBefore(es, i);
    ToolPlaces(After(Start, es[..i]), es[i]);
    if i > 0 {
      PlaceBefore(es, i - 1);
      ToolPlaces(After(Start, es[..i - 1]), es[i - 1]);
    }
  }

  /** A file event directly follows the result of the tool that touches files that way. */
  lemma FileEventFollowsResult(es: seq<Event>, i: nat)
    requires InLanguage(es) && i < |es| && (es[i].FileWrite? || es[i].FileRead?)
    ensures i > 0 && es[i - 1] == ToolResult(if es[i].FileWrite? then "write_file" else "read_file")
  {
    hide Next, InLanguage;
    PlaceBefore(es, i);
    ToolPlaces(After(Start, es[..i]), es[i]);
    if i > 0 {
      PlaceBefore(es, i - 1);
      ToolPlaces(After(Start, es[..i - 1]), es[i - 1]);
    }
  }

  predicate Inside(p: Place, n: nat) {
    p == Opened(n) || p == Asked(n) || Body(p, n)
  }

  /** Events that may stand between an iteration's opener and its completion. */
  predicate Interior(e: Event) {
    e.LlmRequest? || e.LlmResponse? || e.ToolCall? || e.ToolResult? || e.FileRead? || e.FileWrite?
  }

  /** An iteration is entered by its opener, stays open over interior events, and only then completes. */
  lemma IterationPlaces(p: Place, e: Event, n: nat)
    requires Next(p, e) != Error
    ensures Inside(Next(p, e), n) ==> if Next(p, e) == Opened(n) then e == IterationStarted(n) else Interior(e) && Inside(p, n)
    ensures e == IterationCompleted(n) ==> Inside(p, n)
  {
  }

  lemma {:induction false} OpenerBefore(es: seq<Event>, i: nat, n: nat) returns (j: nat)
    requires InLanguage(es) && i <= |es| && Inside(After(Start, es[..i]), n)
    ensures j < i && es[j] == IterationStarted(n) && forall k :: j < k < i ==> Interior(es[k])
  {
    hide Next, InLanguage, Interior;
    assert i > 0;
    PlaceBefore(es, i - 1);
    IterationPlaces(After(Start, es[..i - 1]), es[i - 1], n);
    if After(Start, es[..i]) == Opened(n) {
      j := i - 1;
    } else {
      j := OpenerBefore(es, i - 1, n);
    }
  }

  /** An iteration.completed has its own iteration.started before it, with nothing but that iteration's
      model, tool and file events in between. */
  lemma CompletionHasOpener(es: seq<Event>, i: nat) returns (j: nat)
    requires InLanguage(es) && i < |es| && es[i].IterationCompleted?
    ensures j < i && es[j] == IterationStarted(es[i].n) && forall k :: j < k < i ==> Interior(es[k])
  {
    hide Next, After, InLanguage, Inside, Interior;
    PlaceBefore(es, i);
    IterationPlaces(After(Start, es[..i]), es[i], es[i].n);
    j := OpenerBefore(es, i, es[i].n);
  }
}
