/** One run of the agent loop as a function of its environment: every choice the outside world makes is
    a field of a script, and the run's requests to the store, the audit log, the model and the test
    commands are a list of actions. */
module RunScript {
  import opened Text
  import opened ContextWindow
  import opened RunStates

  datatype Event =
    | RunCreated | BlastRadiusComputed | RunStarted | LlmRequest | LlmResponse
    | IterationStarted(n: nat) | IterationCompleted(n: nat)
    | ToolCall(tool: string) | ToolResult(tool: string) | FileRead | FileWrite(path: string)
    | RunCompleted | RunFailed | RunCancelled

  /** The event that goes with a terminal status, when one is emitted at all. */
  function EventFor(s: RunState): Event {
    if s == Completed then RunCompleted else if s == Cancelled then RunCancelled else RunFailed
  }

  /** What the runner asks of the world, in order, whether or not the world obliges. */
  datatype Action =
    | Status(s: RunState)                      // UpdateRunStatus or CompleteRun
    | Emit(e: Event)
    | Row(n: nat)                              // CreateIteration
    | RowDone(n: nat)                          // CompleteIteration
    | Cost                                     // UpdateRunCost
    | FileChange(path: string)                 // InsertFileChange
    | Ask(n: nat, prompt: seq<Entry>)          // a model call; n = 0 is the planning call
    | Test(n: nat, contract: nat, passed: bool)

  // ---------------------------------------------------------------- the environment

  datatype ToolUse = ToolUse(
    name: string,
    inputError: Option<string>,    // the tool input is not a JSON object
    resultError: Option<string>,
    content: string, stdout: string,
    path: string)                  // params["path"], empty if absent

  datatype Block = TextBlock | ToolBlock(use: ToolUse)

  datatype Reply = LlmError | LlmReply(blocks: seq<Block>)

  datatype TestOutcome = Pass | Fail(report: string)

  /** Iteration n: the clock and the context as seen at its start, the store's answers, the model's reply,
      and how each test contract goes afterwards. */
  datatype Iteration = Iteration(timeUp: bool, cancelled: bool, statusOk: bool, rowOk: bool, reply: Reply,
                                 outcomes: nat -> TestOutcome)

  datatype Env = Env(
    createOk: bool, createdEmitOk: bool,
    blastStatusOk: bool, buildOk: bool, cancelledAfterBlast: bool,
    planStatusOk: bool, startedEmitOk: bool, planAnswered: bool, planText: string, agentsMD: string,
    cancelledAfterPlan: bool,
    iterations: nat -> Iteration)

  /** The parts of the spec and the configuration that steer the loop. */
  datatype Config = Config(hasFiles: bool, contracts: nat, configMax: int, budgetMax: int, hasDeadline: bool,
                           limit: int, specText: string)

  /** The effective iteration bound. */
  function Bound(cfg: Config): int {
    if cfg.budgetMax > 0 then cfg.budgetMax else if cfg.configMax == 0 then 1 else cfg.configMax
  }

  // ---------------------------------------------------------------- one iteration

  function ToolActions(u: ToolUse): seq<Action> {
    [Emit(ToolCall(u.name))] +
    if u.inputError.Some? then [] else [Emit(ToolResult(u.name))] + FileActions(u)
  }

  /** What a tool that touched a file leaves behind its result. */
  function FileActions(u: ToolUse): seq<Action> {
    if u.resultError.Some? then []
    else if u.name == "write_file" && u.path != "" then [Emit(FileWrite(u.path)), FileChange(u.path)]
    else if u.name == "read_file" then [Emit(FileRead)] else []
  }

  function ToolEntry(u: ToolUse): Entry {
    if u.inputError.Some? then MakeEntry("tool_error(" + u.name + ")", u.inputError.value)
    else MakeEntry("tool(" + u.name + ") result",
                   if u.resultError.Some? then "error: " + u.resultError.value
                   else if u.stdout != "" then u.stdout else u.content)
  }

  function BlocksActions(blocks: seq<Block>): seq<Action> {
    if blocks == [] then []
    else BlocksActions(blocks[..|blocks| - 1]) +
         match blocks[|blocks| - 1] case TextBlock => [] case ToolBlock(u) => ToolActions(u)
  }

  function BlocksEntries(blocks: seq<Block>): seq<Entry> {
    if blocks == [] then []
    else BlocksEntries(blocks[..|blocks| - 1]) +
         match blocks[|blocks| - 1] case TextBlock => [] case ToolBlock(u) => [ToolEntry(u)]
  }

  predicate IterationFails(it: Iteration) {
    !it.statusOk || !it.rowOk || it.reply.LlmError?
  }

  function IterationActions(n: nat, it: Iteration, prompt: seq<Entry>): seq<Action> {
    [Status(Iterating)] + if !it.statusOk then [] else
    [Row(n)] + if !it.rowOk then [] else
    [Emit(IterationStarted(n)), Emit(LlmRequest), Ask(n, prompt)] + if it.reply.LlmError? then [] else
    [Emit(LlmResponse), Cost] + BlocksActions(it.reply.blocks) + [RowDone(n), Emit(IterationCompleted(n))]
  }

  // ---------------------------------------------------------------- verification

  predicate AllPass(outcomes: nat -> TestOutcome, contracts: nat) {
    forall i: nat :: i < contracts ==> outcomes(i).Pass?
  }

  function TestActions(n: nat, outcomes: nat -> TestOutcome, upTo: nat): seq<Action> {
    if upTo == 0 then [] else TestActions(n, outcomes, upTo - 1) + [Test(n, upTo - 1, outcomes(upTo - 1).Pass?)]
  }

  function Failures(outcomes: nat -> TestOutcome, upTo: nat): seq<string> {
    if upTo == 0 then []
    else Failures(outcomes, upTo - 1) + match outcomes(upTo - 1) case Pass => [] case Fail(report) => [report]
  }

  function Join(parts: seq<string>, sep: string): string {
    if parts == [] then "" else if |parts| == 1 then parts[0] else parts[0] + sep + Join(parts[1..], sep)
  }

  function Feedback(cfg: Config, it: Iteration): string {
    "test failed:\n" + Join(Failures(it.outcomes, cfg.contracts), "\n")
  }

  function VerifyActions(cfg: Config, n: nat, it: Iteration): seq<Action> {
    if cfg.contracts == 0 then [] else [Status(Verifying)] + TestActions(n, it.outcomes, cfg.contracts)
  }

  // ---------------------------------------------------------------- the loop

  /** The context entries iteration n leaves behind when its verification fails. */
  function IterationEntries(cfg: Config, n: nat, it: Iteration): seq<Entry>
    requires !IterationFails(it)
  {
    BlocksEntries(it.reply.blocks) + [MakeEntry("test_feedback_" + Decimal(n), Feedback(cfg, it))]
  }

  function LoopActions(cfg: Config, env: Env, n: nat, added: seq<Entry>): seq<Action>
    decreases Bound(cfg) + 1 - n
  {
    var it := env.iterations(n);
    if n > Bound(cfg) then [Status(HaltedMaxIters), Emit(RunFailed)]
    else if cfg.hasDeadline && it.timeUp then [Status(HaltedMaxTime)]
    else if it.cancelled then [Status(Cancelled), Emit(RunCancelled)]
    else
      IterationActions(n, it, Kept(added, cfg.limit)) +
      if IterationFails(it) then [Status(Failed), Emit(RunFailed)] else
      VerifyActions(cfg, n, it) +
      if AllPass(it.outcomes, cfg.contracts) then [Status(Completed), Emit(RunCompleted)]
      else LoopActions(cfg, env, n + 1, added + IterationEntries(cfg, n, it))
  }

  // ---------------------------------------------------------------- the phases before it

  function SpecEntry(cfg: Config): Entry { MakeEntry("spec", cfg.specText) }

  function PlanEntry(env: Env): Entry { MakeEntry("plan", env.planText) }

  function StartingEntries(cfg: Config, env: Env): seq<Entry> {
    [SpecEntry(cfg), PlanEntry(env)] +
    if env.agentsMD == "" then [] else [MakeEntry("agents_instructions", env.agentsMD)]
  }

  function BlastActions(cfg: Config, env: Env): seq<Action> {
    if !cfg.hasFiles then []
    else [Status(BlastRadius)] + if env.blastStatusOk && env.buildOk then [Emit(BlastRadiusComputed)] else []
  }

  predicate BlastFails(cfg: Config, env: Env) {
    cfg.hasFiles && !(env.blastStatusOk && env.buildOk)
  }

  function PlanningActions(env: Env): seq<Action> {
    [Status(Planning)] + if !env.planStatusOk then [] else
    [Emit(RunStarted)] + if !env.startedEmitOk then [] else
    [Emit(LlmRequest), Ask(0, [])] + if !env.planAnswered then [] else
    [Emit(LlmResponse), Emit(IterationStarted(0))]
  }

  predicate PlanningFails(env: Env) {
    !env.planStatusOk || !env.startedEmitOk || !env.planAnswered
  }

  /** `Runner.Run`. */
  function RunnerActions(cfg: Config, env: Env): seq<Action> {
    BlastActions(cfg, env) +
    if BlastFails(cfg, env) then [Status(Failed), Emit(RunFailed)]
    else if env.cancelledAfterBlast then [Status(Cancelled), Emit(RunCancelled)]
    else
      PlanningActions(env) +
      if PlanningFails(env) then [Status(Failed), Emit(RunFailed)]
      else if env.cancelledAfterPlan then [Status(Cancelled), Emit(RunCancelled)]
      else LoopActions(cfg, env, 1, StartingEntries(cfg, env))
  }

  /** `Engine.Run`: the run row and run.created, then the runner. */
  function RunActions(cfg: Config, env: Env): seq<Action> {
    if !env.createOk then []
    else [Emit(RunCreated)] + if !env.createdEmitOk then [] else RunnerActions(cfg, env)
  }

  /** The run got as far as its first phase. */
  predicate Launched(env: Env) {
    env.createOk && env.createdEmitOk
  }
}
