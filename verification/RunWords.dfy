/** The other half of the event language: every word of it is what some run emits. */
module RunWords {
  import opened Text
  import opened ContextWindow
  import opened RunStates
  import opened RunScript
  import opened RunTrace
  import opened RunLanguage

  predicate Stop(p: Place) {
    p.Ended? || p.Between?
  }

  /** Reading from the front. A word has no dead end, so its first event is not an error. */
  lemma FirstEvent(p: Place, es: seq<Event>)
    requires es != [] && Stop(After(p, es))
    ensures After(Next(p, es[0]), es[1..]) == After(p, es) && Next(p, es[0]) != Error
  {
    hide Next;
    assert es == [es[0]] + es[1..];
    AfterConcat(p, [es[0]], es[1..]);
    assert After(p, [es[0]]) == Next(p, es[0]) by { assert [es[0]][..0] == []; }
    ErrorStays(es[1..]);
  }

  /** Nothing can be read after the end. */
  lemma EndIsLast(es: seq<Event>)
    requires Stop(After(Ended, es))
    ensures es == []
  {
    if es != [] { FirstEvent(Ended, es); }
  }

  lemma EventsCons(a: Action, acts: seq<Action>)
    ensures Events([a] + acts) == (if a.Emit? then [a.e] else []) + Events(acts)
  {
    SelectCons(a, acts, EventOf);
  }

  lemma EventsConcat(a: seq<Action>, b: seq<Action>)
    ensures Events(a + b) == Events(a) + Events(b)
  {
    SelectConcat(a, b, EventOf);
  }

  lemma EventsEmpty()
    ensures Events([]) == []
  {
  }

  lemma EndEvents(s: RunState, e: Event)
    ensures Events([Status(s), Emit(e)]) == [e] && Events([Status(s)]) == []
  {
    hide Events;
    EventsEmpty();
    assert [Status(s)] == [Status(s)] + [] && [Emit(e)] == [Emit(e)] + [];
    assert [Status(s), Emit(e)] == [Status(s)] + [Emit(e)];
    EventsCons(Status(s), []);
    EventsCons(Emit(e), []);
    EventsCons(Status(s), [Emit(e)]);
  }

  // ---------------------------------------------------------------- tool calls

  function Malformed(tool: string): ToolUse { ToolUse(tool, Some(""), None, "", "", "") }

  function Failing(tool: string): ToolUse { ToolUse(tool, None, Some(""), "", "", "") }

  function Working(tool: string, path: string): ToolUse { ToolUse(tool, None, None, "", "", path) }

  lemma MalformedEvents(tool: string)
    ensures Events(ToolActions(Malformed(tool))) == [ToolCall(tool)]
  {
    EventsEmpty();
    assert ToolActions(Malformed(tool)) == [Emit(ToolCall(tool))] + [];
    EventsCons(Emit(ToolCall(tool)), []);
  }

  lemma WellFormedEvents(u: ToolUse)
    requires u.inputError.None?
    ensures Events(ToolActions(u)) == [ToolCall(u.name), ToolResult(u.name)] + Events(FileActions(u))
  {
    hide Events;
    var rest := [Emit(ToolResult(u.name))] + FileActions(u);
    assert ToolActions(u) == [Emit(ToolCall(u.name))] + rest;
    EventsCons(Emit(ToolCall(u.name)), rest);
    EventsCons(Emit(ToolResult(u.name)), FileActions(u));
  }

  lemma FileEvents(u: ToolUse)
    ensures Events(FileActions(u)) ==
            if u.resultError.Some? then []
            else if u.name == "write_file" && u.path != "" then [FileWrite(u.path)]
            else if u.name == "read_file" then [FileRead] else []
  {
    hide Events;
    EventsEmpty();
    var write := [Emit(FileWrite(u.path))] + ([FileChange(u.path)] + []);
    assert [Emit(FileWrite(u.path)), FileChange(u.path)] == write && [Emit(FileRead)] == [Emit(FileRead)] + [];
    EventsCons(FileChange(u.path), []);
    EventsCons(Emit(FileWrite(u.path)), [FileChange(u.path)] + []);
    EventsCons(Emit(FileRead), []);
  }

  /** After a call, an event that does not continue it is read as in the body. */
  lemma BackToBody(p: Place, n: nat, es: seq<Event>)
    requires es != [] && Stop(After(p, es)) && Next(p, es[0]) == Next(InBody(n), es[0])
    ensures Stop(After(InBody(n), es))
  {
    hide Next;
    FirstEvent(p, es);
    assert es == [es[0]] + es[1..];
    AfterConcat(InBody(n), [es[0]], es[1..]);
    assert After(InBody(n), [es[0]]) == Next(InBody(n), es[0]) by { assert [es[0]][..0] == []; }
  }

  /** The tool use behind the events that start with a call. */
  lemma FirstTool(n: nat, s: seq<Event>) returns (u: ToolUse, rest: seq<Event>)
    requires s != [] && s[0].ToolCall? && Stop(After(InBody(n), s))
    ensures s == Events(ToolActions(u)) + rest && |rest| < |s| && Stop(After(InBody(n), rest))
  {
    hide Events, After, ToolActions;
    var t := s[0].tool;
    FirstEvent(InBody(n), s);
    var s1 := s[1..];
    assert s == [ToolCall(t)] + s1;
    NotStopped(Called(n, t), s1);
    if s1[0] != ToolResult(t) {
      BackToBody(Called(n, t), n, s1);
      u, rest := Malformed(t), s1;
      MalformedEvents(t);
    } else {
      FirstEvent(Called(n, t), s1);
      var s2 := s1[1..];
      assert s == [ToolCall(t), ToolResult(t)] + s2;
      NotStopped(Returned(n, t), s2);
      FirstEvent(Returned(n, t), s2);
      if (s2[0].FileWrite? && t == "write_file") || (s2[0].FileRead? && t == "read_file") {
        u, rest := Working(t, if s2[0].FileWrite? then s2[0].path else ""), s2[1..];
        assert s2 == [s2[0]] + rest;
      } else {
        BackToBody(Returned(n, t), n, s2);
        u, rest := Failing(t), s2;
        assert s2 == [] + rest;
      }
      WellFormedEvents(u);
      FileEvents(u);
    }
  }

  lemma NotStopped(p: Place, es: seq<Event>)
    requires !Stop(p) && Stop(After(p, es))
    ensures es != []
  {
  }

  lemma {:induction false} BlocksCons(b: Block, blocks: seq<Block>)
    ensures BlocksActions([b] + blocks) == BlocksActions([b]) + BlocksActions(blocks)
  {
    hide ToolActions;
    if blocks == [] {
      assert [b] + blocks == [b] && BlocksActions([b]) + [] == BlocksActions([b]);
    } else {
      var all, front := [b] + blocks, blocks[..|blocks| - 1];
      assert all[..|all| - 1] == [b] + front;
      BlocksCons(b, front);
    }
  }

  lemma OneBlock(u: ToolUse)
    ensures BlocksActions([ToolBlock(u)]) == ToolActions(u)
  {
    hide ToolActions;
    assert [ToolBlock(u)][..0] == [];
  }

  /** The reply whose blocks give the events up to the iteration's completion. */
  lemma {:induction false} DecodeBody(n: nat, s: seq<Event>) returns (blocks: seq<Block>, rest: seq<Event>)
    requires Stop(After(InBody(n), s))
    ensures s == Events(BlocksActions(blocks)) + [IterationCompleted(n)] + rest
    ensures Stop(After(Between(n), rest))
    decreases |s|
  {
    hide Events, After, ToolActions, BlocksActions;
    NotStopped(InBody(n), s);
    if s[0].ToolCall? {
      var u, s' := FirstTool(n, s);
      var tail;
      tail, rest := DecodeBody(n, s');
      blocks := [ToolBlock(u)] + tail;
      BlocksCons(ToolBlock(u), tail);
      OneBlock(u);
      EventsConcat(ToolActions(u), BlocksActions(tail));
    } else {
      FirstEvent(InBody(n), s);
      blocks, rest := [], s[1..];
      NoBlocks();
      assert s == [] + [IterationCompleted(n)] + rest;
    }
  }

  lemma NoBlocks()
    ensures Events(BlocksActions([])) == []
  {
  }

  // ---------------------------------------------------------------- iterations

  /** `its` are the iterations from n on; the configuration leaves room for them and has one test contract. */
  ghost predicate Agrees(cfg: Config, env: Env, n: nat, its: seq<Iteration>) {
    && cfg.contracts == 1 && cfg.hasDeadline && n + |its| <= Bound(cfg) + 1
    && forall i :: 0 <= i < |its| ==> env.iterations(n + i) == its[i]
  }

  ghost predicate Realizes(its: seq<Iteration>, n: nat, s: seq<Event>) {
    forall cfg, env, added :: Agrees(cfg, env, n, its) ==> Events(LoopActions(cfg, env, n, added)) == s
  }

  function Late(): Iteration {
    Iteration(true, false, true, true, LlmError, (i: nat) => Pass)
  }

  function Interrupted(): Iteration {
    Iteration(false, true, true, true, LlmError, (i: nat) => Pass)
  }

  function Unstarted(): Iteration {
    Iteration(false, false, false, true, LlmError, (i: nat) => Pass)
  }

  function Unanswered(): Iteration {
    Iteration(false, false, true, true, LlmError, (i: nat) => Pass)
  }

  function Answered(blocks: seq<Block>, outcome: TestOutcome): Iteration {
    Iteration(false, false, true, true, LlmReply(blocks), (i: nat) => outcome)
  }

  lemma IterationEvents(n: nat, it: Iteration, prompt: seq<Entry>)
    ensures Events(IterationActions(n, it, prompt)) ==
            if !it.statusOk || !it.rowOk then []
            else [IterationStarted(n), LlmRequest] +
                 if it.reply.LlmError? then []
                 else [LlmResponse] + Events(BlocksActions(it.reply.blocks)) + [IterationCompleted(n)]
  {
    hide Events, BlocksActions;
    EventsEmpty();
    var afterRow, afterAsk := AfterRow(n, it, prompt), AfterAsk(n, it);
    if !it.statusOk {
      assert IterationActions(n, it, prompt) == [Status(Iterating)] + [];
      EventsCons(Status(Iterating), []);
    } else {
      assert IterationActions(n, it, prompt) == [Status(Iterating)] + ([Row(n)] + afterRow);
      EventsCons(Status(Iterating), [Row(n)] + afterRow);
      EventsCons(Row(n), afterRow);
      if it.rowOk {
        var asking := [Ask(n, prompt)] + afterAsk;
        assert afterRow == [Emit(IterationStarted(n))] + ([Emit(LlmRequest)] + asking);
        EventsCons(Emit(IterationStarted(n)), [Emit(LlmRequest)] + asking);
        EventsCons(Emit(LlmRequest), asking);
        EventsCons(Ask(n, prompt), afterAsk);
        if it.reply.LlmReply? { AnswerEvents(n, it); }
      }
    }
  }

  lemma AnswerEvents(n: nat, it: Iteration)
    requires it.reply.LlmReply?
    ensures Events(AfterAsk(n, it)) == [LlmResponse] + Events(BlocksActions(it.reply.blocks)) + [IterationCompleted(n)]
  {
    hide Events, BlocksActions;
    EventsEmpty();
    var blocks, done := BlocksActions(it.reply.blocks), [Emit(IterationCompleted(n))] + [];
    var closing := [RowDone(n)] + done;
    assert AfterAsk(n, it) == [Emit(LlmResponse)] + ([Cost] + (blocks + closing));
    EventsCons(Emit(LlmResponse), [Cost] + (blocks + closing));
    EventsCons(Cost, blocks + closing);
    EventsConcat(blocks, closing);
    EventsCons(RowDone(n), done);
    EventsCons(Emit(IterationCompleted(n)), []);
  }

  lemma VerifyEvents(cfg: Config, n: nat, it: Iteration)
    ensures Events(VerifyActions(cfg, n, it)) == []
  {
    TestsOnlyTest(n, it.outcomes, cfg.contracts);
    SelectNone(VerifyActions(cfg, n, it), EventOf);
  }

  /** What the loop emits from an iteration on, in the setting of `Agrees`. */
  lemma LoopEvents(cfg: Config, env: Env, n: nat, added: seq<Entry>)
    requires cfg.contracts == 1 && cfg.hasDeadline && n <= Bound(cfg)
    ensures var it, all := env.iterations(n), Events(LoopActions(cfg, env, n, added));
            if it.timeUp then all == []
            else if it.cancelled then all == [RunCancelled]
            else if !it.statusOk then all == [RunFailed]
            else if !it.rowOk then all == [RunFailed]
            else if it.reply.LlmError? then all == [IterationStarted(n), LlmRequest, RunFailed]
            else all == [IterationStarted(n), LlmRequest, LlmResponse] + Events(BlocksActions(it.reply.blocks))
                        + [IterationCompleted(n)] +
                        if it.outcomes(0).Pass? then [RunCompleted]
                        else Events(LoopActions(cfg, env, n + 1, added + IterationEntries(cfg, n, it)))
  {
    hide Select, LoopActions, IterationActions, VerifyActions, IterationEntries, Kept, BlocksActions, AllPass;
    var it := env.iterations(n);
    LoopProjection(cfg, env, n, added, EventOf);
    EndEvents(HaltedMaxTime, RunFailed);
    EndEvents(Cancelled, RunCancelled);
    EndEvents(Failed, RunFailed);
    EndEvents(Completed, RunCompleted);
    IterationEvents(n, it, Kept(added, cfg.limit));
    VerifyEvents(cfg, n, it);
    OneContract(it.outcomes);
  }

  lemma OneContract(outcomes: nat -> TestOutcome)
    ensures AllPass(outcomes, 1) <==> outcomes(0).Pass?
  {
  }

  lemma RealizedAtOnce(it: Iteration, n: nat, s: seq<Event>)
    requires if it.timeUp then s == [] else if it.cancelled then s == [RunCancelled]
             else if !it.statusOk then s == [RunFailed]
             else if !it.rowOk then s == [RunFailed]
             else if it.reply.LlmError? then s == [IterationStarted(n), LlmRequest, RunFailed]
             else it.outcomes(0).Pass?
                  && s == [IterationStarted(n), LlmRequest, LlmResponse] + Events(BlocksActions(it.reply.blocks))
                          + [IterationCompleted(n)] + [RunCompleted]
    ensures Realizes([it], n, s)
  {
    hide Events, LoopActions, BlocksActions, IterationEntries;
    forall cfg, env, added | Agrees(cfg, env, n, [it]) ensures Events(LoopActions(cfg, env, n, added)) == s {
      assert [it][0] == it && env.iterations(n + 0) == it;
      LoopEvents(cfg, env, n, added);
    }
  }

  lemma RealizedLater(blocks: seq<Block>, its: seq<Iteration>, n: nat, s: seq<Event>)
    requires its != [] && Realizes(its, n + 1, s)
    ensures Realizes([Answered(blocks, Fail(""))] + its, n,
                     [IterationStarted(n), LlmRequest, LlmResponse] + Events(BlocksActions(blocks))
                     + [IterationCompleted(n)] + s)
  {
    hide Events, LoopActions, BlocksActions, IterationEntries;
    var it := Answered(blocks, Fail(""));
    var all := [it] + its;
    forall cfg, env, added | Agrees(cfg, env, n, all)
      ensures Events(LoopActions(cfg, env, n, added)) ==
              [IterationStarted(n), LlmRequest, LlmResponse] + Events(BlocksActions(blocks)) + [IterationCompleted(n)] + s
    {
      assert all[0] == it && env.iterations(n + 0) == it;
      LoopEvents(cfg, env, n, added);
      assert Agrees(cfg, env, n + 1, its) by {
        forall i | 0 <= i < |its| ensures env.iterations(n + 1 + i) == its[i] {
          assert all[i + 1] == its[i] && env.iterations(n + (i + 1)) == all[i + 1];
        }
      }
    }
  }

  /** Iterations whose events are `s`, from the place before iteration n. */
  lemma {:induction false} DecodeLoop(n: nat, s: seq<Event>) returns (its: seq<Iteration>)
    requires n >= 1 && Stop(After(Between(n - 1), s))
    requires s == [] || !s[0].RunCompleted?
    ensures 1 <= |its| <= |s| + 1 && Realizes(its, n, s)
    decreases |s|
  {
    hide Events, After, BlocksActions, LoopActions, Realizes;
    if s == [] {
      its := [Late()];
      RealizedAtOnce(Late(), n, s);
    } else {
      FirstEvent(Between(n - 1), s);
      if s[0].RunFailed? || s[0].RunCancelled? {
        EndIsLast(s[1..]);
        assert s == [s[0]] + s[1..];
        var it := if s[0].RunFailed? then Unstarted() else Interrupted();
        its := [it];
        RealizedAtOnce(it, n, s);
      } else {
        its := DecodeIteration(n, s);
      }
    }
  }

  lemma {:induction false} DecodeIteration(n: nat, s: seq<Event>) returns (its: seq<Iteration>)
    requires n >= 1 && s != [] && s[0] == IterationStarted(n) && Stop(After(Opened(n), s[1..]))
    ensures 1 <= |its| <= |s| + 1 && Realizes(its, n, s)
    decreases |s|, 0
  {
    hide Events, After, BlocksActions, LoopActions, Realizes;
    var s1 := s[1..];
    NotStopped(Opened(n), s1);
    FirstEvent(Opened(n), s1);
    var s2 := s1[1..];
    NotStopped(Asked(n), s2);
    FirstEvent(Asked(n), s2);
    assert s == [IterationStarted(n), LlmRequest] + s2;
    if s2[0].RunFailed? {
      EndIsLast(s2[1..]);
      assert s2 == [RunFailed];
      its := [Unanswered()];
      RealizedAtOnce(Unanswered(), n, s);
    } else {
      var blocks, rest := DecodeBody(n, s2[1..]);
      var opening := [IterationStarted(n), LlmRequest, LlmResponse] + Events(BlocksActions(blocks)) + [IterationCompleted(n)];
      assert s == [IterationStarted(n), LlmRequest, LlmResponse] + s2[1..];
      assert s == opening + rest;
      if rest != [] && rest[0].RunCompleted? {
        FirstEvent(Between(n), rest);
        EndIsLast(rest[1..]);
        assert rest == [RunCompleted];
        its := [Answered(blocks, Pass)];
        RealizedAtOnce(its[0], n, s);
      } else {
        var later := DecodeLoop(n + 1, rest);
        its := [Answered(blocks, Fail(""))] + later;
        RealizedLater(blocks, later, n, rest);
      }
    }
  }

  // ---------------------------------------------------------------- the phases before the loop

  lemma BlastEvents(cfg: Config, env: Env)
    ensures Events(BlastActions(cfg, env)) == if cfg.hasFiles && !BlastFails(cfg, env) then [BlastRadiusComputed] else []
  {
    hide Events;
    EventsEmpty();
    EndEvents(BlastRadius, BlastRadiusComputed);
    var all := BlastActions(cfg, env);
    assert all == [] || all == [Status(BlastRadius)] || all == [Status(BlastRadius), Emit(BlastRadiusComputed)];
  }

  lemma PlanningEvents(env: Env)
    ensures Events(PlanningActions(env)) ==
            if !env.planStatusOk then [] else if !env.startedEmitOk then [RunStarted]
            else if !env.planAnswered then [RunStarted, LlmRequest]
            else [RunStarted, LlmRequest, LlmResponse, IterationStarted(0)]
  {
    hide Events;
    EventsEmpty();
    EndEvents(Planning, RunStarted);
    var all := PlanningActions(env);
    if !env.planStatusOk {
      assert all == [Status(Planning)];
    } else if !env.startedEmitOk {
      assert all == [Status(Planning), Emit(RunStarted)];
    } else {
      var tail := if env.planAnswered then [Emit(LlmResponse)] + ([Emit(IterationStarted(0))] + []) else [];
      var asking := [Emit(LlmRequest)] + ([Ask(0, [])] + tail);
      assert all == [Status(Planning), Emit(RunStarted)] + asking;
      EventsConcat([Status(Planning), Emit(RunStarted)], asking);
      EventsCons(Emit(LlmRequest), [Ask(0, [])] + tail);
      EventsCons(Ask(0, []), tail);
      EventsCons(Emit(LlmResponse), [Emit(IterationStarted(0))] + []);
      EventsCons(Emit(IterationStarted(0)), []);
    }
  }

  /** What a launched run emits. */
  lemma RunEvents(cfg: Config, env: Env)
    requires Launched(env)
    ensures var all, blast, plan := Events(RunActions(cfg, env)), Events(BlastActions(cfg, env)), Events(PlanningActions(env));
            all == [RunCreated] + blast +
                   if BlastFails(cfg, env) then [RunFailed]
                   else if env.cancelledAfterBlast then [RunCancelled]
                   else plan + if PlanningFails(env) then [RunFailed]
                               else if env.cancelledAfterPlan then [RunCancelled]
                               else Events(LoopActions(cfg, env, 1, StartingEntries(cfg, env)))
  {
    hide Events, BlastActions, PlanningActions, LoopActions, StartingEntries, BlastFails, PlanningFails;
    var blast, plan, runner := BlastActions(cfg, env), PlanningActions(env), RunnerActions(cfg, env);
    assert RunActions(cfg, env) == [Emit(RunCreated)] + runner;
    EventsCons(Emit(RunCreated), runner);
    EndEvents(Failed, RunFailed);
    EndEvents(Cancelled, RunCancelled);
    if BlastFails(cfg, env) {
      EventsConcat(blast, [Status(Failed), Emit(RunFailed)]);
    } else if env.cancelledAfterBlast {
      EventsConcat(blast, [Status(Cancelled), Emit(RunCancelled)]);
    } else {
      var rest := if PlanningFails(env) then [Status(Failed), Emit(RunFailed)]
                  else if env.cancelledAfterPlan then [Status(Cancelled), Emit(RunCancelled)]
                  else LoopActions(cfg, env, 1, StartingEntries(cfg, env));
      assert runner == blast + (plan + rest);
      EventsConcat(blast, plan + rest);
      EventsConcat(plan, rest);
    }
  }

  /** How the phases before the loop go, as a choice of environment. */
  datatype Course = BlastFailed | CancelledEarly | NoPlanStatus | NoStartEvent | NoPlan | Looping(its: seq<Iteration>)

  function EnvOf(course: Course): Env {
    Env(true, true,
        !course.BlastFailed?, true, course.CancelledEarly?,
        !course.NoPlanStatus?, !course.NoStartEvent?, !course.NoPlan?, "", "", false,
        (n: nat) => if course.Looping? && 1 <= n <= |course.its| then course.its[n - 1] else Late())
  }

  function ConfigOf(hasFiles: bool, course: Course): Config {
    Config(hasFiles, 1, 0, if course.Looping? then |course.its| + 1 else 1, true, 0, "")
  }

  /** What a course emits after the blast-radius phase; `loop` is what its iterations emit. */
  function CourseEvents(course: Course, loop: seq<Event>): seq<Event> {
    match course
    case BlastFailed => [RunFailed]
    case CancelledEarly => [RunCancelled]
    case NoPlanStatus => [RunFailed]
    case NoStartEvent => [RunStarted, RunFailed]
    case NoPlan => [RunStarted, LlmRequest, RunFailed]
    case Looping(_) => [RunStarted, LlmRequest, LlmResponse, IterationStarted(0)] + loop
  }

  lemma CourseRuns(hasFiles: bool, course: Course, loop: seq<Event>)
    requires course.BlastFailed? ==> hasFiles
    requires course.Looping? ==> Realizes(course.its, 1, loop)
    ensures Events(RunActions(ConfigOf(hasFiles, course), EnvOf(course))) ==
            [RunCreated] + (if hasFiles && !course.BlastFailed? then [BlastRadiusComputed] else []) + CourseEvents(course, loop)
  {
    hide Events, LoopActions, StartingEntries, BlastActions, PlanningActions, RunActions;
    var cfg, env := ConfigOf(hasFiles, course), EnvOf(course);
    RunEvents(cfg, env);
    BlastEvents(cfg, env);
    PlanningEvents(env);
    if course.Looping? {
      assert Agrees(cfg, env, 1, course.its);
      assert Events(LoopActions(cfg, env, 1, StartingEntries(cfg, env))) == loop;
    }
  }

  /** The course behind a word, from the place before planning. */
  lemma DecodeCourse(p: Place, s: seq<Event>) returns (course: Course, loop: seq<Event>)
    requires p == CreatedRun || p == Blasted
    requires Stop(After(p, s)) && (s != [] ==> !s[0].BlastRadiusComputed?)
    ensures s == CourseEvents(course, loop)
    ensures course.Looping? ==> Realizes(course.its, 1, loop)
    ensures course.BlastFailed? ==> p == CreatedRun
  {
    hide After, Realizes;
    loop := [];
    NotStopped(p, s);
    FirstEvent(p, s);
    assert s == [s[0]] + s[1..];
    if s[0].RunFailed? || s[0].RunCancelled? {
      EndIsLast(s[1..]);
      course := if s[0].RunCancelled? then CancelledEarly else if p == CreatedRun then BlastFailed else NoPlanStatus;
    } else {
      var s1 := s[1..];
      NotStopped(Announced, s1);
      FirstEvent(Announced, s1);
      assert s1 == [s1[0]] + s1[1..];
      if s1[0].RunFailed? {
        EndIsLast(s1[1..]);
        course := NoStartEvent;
      } else {
        course, loop := DecodePlan(s1[1..]);
        assert s == [RunStarted, LlmRequest] + s1[1..];
      }
    }
  }

  lemma DecodePlan(s: seq<Event>) returns (course: Course, loop: seq<Event>)
    requires Stop(After(PlanAsked, s))
    ensures course.NoPlan? || course.Looping?
    ensures [RunStarted, LlmRequest] + s == CourseEvents(course, loop)
    ensures course.Looping? ==> Realizes(course.its, 1, loop)
  {
    hide After, Realizes;
    loop := [];
    NotStopped(PlanAsked, s);
    FirstEvent(PlanAsked, s);
    assert s == [s[0]] + s[1..];
    if s[0].RunFailed? {
      EndIsLast(s[1..]);
      course := NoPlan;
    } else {
      var s1 := s[1..];
      NotStopped(PlanAnswered, s1);
      FirstEvent(PlanAnswered, s1);
      loop := s1[1..];
      assert s == [LlmResponse, IterationStarted(0)] + loop;
      if loop != [] { FirstEvent(Between(0), loop); }
      var its := DecodeLoop(1, loop);
      course := Looping(its);
    }
  }

  /** The language is exact: each of its words is emitted, event for event, by some run. */
  lemma EveryWordIsARun(es: seq<Event>) returns (cfg: Config, env: Env)
    requires InLanguage(es)
    ensures Launched(env) && Events(RunActions(cfg, env)) == es
  {
    hide Events, After, RunActions, Realizes;
    NotStopped(Start, es);
    FirstEvent(Start, es);
    var s := es[1..];
    assert es == [RunCreated] + s;
    NotStopped(CreatedRun, s);
    if s[0].BlastRadiusComputed? {
      FirstEvent(CreatedRun, s);
      assert s == [BlastRadiusComputed] + s[1..];
      BlastedOnce(s[1..]);
      var course, loop := DecodeCourse(Blasted, s[1..]);
      CourseRuns(true, course, loop);
      cfg, env := ConfigOf(true, course), EnvOf(course);
    } else {
      var course, loop := DecodeCourse(CreatedRun, s);
      CourseRuns(course.BlastFailed?, course, loop);
      cfg, env := ConfigOf(course.BlastFailed?, course), EnvOf(course);
      assert s == [] + CourseEvents(course, loop);
    }
  }

  lemma BlastedOnce(s: seq<Event>)
    requires Stop(After(Blasted, s))
    ensures s != [] && !s[0].BlastRadiusComputed?
  {
    hide After;
    NotStopped(Blasted, s);
    FirstEvent(Blasted, s);
  }
}
