/** How every run ends: one terminal status with its event, or a silent wall-time halt, and nothing terminal before. */
module RunEndings {
  import opened ContextWindow
  import opened RunStates
  import opened RunScript
  import opened RunTrace
  import opened RunLaws
  import opened RunLanguage

  /** The last requests of a run that ends in `s`. */
  function End(s: RunState): seq<Action> {
    if s == HaltedMaxTime then [Status(s)] else [Status(s), Emit(EventFor(s))]
  }

  /** A request that ends a run. */
  predicate Ending(a: Action) {
    (a.Status? && Terminal(a.s)) || (a.Emit? && TerminalEvent(a.e))
  }

  ghost predicate NoEnding(acts: seq<Action>) {
    forall a :: a in acts ==> !Ending(a)
  }

  lemma IterationDoesNotEnd(n: nat, it: Iteration, prompt: seq<Entry>)
    ensures NoEnding(IterationActions(n, it, prompt))
  {
    hide BlocksActions;
    if it.reply.LlmReply? { BlocksFromTools(it.reply.blocks); }
  }

  lemma VerificationDoesNotEnd(cfg: Config, n: nat, it: Iteration)
    ensures NoEnding(VerifyActions(cfg, n, it))
  {
    hide TestActions;
    TestsOnlyTest(n, it.outcomes, cfg.contracts);
  }

  lemma PhasesDoNotEnd(cfg: Config, env: Env)
    ensures NoEnding(BlastActions(cfg, env)) && NoEnding(PlanningActions(env))
  {
  }

  /** `acts` is something that does not end a run, then the end in status `s`. */
  ghost predicate Splits(acts: seq<Action>, front: seq<Action>, s: RunState) {
    acts == front + End(s) && Terminal(s) && NoEnding(front)
  }

  lemma SplitsAfter(head: seq<Action>, acts: seq<Action>, front: seq<Action>, s: RunState)
    requires NoEnding(head) && Splits(acts, front, s)
    ensures Splits(head + acts, head + front, s)
  {
    assert head + (front + End(s)) == head + front + End(s);
  }

  lemma SplitsAtOnce(s: RunState)
    requires Terminal(s)
    ensures Splits(End(s), [], s)
  {
    assert [] + End(s) == End(s);
  }

  lemma {:induction false} LoopSplits(cfg: Config, env: Env, n: nat, added: seq<Entry>)
    returns (front: seq<Action>, s: RunState)
    ensures Splits(LoopActions(cfg, env, n, added), front, s)
    decreases Bound(cfg) + 1 - n
  {
    hide IterationActions, VerifyActions, IterationEntries, Kept, AllPass, IterationFails, Splits, NoEnding;
    var it := env.iterations(n);
    var once, verify := IterationActions(n, it, Kept(added, cfg.limit)), VerifyActions(cfg, n, it);
    IterationDoesNotEnd(n, it, Kept(added, cfg.limit));
    VerificationDoesNotEnd(cfg, n, it);
    if n > Bound(cfg) {
      s, front := HaltedMaxIters, [];
      SplitsAtOnce(s);
    } else if cfg.hasDeadline && it.timeUp {
      s, front := HaltedMaxTime, [];
      SplitsAtOnce(s);
    } else if it.cancelled {
      s, front := Cancelled, [];
      SplitsAtOnce(s);
    } else if IterationFails(it) {
      s, front := Failed, once + [];
      SplitsAtOnce(s);
      SplitsAfter(once, End(s), [], s);
    } else if AllPass(it.outcomes, cfg.contracts) {
      s := Completed;
      SplitsAtOnce(s);
      SplitsAfter(verify, End(s), [], s);
      front := once + (verify + []);
      SplitsAfter(once, verify + End(s), verify + [], s);
      assert LoopActions(cfg, env, n, added) == once + (verify + End(s));
    } else {
      var rest := LoopActions(cfg, env, n + 1, added + IterationEntries(cfg, n, it));
      var tail;
      tail, s := LoopSplits(cfg, env, n + 1, added + IterationEntries(cfg, n, it));
      SplitsAfter(verify, rest, tail, s);
      front := once + (verify + tail);
      SplitsAfter(once, verify + rest, verify + tail, s);
      assert LoopActions(cfg, env, n, added) == once + (verify + rest);
    }
  }

  lemma RunnerSplits(cfg: Config, env: Env) returns (front: seq<Action>, s: RunState)
    ensures Splits(RunnerActions(cfg, env), front, s)
  {
    hide BlastActions, PlanningActions, LoopActions, StartingEntries, BlastFails, PlanningFails, Splits, NoEnding;
    var blast, plan := BlastActions(cfg, env), PlanningActions(env);
    PhasesDoNotEnd(cfg, env);
    SplitsAtOnce(Failed);
    SplitsAtOnce(Cancelled);
    if BlastFails(cfg, env) || env.cancelledAfterBlast {
      s := if BlastFails(cfg, env) then Failed else Cancelled;
      front := blast + [];
      SplitsAfter(blast, End(s), [], s);
    } else {
      var rest := if PlanningFails(env) then End(Failed) else if env.cancelledAfterPlan then End(Cancelled)
                  else LoopActions(cfg, env, 1, StartingEntries(cfg, env));
      var tail;
      if PlanningFails(env) || env.cancelledAfterPlan {
        s, tail := if PlanningFails(env) then Failed else Cancelled, [];
      } else {
        tail, s := LoopSplits(cfg, env, 1, StartingEntries(cfg, env));
      }
      SplitsAfter(plan, rest, tail, s);
      front := blast + (plan + tail);
      SplitsAfter(blast, plan + rest, plan + tail, s);
      assert RunnerActions(cfg, env) == blast + (plan + rest);
    }
  }

  /** A run that got going ends with its terminal status and the event for it, or with the status alone when it
      halts on time. Nothing before that is terminal, and the status is the one its environment determines. */
  lemma EndOfEveryRun(cfg: Config, env: Env) returns (front: seq<Action>, s: RunState)
    requires Launched(env)
    ensures RunActions(cfg, env) == front + End(s) && Terminal(s) && NoEnding(front)
    ensures EndsIn(cfg, env, s)
  {
    hide RunnerActions, EndsIn;
    var tail;
    tail, s := RunnerSplits(cfg, env);
    front := [Emit(RunCreated)] + tail;
    assert RunActions(cfg, env) == [Emit(RunCreated)] + RunnerActions(cfg, env);
    SplitsAfter([Emit(RunCreated)], RunnerActions(cfg, env), tail, s);
    FinalOfEnd(front, s);
    OutcomeOfEveryRun(cfg, env, s);
  }

  lemma FinalOfEnd(front: seq<Action>, s: RunState)
    ensures Final(Statuses(front + End(s))) == s
  {
    hide Select;
    SelectConcat(front, End(s), StatusOf);
    EndProjections(s, EventFor(s));
  }

  lemma EventsOfEnd(s: RunState)
    ensures Events(End(s)) == if s == HaltedMaxTime then [] else [EventFor(s)]
  {
    hide Select;
    NoActions();
    assert [Status(s), Emit(EventFor(s))] == [Status(s)] + ([Emit(EventFor(s))] + []) && [Status(s)] == [Status(s)] + [];
    SelectCons(Emit(EventFor(s)), [], EventOf);
    SelectCons(Status(s), [Emit(EventFor(s))] + [], EventOf);
    SelectCons(Status(s), [], EventOf);
  }

  lemma {:induction false} EventsAreEmitted(acts: seq<Action>, e: Event)
    ensures e in Events(acts) <==> Emit(e) in acts
  {
    if acts != [] {
      EventsAreEmitted(acts[1..], e);
      assert acts == [acts[0]] + acts[1..];
    }
  }

  /** The terminal event of every run is the one for its terminal status, in last place. It is missing exactly when
      the run halts on time. */
  lemma TerminalEventOfEveryRun(cfg: Config, env: Env, s: RunState)
    requires Terminal(s) && EndsIn(cfg, env, s)
    ensures var es := Events(RunActions(cfg, env));
            && (s != HaltedMaxTime ==> es != [] && es[|es| - 1] == EventFor(s))
            && ((exists e :: e in es && TerminalEvent(e)) <==> s != HaltedMaxTime)
  {
    hide RunActions, Events, EndsIn, NoEnding;
    assert Launched(env) by { EndsLaunched(cfg, env, s); }
    var front, t := EndOfEveryRun(cfg, env);
    OneEnding(cfg, env, s, t);
    SplitEvents(front, s);
    NothingTerminal(front);
    var es := Events(RunActions(cfg, env));
    if s != HaltedMaxTime { assert es[|es| - 1] in es && TerminalEvent(EventFor(s)); }
  }

  lemma EndsLaunched(cfg: Config, env: Env, s: RunState)
    requires EndsIn(cfg, env, s)
    ensures Launched(env)
  {
  }

  lemma OneEnding(cfg: Config, env: Env, s: RunState, t: RunState)
    requires Terminal(s) && Terminal(t) && EndsIn(cfg, env, s) && EndsIn(cfg, env, t)
    ensures s == t
  {
    hide EndsIn, RunActions;
    OutcomeOfEveryRun(cfg, env, s);
    OutcomeOfEveryRun(cfg, env, t);
  }

  lemma SplitEvents(front: seq<Action>, s: RunState)
    ensures Events(front + End(s)) == Events(front) + if s == HaltedMaxTime then [] else [EventFor(s)]
  {
    SelectConcat(front, End(s), EventOf);
    EventsOfEnd(s);
  }

  lemma NothingTerminal(front: seq<Action>)
    requires NoEnding(front)
    ensures forall e :: e in Events(front) ==> !TerminalEvent(e)
  {
    forall e | e in Events(front) ensures !TerminalEvent(e) { EventsAreEmitted(front, e); }
  }

  /** Every run's events are a word of the language, and the word stops between iterations exactly when the run halts
      on time. A run that did not get going emits run.created at most. */
  lemma EventsOfEveryRun(cfg: Config, env: Env)
    ensures var es := Events(RunActions(cfg, env));
            && (Launched(env) ==> InLanguage(es) && (After(Start, es).Between? <==> EndsIn(cfg, env, HaltedMaxTime)))
            && (!Launched(env) ==> es == if env.createOk then [RunCreated] else [])
  {
    hide RunActions, Events, EndsIn, After;
    if Launched(env) {
      ReadRun(cfg, env);
      var front, s := EndOfEveryRun(cfg, env);
      TerminalEventOfEveryRun(cfg, env, s);
      EndedByTerminal(Events(RunActions(cfg, env)));
      if EndsIn(cfg, env, HaltedMaxTime) { OneEnding(cfg, env, s, HaltedMaxTime); }
    } else {
      UnlaunchedRun(cfg, env);
    }
  }

  /** Reading a word, the end is reached by its terminal event and by nothing else. */
  lemma EndedByTerminal(es: seq<Event>)
    requires InLanguage(es)
    ensures After(Start, es).Ended? <==> exists e :: e in es && TerminalEvent(e)
  {
    hide Next;
    if es != [] {
      assert es[..|es| - 1 + 1] == es;
      PlaceBefore(es, |es| - 1);
      EndingEvent(After(Start, es[..|es| - 1]), es[|es| - 1]);
      if e :| e in es && TerminalEvent(e) {
        var i :| 0 <= i < |es| && es[i] == e;
        TerminalEventIsLast(es, i);
      }
    }
  }

  lemma EndingEvent(p: Place, e: Event)
    requires Next(p, e) != Error
    ensures Next(p, e) == Ended <==> TerminalEvent(e)
  {
  }

  /** A run whose first iteration finds its time up: status halted_max_time, and no terminal event at all. */
  lemma SilentHalt() returns (cfg: Config, env: Env)
    ensures Bound(cfg) == 1 && EndsIn(cfg, env, HaltedMaxTime)
    ensures forall e :: e in Events(RunActions(cfg, env)) ==> !TerminalEvent(e)
  {
    hide Events, RunActions, FirstExit;
    cfg, env := Config(false, 1, 1, 0, true, 0, ""), FailingTests(1);
    assert FirstExit(cfg, env, 1, 1, HaltedMaxTime) by { LateFirst(cfg, env); }
    TerminalEventOfEveryRun(cfg, env, HaltedMaxTime);
  }

  lemma LateFirst(cfg: Config, env: Env)
    requires Bound(cfg) == 1 && cfg.hasDeadline && env.iterations(1).timeUp
    ensures FirstExit(cfg, env, 1, 1, HaltedMaxTime)
  {
  }
}
