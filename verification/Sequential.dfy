/** Running a plan in batches, with tool steps in parallel, builds the context that running its
    steps one at a time would build. */
module Sequential {
  import opened Text
  import opened PlanSteps
  import opened Grouper
  import opened BatchRunner
  import opened Workflow

  /** The first `n` steps, one after another, each changing the context as `next` says. */
  function EachBy(
    next: (string, string, string) -> string, context: string, plan: seq<string>, results: seq<string>, n: nat): string
    requires n <= |plan| == |results|
  {
    if n == 0 then context else next(EachBy(next, context, plan, results, n - 1), plan[n - 1], results[n - 1])
  }

  /** The context after running the steps of a plan one after another. */
  function OneByOne(context: string, plan: seq<string>, results: seq<string>): string
    requires |plan| == |results|
  {
    EachBy(NextContext, context, plan, results, |plan|)
  }

  lemma OneByOneAdds(context: string, plan: seq<string>, results: seq<string>)
    requires |plan| == |results|
    ensures OneByOne(context, plan, results) == AddResults(context, RagResults(plan, results))
  {
    AddsOnEnd();
    EachIsAll(NextContext, IsRag, AddResult, AddResults, context, plan, results, |plan|);
  }

  lemma AddsOnEnd()
    ensures forall context, results, r ::
      AddResults(context, results + [r]) == AddResult(AddResults(context, results), r)
  {
    forall context, results, r
      ensures AddResults(context, results + [r]) == AddResult(AddResults(context, results), r)
    {
      var all := results + [r];
      assert all[..|all| - 1] == results && all[|all| - 1] == r;
    }
  }

  lemma {:induction false} EachIsAll(
    next: (string, string, string) -> string, p: string -> bool, add: (string, string) -> string,
    all: (string, seq<string>) -> string, context: string, plan: seq<string>, results: seq<string>, n: nat)
    requires n <= |plan| == |results|
    requires forall c :: all(c, []) == c
    requires forall c, rs, r :: all(c, rs + [r]) == add(all(c, rs), r)
    requires forall c, step, r :: next(c, step, r) == if p(step) then add(c, r) else c
    ensures EachBy(next, context, plan, results, n) == all(context, Picked(p, plan, results, n))
  {
    if n > 0 {
      EachIsAll(next, p, add, all, context, plan, results, n - 1);
    }
  }

  // ---------- RAG results of batches in a row ----------

  lemma {:induction false} PickedFront(
    p: string -> bool, a: seq<string>, ra: seq<string>, b: seq<string>, rb: seq<string>, n: nat)
    requires |a| == |ra| && |b| == |rb| && n <= |a|
    ensures Picked(p, a + b, ra + rb, n) == Picked(p, a, ra, n)
  {
    if n > 0 {
      PickedFront(p, a, ra, b, rb, n - 1);
    }
  }

  lemma {:induction false} PickedBack(
    p: string -> bool, a: seq<string>, ra: seq<string>, b: seq<string>, rb: seq<string>, n: nat)
    requires |a| == |ra| && |b| == |rb| && n <= |b|
    ensures Picked(p, a + b, ra + rb, |a| + n) == Picked(p, a, ra, |a|) + Picked(p, b, rb, n)
  {
    if n == 0 {
      PickedFront(p, a, ra, b, rb, |a|);
    } else {
      PickedBack(p, a, ra, b, rb, n - 1);
      assert (a + b)[|a| + n - 1] == b[n - 1] && (ra + rb)[|a| + n - 1] == rb[n - 1];
    }
  }

  lemma PickedInRow(p: string -> bool, a: seq<string>, ra: seq<string>, b: seq<string>, rb: seq<string>)
    requires |a| == |ra| && |b| == |rb|
    ensures Picked(p, a + b, ra + rb, |a + b|) == Picked(p, a, ra, |a|) + Picked(p, b, rb, |b|)
  {
    PickedBack(p, a, ra, b, rb, |b|);
  }

  lemma RagInRow(a: seq<string>, ra: seq<string>, b: seq<string>, rb: seq<string>)
    requires |a| == |ra| && |b| == |rb|
    ensures RagResults(a + b, ra + rb) == RagResults(a, ra) + RagResults(b, rb)
  {
    PickedInRow(IsRag, a, ra, b, rb);
  }

  // ---------- The round ----------

  /** What the steps of the current round returned themselves, in the order of the batches. */
  function OwnResults(run: seq<Config>, oracles: seq<Oracle>, i: nat): seq<string>
    requires i <= |oracles| < |run|
  {
    if i == 0 || run[i - 1].node.Planner? then []
    else
      var before := OwnResults(run, oracles, i - 1);
      if run[i - 1].node.Executor? then before + oracles[i - 1].outcome else before
  }

  /** Where the current round started. */
  function RoundStart(run: seq<Config>, i: nat): (j: nat)
    requires i < |run|
    ensures j <= i
  {
    if i == 0 then 0 else if run[i - 1].node.Planner? then i - 1 else RoundStart(run, i - 1)
  }

  /** The context that the current round started with. */
  function ContextBefore(run: seq<Config>, i: nat): string
    requires i < |run|
  {
    run[RoundStart(run, i)].state.context
  }

  /** The RAG results of the earlier rounds. */
  function RagBefore(log: seq<Event>): seq<string> {
    if log == [] then []
    else
      var front := log[..|log| - 1];
      if log[|log| - 1].Planned? then RagOf(front) else RagBefore(front)
  }

  /** The batch is admitted, and of equal steps none gets the result of another. */
  ghost predicate Kept(s: State, o: Oracle)
    requires Fits(s, o)
  {
    s.currentBatch < |s.batches| ==>
      var batch := s.batches[s.currentBatch];
      !Rejected(batch, o) && Agree(batch, o.outcome)
  }

  /** No batch of the current round is rejected or loses a result. */
  ghost predicate RoundKept(run: seq<Config>, oracles: seq<Oracle>, i: nat)
    requires i <= |oracles| < |run|
    requires forall k | 0 <= k < |oracles| :: Fits(run[k].state, oracles[k])
  {
    i == 0 || run[i - 1].node.Planner?
    || (RoundKept(run, oracles, i - 1) && (run[i - 1].node.Executor? ==> Kept(run[i - 1].state, oracles[i - 1])))
  }

  /** What the log shows of the round, against the results of the steps themselves. */
  ghost predicate InPlanOrder(log: seq<Event>, own: seq<string>) {
    var done := Flatten(BatchesOf(log));
    |own| == |done| && RagOf(log) == RagBefore(log) + RagResults(done, own)
  }

  lemma RagBeforeAppend(log: seq<Event>, e: Event)
    ensures RagBefore(log + [e]) == if e.Planned? then RagOf(log) else RagBefore(log)
  {
    assert (log + [e])[..|log|] == log;
  }

  /** A batch that is admitted and loses nothing. */
  lemma BatchInOrder(log: seq<Event>, own: seq<string>, e: Event)
    requires InPlanOrder(log, own) && e.Executed? && !e.rejected && |e.results| == |e.batch|
    ensures InPlanOrder(log + [e], own + e.results)
  {
    var done := Flatten(BatchesOf(log));
    LogAppend(log, e);
    RagAppend(log, e);
    RagBeforeAppend(log, e);
    FlattenAppend(BatchesOf(log), e.batch);
    RagInRow(done, own, e.batch, e.results);
    Regroup(RagBefore(log), RagResults(done, own), RagResults(e.batch, e.results));
  }

  lemma Regroup<T>(a: seq<T>, b: seq<T>, c: seq<T>)
    ensures (a + b) + c == a + (b + c)
  {
  }

  lemma OtherInOrder(log: seq<Event>, own: seq<string>, e: Event)
    requires InPlanOrder(log, own) && !e.Executed?
    ensures InPlanOrder(log + [e], if e.Planned? then [] else own)
  {
    LogAppend(log, e);
    RagAppend(log, e);
    RagBeforeAppend(log, e);
  }

  lemma KeptExecution(c: Config, o: Oracle)
    requires c.node == Executor && Fits(c.state, o) && c.state.currentBatch < |c.state.batches| && Kept(c.state, o)
    ensures Step(c, o).log == c.log + [Executed(c.state.batches[c.state.currentBatch], o.outcome, false)]
  {
    ExecutorLogs(c, o);
    ExecutorContext(c.state, o);
  }

  /** One node execution of the round. */
  lemma RoundStep(c: Config, o: Oracle, own: seq<string>)
    requires c.node != End && Fits(c.state, o) && (c.node == Planner || InPlanOrder(c.log, own))
    requires c.node == Executor ==> c.state.currentBatch < |c.state.batches| && Kept(c.state, o)
    ensures InPlanOrder(
      Step(c, o).log, if c.node == Planner then [] else if c.node == Executor then own + o.outcome else own)
  {
    var e := StepFollows(c, o);
    if c.node == Planner {
      StartsInOrder(c.log, e);
    } else if c.node == Executor {
      KeptExecution(c, o);
      BatchInOrder(c.log, own, Executed(c.state.batches[c.state.currentBatch], o.outcome, false));
    } else {
      OtherInOrder(c.log, own, e);
    }
  }

  lemma StartsInOrder(log: seq<Event>, e: Event)
    requires e.Planned?
    ensures InPlanOrder(log + [e], [])
  {
    LogAppend(log, e);
    RagAppend(log, e);
    RagBeforeAppend(log, e);
  }

  lemma {:induction false} RoundInOrder(question: string, run: seq<Config>, oracles: seq<Oracle>, i: nat)
    requires IsRun(question, run, oracles) && i < |run| && RoundKept(run, oracles, i)
    ensures InPlanOrder(run[i].log, OwnResults(run, oracles, i))
  {
    if i > 0 {
      RunInv(question, run, oracles, i - 1);
      if run[i - 1].node != Planner {
        RoundInOrder(question, run, oracles, i - 1);
      }
      RoundStep(run[i - 1], oracles[i - 1], OwnResults(run, oracles, i - 1));
    }
  }

  lemma StartKept(c: Config, o: Oracle)
    requires c.node != End && Fits(c.state, o)
    ensures RagBefore(Step(c, o).log) == if c.node == Planner then RagOf(c.log) else RagBefore(c.log)
  {
    var e := StepFollows(c, o);
    RagBeforeAppend(c.log, e);
  }

  lemma StartOfRound(question: string, run: seq<Config>, oracles: seq<Oracle>, i: nat)
    requires IsRun(question, run, oracles) && i < |run|
    ensures RagBefore(run[i].log) == RagOf(run[RoundStart(run, i)].log)
  {
    forall k: nat | k < i ensures StartStays(run[k], run[k + 1]) {
      StartKept(run[k], oracles[k]);
    }
    StartOfRoundFrom(run, i);
  }

  ghost predicate StartStays(c: Config, d: Config) {
    RagBefore(d.log) == if c.node == Planner then RagOf(c.log) else RagBefore(c.log)
  }

  lemma {:induction false} StartOfRoundFrom(run: seq<Config>, i: nat)
    requires i < |run| && run[0].log == [] && forall k: nat | k < i :: StartStays(run[k], run[k + 1])
    ensures RagBefore(run[i].log) == RagOf(run[RoundStart(run, i)].log)
  {
    if i > 0 {
      assert StartStays(run[i - 1], run[i - 1 + 1]);
      if run[i - 1].node != Planner {
        StartOfRoundFrom(run, i - 1);
      }
    }
  }

  /** Batching refines running one step at a time: when the supervisor is reached in a round of
      which no batch was rejected or lost a result, the RAG results of the round are those of the
      plan's steps in the order of the plan, and the context is what running the steps of the
      plan one by one, each with its own result, makes of the context before the round. Neither
      the grouping nor the order in which the threads finished can be seen in it. */
  lemma BatchingRefinesOneByOne(question: string, run: seq<Config>, oracles: seq<Oracle>, i: nat)
    requires IsRun(question, run, oracles) && i < |run|
    requires run[i].node == Supervisor && RoundKept(run, oracles, i)
    ensures var plan, own := PlanOf(run[i].log), OwnResults(run, oracles, i);
      && |own| == |plan|
      && RagOf(run[i].log) == RagBefore(run[i].log) + RagResults(plan, own)
      && run[i].state.context == OneByOne(ContextBefore(run, i), plan, own)
  {
    var log, plan, own := run[i].log, PlanOf(run[i].log), OwnResults(run, oracles, i);
    PipelineTrace(question, run, oracles, i);
    RoundInOrder(question, run, oracles, i);
    StartOfRound(question, run, oracles, i);
    ContextInv(question, run, oracles, i);
    ContextInv(question, run, oracles, RoundStart(run, i));
    AddResultsAppend("", RagBefore(log), RagResults(plan, own));
    OneByOneAdds(ContextBefore(run, i), plan, own);
  }

  /** When every tool answers a step always alike, as `tool` says, the context depends on the
      plan alone. */
  lemma SameToolsSameContext(
    question: string, run: seq<Config>, oracles: seq<Oracle>, i: nat, tool: string -> string)
    requires IsRun(question, run, oracles) && i < |run|
    requires run[i].node == Supervisor && RoundAnswers(run, oracles, i, tool)
    ensures var plan := PlanOf(run[i].log);
      run[i].state.context == OneByOne(ContextBefore(run, i), plan, Answers(plan, tool))
  {
    AnswersAreOwn(question, run, oracles, i, tool);
    PipelineTrace(question, run, oracles, i);
    BatchingRefinesOneByOne(question, run, oracles, i);
  }

  function Answers(steps: seq<string>, tool: string -> string): seq<string> {
    seq(|steps|, k requires 0 <= k < |steps| => tool(steps[k]))
  }

  /** Every batch of the current round was admitted and its steps were answered by `tool`. */
  ghost predicate RoundAnswers(run: seq<Config>, oracles: seq<Oracle>, i: nat, tool: string -> string)
    requires i <= |oracles| < |run|
  {
    i == 0 || run[i - 1].node.Planner?
    || (RoundAnswers(run, oracles, i - 1, tool)
        && (run[i - 1].node.Executor? ==> Answered(run[i - 1].state, oracles[i - 1], tool)))
  }

  predicate Answered(s: State, o: Oracle, tool: string -> string) {
    s.currentBatch < |s.batches| ==>
      var batch := s.batches[s.currentBatch];
      !Rejected(batch, o) && o.outcome == Answers(batch, tool)
  }

  lemma {:induction false} AnswersAreOwn(
    question: string, run: seq<Config>, oracles: seq<Oracle>, i: nat, tool: string -> string)
    requires IsRun(question, run, oracles) && i < |run| && RoundAnswers(run, oracles, i, tool)
    ensures RoundKept(run, oracles, i)
    ensures OwnResults(run, oracles, i) == Answers(Flatten(BatchesOf(run[i].log)), tool)
  {
    if i > 0 {
      RunInv(question, run, oracles, i - 1);
      if run[i - 1].node != Planner {
        AnswersAreOwn(question, run, oracles, i - 1, tool);
      }
      AnswersStep(run[i - 1], oracles[i - 1], OwnResults(run, oracles, i - 1), tool);
    }
  }

  lemma AnswersStep(c: Config, o: Oracle, own: seq<string>, tool: string -> string)
    requires c.node != End && Fits(c.state, o)
    requires c.node == Planner || own == Answers(Flatten(BatchesOf(c.log)), tool)
    requires c.node == Executor ==> c.state.currentBatch < |c.state.batches| && Answered(c.state, o, tool)
    ensures c.node == Executor ==> Kept(c.state, o)
    ensures Answers(Flatten(BatchesOf(Step(c, o).log)), tool)
         == if c.node == Planner then [] else if c.node == Executor then own + o.outcome else own
  {
    var e := StepFollows(c, o);
    LogAppend(c.log, e);
    if c.node == Executor {
      AnsweredIsKept(c.state, o, tool);
      AnswersOfBatch(BatchesOf(c.log), e.batch, tool);
    }
  }

  lemma AnsweredIsKept(s: State, o: Oracle, tool: string -> string)
    requires Fits(s, o) && Answered(s, o, tool)
    ensures Kept(s, o)
  {
  }

  lemma AnswersOfBatch(batches: seq<seq<string>>, batch: seq<string>, tool: string -> string)
    ensures Answers(Flatten(batches + [batch]), tool) == Answers(Flatten(batches), tool) + Answers(batch, tool)
  {
    FlattenAppend(batches, batch);
  }

  /** A plan without equal steps loses no result, whatever its steps return. */
  lemma DistinctPlanIsKept(question: string, run: seq<Config>, oracles: seq<Oracle>, i: nat)
    requires IsRun(question, run, oracles) && i < |oracles| && run[i].node == Executor
    requires Distinct(run[i].state.plan)
    ensures var s := run[i].state;
      s.currentBatch < |s.batches| && Agree(s.batches[s.currentBatch], oracles[i].outcome)
  {
    RunInv(question, run, oracles, i);
    var s := run[i].state;
    GroupIsGrouping(s.plan);
    DistinctBatch(s.batches, s.currentBatch);
  }

  lemma {:induction false} DistinctBatch(batches: seq<seq<string>>, k: nat)
    requires k < |batches| && Distinct(Flatten(batches))
    ensures Distinct(batches[k])
  {
    var first, rest := batches[0], Flatten(batches[1..]);
    var all := Flatten(batches);
    assert all == first + rest;
    if k == 0 {
      forall i, j | 0 <= i < j < |first| ensures first[i] != first[j] {
        assert all[i] == first[i] && all[j] == first[j];
      }
    } else {
      forall i, j | 0 <= i < j < |rest| ensures rest[i] != rest[j] {
        assert all[|first| + i] == rest[i] && all[|first| + j] == rest[j];
      }
      DistinctBatch(batches[1..], k - 1);
    }
  }

  // ---------- The whole run ----------

  /** The steps of all plans of the run, in order. */
  function AllPlans(log: seq<Event>): seq<string> {
    if log == [] then []
    else
      var before, last := AllPlans(log[..|log| - 1]), log[|log| - 1];
      if last.Planned? then before + last.plan else before
  }

  /** The steps that were handed to the executor in all rounds. */
  function AllDone(log: seq<Event>): seq<string> {
    if log == [] then []
    else
      var before, last := AllDone(log[..|log| - 1]), log[|log| - 1];
      if last.Executed? then before + last.batch else before
  }

  /** What the steps of the run returned themselves. */
  function AllOwn(run: seq<Config>, oracles: seq<Oracle>, i: nat): seq<string>
    requires i <= |oracles| < |run|
  {
    if i == 0 then []
    else
      var before := AllOwn(run, oracles, i - 1);
      if run[i - 1].node.Executor? then before + oracles[i - 1].outcome else before
  }

  /** No batch of the run is rejected or loses a result. */
  ghost predicate RunKept(run: seq<Config>, oracles: seq<Oracle>, i: nat)
    requires i <= |oracles| < |run|
    requires forall k | 0 <= k < |oracles| :: Fits(run[k].state, oracles[k])
  {
    forall k | 0 <= k < i :: run[k].node.Executor? ==> Kept(run[k].state, oracles[k])
  }

  ghost predicate AllInOrder(log: seq<Event>, own: seq<string>) {
    |own| == |AllDone(log)| && RagOf(log) == RagResults(AllDone(log), own)
  }

  lemma AllAppend(log: seq<Event>, e: Event)
    ensures AllPlans(log + [e]) == if e.Planned? then AllPlans(log) + e.plan else AllPlans(log)
    ensures AllDone(log + [e]) == if e.Executed? then AllDone(log) + e.batch else AllDone(log)
  {
    assert (log + [e])[..|log|] == log;
  }

  lemma AllStep(c: Config, o: Oracle, own: seq<string>)
    requires c.node != End && Fits(c.state, o) && AllInOrder(c.log, own)
    requires c.node == Executor ==> c.state.currentBatch < |c.state.batches| && Kept(c.state, o)
    ensures AllInOrder(Step(c, o).log, if c.node == Executor then own + o.outcome else own)
  {
    if c.node == Executor {
      KeptExecution(c, o);
      AllBatch(c.log, own, Executed(c.state.batches[c.state.currentBatch], o.outcome, false));
    } else {
      var e := StepFollows(c, o);
      AllAppend(c.log, e);
      RagAppend(c.log, e);
    }
  }

  lemma AllBatch(log: seq<Event>, own: seq<string>, e: Event)
    requires AllInOrder(log, own) && e.Executed? && !e.rejected && |e.results| == |e.batch|
    ensures AllInOrder(log + [e], own + e.results)
  {
    AllAppend(log, e);
    RagAppend(log, e);
    RagInRow(AllDone(log), own, e.batch, e.results);
  }

  lemma {:induction false} RunInOrder(question: string, run: seq<Config>, oracles: seq<Oracle>, i: nat)
    requires IsRun(question, run, oracles) && i < |run| && RunKept(run, oracles, i)
    ensures AllInOrder(run[i].log, AllOwn(run, oracles, i))
  {
    if i > 0 {
      RunInOrder(question, run, oracles, i - 1);
      RunInv(question, run, oracles, i - 1);
      AllStep(run[i - 1], oracles[i - 1], AllOwn(run, oracles, i - 1));
    }
  }

  /** The plans of the earlier rounds. */
  function EarlierPlans(log: seq<Event>): seq<string> {
    if log == [] then []
    else
      var front := log[..|log| - 1];
      if log[|log| - 1].Planned? then AllPlans(front) else EarlierPlans(front)
  }

  /** The earlier plans are done, the current one as far as its batches are. */
  ghost predicate DoneSoFar(log: seq<Event>) {
    && AllPlans(log) == EarlierPlans(log) + PlanOf(log)
    && AllDone(log) == EarlierPlans(log) + Flatten(BatchesOf(log))
  }

  lemma EarlierAppend(log: seq<Event>, e: Event)
    ensures EarlierPlans(log + [e]) == if e.Planned? then AllPlans(log) else EarlierPlans(log)
  {
    assert (log + [e])[..|log|] == log;
  }

  lemma DoneStep(log: seq<Event>, e: Event)
    requires DoneSoFar(log) && (e.Planned? ==> AllDone(log) == AllPlans(log))
    ensures DoneSoFar(log + [e])
  {
    LogAppend(log, e);
    AllAppend(log, e);
    EarlierAppend(log, e);
    if e.Executed? {
      FlattenAppend(BatchesOf(log), e.batch);
      Regroup(EarlierPlans(log), Flatten(BatchesOf(log)), e.batch);
    }
  }

  /** A round that has reached the supervisor has done its plan. */
  lemma {:induction false} PlansAreDone(question: string, run: seq<Config>, oracles: seq<Oracle>, i: nat)
    requires IsRun(question, run, oracles) && i < |run|
    ensures DoneSoFar(run[i].log)
    ensures run[i].node in {Planner, Supervisor, End} ==> AllDone(run[i].log) == AllPlans(run[i].log)
  {
    if i > 0 {
      PlansAreDone(question, run, oracles, i - 1);
      DoneAfter(run[i - 1], oracles[i - 1]);
      if run[i - 1].node == Supervisor {
        SupervisorPlansNothing(run[i - 1], oracles[i - 1]);
      } else if run[i].node == Supervisor {
        PipelineTrace(question, run, oracles, i);
      } else {
        NextNode(run[i - 1], oracles[i - 1]);
      }
    }
  }

  lemma DoneAfter(c: Config, o: Oracle)
    requires c.node != End && Fits(c.state, o) && DoneSoFar(c.log)
    requires c.node == Planner ==> AllDone(c.log) == AllPlans(c.log)
    ensures DoneSoFar(Step(c, o).log)
  {
    var e := StepFollows(c, o);
    DoneStep(c.log, e);
  }

  lemma SupervisorPlansNothing(c: Config, o: Oracle)
    requires c.node == Supervisor && Fits(c.state, o)
    ensures AllDone(Step(c, o).log) == AllDone(c.log) && AllPlans(Step(c, o).log) == AllPlans(c.log)
  {
    var e := StepFollows(c, o);
    AllAppend(c.log, e);
  }

  lemma NextNode(c: Config, o: Oracle)
    requires c.node != End && c.node != Supervisor && Fits(c.state, o)
    ensures Step(c, o).node in {Grouper, Executor, Supervisor}
  {
  }

  /** Over a whole run, with its re-plan: when no batch was rejected or lost a result, the
      context is what running all steps of all plans one by one, each with its own result, makes
      of the empty context. If the results that enter it start visibly, that is their sum
      without a limit, cut once; trimmed ones are joined, one per line. */
  lemma WholeRunIsOneByOne(question: string, run: seq<Config>, oracles: seq<Oracle>, i: nat)
    requires IsRun(question, run, oracles) && i < |run|
    requires run[i].node in {Planner, Supervisor, End} && RunKept(run, oracles, i)
    ensures var plans, own := AllPlans(run[i].log), AllOwn(run, oracles, i);
      && |own| == |plans|
      && run[i].state.context == OneByOne("", plans, own)
      && ((forall r | r in RagResults(plans, own) :: Visible(r)) ==>
            run[i].state.context == Truncate(Unbounded("", RagResults(plans, own))))
      && ((forall r | r in RagResults(plans, own) :: Trimmed(r)) ==>
            run[i].state.context == Truncate(Joined(RagResults(plans, own))))
  {
    var plans, own := AllPlans(run[i].log), AllOwn(run, oracles, i);
    RunInOrder(question, run, oracles, i);
    PlansAreDone(question, run, oracles, i);
    ContextOfRun(question, run, oracles, i);
    OneByOneAdds("", plans, own);
  }
}
