/** The workflow graph planner -> grouper -> batch executor (loop) -> supervisor, with at
    most one re-plan. The language model, the tools and the scheduler of the thread pool
    enter as an oracle: one arbitrary reply per node execution. */
module Workflow {
  import opened Text
  import opened PlanSteps
  import opened Grouper
  import opened BatchRunner

  const MAX_PLAN_STEPS := 8
  const MAX_GRAPH_ITERATIONS := MAX_PLAN_STEPS + 2
  const MAX_RETRIES := 1

  datatype Decision = Accept | Replan

  datatype State = State(
    question: string, plan: seq<string>, batches: seq<seq<string>>,
    currentBatch: nat, currentStep: nat, context: string, finalAnswer: Option<string>,
    retryCount: nat, supervisorDecision: Option<Decision>, supervisorScore: int)

  function InitialState(question: string): State {
    State(question, [], [], 0, 0, "", None, 0, None, 0)
  }

  // ---------- Planner ----------

  /** An element of the list that the language model returned. */
  datatype RawStep = Text(text: string) | NotText

  datatype PlannerReply = ParseError | Steps(steps: seq<RawStep>)

  /** The printed step, or None for an element that validation drops. */
  function Validated(raw: RawStep): (r: Option<string>)
    ensures r.Some? ==> Printed(r.value)
  {
    if raw.NotText? then None
    else
      var step := FromString(raw.text);
      if step.None? then None else Some(ToString(step.value))
  }

  /** What a function makes of the first `n` elements, without those that it drops. */
  function Collected<A, B>(f: A -> Option<B>, xs: seq<A>, n: nat): seq<B>
    requires n <= |xs|
  {
    if n == 0 then []
    else
      var before, next := Collected(f, xs, n - 1), f(xs[n - 1]);
      if next.None? then before else before + [next.value]
  }

  lemma {:induction false} CollectedAll<A, B>(f: A -> Option<B>, xs: seq<A>, n: nat, ok: B -> bool)
    requires n <= |xs| && forall k | 0 <= k < n && f(xs[k]).Some? :: ok(f(xs[k]).value)
    ensures forall y | y in Collected(f, xs, n) :: ok(y)
  {
    if n > 0 {
      CollectedAll(f, xs, n - 1, ok);
    }
  }

  lemma CollectedPrinted(raws: seq<RawStep>)
    ensures AllPrinted(Collected(Validated, raws, |raws|))
  {
    CollectedAll(Validated, raws, |raws|, Printed);
  }

  /** The loop that appends to a list what is not dropped. */
  method Collect<A, B>(f: A -> Option<B>, xs: seq<A>) returns (ys: seq<B>)
    ensures ys == Collected(f, xs, |xs|)
  {
    ys := [];
    for i := 0 to |xs|
      invariant ys == Collected(f, xs, i)
    {
      var y := f(xs[i]);
      if y.Some? {
        ys := ys + [y.value];
      }
    }
  }

  lemma {:induction false} AllCollected<A, B>(f: A -> Option<B>, xs: seq<A>, x: B, n: nat)
    requires n <= |xs| && forall k :: 0 <= k < n ==> f(xs[k]) == Some(x)
    ensures Collected(f, xs, n) == seq(n, _ => x)
  {
    if n > 0 {
      AllCollected(f, xs, x, n - 1);
    }
  }

  function ValidSteps(raws: seq<RawStep>): (r: seq<string>)
    ensures AllPrinted(r)
  {
    CollectedPrinted(raws);
    Collected(Validated, raws, |raws|)
  }

  function Cap(steps: seq<string>): seq<string> {
    if |steps| <= MAX_PLAN_STEPS then steps else steps[..MAX_PLAN_STEPS]
  }

  method ValidatePlan(raws: seq<RawStep>) returns (plan: seq<string>)
    ensures plan == Cap(ValidSteps(raws))
    ensures |plan| <= MAX_PLAN_STEPS && AllPrinted(plan)
  {
    var validated := Collect(Validated, raws);
    CollectedPrinted(raws);
    plan := Cap(validated);
  }

  // The first letters of the fixed texts stand apart, so that the proofs see them.
  const GENERAL_STEP := PlanStep(Reasoning, "R" + "esponder la consulta del usuario de forma general.")
  const RAG_STEPS := [
    PlanStep(K8sTool, "rag"),
    PlanStep(
      Reasoning,
      "I" + "ndicar brevemente al usuario que la captura del dashboard RAG Performance está adjunta como imagen")]
  const RESOURCE_STEPS := [
    PlanStep(K8sTool, "recursos"),
    PlanStep(
      Reasoning,
      "I" + "ndicar brevemente al usuario que la captura del dashboard de recursos del clúster está adjunta como imagen")]

  function FastPaths(question: string, plan: seq<string>): seq<string> {
    var q := Lower(question);
    if Contains(q, "grafana") || Contains(q, "imagen") || Contains(q, "dashboard") || Contains(q, "consumo") then
      if Contains(q, "rag") || Contains(q, "performance") then
        [ToString(RAG_STEPS[0]), ToString(RAG_STEPS[1])]
      else
        [ToString(RESOURCE_STEPS[0]), ToString(RESOURCE_STEPS[1])]
    else plan
  }

  function PlannerNode(s: State, reply: PlannerReply): State {
    var parsed := if reply.ParseError? then [] else Cap(ValidSteps(reply.steps));
    var plan := if parsed == [] then [ToString(GENERAL_STEP)] else parsed;
    s.(plan := FastPaths(s.question, plan), currentStep := 0)
  }

  /** Every step of the plan is a printed valid step. */
  ghost predicate AllPrinted(plan: seq<string>) {
    forall p | p in plan :: Printed(p)
  }

  ghost predicate Printed(p: string) {
    exists step :: Valid(step) && p == ToString(step)
  }

  lemma PrintedIs(step: PlanStep)
    requires Valid(step)
    ensures Printed(ToString(step))
  {
  }

  lemma FixedStepsValid()
    ensures Valid(GENERAL_STEP)
    ensures Valid(RAG_STEPS[0]) && Valid(RAG_STEPS[1]) && Valid(RESOURCE_STEPS[0]) && Valid(RESOURCE_STEPS[1])
  {
  }

  lemma FastPathsIs(question: string, plan: seq<string>)
    ensures var r := FastPaths(question, plan);
      || r == plan
      || r == [ToString(RAG_STEPS[0]), ToString(RAG_STEPS[1])]
      || r == [ToString(RESOURCE_STEPS[0]), ToString(RESOURCE_STEPS[1])]
  {
  }

  lemma TwoPrinted(a: PlanStep, b: PlanStep)
    requires Valid(a) && Valid(b)
    ensures AllPrinted([ToString(a), ToString(b)])
  {
    PrintedIs(a);
    PrintedIs(b);
  }

  /** Whatever the model replies, the plan has one to eight printed steps. */
  lemma PlanIsSound(s: State, reply: PlannerReply)
    ensures var plan := PlannerNode(s, reply).plan; 1 <= |plan| <= MAX_PLAN_STEPS && AllPrinted(plan)
  {
    FixedStepsValid();
    PrintedIs(GENERAL_STEP);
    TwoPrinted(RAG_STEPS[0], RAG_STEPS[1]);
    TwoPrinted(RESOURCE_STEPS[0], RESOURCE_STEPS[1]);
    var parsed := if reply.ParseError? then [] else Cap(ValidSteps(reply.steps));
    FastPathsIs(s.question, if parsed == [] then [ToString(GENERAL_STEP)] else parsed);
  }

  // ---------- The other nodes ----------

  function GrouperNode(s: State): State {
    s.(batches := Group(s.plan), currentBatch := 0)
  }

  /** What the world answers to one node execution. */
  datatype Oracle = Oracle(
    planner: PlannerReply,                                   // planner node
    outcome: seq<string>, order: seq<nat>, pending: int,     // executor node, tool steps
    reasoning: string,                                       // executor node, REASONING step
    verdict: Decision, score: int)                           // supervisor node

  ghost predicate Fits(s: State, o: Oracle) {
    s.currentBatch < |s.batches| ==>
      var batch := s.batches[s.currentBatch];
      |o.outcome| == |batch| && IsCompletionOrder(o.order, |batch|)
  }

  predicate Rejected(batch: seq<string>, o: Oracle) {
    |batch| != 1 && o.pending + |batch| > MAX_QUEUE_DEPTH
  }

  function BatchAnswer(batch: seq<string>, o: Oracle): string
    requires |o.outcome| == |batch| && IsCompletionOrder(o.order, |batch|)
  {
    if |batch| == 1 && IsReasoning(batch[0]) then o.reasoning
    else if |batch| == 1 then o.outcome[0]
    else if Rejected(batch, o) then BUSY
    else Answer(batch, Seen(batch, o.outcome, o.order))
  }

  function BatchContext(context: string, batch: seq<string>, o: Oracle): string
    requires |o.outcome| == |batch| && IsCompletionOrder(o.order, |batch|)
  {
    if |batch| == 1 && IsReasoning(batch[0]) then context
    else if |batch| == 1 then NextContext(context, batch[0], o.outcome[0])
    else if Rejected(batch, o) then context
    else AddResults(context, RagResults(batch, Seen(batch, o.outcome, o.order)))
  }

  function ExecutorNode(s: State, o: Oracle): State
    requires Fits(s, o)
  {
    if s.currentBatch >= |s.batches| then s
    else
      var batch := s.batches[s.currentBatch];
      s.(finalAnswer := Some(BatchAnswer(batch, o)), context := BatchContext(s.context, batch, o),
         currentBatch := s.currentBatch + 1, currentStep := s.currentStep + |batch|)
  }

  /** The score between 0 and 10 that is nearest. */
  function Clamp(score: int): (r: int)
    ensures 0 <= r <= 10
    ensures (r < score ==> r == 10) && (score < r ==> r == 0)
  {
    if score < 0 then 0 else if score > 10 then 10 else score
  }

  function BuildUpdate(s: State, decision: Decision, score: int): State {
    s.(supervisorDecision := Some(decision), supervisorScore := score,
       retryCount := s.retryCount + if decision.Replan? then 1 else 0)
  }

  predicate Blank(s: State) {
    s.finalAnswer.None? || Strip(s.finalAnswer.value) == ""
  }

  function SupervisorNode(s: State, o: Oracle): State {
    if Blank(s) then
      BuildUpdate(s, if s.retryCount < MAX_RETRIES then Replan else Accept, 0)
    else
      BuildUpdate(s, if o.verdict.Replan? && s.retryCount >= MAX_RETRIES then Accept else o.verdict, Clamp(o.score))
  }

  datatype Node = Planner | Grouper | Executor | Supervisor | End

  function ShouldContinue(s: State): Node {
    if s.currentBatch >= MAX_GRAPH_ITERATIONS then Supervisor
    else if s.currentBatch < |s.batches| then Executor
    else Supervisor
  }

  function SupervisorRouting(s: State): Node {
    if s.supervisorDecision == Some(Replan) && s.retryCount <= MAX_RETRIES then Planner else End
  }

  // ---------- Runs ----------

  /** What a node execution leaves in the log of the run. */
  datatype Event =
    | Planned(plan: seq<string>)
    | Grouped
    | Executed(batch: seq<string>, results: seq<string>, rejected: bool)
    | Judged(decision: Decision)

  /** The record of one execution: the batch and what its steps were given as results. */
  function Execution(s: State, o: Oracle): Event
    requires Fits(s, o)
  {
    if s.currentBatch < |s.batches| then
      var batch := s.batches[s.currentBatch];
      Executed(batch, Seen(batch, o.outcome, o.order), Rejected(batch, o))
    else Executed([], [], Rejected([], o))
  }

  datatype Config = Config(node: Node, state: State, log: seq<Event>)

  function Step(c: Config, o: Oracle): Config
    requires c.node != End && Fits(c.state, o)
  {
    match c.node
    case Planner =>
      var s := PlannerNode(c.state, o.planner);
      Config(Grouper, s, c.log + [Planned(s.plan)])
    case Grouper =>
      Config(Executor, GrouperNode(c.state), c.log + [Grouped])
    case Executor =>
      var s := ExecutorNode(c.state, o);
      Config(ShouldContinue(s), s, c.log + [Execution(c.state, o)])
    case Supervisor =>
      var s := SupervisorNode(c.state, o);
      Config(SupervisorRouting(s), s, c.log + [Judged(s.supervisorDecision.value)])
  }

  ghost predicate IsRun(question: string, run: seq<Config>, oracles: seq<Oracle>) {
    && |run| == |oracles| + 1
    && run[0] == Config(Planner, InitialState(question), [])
    && forall i | 0 <= i < |oracles| ::
         run[i].node != End && Fits(run[i].state, oracles[i]) && run[i + 1] == Step(run[i], oracles[i])
  }

  /** The plan of the current round. */
  function PlanOf(log: seq<Event>): seq<string> {
    if log == [] then []
    else if log[|log| - 1].Planned? then log[|log| - 1].plan
    else PlanOf(log[..|log| - 1])
  }

  /** The batches handed to the executor in the current round. */
  function BatchesOf(log: seq<Event>): seq<seq<string>> {
    if log == [] || log[|log| - 1].Planned? then []
    else
      var before, last := BatchesOf(log[..|log| - 1]), log[|log| - 1];
      if last.Executed? then before + [last.batch] else before
  }

  function RoundsOf(log: seq<Event>): nat {
    if log == [] then 0
    else RoundsOf(log[..|log| - 1]) + if log[|log| - 1].Planned? then 1 else 0
  }

  function ReplansOf(log: seq<Event>): nat {
    if log == [] then 0
    else ReplansOf(log[..|log| - 1]) + if log[|log| - 1] == Judged(Replan) then 1 else 0
  }

  function RagOfEvent(e: Event): seq<string> {
    if e.Executed? && !e.rejected && |e.results| == |e.batch| then RagResults(e.batch, e.results) else []
  }

  /** The RAG results of the whole run, batch after batch, without the rejected batches. */
  function RagOf(log: seq<Event>): seq<string> {
    if log == [] then []
    else
      var before, last := RagOf(log[..|log| - 1]), log[|log| - 1];
      before + RagOfEvent(last)
  }

  /** A run that has not ended can go on: some answer of the world always fits. */
  lemma NeverStuck(s: State) returns (o: Oracle)
    ensures Fits(s, o)
  {
    var n := if s.currentBatch < |s.batches| then |s.batches[s.currentBatch]| else 0;
    var order: seq<nat> := seq(n, i requires 0 <= i < n => i);
    forall i | 0 <= i < n ensures i in order {
      assert order[i] == i;
    }
    o := Oracle(ParseError, seq(n, i requires 0 <= i < n => ""), order, 0, "", Accept, 0);
  }

  // ---------- The invariant ----------

  /** Length of the run so far, against the node and the round. */
  predicate Paced(c: Config, steps: nat) {
    && c.state.retryCount <= MAX_RETRIES
    && steps <= 11 * c.state.retryCount + match c.node
         case Planner => 0
         case Grouper => 1
         case Executor => 2 + c.state.currentBatch
         case Supervisor => 10
         case End => 11
  }

  ghost predicate RoundInv(c: Config) {
    var s := c.state;
    && PlanOf(c.log) == s.plan && AllPrinted(s.plan)
    && (c.node != Planner ==> 1 <= |s.plan| <= MAX_PLAN_STEPS)
    && (c.node == Grouper ==> BatchesOf(c.log) == [] && s.currentStep == 0)
    && (c.node in {Executor, Supervisor, End} ==>
         && s.batches == Group(s.plan) && |s.batches| <= |s.plan|
         && s.currentBatch <= |s.batches|
         && BatchesOf(c.log) == s.batches[..s.currentBatch]
         && s.currentStep == |Flatten(BatchesOf(c.log))|)
    && (c.node == Executor ==> s.currentBatch < |s.batches|)
    && (c.node in {Supervisor, End} ==> s.currentBatch == |s.batches|)
  }

  predicate CountInv(c: Config) {
    && ReplansOf(c.log) == c.state.retryCount
    && RoundsOf(c.log) == c.state.retryCount + (if c.node == Planner then 0 else 1)
    && (c.node == Planner && c.log != [] ==> c.log[|c.log| - 1] == Judged(Replan))
    && (c.node == End ==> c.log != [] && c.log[|c.log| - 1] == Judged(Accept))
  }

  lemma LogAppend(log: seq<Event>, e: Event)
    ensures var l := log + [e];
      && PlanOf(l) == (if e.Planned? then e.plan else PlanOf(log))
      && BatchesOf(l) == (if e.Planned? then [] else if e.Executed? then BatchesOf(log) + [e.batch] else BatchesOf(log))
      && RoundsOf(l) == RoundsOf(log) + (if e.Planned? then 1 else 0)
      && ReplansOf(l) == ReplansOf(log) + (if e == Judged(Replan) then 1 else 0)
  {
    assert (log + [e])[..|log|] == log;
  }

  /** What one node execution does to the round, the counter and the log. */
  predicate Follows(c: Config, d: Config, e: Event) {
    && d.log == c.log + [e]
    && (!c.node.Supervisor? ==> d.state.retryCount == c.state.retryCount)
    && match c.node
       case Planner => d.node == Grouper && e == Planned(d.state.plan) && d.state.currentStep == 0
       case Grouper =>
         && d.node == Executor && e == Grouped
         && d.state == c.state.(batches := Group(c.state.plan), currentBatch := 0)
       case Executor =>
         && d.node == ShouldContinue(d.state) && e.Executed?
         && d.state.plan == c.state.plan && d.state.batches == c.state.batches
         && (c.state.currentBatch < |c.state.batches| ==>
              && e.batch == c.state.batches[c.state.currentBatch]
              && d.state.currentBatch == c.state.currentBatch + 1
              && d.state.currentStep == c.state.currentStep + |e.batch|)
       case Supervisor =>
         && e.Judged? && d.state.supervisorDecision == Some(e.decision)
         && d.node == SupervisorRouting(d.state)
         && (c.state.retryCount >= MAX_RETRIES ==> e.decision == Accept)
         && 0 <= d.state.supervisorScore <= 10
         && (Blank(c.state) ==>
              d.state.supervisorScore == 0 && (e.decision.Replan? <==> c.state.retryCount < MAX_RETRIES))
         && d.state.retryCount == c.state.retryCount + (if e.decision.Replan? then 1 else 0)
         && d.state.plan == c.state.plan && d.state.batches == c.state.batches
         && d.state.currentBatch == c.state.currentBatch && d.state.currentStep == c.state.currentStep
       case End => false
  }

  lemma StepFollows(c: Config, o: Oracle) returns (e: Event)
    requires c.node != End && Fits(c.state, o)
    ensures Follows(c, Step(c, o), e)
  {
    e := Step(c, o).log[|c.log|];
  }

  lemma RoundInvKept(c: Config, d: Config, e: Event)
    requires Follows(c, d, e) && RoundInv(c)
    requires c.node == Planner ==> 1 <= |d.state.plan| <= MAX_PLAN_STEPS && AllPrinted(d.state.plan)
    ensures RoundInv(d)
  {
    LogAppend(c.log, e);
    match c.node
    case Grouper => GroupIsGrouping(c.state.plan);
    case Executor => OneMoreBatch(c.state.batches, c.state.currentBatch);
    case _ =>
  }

  lemma OneMoreBatch(batches: seq<seq<string>>, k: nat)
    requires k < |batches|
    ensures batches[..k] + [batches[k]] == batches[..k + 1]
    ensures |Flatten(batches[..k + 1])| == |Flatten(batches[..k])| + |batches[k]|
  {
    FlattenAppend(batches[..k], batches[k]);
    assert batches[..k] + [batches[k]] == batches[..k + 1];
  }

  lemma CountInvKept(c: Config, d: Config, e: Event)
    requires Follows(c, d, e) && c.state.retryCount <= MAX_RETRIES && CountInv(c)
    ensures CountInv(d) && d.state.retryCount <= MAX_RETRIES
  {
    LogAppend(c.log, e);
  }

  lemma PacedKept(c: Config, d: Config, e: Event, steps: nat)
    requires Follows(c, d, e) && RoundInv(c) && CountInv(c) && Paced(c, steps)
    ensures Paced(d, steps + 1)
  {
  }

  lemma {:induction false} RunInv(question: string, run: seq<Config>, oracles: seq<Oracle>, i: nat)
    requires IsRun(question, run, oracles) && i < |run|
    ensures RoundInv(run[i]) && CountInv(run[i]) && Paced(run[i], i)
  {
    if i > 0 {
      RunInv(question, run, oracles, i - 1);
      InvKept(run[i - 1], oracles[i - 1], i - 1);
    }
  }

  lemma InvKept(c: Config, o: Oracle, steps: nat)
    requires c.node != End && Fits(c.state, o) && RoundInv(c) && CountInv(c) && Paced(c, steps)
    ensures var d := Step(c, o); RoundInv(d) && CountInv(d) && Paced(d, steps + 1)
  {
    var d := Step(c, o);
    var e := StepFollows(c, o);
    if c.node == Planner {
      PlanIsSound(c.state, o.planner);
    }
    RoundInvKept(c, d, e);
    CountInvKept(c, d, e);
    PacedKept(c, d, e, steps);
  }

  // ---------- Main results ----------

  /** Every run ends: at most 22 node executions and two planning rounds. Wherever it
      stands, the retry counter equals the number of re-plans. */
  lemma RunsAreBounded(question: string, run: seq<Config>, oracles: seq<Oracle>, i: nat)
    requires IsRun(question, run, oracles) && i < |run|
    ensures |oracles| <= 22
    ensures RoundsOf(run[i].log) <= 2
    ensures run[i].state.retryCount == ReplansOf(run[i].log) <= MAX_RETRIES
    ensures run[i].node == End ==> RoundsOf(run[i].log) == run[i].state.retryCount + 1
  {
    RunInv(question, run, oracles, i);
    RunInv(question, run, oracles, |run| - 1);
  }

  /** The iteration guard never decides, and a REPLAN of the supervisor is always
      followed by a planning round. */
  lemma GuardAndRouter(question: string, run: seq<Config>, oracles: seq<Oracle>, i: nat)
    requires IsRun(question, run, oracles) && i < |oracles|
    ensures run[i].node == Executor ==>
      run[i + 1].state.currentBatch < MAX_GRAPH_ITERATIONS &&
      run[i + 1].node == (if run[i + 1].state.currentBatch < |run[i + 1].state.batches| then Executor else Supervisor)
    ensures run[i].node == Supervisor ==>
      (run[i + 1].node == Planner <==> run[i + 1].state.supervisorDecision == Some(Replan))
    ensures run[i].node == Supervisor ==> run[i + 1].node in {Planner, End}
  {
    RunInv(question, run, oracles, i);
    RunInv(question, run, oracles, i + 1);
  }

  /** When the supervisor is reached, the executor was handed exactly the plan: every step
      once, in order, REASONING steps alone, tool batches maximal. */
  lemma PipelineTrace(question: string, run: seq<Config>, oracles: seq<Oracle>, i: nat)
    requires IsRun(question, run, oracles) && i < |run| && run[i].node == Supervisor
    ensures IsGrouping(PlanOf(run[i].log), BatchesOf(run[i].log))
    ensures run[i].state.currentStep == |PlanOf(run[i].log)|
    ensures 1 <= |PlanOf(run[i].log)| <= MAX_PLAN_STEPS
  {
    RunInv(question, run, oracles, i);
    var s := run[i].state;
    GroupIsGrouping(s.plan);
    assert s.batches[..s.currentBatch] == s.batches;
  }

  /** No step reaches the executor without a handler, and no REASONING step reaches the
      tool path: the answer "type not recognised" cannot be given. */
  lemma EveryToolStepHasAHandler(question: string, run: seq<Config>, oracles: seq<Oracle>, i: nat)
    requires IsRun(question, run, oracles) && i < |run| && run[i].node == Executor
    ensures run[i].state.currentBatch < |run[i].state.batches|
    ensures var batch := run[i].state.batches[run[i].state.currentBatch];
      ReasoningBatch(batch) || (ToolBatch(batch) && forall p | p in batch :: ExecutorType(p) in STEP_HANDLERS)
  {
    RunInv(question, run, oracles, i);
    var s := run[i].state;
    var batch := s.batches[s.currentBatch];
    GroupIsGrouping(s.plan);
    assert batch in s.batches;
    forall p | p in batch && !IsReasoning(p)
      ensures ExecutorType(p) in STEP_HANDLERS
    {
      InFlatten(s.batches, batch, p);
      PrintedHasHandler(p);
    }
  }

  lemma PrintedHasHandler(p: string)
    requires Printed(p)
    ensures ExecutorType(p) in STEP_HANDLERS <==> !IsReasoning(p)
  {
    var step :| Valid(step) && p == ToString(step);
    ReadersAgree(step);
  }

  lemma {:induction false} InFlatten<T>(batches: seq<seq<T>>, batch: seq<T>, x: T)
    requires batch in batches && x in batch
    ensures x in Flatten(batches)
  {
    if batch != batches[0] {
      InFlatten(batches[1..], batch, x);
    }
  }

  // ---------- The context of a whole run ----------

  lemma ReasoningIsNotRag(step: string)
    requires IsReasoning(step)
    ensures !IsRag(step)
  {
    var u := Upper(step);
    assert u[0] == "REASONING:"[0] && u[1] == "REASONING:"[1] && u[2] == "REASONING:"[2];
    assert !IsSpace(step[0]);
    var head := Before(step, ':');
    if |Strip(head)| > 1 {
      assert Strip(head)[1] == step[1];
    }
  }

  lemma RagOfOne(step: string, result: string)
    ensures RagResults([step], [result]) == if IsRag(step) then [result] else []
  {
    assert RagUpTo([step], [result], 0) == [];
  }

  /** One execution adds the RAG results of the batch, in batch order, whatever the order in
      which the threads finished, and none when the batch is rejected; and they are the
      steps' own results when equal steps of the batch got equal results. */
  lemma ExecutorContext(s: State, o: Oracle)
    requires Fits(s, o) && s.currentBatch < |s.batches|
    ensures ExecutorNode(s, o).context == AddResults(s.context, RagOfEvent(Execution(s, o)))
    ensures Agree(s.batches[s.currentBatch], o.outcome) ==> Execution(s, o).results == o.outcome
  {
    BatchContextIs(s.context, s.batches[s.currentBatch], o);
    SeenIsOutcome(s.batches[s.currentBatch], o.outcome, o.order);
  }

  lemma BatchContextIs(context: string, batch: seq<string>, o: Oracle)
    requires |o.outcome| == |batch| && IsCompletionOrder(o.order, |batch|)
    ensures BatchContext(context, batch, o)
         == AddResults(context, RagOfEvent(Executed(batch, Seen(batch, o.outcome, o.order), Rejected(batch, o))))
  {
    var e := Executed(batch, Seen(batch, o.outcome, o.order), Rejected(batch, o));
    if |batch| == 1 {
      SingleSeen(batch, o.outcome, o.order);
      OneStep(context, batch, o, e);
    } else {
      ManySteps(context, batch, o, e);
    }
  }

  lemma SingleSeen(batch: seq<string>, outcome: seq<string>, order: seq<nat>)
    requires |outcome| == |batch| == 1 && IsCompletionOrder(order, |batch|)
    ensures Seen(batch, outcome, order) == outcome
  {
    SeenIsOutcome(batch, outcome, order);
  }

  lemma ManySteps(context: string, batch: seq<string>, o: Oracle, e: Event)
    requires |o.outcome| == |batch| != 1 && IsCompletionOrder(o.order, |batch|)
    requires e == Executed(batch, Seen(batch, o.outcome, o.order), Rejected(batch, o))
    ensures BatchContext(context, batch, o) == AddResults(context, RagOfEvent(e))
  {
  }

  lemma OneStep(context: string, batch: seq<string>, o: Oracle, e: Event)
    requires |o.outcome| == |batch| == 1 && IsCompletionOrder(o.order, |batch|)
    requires e == Executed(batch, o.outcome, false)
    ensures BatchContext(context, batch, o) == AddResults(context, RagOfEvent(e))
  {
    OneStepContext(context, batch, o.outcome);
  }

  lemma OneStepContext(context: string, batch: seq<string>, outcome: seq<string>)
    requires |batch| == |outcome| == 1
    ensures AddResults(context, RagResults(batch, outcome)) == NextContext(context, batch[0], outcome[0])
    ensures IsReasoning(batch[0]) ==> NextContext(context, batch[0], outcome[0]) == context
  {
    assert batch == [batch[0]] && outcome == [outcome[0]];
    RagOfOne(batch[0], outcome[0]);
    AddOne(context, outcome[0]);
    if IsReasoning(batch[0]) {
      ReasoningIsNotRag(batch[0]);
    }
  }

  lemma AddOne(context: string, result: string)
    ensures AddResults(context, [result]) == AddResult(context, result)
  {
    assert [result][..0] == [];
  }

  lemma {:induction false} ContextInv(question: string, run: seq<Config>, oracles: seq<Oracle>, i: nat)
    requires IsRun(question, run, oracles) && i < |run|
    ensures run[i].state.context == AddResults("", RagOf(run[i].log))
  {
    if i > 0 {
      ContextInv(question, run, oracles, i - 1);
      RunInv(question, run, oracles, i - 1);
      ContextKept(run[i - 1], oracles[i - 1]);
    }
  }

  lemma RagAppend(log: seq<Event>, e: Event)
    ensures RagOf(log + [e]) == RagOf(log) + RagOfEvent(e)
  {
    assert (log + [e])[..|log|] == log;
  }

  lemma ContextKept(c: Config, o: Oracle)
    requires c.node != End && Fits(c.state, o)
    requires c.node == Executor ==> c.state.currentBatch < |c.state.batches|
    requires c.state.context == AddResults("", RagOf(c.log))
    ensures Step(c, o).state.context == AddResults("", RagOf(Step(c, o).log))
  {
    if c.node == Executor {
      ExecutorLogs(c, o);
      ExecutorContext(c.state, o);
      LogKeepsContext(c.log, Execution(c.state, o));
    } else {
      var e := OthersKeepContext(c, o);
      LogKeepsContext(c.log, e);
    }
  }

  lemma LogKeepsContext(log: seq<Event>, e: Event)
    ensures AddResults("", RagOf(log + [e])) == AddResults(AddResults("", RagOf(log)), RagOfEvent(e))
  {
    RagAppend(log, e);
    AddResultsAppend("", RagOf(log), RagOfEvent(e));
  }

  lemma ExecutorLogs(c: Config, o: Oracle)
    requires c.node == Executor && Fits(c.state, o) && c.state.currentBatch < |c.state.batches|
    ensures Step(c, o).log == c.log + [Execution(c.state, o)]
    ensures Step(c, o).state == ExecutorNode(c.state, o)
  {
  }

  lemma OthersKeepContext(c: Config, o: Oracle) returns (e: Event)
    requires c.node != End && c.node != Executor && Fits(c.state, o)
    ensures Step(c, o).log == c.log + [e] && RagOfEvent(e) == []
    ensures Step(c, o).state.context == c.state.context
  {
    e := Step(c, o).log[|c.log|];
  }

  /** The context of every run, across its batches, its truncations and its re-plan, is the
      fold of the RAG results in the order of the batches. Unless a result that is not safe to
      cut finds the context empty, it is that fold without any limit, cut once at the end to the
      header and the last 12000 characters; results that start visibly always are safe, and
      trimmed ones are joined, one per line. */
  lemma ContextOfRun(question: string, run: seq<Config>, oracles: seq<Oracle>, i: nat)
    requires IsRun(question, run, oracles) && i < |run|
    ensures run[i].state.context == AddResults("", RagOf(run[i].log))
    ensures AtEveryPair(CutsSafely, RagOf(run[i].log)) ==>
      run[i].state.context == Truncate(Unbounded("", RagOf(run[i].log)))
    ensures (forall r | r in RagOf(run[i].log) :: Visible(r)) ==>
      run[i].state.context == Truncate(Unbounded("", RagOf(run[i].log)))
    ensures (forall r | r in RagOf(run[i].log) :: Trimmed(r)) ==>
      run[i].state.context == Truncate(Joined(RagOf(run[i].log)))
  {
    ContextInv(question, run, oracles, i);
    ClosedForms(RagOf(run[i].log));
  }

  lemma ClosedForms(results: seq<string>)
    ensures AtEveryPair(CutsSafely, results) ==> Closed(results)
    ensures (forall r | r in results :: Visible(r)) ==> Closed(results)
    ensures (forall r | r in results :: Trimmed(r)) ==> AddResults("", results) == Truncate(Joined(results))
  {
    if AtEveryPair(CutsSafely, results) {
      WholeClosed(results);
    }
    if forall r | r in results :: Visible(r) {
      VisibleResults(results);
    }
    if forall r | r in results :: Trimmed(r) {
      TrimmedResults(results);
      TrimmedAreJoined(results);
    }
  }

  // ---------- Equal steps in a plan ----------

  /** The planner may name a tool step twice: the plan keeps both, the grouper puts them into
      one batch, and of two different results the batch loses one. */
  lemma EqualStepsLoseAResult(step: PlanStep) returns (outcome: seq<string>, order: seq<nat>)
    requires Valid(step) && !step.stepType.Reasoning?
    ensures var p := ToString(step);
      && Cap(ValidSteps([Text(p), Text(p)])) == [p, p]
      && Group([p, p]) == [[p, p]]
      && |outcome| == 2 && IsCompletionOrder(order, 2)
      && Seen([p, p], outcome, order) != outcome
  {
    FromStringToString(step);
    ReadersAgree(step);
    KeptTwice(ToString(step));
    TwoTools(ToString(step));
    outcome, order := LosesOne(ToString(step));
  }

  lemma KeptTwice(p: string)
    requires Validated(Text(p)) == Some(p)
    ensures Cap(ValidSteps([Text(p), Text(p)])) == [p, p]
  {
    CollectedTwice(Validated, Text(p), p);
  }

  lemma CollectedTwice<A, B>(f: A -> Option<B>, x: A, y: B)
    requires f(x) == Some(y)
    ensures Collected(f, [x, x], 2) == [y, y]
  {
    AllCollected(f, [x, x], y, 2);
    assert Collected(f, [x, x], 2) == [y, y];
  }

  lemma LosesOne(p: string) returns (outcome: seq<string>, order: seq<nat>)
    ensures |outcome| == 2 && IsCompletionOrder(order, 2) && Seen([p, p], outcome, order) != outcome
  {
    assert [p, p][0] == [p, p][1];
    outcome, order := LosingRun([p, p]);
  }

  lemma TwoTools(p: string)
    requires !IsReasoning(p)
    ensures Group([p, p]) == [[p, p]]
  {
    RunIs([p, p], 2);
    assert [p, p][..2] == [p, p] && [p, p][2..] == [];
  }

  // ---------- The supervisor's decisions ----------

  /** A run that ends with an empty answer has used its re-plan, and an empty answer scores
      zero; the last decision is always ACCEPT. */
  lemma EmptyAnswerIsReplanned(question: string, run: seq<Config>, oracles: seq<Oracle>, i: nat)
    requires IsRun(question, run, oracles) && i < |run| && run[i].node == End
    ensures run[i].state.supervisorDecision == Some(Accept)
    ensures Blank(run[i].state) ==> ReplansOf(run[i].log) == MAX_RETRIES && run[i].state.supervisorScore == 0
    ensures 0 <= run[i].state.supervisorScore <= 10
  {
    RunInv(question, run, oracles, i);
    assert i > 0;
    RunInv(question, run, oracles, i - 1);
    var c := run[i - 1];
    assert run[i] == Step(c, oracles[i - 1]);
    EndsFromSupervisor(c, oracles[i - 1]);
  }

  lemma EndsFromSupervisor(c: Config, o: Oracle)
    requires c.node != End && Fits(c.state, o) && Step(c, o).node == End && c.state.retryCount <= MAX_RETRIES
    ensures c.node == Supervisor && Step(c, o).state == SupervisorNode(c.state, o)
    ensures var s := Step(c, o).state;
      && s.supervisorDecision == Some(Accept) && s.retryCount == c.state.retryCount
      && (Blank(s) ==> s.retryCount == MAX_RETRIES && s.supervisorScore == 0)
      && 0 <= s.supervisorScore <= 10
  {
  }

  // ---------- What single nodes decide ----------

  /** There is an answer with some character that is not white space. */
  ghost predicate HasAnswer(s: State) {
    s.finalAnswer.Some? && exists i :: 0 <= i < |s.finalAnswer.value| && !IsSpace(s.finalAnswer.value[i])
  }

  lemma AnswerIsNotBlank(s: State)
    ensures HasAnswer(s) <==> !Blank(s)
  {
    if s.finalAnswer.Some? {
      BlankText(s.finalAnswer.value);
    }
  }

  /** The planner and the grouper touch nothing but the plan, its batches and the positions, and
      the supervisor nothing but its decision, its score and the counter. */
  lemma NodesKeep(c: Config, o: Oracle)
    requires c.node != End && Fits(c.state, o)
    ensures var d := Step(c, o).state;
      && (c.node == Planner ==> d == c.state.(plan := d.plan, currentStep := 0))
      && (c.node == Grouper ==> d == c.state.(batches := d.batches, currentBatch := 0))
      && (c.node == Executor ==>
            d == c.state.(finalAnswer := d.finalAnswer, context := d.context,
                          currentBatch := d.currentBatch, currentStep := d.currentStep))
      && (c.node == Supervisor ==>
            d == c.state.(supervisorDecision := d.supervisorDecision, supervisorScore := d.supervisorScore,
                          retryCount := d.retryCount))
  {
  }

  /** A visible answer gets the decision and the score of the model, unless it asks for a plan
      that is not left. */
  lemma SupervisorDecides(c: Config, o: Oracle)
    requires c.node == Supervisor && Fits(c.state, o) && HasAnswer(c.state)
    ensures var d := Step(c, o).state;
      && (d.supervisorDecision == Some(Accept) <==> o.verdict.Accept? || c.state.retryCount >= MAX_RETRIES)
      && (0 <= o.score <= 10 ==> d.supervisorScore == o.score)
  {
    AnswerIsNotBlank(c.state);
  }

  /** Over runs: the supervisor plans again exactly when it has not done so before and the answer
      is blank or the model asks for it; otherwise the run ends there. */
  lemma VerdictIsFollowed(question: string, run: seq<Config>, oracles: seq<Oracle>, i: nat)
    requires IsRun(question, run, oracles) && i < |oracles| && run[i].node == Supervisor
    ensures run[i + 1].node == Planner
       <==> ReplansOf(run[i].log) == 0 && (!HasAnswer(run[i].state) || oracles[i].verdict.Replan?)
    ensures run[i + 1].node == Planner || run[i + 1].node == End
  {
    RunInv(question, run, oracles, i);
    AnswerIsNotBlank(run[i].state);
    VerdictStep(run[i], oracles[i]);
  }

  lemma VerdictStep(c: Config, o: Oracle)
    requires c.node == Supervisor && Fits(c.state, o) && c.state.retryCount <= MAX_RETRIES
    ensures Step(c, o).node == (
      if c.state.retryCount == 0 && (Blank(c.state) || o.verdict.Replan?) then Planner else End)
  {
  }

  /** What the executor answers with: the reasoning text, the single step's own result, the busy
      answer of a batch that does not fit into the queue, or the parts of all results. */
  lemma AnswerOfNode(question: string, run: seq<Config>, oracles: seq<Oracle>, i: nat)
    requires IsRun(question, run, oracles) && i < |oracles| && run[i].node == Executor
    ensures run[i].state.currentBatch < |run[i].state.batches|
    ensures var s, o := run[i].state, oracles[i];
      var batch := s.batches[s.currentBatch];
      && batch != [] && |o.outcome| == |batch|
      && (IsReasoning(batch[0]) ==>
            |batch| == 1 && run[i + 1].state.finalAnswer == Some(o.reasoning) && run[i + 1].state.context == s.context)
      && (|batch| == 1 && !IsReasoning(batch[0]) ==> run[i + 1].state.finalAnswer == Some(o.outcome[0]))
      && (|batch| > 1 && o.pending + |batch| > 12 ==>
            run[i + 1].state.finalAnswer == Some(BUSY) && run[i + 1].state.context == s.context)
      && (|batch| > 1 && o.pending + |batch| <= 12 ==>
            && run[i + 1].state.finalAnswer == Some(Answer(batch, Seen(batch, o.outcome, o.order)))
            && run[i + 1].state.context == AddResults(s.context, RagResults(batch, Seen(batch, o.outcome, o.order))))
      && (Agree(batch, o.outcome) ==> Seen(batch, o.outcome, o.order) == o.outcome)
  {
    RunInv(question, run, oracles, i);
    var s, o := run[i].state, oracles[i];
    var batch := s.batches[s.currentBatch];
    GroupIsGrouping(s.plan);
    assert batch in s.batches && (ToolBatch(batch) || ReasoningBatch(batch));
    ExecutorLogs(run[i], o);
    SeenIsOutcome(batch, o.outcome, o.order);
  }

  /** Validation keeps the order and treats every element by itself. */
  lemma ValidInOrder(a: seq<RawStep>, b: seq<RawStep>)
    ensures ValidSteps(a + b) == ValidSteps(a) + ValidSteps(b)
  {
    CollectedAppend(Validated, a, b);
  }

  lemma CollectedAppend<A, B>(f: A -> Option<B>, a: seq<A>, b: seq<A>)
    ensures Collected(f, a + b, |a + b|) == Collected(f, a, |a|) + Collected(f, b, |b|)
  {
    CollectedInRow(f, a, b, |b|);
  }

  lemma {:induction false} CollectedInFront<A, B>(f: A -> Option<B>, a: seq<A>, b: seq<A>, n: nat)
    requires n <= |a|
    ensures Collected(f, a + b, n) == Collected(f, a, n)
  {
    if n > 0 {
      CollectedInFront(f, a, b, n - 1);
    }
  }

  lemma {:induction false} CollectedInRow<A, B>(f: A -> Option<B>, a: seq<A>, b: seq<A>, n: nat)
    requires n <= |b|
    ensures Collected(f, a + b, |a| + n) == Collected(f, a, |a|) + Collected(f, b, n)
  {
    if n == 0 {
      CollectedInFront(f, a, b, |a|);
    } else {
      CollectedInRow(f, a, b, n - 1);
      assert (a + b)[|a| + n - 1] == b[n - 1];
    }
  }

  lemma ValidOfOne(raw: RawStep)
    ensures ValidSteps([raw]) ==
      if raw.Text? && FromString(raw.text).Some? then [ToString(FromString(raw.text).value)] else []
  {
    assert Collected(Validated, [raw], 0) == [];
  }

  /** The executor reads this type and this query. */
  predicate Says(step: string, stepType: string, query: string) {
    ExecutorType(step) == stepType && Query(step) == query
  }

  /** The executor reads a reasoning step with this task. */
  predicate Tells(step: string, task: string) {
    IsReasoning(step) && ReasoningTask(step) == task
  }

  /** The words that ask for a picture, and those that ask for the one of the RAG. */
  predicate AsksForPicture(q: string) {
    Contains(q, "grafana") || Contains(q, "imagen") || Contains(q, "dashboard") || Contains(q, "consumo")
  }

  predicate AsksForRag(q: string) {
    Contains(q, "rag") || Contains(q, "performance")
  }

  /** One tool step with this query and one reasoning step with this task. */
  predicate Shows(plan: seq<string>, query: string, task: string) {
    |plan| == 2 && Says(plan[0], "K8S_TOOL", query) && Tells(plan[1], task)
  }

  /** A question that asks for a picture gets one of two fixed plans, whatever the model says. */
  lemma PlanByWords(s: State, reply: PlannerReply)
    requires AsksForPicture(Lower(s.question))
    ensures if AsksForRag(Lower(s.question)) then Shows(PlannerNode(s, reply).plan, "rag", RAG_STEPS[1].description)
            else Shows(PlannerNode(s, reply).plan, "recursos", RESOURCE_STEPS[1].description)
  {
    FixedPlans();
    PlanIsFixed(s.question, s, reply);
  }

  lemma PlanIsFixed(question: string, s: State, reply: PlannerReply)
    requires question == s.question && AsksForPicture(Lower(question))
    ensures PlannerNode(s, reply).plan
         == if AsksForRag(Lower(question)) then PrintedPair(RAG_STEPS) else PrintedPair(RESOURCE_STEPS)
  {
    var parsed := if reply.ParseError? then [] else Cap(ValidSteps(reply.steps));
    FastPathsAre(question, if parsed == [] then [ToString(GENERAL_STEP)] else parsed);
  }

  function PrintedPair(steps: seq<PlanStep>): seq<string>
    requires |steps| == 2
  {
    [ToString(steps[0]), ToString(steps[1])]
  }

  /** Any other question gets the first eight valid steps of the reply, or one general step when
      there is none. */
  lemma PlanByModel(s: State, reply: PlannerReply)
    requires !AsksForPicture(Lower(s.question))
    ensures var plan, steps := PlannerNode(s, reply).plan, if reply.ParseError? then [] else ValidSteps(reply.steps);
      if steps == [] then plan == [ToString(GENERAL_STEP)] && Tells(ToString(GENERAL_STEP), GENERAL_STEP.description)
      else plan == FirstOf(steps, 8)
  {
    FixedPlans();
    PlanIsModels(s.question, s, reply);
    CapIs(if reply.ParseError? then [] else ValidSteps(reply.steps));
  }

  function FirstOf(steps: seq<string>, n: nat): seq<string> {
    steps[..if |steps| < n then |steps| else n]
  }

  lemma CapIs(steps: seq<string>)
    ensures Cap(steps) == FirstOf(steps, 8)
  {
    if |steps| <= 8 {
      assert steps[..|steps|] == steps;
    }
  }

  lemma PlanIsModels(question: string, s: State, reply: PlannerReply)
    requires question == s.question && !AsksForPicture(Lower(question))
    ensures var steps := if reply.ParseError? then [] else ValidSteps(reply.steps);
      PlannerNode(s, reply).plan == if steps == [] then [ToString(GENERAL_STEP)] else Cap(steps)
  {
    var parsed := if reply.ParseError? then [] else Cap(ValidSteps(reply.steps));
    FastPathsAre(question, if parsed == [] then [ToString(GENERAL_STEP)] else parsed);
  }

  lemma FixedPlans()
    ensures Shows(PrintedPair(RAG_STEPS), "rag", RAG_STEPS[1].description)
    ensures Shows(PrintedPair(RESOURCE_STEPS), "recursos", RESOURCE_STEPS[1].description)
    ensures Tells(ToString(GENERAL_STEP), GENERAL_STEP.description)
  {
    FixedStepsValid();
    PlanShows(RAG_STEPS[0], RAG_STEPS[1]);
    PlanShows(RESOURCE_STEPS[0], RESOURCE_STEPS[1]);
    ReadersAgree(GENERAL_STEP);
  }

  lemma PlanShows(tool: PlanStep, task: PlanStep)
    requires Valid(tool) && tool.stepType.K8sTool? && Valid(task) && task.stepType.Reasoning?
    ensures Shows([ToString(tool), ToString(task)], tool.description, task.description)
  {
    ReadersAgree(tool);
    ReadersAgree(task);
  }

  lemma FastPathsAre(question: string, plan: seq<string>)
    ensures var q, r := Lower(question), FastPaths(question, plan);
      if AsksForPicture(q) then
        r == if AsksForRag(q) then PrintedPair(RAG_STEPS) else PrintedPair(RESOURCE_STEPS)
      else r == plan
  {
  }
}
