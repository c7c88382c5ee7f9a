/** The admission counter and the semaphore of the batch runner, as a protocol over the
    threads of any number of concurrent batches. */
module Backpressure {

  const MAX_CONCURRENT_STEPS := 4
  const MAX_QUEUE_DEPTH := 12

  /** A submitted step: queued in its pool, picked up by a worker and waiting for the
      semaphore, running under the semaphore, or finished. */
  datatype Phase = Queued | Waiting | Running | Done

  datatype Task = Task(batch: nat, phase: Phase)

  /** `sizes[b]` is the number of steps of the admitted batch `b`; `pending` and `permits`
      are the counter and the free permits of the semaphore. */
  datatype State = State(sizes: seq<nat>, tasks: seq<Task>, pending: int, permits: int)

  const INITIAL := State([], [], 0, MAX_CONCURRENT_STEPS)

  datatype Action =
    | Admit(size: nat)    // the check and the addition, under the lock
    | Reject(size: nat)   // the check fails: the busy answer
    | Start(task: nat)    // a worker takes the step and decrements the counter
    | Acquire(task: nat)  // the semaphore is entered
    | Finish(task: nat)   // the step returns or raises: the semaphore is left

  function Count(tasks: seq<Task>, p: Task -> bool): nat {
    if tasks == [] then 0 else Count(tasks[..|tasks| - 1], p) + if p(tasks[|tasks| - 1]) then 1 else 0
  }

  function In(phase: Phase): Task -> bool { (t: Task) => t.phase == phase }

  /** The steps that occupy a worker thread of a batch's pool. */
  function Occupied(batch: nat): Task -> bool {
    (t: Task) => t.batch == batch && (t.phase == Waiting || t.phase == Running)
  }

  function Workers(size: nat): nat {
    if size < MAX_CONCURRENT_STEPS then size else MAX_CONCURRENT_STEPS
  }

  predicate Enabled(s: State, a: Action) {
    match a
    case Admit(n) => 0 < n && s.pending + n <= MAX_QUEUE_DEPTH
    case Reject(n) => s.pending + n > MAX_QUEUE_DEPTH
    case Start(i) =>
      && i < |s.tasks| && s.tasks[i].phase == Queued
      && s.tasks[i].batch < |s.sizes|
      && Count(s.tasks, Occupied(s.tasks[i].batch)) < Workers(s.sizes[s.tasks[i].batch])
    case Acquire(i) => i < |s.tasks| && s.tasks[i].phase == Waiting && 0 < s.permits
    case Finish(i) => i < |s.tasks| && s.tasks[i].phase == Running
  }

  function Move(tasks: seq<Task>, i: nat, phase: Phase): seq<Task>
    requires i < |tasks|
  {
    tasks[i := tasks[i].(phase := phase)]
  }

  function Step(s: State, a: Action): State
    requires Enabled(s, a)
  {
    match a
    case Admit(n) =>
      State(s.sizes + [n], s.tasks + seq(n, _ => Task(|s.sizes|, Queued)), s.pending + n, s.permits)
    case Reject(n) => s
    case Start(i) => s.(tasks := Move(s.tasks, i, Waiting), pending := s.pending - 1)
    case Acquire(i) => s.(tasks := Move(s.tasks, i, Running), permits := s.permits - 1)
    case Finish(i) => s.(tasks := Move(s.tasks, i, Done), permits := s.permits + 1)
  }

  ghost predicate IsRun(run: seq<State>, actions: seq<Action>) {
    && |run| == |actions| + 1
    && run[0] == INITIAL
    && forall i | 0 <= i < |actions| :: Enabled(run[i], actions[i]) && run[i + 1] == Step(run[i], actions[i])
  }

  // ---------- Counting ----------

  lemma {:induction false} CountMove(tasks: seq<Task>, i: nat, t: Task, p: Task -> bool)
    requires i < |tasks|
    ensures Count(tasks[i := t], p) == Count(tasks, p) - (if p(tasks[i]) then 1 else 0) + (if p(t) then 1 else 0)
  {
    var last := |tasks| - 1;
    if i == last {
      assert tasks[i := t][..last] == tasks[..last];
    } else {
      assert tasks[i := t][..last] == tasks[..last][i := t];
      CountMove(tasks[..last], i, t, p);
    }
  }

  lemma {:induction false} CountAppend(tasks: seq<Task>, more: seq<Task>, p: Task -> bool)
    ensures Count(tasks + more, p) == Count(tasks, p) + Count(more, p)
  {
    if more == [] {
      assert tasks + more == tasks;
    } else {
      assert (tasks + more)[..|tasks + more| - 1] == tasks + more[..|more| - 1];
      CountAppend(tasks, more[..|more| - 1], p);
    }
  }

  lemma {:induction false} CountAll(tasks: seq<Task>, p: Task -> bool, all: bool)
    requires forall i | 0 <= i < |tasks| :: p(tasks[i]) == all
    ensures Count(tasks, p) == if all then |tasks| else 0
  {
    if tasks != [] {
      CountAll(tasks[..|tasks| - 1], p, all);
    }
  }

  lemma {:induction false} CountPositive(tasks: seq<Task>, p: Task -> bool) returns (i: nat)
    requires Count(tasks, p) > 0
    ensures i < |tasks| && p(tasks[i])
  {
    if p(tasks[|tasks| - 1]) {
      i := |tasks| - 1;
    } else {
      i := CountPositive(tasks[..|tasks| - 1], p);
    }
  }

  // ---------- The invariant ----------

  ghost predicate Inv(s: State) {
    && s.pending == Count(s.tasks, In(Queued)) <= MAX_QUEUE_DEPTH
    && s.permits + Count(s.tasks, In(Running)) == MAX_CONCURRENT_STEPS
    && 0 <= s.permits
    && (forall t | t in s.tasks :: t.batch < |s.sizes|)
    && forall b | 0 <= b < |s.sizes| :: 0 < s.sizes[b] && Count(s.tasks, Occupied(b)) <= Workers(s.sizes[b])
  }

  lemma InvKept(s: State, a: Action)
    requires Inv(s) && Enabled(s, a)
    ensures Inv(Step(s, a))
  {
    match a
    case Admit(n) => AdmitKeeps(s, n);
    case Reject(n) =>
    case Start(i) => StartKeeps(s, i);
    case Acquire(i) => Moved(s, i, Running);
    case Finish(i) => Moved(s, i, Done);
  }

  lemma StartKeeps(s: State, i: nat)
    requires Inv(s) && Enabled(s, Start(i))
    ensures Inv(Step(s, Start(i)))
  {
    Moved(s, i, Waiting);
  }

  lemma AdmitKeeps(s: State, n: nat)
    requires Inv(s) && Enabled(s, Admit(n))
    ensures Inv(Step(s, Admit(n)))
  {
    var s' := Step(s, Admit(n));
    var added := seq(n, _ => Task(|s.sizes|, Queued));
    CountAppend(s.tasks, added, In(Queued));
    CountAppend(s.tasks, added, In(Running));
    CountAll(added, In(Queued), true);
    CountAll(added, In(Running), false);
    forall b: nat | b < |s'.sizes| ensures Count(s'.tasks, Occupied(b)) <= Workers(s'.sizes[b]) {
      AddedIdle(s, added, b);
    }
  }

  lemma AddedIdle(s: State, added: seq<Task>, b: nat)
    requires Inv(s) && b <= |s.sizes| && forall t | t in added :: t.phase == Queued
    ensures Count(s.tasks + added, Occupied(b)) == if b < |s.sizes| then Count(s.tasks, Occupied(b)) else 0
  {
    CountAppend(s.tasks, added, Occupied(b));
    CountAll(added, Occupied(b), false);
    if b == |s.sizes| {
      CountAll(s.tasks, Occupied(b), false);
    }
  }

  lemma Moved(s: State, i: nat, phase: Phase)
    requires Inv(s) && i < |s.tasks|
    ensures var t, u := s.tasks[i], s.tasks[i].(phase := phase);
      && (forall p: Phase :: Count(Move(s.tasks, i, phase), In(p))
            == Count(s.tasks, In(p)) - (if p == t.phase then 1 else 0) + (if p == phase then 1 else 0))
      && (forall b: nat :: Count(Move(s.tasks, i, phase), Occupied(b))
            == Count(s.tasks, Occupied(b)) - (if Occupied(b)(t) then 1 else 0) + (if Occupied(b)(u) then 1 else 0))
      && forall x | x in Move(s.tasks, i, phase) :: x.batch < |s.sizes|
  {
    var u := s.tasks[i].(phase := phase);
    forall p: Phase {
      CountMove(s.tasks, i, u, In(p));
    }
    forall b: nat {
      CountMove(s.tasks, i, u, Occupied(b));
    }
    forall x | x in Move(s.tasks, i, phase)
      ensures x.batch < |s.sizes|
    {
      assert x == u || x in s.tasks;
    }
  }

  lemma {:induction false} RunInv(run: seq<State>, actions: seq<Action>, i: nat)
    requires IsRun(run, actions) && i < |run|
    ensures Inv(run[i])
  {
    if i > 0 {
      RunInv(run, actions, i - 1);
      InvKept(run[i - 1], actions[i - 1]);
    }
  }

  // ---------- Main results ----------

  /** Under every interleaving the counter is the number of admitted steps not yet
      started, it stays within 0..12, and at most four guarded steps run at once. */
  lemma BackpressureHolds(run: seq<State>, actions: seq<Action>, i: nat)
    requires IsRun(run, actions) && i < |run|
    ensures run[i].pending == Count(run[i].tasks, In(Queued))
    ensures 0 <= run[i].pending <= MAX_QUEUE_DEPTH
    ensures Count(run[i].tasks, In(Running)) <= MAX_CONCURRENT_STEPS
  {
    RunInv(run, actions, i);
  }

  /** The semaphore and the pools cannot deadlock: while work is left, some step can
      start, enter the semaphore or finish. */
  lemma NoDeadlock(s: State) returns (a: Action)
    requires Inv(s) && Work(s) > 0
    ensures Enabled(s, a) && (a.Start? || a.Acquire? || a.Finish?)
  {
    if Count(s.tasks, In(Running)) > 0 {
      var i := CountPositive(s.tasks, In(Running));
      a := Finish(i);
    } else if Count(s.tasks, In(Waiting)) > 0 {
      var i := CountPositive(s.tasks, In(Waiting));
      a := Acquire(i);
    } else {
      CountNone(s.tasks, In(Running));
      CountNone(s.tasks, In(Waiting));
      var i := CountPositive(s.tasks, In(Queued));
      var b := s.tasks[i].batch;
      assert s.tasks[i] in s.tasks;
      forall k | 0 <= k < |s.tasks| ensures Occupied(b)(s.tasks[k]) == false {
        assert !In(Running)(s.tasks[k]) && !In(Waiting)(s.tasks[k]);
      }
      CountAll(s.tasks, Occupied(b), false);
      a := Start(i);
    }
  }

  lemma {:induction false} CountNone(tasks: seq<Task>, p: Task -> bool)
    requires Count(tasks, p) == 0
    ensures forall i | 0 <= i < |tasks| :: !p(tasks[i])
  {
    if tasks != [] {
      CountNone(tasks[..|tasks| - 1], p);
    }
  }

  /** Work left: every start, entry and finish takes one unit. */
  ghost function Work(s: State): nat {
    3 * Count(s.tasks, In(Queued)) + 2 * Count(s.tasks, In(Waiting)) + Count(s.tasks, In(Running))
  }

  predicate IsMove(a: Action) {
    a.Start? || a.Acquire? || a.Finish?
  }

  lemma WorkShrinks(s: State, a: Action)
    requires Inv(s) && Enabled(s, a) && IsMove(a)
    ensures Work(Step(s, a)) == Work(s) - 1
  {
    Moved(s, a.task, if a.Start? then Waiting else if a.Acquire? then Running else Done);
  }

  lemma WorkArrives(s: State, n: nat)
    requires Enabled(s, Admit(n))
    ensures Work(Step(s, Admit(n))) == Work(s) + 3 * n
  {
    var added := seq(n, _ => Task(|s.sizes|, Queued));
    forall p: Phase ensures Count(s.tasks + added, In(p)) == Count(s.tasks, In(p)) + if p == Queued then n else 0 {
      CountAppend(s.tasks, added, In(p));
      CountAll(added, In(p), p == Queued);
    }
  }

  /** Starts, entries and finishes among the actions `i..j`. */
  function Moves(actions: seq<Action>, i: nat, j: nat): nat
    requires i <= j <= |actions|
  {
    if i == j then 0 else Moves(actions, i, j - 1) + if IsMove(actions[j - 1]) then 1 else 0
  }

  /** Steps admitted by the actions `i..j`. */
  function Admitted(actions: seq<Action>, i: nat, j: nat): nat
    requires i <= j <= |actions|
  {
    if i == j then 0
    else Admitted(actions, i, j - 1) + if actions[j - 1].Admit? then actions[j - 1].size else 0
  }

  /** No thread can move. */
  ghost predicate Stuck(s: State) {
    forall a | IsMove(a) :: !Enabled(s, a)
  }

  lemma {:induction false} WorkAccounts(run: seq<State>, actions: seq<Action>, i: nat, j: nat)
    requires IsRun(run, actions) && i <= j < |run|
    ensures Work(run[j]) + Moves(actions, i, j) == Work(run[i]) + 3 * Admitted(actions, i, j)
  {
    if i < j {
      WorkAccounts(run, actions, i, j - 1);
      RunInv(run, actions, j - 1);
      OneAction(run[j - 1], actions[j - 1]);
    }
  }

  lemma OneAction(s: State, a: Action)
    requires Inv(s) && Enabled(s, a)
    ensures Work(Step(s, a)) + (if IsMove(a) then 1 else 0) == Work(s) + 3 * (if a.Admit? then a.size else 0)
  {
    if IsMove(a) {
      WorkShrinks(s, a);
    } else if a.Admit? {
      WorkArrives(s, a.size);
    }
  }

  /** The admitted steps finish however the threads are scheduled, and while more batches
      arrive or are rejected: the moves of any stretch of a run are accounted for by the work
      before it and the admissions in it, and where no thread can move every step has
      finished, the counter is at zero and all permits are free. */
  lemma EveryScheduleDrains(run: seq<State>, actions: seq<Action>, i: nat, j: nat)
    requires IsRun(run, actions) && i <= j < |run|
    ensures Work(run[j]) + Moves(actions, i, j) == Work(run[i]) + 3 * Admitted(actions, i, j)
    ensures Stuck(run[j]) ==>
      run[j].pending == 0 && run[j].permits == MAX_CONCURRENT_STEPS
      && forall t | t in run[j].tasks :: t.phase == Done
  {
    WorkAccounts(run, actions, i, j);
    RunInv(run, actions, j);
    if Stuck(run[j]) {
      if Work(run[j]) > 0 {
        var a := NoDeadlock(run[j]);
      }
      AllDone(run[j]);
    }
  }

  lemma AllDone(s: State)
    requires Inv(s) && Work(s) == 0
    ensures s.pending == 0 && s.permits == MAX_CONCURRENT_STEPS && forall t | t in s.tasks :: t.phase == Done
  {
    CountNone(s.tasks, In(Queued));
    CountNone(s.tasks, In(Waiting));
    CountNone(s.tasks, In(Running));
    forall i | 0 <= i < |s.tasks| ensures s.tasks[i].phase == Done {
      assert !In(Queued)(s.tasks[i]) && !In(Waiting)(s.tasks[i]) && !In(Running)(s.tasks[i]);
    }
  }

  // ---------- One batch among the others ----------

  function Of(batch: nat, phase: Phase): Task -> bool {
    (t: Task) => t.batch == batch && t.phase == phase
  }

  /** Work left of one batch. */
  ghost function WorkOf(s: State, batch: nat): nat {
    3 * Count(s.tasks, Of(batch, Queued)) + 2 * Count(s.tasks, Of(batch, Waiting)) + Count(s.tasks, Of(batch, Running))
  }

  predicate Moving(s: State, a: Action, batch: nat) {
    IsMove(a) && a.task < |s.tasks| && s.tasks[a.task].batch == batch
  }

  /** Moves of the batch's own steps among the actions `i..j`. */
  function MovesOf(run: seq<State>, actions: seq<Action>, i: nat, j: nat, batch: nat): nat
    requires i <= j <= |actions| <= |run|
  {
    if i == j then 0
    else MovesOf(run, actions, i, j - 1, batch) + if Moving(run[j - 1], actions[j - 1], batch) then 1 else 0
  }

  /** Only its own steps change the work of an admitted batch. */
  lemma OwnWork(s: State, a: Action, batch: nat)
    requires Enabled(s, a) && batch < |s.sizes|
    ensures WorkOf(Step(s, a), batch) == WorkOf(s, batch) - if Moving(s, a, batch) then 1 else 0
  {
    forall p: Phase
      ensures a.Admit? ==> Count(Step(s, a).tasks, Of(batch, p)) == Count(s.tasks, Of(batch, p))
      ensures IsMove(a) ==>
        var t, u := s.tasks[a.task], Step(s, a).tasks[a.task];
        Count(Step(s, a).tasks, Of(batch, p))
          == Count(s.tasks, Of(batch, p)) - (if Of(batch, p)(t) then 1 else 0) + (if Of(batch, p)(u) then 1 else 0)
    {
      if a.Admit? {
        var added := seq(a.size, _ => Task(|s.sizes|, Queued));
        CountAppend(s.tasks, added, Of(batch, p));
        CountAll(added, Of(batch, p), false);
      } else if IsMove(a) {
        CountMove(s.tasks, a.task, Step(s, a).tasks[a.task], Of(batch, p));
      }
    }
  }

  /** A batch of `n` steps arrives with `3 * n` units of work. */
  lemma NewBatch(s: State, n: nat)
    requires Inv(s) && Enabled(s, Admit(n))
    ensures WorkOf(Step(s, Admit(n)), |s.sizes|) == 3 * n
  {
    var b, added := |s.sizes|, seq(n, _ => Task(|s.sizes|, Queued));
    forall p: Phase ensures Count(s.tasks + added, Of(b, p)) == if p == Queued then n else 0 {
      CountAppend(s.tasks, added, Of(b, p));
      CountAll(s.tasks, Of(b, p), false);
      CountAll(added, Of(b, p), p == Queued);
    }
  }

  /** Every admitted batch finishes with its own work: whatever else is admitted, rejected
      or run, its steps move exactly as often as its work goes down, and the work is used up
      exactly when all its steps have finished. */
  lemma {:induction false} EachBatchFinishes(run: seq<State>, actions: seq<Action>, i: nat, j: nat, batch: nat)
    requires IsRun(run, actions) && i <= j < |run| && batch < |run[i].sizes|
    ensures batch < |run[j].sizes|
    ensures WorkOf(run[j], batch) + MovesOf(run, actions, i, j, batch) == WorkOf(run[i], batch)
    ensures WorkOf(run[j], batch) == 0 <==> forall t | t in run[j].tasks && t.batch == batch :: t.phase == Done
  {
    if i < j {
      EachBatchFinishes(run, actions, i, j - 1, batch);
      OwnWork(run[j - 1], actions[j - 1], batch);
    }
    OwnWorkDone(run[j], batch);
  }

  lemma OwnWorkDone(s: State, batch: nat)
    ensures WorkOf(s, batch) == 0 <==> forall t | t in s.tasks && t.batch == batch :: t.phase == Done
  {
    if WorkOf(s, batch) == 0 {
      CountNone(s.tasks, Of(batch, Queued));
      CountNone(s.tasks, Of(batch, Waiting));
      CountNone(s.tasks, Of(batch, Running));
      forall i | 0 <= i < |s.tasks| && s.tasks[i].batch == batch ensures s.tasks[i].phase == Done {
        assert !Of(batch, Queued)(s.tasks[i]) && !Of(batch, Waiting)(s.tasks[i]) && !Of(batch, Running)(s.tasks[i]);
      }
    } else if forall t | t in s.tasks && t.batch == batch :: t.phase == Done {
      CountAll(s.tasks, Of(batch, Queued), false);
      CountAll(s.tasks, Of(batch, Waiting), false);
      CountAll(s.tasks, Of(batch, Running), false);
    }
  }

  /** An unfinished batch can move by itself, unless all four permits are in other hands. */
  lemma OnlyTheSemaphoreBlocks(s: State, batch: nat) returns (a: Action)
    requires Inv(s) && batch < |s.sizes| && WorkOf(s, batch) > 0
    requires s.permits > 0 || Count(s.tasks, Of(batch, Running)) > 0
    ensures Enabled(s, a) && Moving(s, a, batch)
  {
    OccupiedIs(s.tasks, batch);
    if Count(s.tasks, Of(batch, Running)) > 0 {
      var i := CountPositive(s.tasks, Of(batch, Running));
      a := Finish(i);
    } else if Count(s.tasks, Of(batch, Waiting)) > 0 {
      var i := CountPositive(s.tasks, Of(batch, Waiting));
      a := Acquire(i);
    } else {
      var i := CountPositive(s.tasks, Of(batch, Queued));
      a := Start(i);
    }
  }

  lemma {:induction false} OccupiedIs(tasks: seq<Task>, batch: nat)
    ensures Count(tasks, Occupied(batch)) == Count(tasks, Of(batch, Waiting)) + Count(tasks, Of(batch, Running))
  {
    if tasks != [] {
      OccupiedIs(tasks[..|tasks| - 1], batch);
    }
  }

  /** A batch leaves nothing behind: when its steps have started, the counter holds the
      steps of the other batches only. */
  lemma BatchReleasesCounter(run: seq<State>, actions: seq<Action>, i: nat, batch: nat)
    requires IsRun(run, actions) && i < |run|
    requires forall t | t in run[i].tasks && t.batch == batch :: t.phase != Queued
    ensures run[i].pending == Count(run[i].tasks, (t: Task) => t.batch != batch && t.phase == Queued)
  {
    RunInv(run, actions, i);
    CountSame(run[i].tasks, In(Queued), (t: Task) => t.batch != batch && t.phase == Queued);
  }

  lemma {:induction false} CountSame(tasks: seq<Task>, p: Task -> bool, q: Task -> bool)
    requires forall t | t in tasks :: p(t) == q(t)
    ensures Count(tasks, p) == Count(tasks, q)
  {
    if tasks != [] {
      assert tasks[|tasks| - 1] in tasks;
      CountSame(tasks[..|tasks| - 1], p, q);
    }
  }

  /** A batch is admitted or rejected, never both: it is rejected exactly when the queue would
      hold more than twelve steps. */
  lemma AdmittedOrRejected(s: State, n: nat)
    requires n > 0
    ensures Enabled(s, Admit(n)) <==> s.pending + n <= 12
    ensures Enabled(s, Reject(n)) <==> !Enabled(s, Admit(n))
    ensures Enabled(s, Reject(n)) ==> Step(s, Reject(n)) == s
  {
  }

  /** Every step of a batch is accounted for. */
  function InBatch(batch: nat): Task -> bool {
    (t: Task) => t.batch == batch
  }

  ghost predicate Complete(s: State) {
    forall b | 0 <= b < |s.sizes| :: Count(s.tasks, InBatch(b)) == s.sizes[b]
  }

  lemma CompleteKept(s: State, a: Action)
    requires Inv(s) && Enabled(s, a) && Complete(s)
    ensures Complete(Step(s, a))
  {
    var t := Step(s, a);
    forall b | 0 <= b < |t.sizes| ensures Count(t.tasks, InBatch(b)) == t.sizes[b] {
      if a.Admit? {
        var added := seq(a.size, _ => Task(|s.sizes|, Queued));
        CountAppend(s.tasks, added, InBatch(b));
        CountAll(added, InBatch(b), b == |s.sizes|);
        if b == |s.sizes| {
          CountAll(s.tasks, InBatch(b), false);
        }
      } else if !a.Reject? {
        CountMove(s.tasks, a.task, t.tasks[a.task], InBatch(b));
      }
    }
  }

  lemma {:induction false} RunComplete(run: seq<State>, actions: seq<Action>, i: nat)
    requires IsRun(run, actions) && i < |run|
    ensures Inv(run[i]) && Complete(run[i])
  {
    RunInv(run, actions, i);
    if i > 0 {
      RunComplete(run, actions, i - 1);
      CompleteKept(run[i - 1], actions[i - 1]);
    }
  }

  lemma {:induction false} CountLess(tasks: seq<Task>, p: Task -> bool, q: Task -> bool, i: nat)
    requires forall t :: p(t) ==> q(t)
    requires i < |tasks| ==> q(tasks[i]) && !p(tasks[i])
    ensures Count(tasks, p) + (if i < |tasks| then 1 else 0) <= Count(tasks, q)
  {
    if tasks != [] {
      CountLess(tasks[..|tasks| - 1], p, q, i);
    }
  }

  /** In every run the steps of a batch of at most four start at once; a larger batch always has
      four workers for them. */
  lemma SmallBatchesStartAtOnce(run: seq<State>, actions: seq<Action>, k: nat, i: nat)
    requires IsRun(run, actions) && k < |run| && i < |run[k].tasks| && run[k].tasks[i].phase == Queued
    ensures run[k].tasks[i].batch < |run[k].sizes|
    ensures var s, b := run[k], run[k].tasks[i].batch;
      Enabled(s, Start(i)) <==> s.sizes[b] <= 4 || Count(s.tasks, Occupied(b)) < 4
  {
    var s, b := run[k], run[k].tasks[i].batch;
    RunComplete(run, actions, k);
    CountLess(s.tasks, Occupied(b), InBatch(b), i);
  }
}
