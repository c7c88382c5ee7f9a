/** Cutting a plan into batches: REASONING steps alone, maximal runs of tool steps. */
module Grouper {
  import opened PlanSteps

  function Flatten<T>(batches: seq<seq<T>>): seq<T> {
    if batches == [] then [] else batches[0] + Flatten(batches[1..])
  }

  /** Where the run of tool steps that starts at `i` ends. */
  function RunEnd(plan: seq<string>, i: nat): (n: nat)
    requires i <= |plan|
    ensures i <= n <= |plan|
    ensures forall k :: i <= k < n ==> !IsReasoning(plan[k])
    ensures n < |plan| ==> IsReasoning(plan[n])
    decreases |plan| - i
  {
    if i == |plan| || IsReasoning(plan[i]) then i else RunEnd(plan, i + 1)
  }

  /** Length of the run of tool steps at the start of the plan. */
  function ToolRun(plan: seq<string>): nat {
    RunEnd(plan, 0)
  }

  function Group(plan: seq<string>): seq<seq<string>> {
    if plan == [] then []
    else if IsReasoning(plan[0]) then [[plan[0]]] + Group(plan[1..])
    else [plan[..ToolRun(plan)]] + Group(plan[ToolRun(plan)..])
  }

  predicate ToolBatch(batch: seq<string>) {
    batch != [] && forall s | s in batch :: !IsReasoning(s)
  }

  predicate ReasoningBatch(batch: seq<string>) {
    |batch| == 1 && IsReasoning(batch[0])
  }

  /** What the grouper promises: every step once and in order, REASONING steps alone,
      and tool batches that cannot be extended. */
  ghost predicate IsGrouping(plan: seq<string>, batches: seq<seq<string>>) {
    && Flatten(batches) == plan
    && (forall b :: b in batches ==> ToolBatch(b) || ReasoningBatch(b))
    && forall i :: 0 <= i < |batches| - 1 ==> ReasoningBatch(batches[i]) || ReasoningBatch(batches[i + 1])
  }

  /** The grouping exists for every plan... */
  lemma {:induction false} GroupIsGrouping(plan: seq<string>)
    ensures IsGrouping(plan, Group(plan))
    ensures |Group(plan)| <= |plan| && (plan != [] ==> Group(plan) != [])
  {
    if plan != [] {
      var n := if IsReasoning(plan[0]) then 1 else ToolRun(plan);
      var first, tail := plan[..n], plan[n..];
      GroupIsGrouping(tail);
      assert first == if IsReasoning(plan[0]) then [plan[0]] else plan[..ToolRun(plan)];
      assert plan == first + tail;
      GroupHead(tail);
      OneMore(first, tail, Group(tail));
    }
  }

  /** The first batch of a grouping is a REASONING step when the plan starts with one. */
  lemma GroupHead(plan: seq<string>)
    ensures plan != [] && IsReasoning(plan[0]) ==> Group(plan) != [] && Group(plan)[0] == [plan[0]]
  {
  }

  lemma OneMore(first: seq<string>, tail: seq<string>, rest: seq<seq<string>>)
    requires IsGrouping(tail, rest) && (ToolBatch(first) || ReasoningBatch(first))
    requires ReasoningBatch(first) || rest == [] || ReasoningBatch(rest[0])
    ensures IsGrouping(first + tail, [first] + rest)
  {
    var batches := [first] + rest;
    assert batches[1..] == rest;
    forall i | 0 <= i < |batches| - 1 ensures ReasoningBatch(batches[i]) || ReasoningBatch(batches[i + 1]) {
      if i > 0 {
        assert batches[i] == rest[i - 1] && batches[i + 1] == rest[i - 1 + 1];
      }
    }
  }

  /** ...and is the only one. */
  lemma {:induction false} GroupingIsUnique(plan: seq<string>, batches: seq<seq<string>>)
    requires IsGrouping(plan, batches)
    ensures batches == Group(plan)
  {
    if batches == [] {
    } else {
      var first, rest := batches[0], batches[1..];
      assert ToolBatch(first) || ReasoningBatch(first);
      assert plan == first + Flatten(rest);
      assert plan[0] == first[0];
      assert Flatten(rest) == plan[|first|..];
      forall i | 0 <= i < |rest| - 1
        ensures ReasoningBatch(rest[i]) || ReasoningBatch(rest[i + 1])
      {
        assert rest[i] == batches[i + 1] && rest[i + 1] == batches[(i + 1) + 1];
      }
      GroupingIsUnique(plan[|first|..], rest);
      if ToolBatch(first) {
        if rest != [] {
          assert ReasoningBatch(batches[0]) || ReasoningBatch(batches[0 + 1]);
          assert plan[|first|] == rest[0][0];
        }
        forall i | 0 <= i < |first| ensures !IsReasoning(plan[i]) {
          assert plan[i] == first[i] && first[i] in first;
        }
        RunIs(plan, |first|);
        assert plan[..|first|] == first;
      } else {
        assert first == [plan[0]];
      }
      assert batches == [first] + rest;
    }
  }

  lemma RunIs(plan: seq<string>, n: nat)
    requires n <= |plan|
    requires forall i :: 0 <= i < n ==> !IsReasoning(plan[i])
    requires n < |plan| ==> IsReasoning(plan[n])
    ensures ToolRun(plan) == n
  {
  }

  lemma {:induction false} FlattenAppend<T>(batches: seq<seq<T>>, last: seq<T>)
    ensures Flatten(batches + [last]) == Flatten(batches) + last
  {
    if batches == [] {
      assert batches + [last] == [last];
    } else {
      assert (batches + [last])[1..] == batches[1..] + [last];
      FlattenAppend(batches[1..], last);
    }
  }

  /** One more batch at the end. */
  lemma Appended(plan: seq<string>, batches: seq<seq<string>>, batch: seq<string>)
    requires IsGrouping(plan, batches) && (ToolBatch(batch) || ReasoningBatch(batch))
    requires batches != [] ==> ReasoningBatch(batches[|batches| - 1]) || ReasoningBatch(batch)
    ensures IsGrouping(plan + batch, batches + [batch])
  {
    FlattenAppend(batches, batch);
    var all := batches + [batch];
    forall i | 0 <= i < |all| - 1 ensures ReasoningBatch(all[i]) || ReasoningBatch(all[i + 1]) {
      if i < |batches| - 1 {
        assert all[i] == batches[i] && all[i + 1] == batches[i + 1];
      }
    }
  }

  /** The grouper's loop: `batches` always ends with a REASONING step. */
  method GroupPlanIntoBatches(plan: seq<string>) returns (batches: seq<seq<string>>)
    ensures IsGrouping(plan, batches)
    ensures batches == Group(plan)
  {
    batches := [];
    var toolBatch: seq<string> := [];
    for i := 0 to |plan|
      invariant forall s :: s in toolBatch ==> !IsReasoning(s)
      invariant batches != [] ==> ReasoningBatch(batches[|batches| - 1])
      invariant |toolBatch| <= i && toolBatch == plan[i - |toolBatch|..i]
      invariant IsGrouping(plan[..i - |toolBatch|], batches)
    {
      var step := plan[i];
      ghost var done := plan[..i - |toolBatch|];
      assert done + toolBatch == plan[..i] && plan[..i] + [step] == plan[..i + 1];
      if IsReasoning(step) {
        if toolBatch != [] {
          Appended(done, batches, toolBatch);
          batches := batches + [toolBatch];
          toolBatch := [];
        }
        Appended(plan[..i], batches, [step]);
        batches := batches + [[step]];
      } else {
        toolBatch := toolBatch + [step];
      }
    }
    if toolBatch != [] {
      Appended(plan[..|plan| - |toolBatch|], batches, toolBatch);
      assert plan[..|plan| - |toolBatch|] + toolBatch == plan;
      batches := batches + [toolBatch];
    }
    assert plan[..|plan|] == plan;
    GroupingIsUnique(plan, batches);
  }
}
