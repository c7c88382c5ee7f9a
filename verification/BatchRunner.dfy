/** Running one batch: tool steps in parallel with results collected by completion
    order, and the RAG context that the results are folded into. */
module BatchRunner {
  import opened Text
  import opened PlanSteps

  const MAX_CONTEXT_CHARS := 12_000
  const MAX_QUEUE_DEPTH := 12
  // The first character stands apart, so that the proofs see it.
  const HEADER := "[" + "...contexto anterior truncado para ajustar a la ventana del LLM...]\n"
  const BUSY := "Sistema ocupado. Demasiadas tareas concurrentes — intenta de nuevo en unos segundos."

  // ---------- The RAG context ----------

  /** `s[-n:]`. */
  function Suffix(s: string, n: nat): (r: string)
    requires n <= |s|
    ensures |r| == n && forall k :: 0 <= k < n ==> r[k] == s[|s| - n + k]
  {
    seq(n, k requires 0 <= k < n => s[|s| - n + k])
  }

  function TruncateWith(header: string, text: string): string {
    if |text| <= MAX_CONTEXT_CHARS then text else header + Suffix(text, MAX_CONTEXT_CHARS)
  }

  function Truncate(text: string): string {
    TruncateWith(HEADER, text)
  }

  /** One RAG result is added, before any truncation. */
  function Add(context: string, result: string): string {
    if context != "" then Strip(context + "\n" + result) else result
  }

  /** One RAG result enters the context. */
  function AddResultWith(header: string, context: string, result: string): string {
    TruncateWith(header, Add(context, result))
  }

  function AddResult(context: string, result: string): string {
    AddResultWith(HEADER, context, result)
  }

  function AddResults(context: string, results: seq<string>): string {
    if results == [] then context
    else AddResult(AddResults(context, results[..|results| - 1]), results[|results| - 1])
  }

  /** The context as it would be without any limit of its length. */
  function Unbounded(context: string, results: seq<string>): string {
    if results == [] then context
    else Add(Unbounded(context, results[..|results| - 1]), results[|results| - 1])
  }

  /** For trimmed results: the results in order, one per line. */
  function Glue(text: string, result: string): string {
    if text == "" then result else if result == "" then text else text + "\n" + result
  }

  function Joined(results: seq<string>): string {
    if results == [] then "" else Glue(Joined(results[..|results| - 1]), results[|results| - 1])
  }

  /** Folding batch after batch is folding everything at once. */
  lemma {:induction false} AddResultsAppend(context: string, a: seq<string>, b: seq<string>)
    ensures AddResults(context, a + b) == AddResults(AddResults(context, a), b)
  {
    if b == [] {
      assert a + b == a;
    } else {
      assert (a + b)[..|a + b| - 1] == a + b[..|b| - 1];
      AddResultsAppend(context, a, b[..|b| - 1]);
    }
  }

  /** Where the white space at the end of a text begins. */
  function End(s: string): nat {
    BeforeSpaces(s, |s|)
  }

  /** Adding to a context that starts visibly drops the white space at the end of the result. */
  lemma AddTrims(context: string, result: string)
    requires context != "" && !IsSpace(context[0]) && (End(result) > 0 || Trimmed(context))
    ensures End(result) <= |result|
    ensures Add(context, result)
         == if End(result) == 0 then context else context + "\n" + Front(result, End(result))
  {
    var n := End(result);
    var kept := if n == 0 then context else context + "\n" + Front(result, n);
    StripIs(context + "\n" + result, 0, kept);
  }

  function Front(s: string, n: nat): (r: string)
    requires n <= |s|
    ensures |r| == n && forall k :: 0 <= k < n ==> r[k] == s[k]
  {
    seq(n, k requires 0 <= k < n => s[k])
  }

  /** Cutting a text that `next` is added to does no harm: it is short enough; or, when `next` is
      blank, trimming and cutting may be exchanged; or it stays too long with `next`. */
  predicate SafeToCut(header: string, text: string, next: string) {
    || |text| <= MAX_CONTEXT_CHARS
    || (if End(next) == 0 then
          TruncateWith(header, Strip(TruncateWith(header, text))) == TruncateWith(header, Strip(text))
        else |Strip(text + "\n" + next)| > MAX_CONTEXT_CHARS)
  }

  /** One step of the closed form below: truncating early gives what truncating late gives,
      exactly when it is safe. */
  lemma AddToTruncated(header: string, text: string, next: string)
    requires header != "" && !IsSpace(header[0])
    ensures AddResultWith(header, TruncateWith(header, text), next) == TruncateWith(header, Add(text, next))
       <==> SafeToCut(header, text, next)
  {
    if |text| > MAX_CONTEXT_CHARS {
      if End(next) == 0 {
        BlankTail(text, next);
        BlankTail(TruncateWith(header, text), next);
      } else {
        AddToLong(header, text, TruncateWith(header, text), next, Front(next, End(next)));
      }
    }
  }

  /** White space at the end is stripped. */
  lemma BlankTail(text: string, tail: string)
    requires End(tail) == 0
    ensures Strip(text + "\n" + tail) == Strip(text)
  {
    var all := text + "\n" + tail;
    assert forall i :: |text| < i < |all| ==> all[i] == tail[i - |text| - 1];
    assert forall i :: |text| <= i < |all| ==> IsSpace(all[i]);
    SpacesAfter(text, all);
  }

  lemma SpacesAfter(text: string, all: string)
    requires text <= all && forall i :: |text| <= i < |all| ==> IsSpace(all[i])
    ensures Strip(all) == Strip(text)
  {
    var n, m := AfterSpaces(text, 0), End(text);
    assert forall i :: 0 <= i < |text| ==> all[i] == text[i];
    if n < m {
      StripKeeps(text, n, m);
      StripIs(all, n, Strip(text));
    } else {
      BlankText(text);
      BlankText(all);
    }
  }

  lemma StripKeeps(s: string, n: nat, m: nat)
    requires n == AfterSpaces(s, 0) && m == End(s) && n < m
    ensures |Strip(s)| == m - n && forall k: nat :: k < m - n ==> Strip(s)[k] == s[n + k]
  {
    assert |Strip(s)| == m - n;
    forall k: nat | k < m - n ensures Strip(s)[k] == s[n + k] {
      StripAt(s, k);
    }
  }

  lemma BlankText(s: string)
    ensures AfterSpaces(s, 0) >= End(s) <==> forall i :: 0 <= i < |s| ==> IsSpace(s[i])
    ensures AfterSpaces(s, 0) >= End(s) <==> Strip(s) == ""
  {
  }

  /** A long text, cut or not, with something visible added. */
  lemma AddToLong(header: string, text: string, context: string, next: string, more: string)
    requires header != "" && !IsSpace(header[0])
    requires |text| > MAX_CONTEXT_CHARS && context == header + Suffix(text, MAX_CONTEXT_CHARS)
    requires End(next) > 0 && more == Front(next, End(next))
    ensures TruncateWith(header, Add(context, next)) == TruncateWith(header, Add(text, next))
       <==> |Strip(text + "\n" + next)| > MAX_CONTEXT_CHARS
  {
    AddTrims(context, next);
    GlueToLong(header, text, context, more);
    StrippedTail(text, next, more);
    CutTail(header, text + "\n" + more, Strip(text + "\n" + next));
  }

  predicate IsTail(text: string, tail: string) {
    |tail| <= |text| && forall k: nat :: k < |tail| ==> tail[k] == text[|text| - |tail| + k]
  }

  /** Cutting a long text gives what cutting a tail of it does, when that is long as well. */
  lemma CutTail(header: string, text: string, tail: string)
    requires header != "" && |text| > MAX_CONTEXT_CHARS && IsTail(text, tail)
    ensures TruncateWith(header, text) == TruncateWith(header, tail) <==> |tail| > MAX_CONTEXT_CHARS
  {
    if |tail| > MAX_CONTEXT_CHARS {
      SameSuffix(text, tail, MAX_CONTEXT_CHARS);
    }
  }

  /** Stripping drops the white space at the end and keeps a tail of the rest. */
  lemma StrippedTail(text: string, next: string, more: string)
    requires End(next) > 0 && more == Front(next, End(next))
    ensures var glued, stripped := text + "\n" + more, Strip(text + "\n" + next);
      IsTail(glued, stripped)
  {
    var all, last := text + "\n" + next, |text| + End(next);
    assert all[last] == next[End(next) - 1];
    forall i: nat | last < i < |all| ensures IsSpace(all[i]) {
      assert all[i] == next[i - |text| - 1];
    }
    assert End(all) == last + 1 && AfterSpaces(all, 0) <= last;
    StripKeeps(all, AfterSpaces(all, 0), last + 1);
  }

  /** A long tail of a text ends as the text does. */
  lemma SameSuffix(text: string, tail: string, n: nat)
    requires n <= |tail| && IsTail(text, tail)
    ensures Suffix(text, n) == Suffix(tail, n)
  {
    forall k: nat | k < n ensures Suffix(text, n)[k] == Suffix(tail, n)[k] {
      assert tail[|tail| - n + k] == text[|text| - |tail| + (|tail| - n + k)];
    }
  }

  /** A trimmed text may be cut whatever comes next... */
  lemma TrimmedIsSafe(header: string, text: string, next: string)
    requires header != "" && !IsSpace(header[0]) && Trimmed(text)
    ensures SafeToCut(header, text, next)
  {
    if |text| > MAX_CONTEXT_CHARS {
      if End(next) == 0 {
        var cut := TruncateWith(header, text);
        assert cut[0] == header[0] && cut[|cut| - 1] == text[|text| - 1];
        StripTrimmed(cut);
        StripTrimmed(text);
        TruncateTwice(header, text);
      } else {
        AddTrims(text, next);
      }
    }
  }

  /** ...and one that starts visibly, whenever something visible comes next. */
  lemma VisibleIsSafe(header: string, text: string, next: string)
    requires Visible(text) && Visible(next)
    ensures SafeToCut(header, text, next)
  {
    AddTrims(text, next);
  }

  /** The text starts with a visible character. */
  predicate Visible(text: string) {
    text != "" && !IsSpace(text[0])
  }

  lemma GlueToLong(header: string, text: string, context: string, more: string)
    requires |text| > MAX_CONTEXT_CHARS && context == header + Suffix(text, MAX_CONTEXT_CHARS)
    ensures TruncateWith(header, context + "\n" + more) == TruncateWith(header, text + "\n" + more)
  {
    SuffixOfGlue(header, text, more, MAX_CONTEXT_CHARS);
  }

  lemma TruncateTwice(header: string, text: string)
    ensures TruncateWith(header, TruncateWith(header, text)) == TruncateWith(header, text)
  {
    if |text| > MAX_CONTEXT_CHARS && header != "" {
      var context := TruncateWith(header, text);
      forall k: nat | k < MAX_CONTEXT_CHARS
        ensures Suffix(context, MAX_CONTEXT_CHARS)[k] == Suffix(text, MAX_CONTEXT_CHARS)[k]
      {
        assert context[|header| + k] == Suffix(text, MAX_CONTEXT_CHARS)[k];
      }
    }
  }

  /** What a shortened text contributes to the last characters is what the text does. */
  lemma SuffixOfGlue(header: string, text: string, result: string, n: nat)
    requires n <= |text|
    ensures Suffix(header + Suffix(text, n) + "\n" + result, n) == Suffix(text + "\n" + result, n)
  {
    var short, long := header + Suffix(text, n) + "\n" + result, text + "\n" + result;
    forall k: nat | k < n ensures Suffix(short, n)[k] == Suffix(long, n)[k] {
      var i := |result| + 1;
      if k < n - i {
        assert short[|short| - n + k] == Suffix(text, n)[k + i];
      }
    }
  }

  lemma HeaderStart()
    ensures HEADER != "" && !IsSpace(HEADER[0])
  {
    assert HEADER[0] == '[';
  }

  /** The context is what it would be without a limit, cut once at the end. */
  predicate Closed(results: seq<string>) {
    AddResults("", results) == Truncate(Unbounded("", results))
  }

  /** If a result finds the context empty, cutting it is safe for the next one. The guard
      `if new_context` lets such a result enter as it is; every other one is trimmed. */
  predicate CutsSafely(before: seq<string>, last: string, next: string) {
    Unbounded("", before) == "" ==> SafeToCut(HEADER, last, next)
  }

  ghost predicate AtEveryPrefix<T>(p: seq<T> -> bool, s: seq<T>) {
    forall k: nat | k <= |s| :: p(s[..k])
  }

  ghost predicate AtEveryPair<T>(q: (seq<T>, T, T) -> bool, s: seq<T>) {
    forall k: nat | k + 1 < |s| :: q(s[..k], s[k], s[k + 1])
  }

  /** Across any number of truncations the context is what it would be without a limit,
      or the header and the last 12000 characters of that: after every result if and only if
      each result that finds the context empty is safe to cut. */
  lemma ContextClosedForm(results: seq<string>)
    ensures AtEveryPrefix(Closed, results) <==> AtEveryPair(CutsSafely, results)
  {
    FewResults();
    EveryResult();
    StepByStep(Closed, CutsSafely, results, |results|);
  }

  lemma {:induction false} StepByStep<T>(p: seq<T> -> bool, q: (seq<T>, T, T) -> bool, s: seq<T>, n: nat)
    requires n <= |s| && p([]) && forall x :: p([x])
    requires forall before, x, y | p(before + [x]) :: p(before + [x] + [y]) <==> q(before, x, y)
    ensures (forall k: nat | k <= n :: p(s[..k])) <==> (forall k: nat | k + 1 < n :: q(s[..k], s[k], s[k + 1]))
  {
    if n == 0 {
      assert s[..0] == [];
    } else if n == 1 {
      assert s[..0] == [] && s[..1] == [s[0]];
    } else {
      var before, x, y := s[..n - 2], s[n - 2], s[n - 1];
      StepByStep(p, q, s, n - 1);
      assert s[..n - 1] == before + [x] && s[..n] == before + [x] + [y];
      assert p(before + [x]) ==> (p(before + [x] + [y]) <==> q(before, x, y));
    }
  }

  lemma FoldsOnEnd(results: seq<string>, r: string)
    ensures AddResults("", results + [r]) == AddResult(AddResults("", results), r)
    ensures Unbounded("", results + [r]) == Add(Unbounded("", results), r)
  {
    var all := results + [r];
    assert all[..|all| - 1] == results && all[|all| - 1] == r;
  }

  lemma FewResults()
    ensures Closed([]) && forall r :: Closed([r])
  {
    forall r ensures Closed([r]) {
      FoldsOnEnd([], r);
      assert [] + [r] == [r];
    }
  }

  lemma EveryResult()
    ensures forall before, last, next | Closed(before + [last]) ::
      Closed(before + [last] + [next]) <==> CutsSafely(before, last, next)
  {
    forall before, last, next | Closed(before + [last])
      ensures Closed(before + [last] + [next]) <==> CutsSafely(before, last, next)
    {
      OneMoreResult(before, last, next);
    }
  }

  /** One more result after a context in closed form. */
  lemma OneMoreResult(before: seq<string>, last: string, next: string)
    requires Closed(before + [last])
    ensures Closed(before + [last] + [next]) <==> CutsSafely(before, last, next)
  {
    var text := Unbounded("", before + [last]);
    FoldsOnEnd(before, last);
    FoldsOnEnd(before + [last], next);
    HeaderStart();
    AddToTruncated(HEADER, text, next);
    if Unbounded("", before) != "" {
      TrimmedIsSafe(HEADER, text, next);
    }
  }

  /** Results that start with a visible character are safe, whatever their length and the white
      space at their end... */
  lemma VisibleResults(results: seq<string>)
    requires forall r | r in results :: Visible(r)
    ensures AtEveryPair(CutsSafely, results) && Closed(results)
  {
    forall k: nat | k + 1 < |results| ensures CutsSafely(results[..k], results[k], results[k + 1]) {
      VisibleIsSafe(HEADER, results[k], results[k + 1]);
    }
    WholeClosed(results);
  }

  /** ...and so are trimmed ones. */
  lemma TrimmedResults(results: seq<string>)
    requires forall r | r in results :: Trimmed(r)
    ensures AtEveryPair(CutsSafely, results) && Closed(results)
  {
    HeaderStart();
    forall k: nat | k + 1 < |results| ensures CutsSafely(results[..k], results[k], results[k + 1]) {
      TrimmedIsSafe(HEADER, results[k], results[k + 1]);
    }
    WholeClosed(results);
  }

  lemma WholeClosed(results: seq<string>)
    requires AtEveryPair(CutsSafely, results)
    ensures Closed(results)
  {
    ContextClosedForm(results);
    assert results[..|results|] == results;
  }

  /** Trimmed results are simply joined, one per line. */
  lemma {:induction false} TrimmedAreJoined(results: seq<string>)
    requires forall r | r in results :: Trimmed(r)
    ensures Unbounded("", results) == Joined(results) && Trimmed(Joined(results))
  {
    if results != [] {
      var front, last := results[..|results| - 1], results[|results| - 1];
      TrimmedAreJoined(front);
      assert last in results;
      if Joined(front) != "" {
        AddTrims(Joined(front), last);
        assert Front(last, |last|) == last;
      }
    }
  }

  /** A result that is not safe to cut: blank and too long. With its header it stays in the
      context, where without a limit it would vanish. */
  lemma LongBlankResult(blank: string, next: string)
    requires |blank| > MAX_CONTEXT_CHARS && forall i :: 0 <= i < |blank| ==> IsSpace(blank[i])
    requires next != "" && Trimmed(next) && |next| <= MAX_CONTEXT_CHARS
    ensures !CutsSafely([], blank, next) && !Closed([blank, next])
  {
    BlankIsUnsafe(HEADER, blank, next);
    FewResults();
    EveryResult();
    assert [] + [blank] == [blank] && [blank] + [next] == [blank, next];
  }

  lemma BlankIsUnsafe(header: string, blank: string, next: string)
    requires |blank| > MAX_CONTEXT_CHARS && forall i :: 0 <= i < |blank| ==> IsSpace(blank[i])
    requires next != "" && Trimmed(next) && |next| <= MAX_CONTEXT_CHARS
    ensures !SafeToCut(header, blank, next)
  {
    StripIs(blank + "\n" + next, |blank| + 1, next);
    assert End(next) == |next|;
  }

  /** The context stays bounded: at most the header and 12000 characters; and what was longer ends
      as it did. */
  lemma ContextIsBounded(context: string, result: string)
    ensures |AddResult(context, result)| <= |HEADER| + MAX_CONTEXT_CHARS
    ensures |Add(context, result)| <= 12000 ==> AddResult(context, result) == Add(context, result)
    ensures |Add(context, result)| > 12000 ==>
      && StartsWith(AddResult(context, result), HEADER)
      && AddResult(context, result)[|HEADER|..] == Add(context, result)[|Add(context, result)| - 12000..]
  {
    if |Add(context, result)| > MAX_CONTEXT_CHARS {
      CutIs(HEADER, Add(context, result));
    }
  }

  lemma CutIs(header: string, text: string)
    requires |text| > MAX_CONTEXT_CHARS
    ensures var cut := TruncateWith(header, text);
      StartsWith(cut, header) && cut[|header|..] == text[|text| - MAX_CONTEXT_CHARS..]
  {
  }

  // ---------- Collecting the results ----------

  /** `order` lists every index below `n`: the futures as they complete. */
  ghost predicate IsCompletionOrder(order: seq<nat>, n: nat) {
    && |order| == n
    && (forall k | 0 <= k < n :: order[k] < n)
    && (forall i | 0 <= i < n :: i in order)
  }

  /** The result dictionary, keyed by the text of the step, after `k` completions. */
  function Collect(batch: seq<string>, outcome: seq<string>, order: seq<nat>, k: nat): (m: map<string, string>)
    requires |outcome| == |batch| && k <= |order|
    requires forall k | 0 <= k < |order| :: order[k] < |batch|
    ensures forall j | 0 <= j < k :: batch[order[j]] in m
  {
    if k == 0 then map[] else Collect(batch, outcome, order, k - 1)[batch[order[k - 1]] := outcome[order[k - 1]]]
  }

  function Lookup(results: map<string, string>, step: string): string {
    if step in results then results[step] else ""
  }

  /** The results as the combining loop reads them back. */
  function Seen(batch: seq<string>, outcome: seq<string>, order: seq<nat>): seq<string>
    requires |outcome| == |batch|
    requires forall k | 0 <= k < |order| :: order[k] < |batch|
  {
    var results := Collect(batch, outcome, order, |order|);
    seq(|batch|, i requires 0 <= i < |batch| => Lookup(results, batch[i]))
  }

  /** Equal steps of one batch got equal results. */
  ghost predicate Agree(batch: seq<string>, outcome: seq<string>)
    requires |outcome| == |batch|
  {
    forall i, j | 0 <= i < |batch| && 0 <= j < |batch| && batch[i] == batch[j] :: outcome[i] == outcome[j]
  }

  /** Completion `at` is the last one of its step among the first `k`. */
  predicate LastOfStep(batch: seq<string>, order: seq<nat>, k: nat, at: nat)
    requires k <= |order|
    requires forall k | 0 <= k < |order| :: order[k] < |batch|
  {
    at < k && forall l | at < l < k :: batch[order[l]] != batch[order[at]]
  }

  /** The dictionary holds, for each step that has completed, the result of its last
      completion. */
  lemma {:induction false} CollectHolds(batch: seq<string>, outcome: seq<string>, order: seq<nat>, k: nat, step: string)
    returns (at: nat)
    requires |outcome| == |batch| && k <= |order|
    requires forall k | 0 <= k < |order| :: order[k] < |batch|
    requires step in Collect(batch, outcome, order, k)
    ensures LastOfStep(batch, order, k, at) && batch[order[at]] == step
    ensures Collect(batch, outcome, order, k)[step] == outcome[order[at]]
  {
    if batch[order[k - 1]] == step {
      at := k - 1;
    } else {
      at := CollectHolds(batch, outcome, order, k - 1, step);
    }
  }

  /** Whatever the completion order, the combined batch shows every step its own result
      exactly when equal steps got equal results. */
  lemma SeenIsOutcome(batch: seq<string>, outcome: seq<string>, order: seq<nat>)
    requires |outcome| == |batch| && IsCompletionOrder(order, |batch|)
    ensures Seen(batch, outcome, order) == outcome <==> Agree(batch, outcome)
  {
    var results, seen := Collect(batch, outcome, order, |order|), Seen(batch, outcome, order);
    forall i | 0 <= i < |batch|
      ensures batch[i] in results
      ensures Agree(batch, outcome) ==> seen[i] == outcome[i]
    {
      assert i in order;
      var at :| 0 <= at < |order| && order[at] == i;
      var last := CollectHolds(batch, outcome, order, |order|, batch[i]);
    }
    if seen == outcome {
      forall i, j | 0 <= i < |batch| && 0 <= j < |batch| && batch[i] == batch[j]
        ensures outcome[i] == outcome[j]
      {
        assert seen[i] == seen[j];
      }
    }
  }

  /** A batch keeps all its results, whatever they are and however the futures complete, if
      and only if no step occurs twice in it. */
  lemma ResultsAreSafe(batch: seq<string>)
    ensures Distinct(batch) <==>
      forall outcome: seq<string>, order: seq<nat> | |outcome| == |batch| && IsCompletionOrder(order, |batch|) ::
        Seen(batch, outcome, order) == outcome
  {
    if Distinct(batch) {
      forall outcome: seq<string>, order: seq<nat> | |outcome| == |batch| && IsCompletionOrder(order, |batch|)
        ensures Seen(batch, outcome, order) == outcome
      {
        SeenIsOutcome(batch, outcome, order);
      }
    } else {
      var outcome, order := LosingRun(batch);
    }
  }

  /** Two equal steps with different results: one of the two is lost. */
  lemma LosingRun(batch: seq<string>) returns (outcome: seq<string>, order: seq<nat>)
    requires !Distinct(batch)
    ensures |outcome| == |batch| && IsCompletionOrder(order, |batch|)
    ensures Seen(batch, outcome, order) != outcome
  {
    var i, j :| 0 <= i < j < |batch| && batch[i] == batch[j];
    outcome := seq(|batch|, k requires 0 <= k < |batch| => if k == i then "a" else "b");
    order := seq(|batch|, k requires 0 <= k < |batch| => k);
    forall k | 0 <= k < |batch| ensures k in order {
      assert order[k] == k;
    }
    assert outcome[i] == "a" && outcome[j] == "b" && outcome[i][0] != outcome[j][0];
    SeenIsOutcome(batch, outcome, order);
  }

  function Part(step: string, result: string): string {
    "--- " + ExecutorType(step) + " ---\n" + result
  }

  /** The parts of a batch's answer, separated by a blank line. */
  function JoinParts(parts: seq<string>): string {
    if parts == [] then "" else if |parts| == 1 then parts[0]
    else JoinParts(parts[..|parts| - 1]) + "\n\n" + parts[|parts| - 1]
  }

  function PartsBy(part: (string, string) -> string, batch: seq<string>, results: seq<string>, i: nat): (r: seq<string>)
    requires |results| == |batch| && i <= |batch|
    ensures |r| == i
  {
    if i == 0 then [] else PartsBy(part, batch, results, i - 1) + [part(batch[i - 1], results[i - 1])]
  }

  function Parts(batch: seq<string>, results: seq<string>, i: nat): seq<string>
    requires |results| == |batch| && i <= |batch|
  {
    PartsBy(Part, batch, results, i)
  }

  function Answer(batch: seq<string>, results: seq<string>): string
    requires |results| == |batch|
  {
    JoinParts(Parts(batch, results, |batch|))
  }

  // ---------- The answer of a batch ----------

  /** One step's part of the answer. */
  lemma AnswerOfOne(step: string, result: string)
    ensures Answer([step], [result]) == "--- " + ExecutorType(step) + " ---\n" + result
  {
    assert Parts([step], [result], 1) == [] + [Part(step, result)];
  }

  /** The answer of two batches in a row is one answer after the other, a blank line between:
      so the parts of an answer come in the order of the batch. */
  lemma AnswersInRow(a: seq<string>, ra: seq<string>, b: seq<string>, rb: seq<string>)
    requires |a| == |ra| && |b| == |rb| && a != [] && b != []
    ensures Answer(a + b, ra + rb) == Answer(a, ra) + "\n\n" + Answer(b, rb)
  {
    PartsInRow(Part, a, ra, b, rb);
    JoinInRow(Parts(a, ra, |a|), Parts(b, rb, |b|), "\n\n");
  }

  lemma {:induction false} PartsInFront(
    part: (string, string) -> string, a: seq<string>, ra: seq<string>, b: seq<string>, rb: seq<string>, i: nat)
    requires |a| == |ra| && |b| == |rb| && i <= |a|
    ensures PartsBy(part, a + b, ra + rb, i) == PartsBy(part, a, ra, i)
  {
    if i > 0 {
      PartsInFront(part, a, ra, b, rb, i - 1);
    }
  }

  lemma {:induction false} PartsBehind(
    part: (string, string) -> string, a: seq<string>, ra: seq<string>, b: seq<string>, rb: seq<string>, i: nat)
    requires |a| == |ra| && |b| == |rb| && i <= |b|
    ensures PartsBy(part, a + b, ra + rb, |a| + i) == PartsBy(part, a, ra, |a|) + PartsBy(part, b, rb, i)
  {
    if i == 0 {
      PartsInFront(part, a, ra, b, rb, |a|);
    } else {
      PartsBehind(part, a, ra, b, rb, i - 1);
      assert (a + b)[|a| + i - 1] == b[i - 1] && (ra + rb)[|a| + i - 1] == rb[i - 1];
    }
  }

  lemma PartsInRow(
    part: (string, string) -> string, a: seq<string>, ra: seq<string>, b: seq<string>, rb: seq<string>)
    requires |a| == |ra| && |b| == |rb|
    ensures PartsBy(part, a + b, ra + rb, |a + b|) == PartsBy(part, a, ra, |a|) + PartsBy(part, b, rb, |b|)
  {
    PartsBehind(part, a, ra, b, rb, |b|);
  }

  lemma {:induction false} JoinInRow(a: seq<string>, b: seq<string>, gap: string)
    requires a != [] && b != [] && gap == "\n\n"
    ensures JoinParts(a + b) == JoinParts(a) + gap + JoinParts(b)
  {
    var all := a + b;
    assert all[..|all| - 1] == a + b[..|b| - 1];
    if |b| == 1 {
      assert all[..|all| - 1] == a;
    } else {
      JoinInRow(a, b[..|b| - 1], gap);
    }
  }

  // ---------- Combining ----------

  /** The steps whose results enter the context are the retrievals. */
  lemma RetrievalsAreRag(step: PlanStep)
    requires Valid(step)
    ensures IsRag(ToString(step)) <==> step.stepType.RagRetrieval?
  {
    NameFacts(step.stepType);
    ReadersAgree(step);
    OnlyRetrieval(step.stepType);
  }

  lemma OnlyRetrieval(t: StepType)
    ensures Name(t) == "RAG_RETRIEVAL" <==> t.RagRetrieval?
  {
  }

  predicate IsRag(step: string) {
    ExecutorType(step) == "RAG_RETRIEVAL"
  }

  /** The results of those of the first `i` steps that `p` holds of. */
  function Picked(p: string -> bool, batch: seq<string>, results: seq<string>, i: nat): (r: seq<string>)
    requires |results| == |batch| && i <= |batch|
    ensures forall x | x in r :: x in results
  {
    if i == 0 then []
    else if p(batch[i - 1]) then Picked(p, batch, results, i - 1) + [results[i - 1]]
    else Picked(p, batch, results, i - 1)
  }

  /** The results of the first `i` steps that enter the context. */
  function RagUpTo(batch: seq<string>, results: seq<string>, i: nat): (r: seq<string>)
    requires |results| == |batch| && i <= |batch|
    ensures forall x | x in r :: x in results
  {
    Picked(IsRag, batch, results, i)
  }

  function RagResults(batch: seq<string>, results: seq<string>): (r: seq<string>)
    requires |results| == |batch|
    ensures forall x | x in r :: x in results
  {
    RagUpTo(batch, results, |batch|)
  }

  /** What the result of one step does to the context. */
  function NextContext(context: string, step: string, result: string): string {
    if IsRag(step) then AddResult(context, result) else context
  }

  lemma NextContextIs(context: string, batch: seq<string>, results: seq<string>, i: nat)
    requires |results| == |batch| && i < |batch|
    ensures AddResults(context, RagUpTo(batch, results, i + 1))
         == NextContext(AddResults(context, RagUpTo(batch, results, i)), batch[i], results[i])
  {
    var before := RagUpTo(batch, results, i);
    assert (before + [results[i]])[..|before|] == before;
  }

  /** The loop over the futures as they complete. */
  method CollectAsCompleted(batch: seq<string>, outcome: seq<string>, order: seq<nat>)
    returns (results: map<string, string>)
    requires |outcome| == |batch|
    requires forall k | 0 <= k < |order| :: order[k] < |batch|
    ensures results == Collect(batch, outcome, order, |order|)
    ensures forall at: nat | LastOfStep(batch, order, |order|, at) ::
      batch[order[at]] in results && results[batch[order[at]]] == outcome[order[at]]
  {
    results := map[];
    for k := 0 to |order|
      invariant results == Collect(batch, outcome, order, k)
    {
      results := results[batch[order[k]] := outcome[order[k]]];
    }
    forall at: nat | LastOfStep(batch, order, |order|, at)
      ensures batch[order[at]] in results && results[batch[order[at]]] == outcome[order[at]]
    {
      LastIsCollected(batch, outcome, order, |order|, at);
    }
  }

  lemma {:induction false} LastIsCollected(
    batch: seq<string>, outcome: seq<string>, order: seq<nat>, k: nat, at: nat)
    requires |outcome| == |batch| && k <= |order|
    requires forall k | 0 <= k < |order| :: order[k] < |batch|
    requires LastOfStep(batch, order, k, at)
    ensures var results := Collect(batch, outcome, order, k);
      batch[order[at]] in results && results[batch[order[at]]] == outcome[order[at]]
  {
    if at < k - 1 {
      LastIsCollected(batch, outcome, order, k - 1, at);
    }
  }

  /** The loop that combines the results in the order of the batch. */
  method Combine(batch: seq<string>, results: map<string, string>, context: string)
    returns (answer: string, newContext: string)
    ensures var seen := seq(|batch|, i requires 0 <= i < |batch| => Lookup(results, batch[i]));
      answer == Answer(batch, seen) && newContext == AddResults(context, RagResults(batch, seen))
  {
    ghost var seen := seq(|batch|, i requires 0 <= i < |batch| => Lookup(results, batch[i]));
    var parts: seq<string> := [];
    newContext := context;
    for i := 0 to |batch|
      invariant parts == Parts(batch, seen, i)
      invariant newContext == AddResults(context, RagUpTo(batch, seen, i))
    {
      var result := Lookup(results, batch[i]);
      parts := parts + [Part(batch[i], result)];
      NextContextIs(context, batch, seen, i);
      newContext := NextContext(newContext, batch[i], result);
    }
    answer := JoinParts(parts);
  }

  /** One batch of tool steps. `outcome[i]` is what step `i` returned or the text its
      exception was turned into; `pending` is the queue depth read under the lock. */
  method RunParallelBatch(batch: seq<string>, context: string, pending: int, outcome: seq<string>, order: seq<nat>)
    returns (answer: string, newContext: string)
    requires |outcome| == |batch| && IsCompletionOrder(order, |batch|)
    ensures pending + |batch| > MAX_QUEUE_DEPTH ==> answer == BUSY && newContext == context
    ensures pending + |batch| <= MAX_QUEUE_DEPTH ==>
      && answer == Answer(batch, Seen(batch, outcome, order))
      && newContext == AddResults(context, RagResults(batch, Seen(batch, outcome, order)))
    ensures pending + |batch| <= MAX_QUEUE_DEPTH && Agree(batch, outcome) ==>
      && answer == Answer(batch, outcome)
      && newContext == AddResults(context, RagResults(batch, outcome))
  {
    if pending + |batch| > MAX_QUEUE_DEPTH {
      return BUSY, context;
    }
    var results := CollectAsCompleted(batch, outcome, order);
    answer, newContext := Combine(batch, results, context);
    SeenIsOutcome(batch, outcome, order);
  }
}
