/** Patching a text line by line with one flag, the loop that the patch functions of
    agents/sre/bug_library.py share: a line may open a block, be rewritten when it is the
    first of its kind in an open block, or close the block. What a line means and how it
    is rewritten is left open here. */
module LinePatch {
  import opened Text

  datatype Kind = Open | Hit | Close | Other

  /** `rewrite` gives nothing when it raises an exception. */
  datatype Patch = Patch(kind: string -> Kind, rewrite: string -> Option<string>)

  function Kinds(kind: string -> Kind, lines: seq<string>): (kinds: seq<Kind>)
    ensures |kinds| == |lines|
    ensures forall i :: 0 <= i < |lines| ==> kinds[i] == kind(lines[i])
  {
    seq(|lines|, i requires 0 <= i < |lines| => kind(lines[i]))
  }

  // ---------- Blocks ----------

  /** Line `i` comes after an opening line, with nothing in between that leaves the block
      or uses it up. */
  ghost predicate InBlock(kinds: seq<Kind>, i: nat)
    requires i <= |kinds|
  {
    exists o: nat :: OpenedAt(kinds, o, i)
  }

  predicate OpenedAt(kinds: seq<Kind>, o: nat, i: nat)
    requires i <= |kinds|
  {
    && o < i && kinds[o].Open?
    && forall k :: o < k < i ==> kinds[k].Open? || kinds[k].Other?
  }

  /** The lines that a patch rewrites: of each block the first line of its kind. */
  ghost predicate Target(kinds: seq<Kind>, i: nat)
    requires i < |kinds|
  {
    kinds[i].Hit? && InBlock(kinds, i)
  }

  /** One step of the flag. */
  lemma InBlockNext(kinds: seq<Kind>, i: nat)
    requires i < |kinds|
    ensures InBlock(kinds, i + 1) <==> kinds[i].Open? || (kinds[i].Other? && InBlock(kinds, i))
  {
    if kinds[i].Open? {
      assert OpenedAt(kinds, i, i + 1);
    }
    if kinds[i].Other? && InBlock(kinds, i) {
      var o: nat :| OpenedAt(kinds, o, i);
      assert OpenedAt(kinds, o, i + 1);
    }
    if InBlock(kinds, i + 1) && !kinds[i].Open? {
      var o: nat :| OpenedAt(kinds, o, i + 1);
      assert OpenedAt(kinds, o, i);
    }
  }

  /** Between two lines that are rewritten the block was opened again. */
  lemma OneTargetPerBlock(kinds: seq<Kind>, i: nat, j: nat)
    requires i < j < |kinds| && Target(kinds, i) && Target(kinds, j)
    ensures exists o :: i < o < j && kinds[o].Open?
  {
    var o: nat :| OpenedAt(kinds, o, j);
    assert kinds[i].Hit?;
  }

  /** Below a line that leaves the block, nothing is rewritten until it is opened again. */
  lemma NothingAfterClose(kinds: seq<Kind>, c: nat, i: nat)
    requires c < i < |kinds| && kinds[c].Close?
    requires forall k :: c < k < i ==> !kinds[k].Open?
    ensures !Target(kinds, i)
  {
    if Target(kinds, i) {
      var o: nat :| OpenedAt(kinds, o, i);
      assert false;
    }
  }

  // ---------- What a patch does ----------

  /** What becomes of line `i`. */
  ghost function Changed(p: Patch, lines: seq<string>, i: nat): Option<string>
    requires i < |lines|
  {
    if Target(Kinds(p.kind, lines), i) then p.rewrite(lines[i]) else Some(lines[i])
  }

  /** The patched lines, each at its old place; nothing when one cannot be rewritten. */
  ghost function Patched(p: Patch, lines: seq<string>): (out: Option<seq<string>>)
    ensures out.None? <==> exists i: nat :: i < |lines| && Changed(p, lines, i).None?
    ensures out.Some? ==>
              && |out.value| == |lines|
              && forall i: nat :: i < |lines| ==> Changed(p, lines, i) == Some(out.value[i])
  {
    if exists i: nat :: i < |lines| && Changed(p, lines, i).None? then None
    else Some(seq(|lines|, i requires 0 <= i < |lines| && Changed(p, lines, i).Some? => Changed(p, lines, i).value))
  }

  lemma PatchedIs(p: Patch, lines: seq<string>, out: seq<string>)
    requires |out| == |lines|
    requires forall i: nat :: i < |lines| ==> Changed(p, lines, i) == Some(out[i])
    ensures Patched(p, lines) == Some(out)
  {
    assert Patched(p, lines).value == out;
  }

  lemma PatchedExactly(p: Patch, lines: seq<string>, out: seq<string>)
    requires |out| == |lines|
    ensures Patched(p, lines) == Some(out) <==> forall i: nat :: i < |lines| ==> Changed(p, lines, i) == Some(out[i])
  {
    if forall i: nat :: i < |lines| ==> Changed(p, lines, i) == Some(out[i]) {
      PatchedIs(p, lines, out);
    }
  }

  lemma FailedAt(p: Patch, lines: seq<string>) returns (i: nat)
    requires Patched(p, lines).None?
    ensures i < |lines| && Changed(p, lines, i).None?
  {
    i :| i < |lines| && Changed(p, lines, i).None?;
  }

  /** The loop: it rewrites exactly the targets. */
  method Apply(p: Patch, lines: seq<string>) returns (out: Option<seq<string>>)
    ensures out == Patched(p, lines)
  {
    ghost var kinds := Kinds(p.kind, lines);
    var inBlock := false;
    var linesOut: seq<string> := [];
    for i := 0 to |lines|
      invariant inBlock <==> InBlock(kinds, i)
      invariant |linesOut| == i
      invariant forall k: nat :: k < i ==> Changed(p, lines, k) == Some(linesOut[k])
    {
      var line := lines[i];
      var kind := p.kind(line);
      InBlockNext(kinds, i);
      if kind.Open? {
        inBlock := true;
      } else if inBlock && kind.Hit? {
        var rewritten := p.rewrite(line);
        if rewritten.None? {
          assert Changed(p, lines, i).None?;
          return None;
        }
        line := rewritten.value;
        inBlock := false;
      } else if inBlock && kind.Close? {
        inBlock := false;
      }
      linesOut := linesOut + [line];
    }
    PatchedIs(p, lines, linesOut);
    out := Some(linesOut);
  }

  // ---------- One patch after another ----------

  ghost function Then(first: Option<seq<string>>, second: Patch): Option<seq<string>> {
    match first
    case None => None
    case Some(lines) => Patched(second, lines)
  }

  function ThenLine(first: Option<string>, second: Patch): Option<string> {
    match first
    case None => None
    case Some(line) => second.rewrite(line)
  }

  /** Rewriting does not change what a line means. */
  ghost predicate Keeps(p: Patch, kind: string -> Kind) {
    forall line: string :: p.kind(line).Hit? && p.rewrite(line).Some? ==> kind(p.rewrite(line).value) == kind(line)
  }

  lemma KindsKept(p: Patch, kind: string -> Kind, lines: seq<string>, out: seq<string>)
    requires Keeps(p, kind) && Patched(p, lines) == Some(out)
    ensures Kinds(kind, out) == Kinds(kind, lines)
  {
    forall i: nat | i < |lines| ensures kind(out[i]) == kind(lines[i]) {
      assert Changed(p, lines, i) == Some(out[i]);
    }
  }

  /** The second patch rewrites the lines that it would rewrite in the original text. */
  lemma ChangedAfter(first: Patch, second: Patch, lines: seq<string>, out: seq<string>, i: nat)
    requires Keeps(first, second.kind) && Patched(first, lines) == Some(out) && i < |lines|
    ensures |out| == |lines| && Changed(first, lines, i) == Some(out[i])
    ensures Changed(second, out, i)
         == if Target(Kinds(second.kind, lines), i) then second.rewrite(out[i]) else Some(out[i])
  {
    KindsKept(first, second.kind, lines, out);
  }

  /** Three patches of the same block, that fail on the same lines. */
  ghost predicate Alike(first: Patch, second: Patch, both: Patch) {
    && first.kind == second.kind == both.kind && Keeps(first, second.kind)
    && (forall line: string :: first.rewrite(line).None? <==> both.rewrite(line).None?)
    && (forall line: string :: first.rewrite(line).Some? ==> second.rewrite(first.rewrite(line).value).Some?)
  }

  ghost predicate FailsSomewhere(p: Patch, lines: seq<string>) {
    exists i: nat :: i < |lines| && Target(Kinds(p.kind, lines), i) && p.rewrite(lines[i]).None?
  }

  lemma FailsExactly(p: Patch, lines: seq<string>)
    ensures Patched(p, lines).None? <==> FailsSomewhere(p, lines)
  {
    if FailsSomewhere(p, lines) {
      var i: nat :| i < |lines| && Target(Kinds(p.kind, lines), i) && p.rewrite(lines[i]).None?;
      assert Changed(p, lines, i).None?;
    }
  }

  ghost predicate SameOnTargets(first: Patch, second: Patch, both: Patch, lines: seq<string>) {
    forall i: nat :: i < |lines| && Target(Kinds(first.kind, lines), i) ==>
      ThenLine(first.rewrite(lines[i]), second) == both.rewrite(lines[i])
  }

  /** On a text, `first` and then `second` is `both` exactly when it is so on each line
      that is rewritten, or when both ways fail. */
  lemma Composes(first: Patch, second: Patch, both: Patch, lines: seq<string>)
    requires Alike(first, second, both)
    ensures (Then(Patched(first, lines), second) == Patched(both, lines))
       <==> (FailsSomewhere(first, lines) || SameOnTargets(first, second, both, lines))
  {
    FailsExactly(first, lines);
    FailsExactly(both, lines);
    if Patched(first, lines).Some? {
      var one, whole := Patched(first, lines).value, Patched(both, lines).value;
      forall i: nat | i < |lines|
        ensures Changed(second, one, i) == Some(whole[i])
           <==> (Target(Kinds(first.kind, lines), i) ==>
                   ThenLine(first.rewrite(lines[i]), second) == both.rewrite(lines[i]))
      {
        ChangedAfter(first, second, lines, one, i);
        assert Changed(both, lines, i) == Some(whole[i]);
      }
      PatchedExactly(second, one, whole);
    }
  }

  /** Two patches of different blocks that do not see each other. */
  ghost predicate Apart(first: Patch, second: Patch) {
    && Keeps(first, second.kind) && Keeps(second, first.kind)
    && forall line: string :: !(first.kind(line).Hit? && second.kind(line).Hit?)
  }

  ghost function ChangedByBoth(first: Patch, second: Patch, lines: seq<string>, i: nat): Option<string>
    requires i < |lines|
  {
    if Target(Kinds(first.kind, lines), i) then first.rewrite(lines[i]) else Changed(second, lines, i)
  }

  lemma ThenIs(first: Patch, second: Patch, lines: seq<string>)
    requires Apart(first, second)
    ensures var r := Then(Patched(first, lines), second);
            && (r.None? <==> exists i: nat :: i < |lines| && ChangedByBoth(first, second, lines, i).None?)
            && (r.Some? ==> |r.value| == |lines| &&
                            forall i: nat :: i < |lines| ==> ChangedByBoth(first, second, lines, i) == Some(r.value[i]))
  {
    if Patched(first, lines).None? {
      var i := FailedAt(first, lines);
      assert ChangedByBoth(first, second, lines, i).None?;
    } else {
      var one := Patched(first, lines).value;
      forall i: nat | i < |lines| ensures Changed(second, one, i) == ChangedByBoth(first, second, lines, i) {
        ChangedAfter(first, second, lines, one, i);
      }
      if Patched(second, one).None? {
        var i := FailedAt(second, one);
        assert ChangedByBoth(first, second, lines, i).None?;
      }
    }
  }

  lemma Commutes(first: Patch, second: Patch, lines: seq<string>)
    requires Apart(first, second)
    ensures Then(Patched(first, lines), second) == Then(Patched(second, lines), first)
  {
    ThenIs(first, second, lines);
    ThenIs(second, first, lines);
    var left, right := Then(Patched(first, lines), second), Then(Patched(second, lines), first);
    forall i: nat | i < |lines|
      ensures ChangedByBoth(first, second, lines, i) == ChangedByBoth(second, first, lines, i)
    {
    }
    if left.Some? && right.Some? {
      forall i: nat | i < |lines| ensures left.value[i] == right.value[i] {
        assert ChangedByBoth(first, second, lines, i) == Some(left.value[i]);
      }
      assert left.value == right.value;
    }
  }

  // ---------- Joining and splitting in between ----------

  /** `"\n".join(lines)`. */
  function Join(lines: seq<string>): string {
    if lines == [] then "" else if |lines| == 1 then lines[0] else lines[0] + "\n" + Join(lines[1..])
  }

  /** `text.splitlines()` of a text whose only line ends are newlines. */
  function SplitLines(text: string): seq<string>
    decreases |text|
  {
    var i := Find(text, '\n');
    if text == "" then [] else if i == |text| then [text] else [text[..i]] + SplitLines(text[i + 1..])
  }

  /** The lines that are left when the text is joined and split: an empty last line is lost. */
  function Resplit(lines: seq<string>): seq<string> {
    if lines != [] && lines[|lines| - 1] == "" then lines[..|lines| - 1] else lines
  }

  ghost predicate OneLine(line: string) {
    forall i :: 0 <= i < |line| ==> line[i] != '\n'
  }

  lemma {:induction false} SplitJoined(lines: seq<string>)
    requires forall i :: 0 <= i < |lines| ==> OneLine(lines[i])
    ensures SplitLines(Join(lines)) == Resplit(lines)
  {
    if |lines| == 1 {
      assert Find(lines[0], '\n') == |lines[0]|;
      assert Resplit(lines) == if lines[0] == "" then [] else lines;
    } else if |lines| > 1 {
      SplitJoined(lines[1..]);
      SplitFirst(lines[0], Join(lines[1..]));
      assert Resplit(lines) == [lines[0]] + Resplit(lines[1..]);
    }
  }

  lemma SplitFirst(line: string, rest: string)
    requires OneLine(line)
    ensures SplitLines(line + "\n" + rest) == [line] + SplitLines(rest)
  {
    var text := line + "\n" + rest;
    FindIs(text, '\n', |line|);
    assert text[|line| + 1..] == rest;
    assert text[..|line|] == line;
  }

  /** Rewriting makes no line empty and leaves empty lines alone. */
  ghost predicate Fills(p: Patch) {
    !p.kind("").Hit? && forall line: string :: p.kind(line).Hit? ==> p.rewrite(line) != Some("")
  }

  function Resplitted(lines: Option<seq<string>>): Option<seq<string>> {
    match lines
    case None => None
    case Some(some) => Some(Resplit(some))
  }

  /** Losing an empty last line before a patch or after it is the same. */
  lemma PatchedResplit(p: Patch, lines: seq<string>)
    requires Fills(p)
    ensures Patched(p, Resplit(lines)) == Resplitted(Patched(p, lines))
  {
    if lines != [] {
      var n: nat := |lines| - 1;
      assert lines[n] == "" ==> Changed(p, lines, n) == Some("");
      assert lines[n] != "" ==> Changed(p, lines, n) != Some("");
      var all := Patched(p, lines);
      if lines[n] == "" {
        if all.Some? {
          PatchedPrefix(p, lines, all.value, n);
        } else {
          var i := FailedAt(p, lines);
          ChangedInPrefix(p, lines, n, i);
        }
      } else if all.Some? {
        assert Changed(p, lines, n) == Some(all.value[n]);
      }
    }
  }

  lemma ChangedInPrefix(p: Patch, lines: seq<string>, n: nat, i: nat)
    requires i < n <= |lines|
    ensures Changed(p, lines[..n], i) == Changed(p, lines, i)
  {
    var short, long := Kinds(p.kind, lines[..n]), Kinds(p.kind, lines);
    assert forall k :: 0 <= k < n ==> short[k] == long[k];
    forall o: nat ensures OpenedAt(short, o, i) == OpenedAt(long, o, i) {
    }
  }

  lemma PatchedPrefix(p: Patch, lines: seq<string>, out: seq<string>, n: nat)
    requires n <= |lines| && Patched(p, lines) == Some(out)
    ensures Patched(p, lines[..n]) == Some(out[..n])
  {
    forall i: nat | i < n ensures Changed(p, lines[..n], i) == Some(out[..n][i]) {
      ChangedInPrefix(p, lines, n, i);
      assert Changed(p, lines, i) == Some(out[i]);
    }
    PatchedIs(p, lines[..n], out[..n]);
  }
}
