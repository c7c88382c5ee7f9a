/** The YAML patches of agents/sre/bug_library.py: raising `limits.memory` by a factor and
    `livenessProbe.initialDelaySeconds` by some seconds, each the loop of `LinePatch` with
    its own meaning of a line and its own substitution. */
module YamlPatch {
  import opened Text
  import opened LineRewrite
  import opened LinePatch
  import opened MemoryQuantity

  // ---------- What a line means ----------

  function LimitsKind(line: string): Kind {
    KindInLimits(Strip(line))
  }

  function LivenessKind(line: string): Kind {
    KindInLiveness(Strip(line))
  }

  function KindInLimits(stripped: string): Kind {
    if stripped == "limits:" then Open
    else if StartsWith(stripped, QUOTED.key) then Hit
    else if LeavesLimits(stripped) then Close
    else Other
  }

  function KindInLiveness(stripped: string): Kind {
    if stripped == "livenessProbe:" then Open
    else if StartsWith(stripped, DELAY.key) then Hit
    else if stripped == "readinessProbe:" || stripped == "startupProbe:" || stripped == "resources:" then Close
    else Other
  }

  /** Another section: a line with a key, other than a comment, `memory` or `cpu`. */
  predicate LeavesLimits(stripped: string) {
    && stripped != "" && stripped[0] != '#' && ':' in stripped
    && Before(stripped, ':') != "memory" && Before(stripped, ':') != "cpu"
  }

  // ---------- The patches ----------

  type Factor = m: real | m >= 0.0

  /** `int(current_mi * multiplier)`. */
  function Times(mi: nat, factor: Factor): nat {
    (mi as real * factor).Floor
  }

  /** The substitution for a memory line: by its quotes, if it holds any. */
  function MemoryRule(line: string): Rule {
    if '"' in line then QUOTED else BARE
  }

  /** MiB that a memory line asks for. */
  function AmountOf(line: string): Option<nat> {
    match Search(QUOTED.key, line)
    case None => None
    case Some(quantity) => ParseMemory(quantity)
  }

  /** The rewritten memory line; `None` stands for the `ValueError` of a quantity with a
      fraction. */
  function RaiseLimit(line: string, factor: Factor): Option<string> {
    if Search(QUOTED.key, line).None? then Some(line)
    else if AmountOf(line).None? then None
    else Some(WithAmount(line, Times(AmountOf(line).value, factor)))
  }

  function WithAmount(line: string, mi: nat): string {
    Sub(MemoryRule(line), line, FormatMemory(mi))
  }

  /** The number behind the key. */
  function NumberOf(rule: Rule, line: string): Option<nat>
    requires rule.style.Number?
  {
    match FirstValue(rule, line)
    case None => None
    case Some(digits) => Some(ParseDecimal(digits))
  }

  function WithNumber(rule: Rule, line: string, n: nat): string {
    Sub(rule, line, Decimal(n))
  }

  function AddTo(rule: Rule, line: string, n: nat): string
    requires rule.style.Number?
  {
    match NumberOf(rule, line)
    case None => line
    case Some(current) => WithNumber(rule, line, current + n)
  }

  /** The rewritten probe line. */
  function RaiseDelay(line: string, seconds: nat): string {
    AddTo(DELAY, line, seconds)
  }

  function MemoryPatch(factor: Factor): Patch {
    Patch(LimitsKind, line => RaiseLimit(line, factor))
  }

  function DelayPatch(seconds: nat): Patch {
    Patch(LivenessKind, line => Some(RaiseDelay(line, seconds)))
  }

  method PatchMemoryLimit(lines: seq<string>, multiplier: Factor) returns (out: Option<seq<string>>)
    ensures out == Patched(MemoryPatch(multiplier), lines)
  {
    out := Apply(MemoryPatch(multiplier), lines);
  }

  method PatchLivenessDelay(lines: seq<string>, extraSeconds: nat) returns (out: seq<string>)
    ensures Patched(DelayPatch(extraSeconds), lines) == Some(out)
  {
    var r := Apply(DelayPatch(extraSeconds), lines);
    DelayNeverFails(lines, extraSeconds);
    out := r.value;
  }

  lemma DelayNeverFails(lines: seq<string>, seconds: nat)
    ensures Patched(DelayPatch(seconds), lines).Some?
  {
    FailsExactly(DelayPatch(seconds), lines);
  }

  // ---------- Rewritten lines keep their meaning ----------

  lemma MemoryKind(line: string)
    requires StartsWith(Strip(line), QUOTED.key)
    ensures LimitsKind(line).Hit? && LivenessKind(line).Other?
  {
    OtherByLetter(Strip(line), 'm');
  }

  lemma OtherByLetter(stripped: string, first: char)
    requires stripped != "" && stripped[0] == first == 'm'
    ensures stripped != "limits:" && KindInLiveness(stripped).Other?
  {
  }

  lemma DelayKind(line: string)
    requires StartsWith(Strip(line), DELAY.key)
    ensures LimitsKind(line).Close? && LivenessKind(line).Hit?
  {
    var stripped := Strip(line);
    DelayIsKey();
    BeforeKey(stripped, DELAY.key);
    LeavesByName(stripped, 'i');
    HitByLetter(stripped, 'i');
  }

  lemma HitByLetter(stripped: string, first: char)
    requires stripped != "" && stripped[0] == first == 'i' && StartsWith(stripped, DELAY.key)
    ensures KindInLiveness(stripped).Hit?
  {
  }

  lemma LeavesByName(stripped: string, first: char)
    requires stripped != "" && ':' in stripped && stripped[0] == first
    requires Before(stripped, ':') != "" && Before(stripped, ':')[0] == first
    requires first != '#' && first != 'm' && first != 'c' && first != 'l'
    ensures KindInLimits(stripped).Close?
  {
    assert Before(stripped, ':') != "memory" && Before(stripped, ':') != "cpu";
  }

  lemma KeyStaysFirst(rule: Rule, line: string, value: string)
    requires Known(rule) && StartsWith(Strip(line), rule.key)
    ensures StartsWith(Strip(Sub(rule, line, value)), rule.key)
  {
    KnownKeys(rule);
    StripStartsWith(line, rule.key);
    KeyKept(rule, line, value);
    StripStartsWith(Sub(rule, line, value), rule.key);
  }

  lemma LimitKeepsKinds(line: string, factor: Factor)
    requires LimitsKind(line).Hit? && RaiseLimit(line, factor).Some?
    ensures var changed := RaiseLimit(line, factor).value;
            LimitsKind(changed) == LimitsKind(line) && LivenessKind(changed) == LivenessKind(line)
  {
    MemoryKind(line);
    if AmountOf(line).Some? {
      var value := FormatMemory(Times(AmountOf(line).value, factor));
      KeyStaysFirst(MemoryRule(line), line, value);
      MemoryKind(Sub(MemoryRule(line), line, value));
    }
  }

  lemma DelayKeepsKinds(line: string, seconds: nat)
    requires LivenessKind(line).Hit?
    ensures var changed := RaiseDelay(line, seconds);
            LimitsKind(changed) == LimitsKind(line) && LivenessKind(changed) == LivenessKind(line)
  {
    if NumberOf(DELAY, line).Some? {
      DelaySubKeepsKinds(line, Decimal(NumberOf(DELAY, line).value + seconds));
    }
  }

  lemma DelaySubKeepsKinds(line: string, value: string)
    requires LivenessKind(line).Hit?
    ensures var changed := Sub(DELAY, line, value);
            LimitsKind(changed) == LimitsKind(line) && LivenessKind(changed) == LivenessKind(line)
  {
    DelayKind(line);
    KeyStaysFirst(DELAY, line, value);
    DelayKind(Sub(DELAY, line, value));
  }

  lemma MemoryKeeps(factor: Factor)
    ensures Keeps(MemoryPatch(factor), LimitsKind) && Keeps(MemoryPatch(factor), LivenessKind)
  {
    forall line: string | LimitsKind(line).Hit? && RaiseLimit(line, factor).Some?
      ensures var changed := RaiseLimit(line, factor).value;
              LimitsKind(changed) == LimitsKind(line) && LivenessKind(changed) == LivenessKind(line)
    {
      LimitKeepsKinds(line, factor);
    }
  }

  lemma DelayKeeps(seconds: nat)
    ensures Keeps(DelayPatch(seconds), LimitsKind) && Keeps(DelayPatch(seconds), LivenessKind)
  {
    forall line: string | LivenessKind(line).Hit?
      ensures var changed := RaiseDelay(line, seconds);
              LimitsKind(changed) == LimitsKind(line) && LivenessKind(changed) == LivenessKind(line)
    {
      DelayKeepsKinds(line, seconds);
    }
  }

  // ---------- Main results: confinement ----------

  lemma RequestsClose(line: string)
    requires Strip(line) == "requests:"
    ensures LimitsKind(line).Close?
  {
    var stripped := Strip(line);
    assert stripped[8] == ':';
    FindIs(stripped, ':', 8);
    assert Before(stripped, ':')[0] == 'r';
  }

  lemma TimesGrows(mi: nat, factor: Factor)
    requires factor >= 1.0
    ensures Times(mi, factor) >= mi
  {
    assert mi as real * factor >= mi as real;
  }

  /** A rewritten limit reads as the product when the rule reaches the quantity that was
      found, and as before when it does not. */
  lemma AmountAfter(line: string, mi: nat)
    ensures AmountOf(WithAmount(line, mi)) == if SiteFirst(MemoryRule(line), line) then Some(mi) else AmountOf(line)
  {
    MemoryIsKey();
    SearchAfter(MemoryRule(line), line, mi);
    ParseFormatted(mi);
  }

  /** A factor of at least 1 never shrinks a limit. */
  lemma LimitNeverShrinks(line: string, factor: Factor)
    requires factor >= 1.0 && AmountOf(line).Some?
    ensures RaiseLimit(line, factor).Some?
    ensures AmountOf(RaiseLimit(line, factor).value).Some?
    ensures AmountOf(RaiseLimit(line, factor).value).value >= AmountOf(line).value
  {
    AmountAfter(line, Times(AmountOf(line).value, factor));
    TimesGrows(AmountOf(line).value, factor);
  }

  /** A request that was at most its limit still is, whatever factor of at least 1 the
      limit is multiplied by; the request itself, under `requests:`, is unchanged. */
  lemma RequestsStayBelowLimits(lines: seq<string>, factor: Factor, out: seq<string>, h: nat, r: nat, l: nat)
    requires factor >= 1.0 && Patched(MemoryPatch(factor), lines) == Some(out)
    requires h < r < |lines| && l < |lines|
    requires Strip(lines[h]) == "requests:"
    requires forall k :: h < k < r ==> !LimitsKind(lines[k]).Open?
    requires AmountOf(lines[r]).Some? && AmountOf(lines[l]).Some?
    requires AmountOf(lines[r]).value <= AmountOf(lines[l]).value
    ensures |out| == |lines| && out[r] == lines[r]
    ensures AmountOf(out[l]).Some? && AmountOf(lines[l]).value <= AmountOf(out[l]).value
    ensures AmountOf(out[r]).value <= AmountOf(out[l]).value
  {
    var p, kinds := MemoryPatch(factor), Kinds(LimitsKind, lines);
    RequestsClose(lines[h]);
    NothingAfterClose(kinds, h, r);
    assert Changed(p, lines, r) == Some(out[r]);
    assert Changed(p, lines, l) == Some(out[l]);
    LimitNeverShrinks(lines[l], factor);
  }

  /** The first quantity of the line has a fraction, as in `memory: 1.5Gi`. */
  predicate NamesFraction(line: string) {
    Search(QUOTED.key, line).Some? && '.' in Search(QUOTED.key, line).value
  }

  /** The memory patch gives up exactly when the first quantity of a line that it would
      rewrite has a fraction, whatever the factor. */
  lemma FailsExactlyOnFractions(lines: seq<string>, factor: Factor)
    ensures Patched(MemoryPatch(factor), lines).None? <==> Unreadable(lines)
  {
    var p, kinds := MemoryPatch(factor), Kinds(LimitsKind, lines);
    FailsExactly(p, lines);
    forall i: nat | i < |lines| ensures p.rewrite(lines[i]).None? <==> NamesFraction(lines[i]) {
      FailsOnFraction(lines[i], factor);
    }
    if FailsSomewhere(p, lines) {
      var i: nat :| i < |lines| && Target(kinds, i) && p.rewrite(lines[i]).None?;
      assert Target(kinds, i) && NamesFraction(lines[i]);
    }
  }

  lemma FailsOnFraction(line: string, factor: Factor)
    ensures RaiseLimit(line, factor).None? <==> NamesFraction(line)
  {
    if Search(QUOTED.key, line).Some? {
      FoundParses(QUOTED.key, line);
    }
  }

  ghost predicate Unreadable(lines: seq<string>) {
    exists i: nat :: i < |lines| && Target(Kinds(LimitsKind, lines), i) && NamesFraction(lines[i])
  }

  // ---------- Main results: the algebra ----------

  lemma NumberAfter(rule: Rule, line: string, n: nat)
    requires rule.style.Number? && IsKey(rule.key) && NumberOf(rule, line).Some?
    ensures NumberOf(rule, WithNumber(rule, line, n)) == Some(n)
  {
    FirstValueAfter(rule, line, Decimal(n));
    ParsePrinted(n);
  }

  lemma NumberOver(rule: Rule, line: string, first: nat, second: nat)
    requires rule.style.Number? && IsKey(rule.key)
    ensures WithNumber(rule, WithNumber(rule, line, first), second) == WithNumber(rule, line, second)
  {
    SubTwice(rule, line, Decimal(first), Decimal(second));
  }

  lemma AddTwice(rule: Rule, line: string, a: nat, b: nat)
    requires rule.style.Number? && IsKey(rule.key)
    ensures AddTo(rule, AddTo(rule, line, a), b) == AddTo(rule, line, a + b)
  {
    if NumberOf(rule, line).Some? {
      var first := NumberOf(rule, line).value + a;
      NumberAfter(rule, line, first);
      NumberOver(rule, line, first, first + b);
    }
  }

  /** Two extensions of the liveness delay are one extension by the sum, on every text. */
  lemma DelaysAdd(lines: seq<string>, a: nat, b: nat)
    ensures Then(Patched(DelayPatch(a), lines), DelayPatch(b)) == Patched(DelayPatch(a + b), lines)
  {
    DelayKeeps(a);
    var first, second, both := DelayPatch(a), DelayPatch(b), DelayPatch(a + b);
    forall line: string ensures ThenLine(first.rewrite(line), second) == both.rewrite(line) {
      DelayIsKey();
      AddTwice(DELAY, line, a, b);
    }
    Composes(first, second, both, lines);
  }

  /** The memory patch and the liveness patch do not see each other: their order does not
      matter, on every text. */
  lemma PatchesCommute(lines: seq<string>, factor: Factor, seconds: nat)
    ensures Then(Patched(MemoryPatch(factor), lines), DelayPatch(seconds))
         == Then(Patched(DelayPatch(seconds), lines), MemoryPatch(factor))
  {
    MemoryKeeps(factor);
    DelayKeeps(seconds);
    forall line: string ensures !(LimitsKind(line).Hit? && LivenessKind(line).Hit?) {
      if LimitsKind(line).Hit? {
        MemoryKind(line);
      }
    }
    Commutes(MemoryPatch(factor), DelayPatch(seconds), lines);
  }

  // ---------- Multiplying twice ----------

  lemma TimesIsProduct(mi: nat, a: nat)
    ensures Times(mi, a as real) == mi * a
  {
    assert mi as real * a as real == (mi * a) as real;
  }

  lemma TimesTwice(mi: nat, a: nat, b: nat, ab: nat)
    requires ab == a * b
    ensures Times(Times(mi, a as real), b as real) == Times(mi, ab as real)
    ensures Times(mi, b as real) == Times(mi, ab as real) <==> a == 1 || b == 0 || mi == 0
  {
    TimesIsProduct(mi, a);
    TimesIsProduct(mi, b);
    TimesIsProduct(mi, ab);
    TimesIsProduct(mi * a, b);
    Products(mi, a, b, ab, mi * a, mi * b, mi * a * b);
  }

  lemma Products(mi: nat, a: nat, b: nat, ab: nat, first: nat, only: nat, whole: nat)
    requires ab == a * b && first == mi * a && only == mi * b && whole == first * b
    ensures whole == mi * ab
    ensures only == whole <==> a == 1 || b == 0 || mi == 0
  {
    assert whole == only * a;
    if a != 1 && b != 0 && mi != 0 {
      assert only > 0;
      assert only * a == only ==> a == 1;
    }
  }

  lemma RuleKept(line: string, value: string)
    requires Fits(MemoryRule(line), value)
    ensures MemoryRule(Sub(MemoryRule(line), line, value)) == MemoryRule(line)
  {
    if '"' in line {
      MemoryIsKey();
      QuotesKept(QUOTED, line, value);
    } else {
      SubKeepsOut(BARE, line, value, '"');
    }
  }

  lemma AmountTwice(line: string, first: nat, second: nat)
    ensures WithAmount(WithAmount(line, first), second) == WithAmount(line, second)
  {
    var rule := MemoryRule(line);
    KnownKeys(rule);
    FormatFits(rule, first);
    RuleKept(line, FormatMemory(first));
    SubTwice(rule, line, FormatMemory(first), FormatMemory(second));
  }

  /** When multiplying by `a` and then by `b` is multiplying by `a * b`: always, except
      where the quantity that is found stands before every place that gets rewritten, as
      in `memory:512Mi # memory: 1Gi`. */
  predicate Multiplies(line: string, a: nat, b: nat) {
    match AmountOf(line)
    case None => true
    case Some(mi) =>
      var rule := MemoryRule(line);
      SiteFirst(rule, line) || !HasSite(rule, line) || a == 1 || b == 0 || mi == 0
  }

  lemma SameAmount(line: string, m: nat, n: nat)
    ensures WithAmount(line, m) == WithAmount(line, n) <==> m == n || !HasSite(MemoryRule(line), line)
  {
    var rule := MemoryRule(line);
    KnownKeys(rule);
    FormatFits(rule, m);
    FormatFits(rule, n);
    ParseFormatted(m);
    ParseFormatted(n);
    if !HasSite(rule, line) {
      SubNoSite(rule, line, FormatMemory(m));
      SubNoSite(rule, line, FormatMemory(n));
    } else if WithAmount(line, m) == WithAmount(line, n) {
      SubInjective(rule, line, FormatMemory(m), FormatMemory(n));
    }
  }

  /** Two factors in a row: the second one multiplies the amount that it finds. */
  lemma RaiseTwice(line: string, a: Factor, b: Factor, mi: nat)
    requires AmountOf(line) == Some(mi)
    ensures var found := if SiteFirst(MemoryRule(line), line) then Times(mi, a) else mi;
            RaiseLimit(WithAmount(line, Times(mi, a)), b) == Some(WithAmount(line, Times(found, b)))
  {
    AmountAfter(line, Times(mi, a));
    var found := if SiteFirst(MemoryRule(line), line) then Times(mi, a) else mi;
    AmountTwice(line, Times(mi, a), Times(found, b));
  }

  lemma MultipliesExactly(line: string, a: nat, b: nat, ab: nat)
    requires ab == a * b && AmountOf(line).Some?
    ensures RaiseLimit(RaiseLimit(line, a as real).value, b as real) == RaiseLimit(line, ab as real)
       <==> Multiplies(line, a, b)
  {
    var mi := AmountOf(line).value;
    TimesTwice(mi, a, b, ab);
    RaiseTwice(line, a as real, b as real, mi);
    SameAmount(line, Times(mi, b as real), Times(mi, ab as real));
  }

  /** For whole numbers, multiplying the limits by `a` and then by `b` is multiplying them
      by `ab == a * b`, if and only if that holds of each line that is rewritten (or some
      such line cannot be parsed, and both ways fail). */
  lemma FactorsMultiply(lines: seq<string>, a: nat, b: nat, ab: nat)
    requires ab == a * b
    ensures (Then(Patched(MemoryPatch(a as real), lines), MemoryPatch(b as real))
             == Patched(MemoryPatch(ab as real), lines))
       <==> (Unreadable(lines) || AllMultiply(lines, a, b))
  {
    var fa: Factor, fb: Factor, fab: Factor := a as real, b as real, ab as real;
    var first, second, both := MemoryPatch(fa), MemoryPatch(fb), MemoryPatch(fab);
    MemoryKeeps(fa);
    forall line: string | RaiseLimit(line, fa).Some? ensures RaiseLimit(RaiseLimit(line, fa).value, fb).Some? {
      StillReadable(line, fa, fb);
    }
    Composes(first, second, both, lines);
    FailsExactly(first, lines);
    FailsExactlyOnFractions(lines, fa);
    forall line: string | RaiseLimit(line, fa).Some?
      ensures ThenLine(first.rewrite(line), second) == both.rewrite(line) <==> Multiplies(line, a, b)
    {
      if AmountOf(line).Some? {
        MultipliesExactly(line, a, b, ab);
      }
    }
  }

  ghost predicate AllMultiply(lines: seq<string>, a: nat, b: nat) {
    forall i: nat :: i < |lines| && Target(Kinds(LimitsKind, lines), i) ==> Multiplies(lines[i], a, b)
  }

  lemma StillReadable(line: string, a: Factor, b: Factor)
    requires RaiseLimit(line, a).Some?
    ensures RaiseLimit(RaiseLimit(line, a).value, b).Some?
  {
    if AmountOf(line).Some? {
      RaiseTwice(line, a, b, AmountOf(line).value);
    }
  }

  /** The composition does fail on some texts: in this line the first quantity has no space
      before it and is never rewritten, the second one is. */
  lemma CompositionCanFail()
    ensures var lines := ["limits:", "memory:1Mi" + " " + "memory: 1Mi"];
            Then(Patched(MemoryPatch(2.0), lines), MemoryPatch(2.0)) != Patched(MemoryPatch(4.0), lines)
  {
    CanFail("limits:", "memory:1Mi", " ", "memory: 1Mi");
  }

  lemma CanFail(header: string, first: string, gap: string, second: string)
    requires header == "limits:" && first == "memory:1Mi" && gap == " " && second == "memory: 1Mi"
    ensures var lines := [header, first + gap + second];
            Then(Patched(MemoryPatch(2.0), lines), MemoryPatch(2.0)) != Patched(MemoryPatch(4.0), lines)
  {
    var line := first + gap + second;
    assert line[..7] == first[..7] == QUOTED.key && line[7..10] == first[7..10] == "1Mi";
    assert line[11..] == second;
    assert line[0] == first[0] && line[|line| - 1] == second[|second| - 1];
    LineFails(header, line);
  }

  lemma LineFails(header: string, line: string)
    requires header == "limits:" && |line| > 11 && '"' !in line && Trimmed(line)
    requires line[..7] == QUOTED.key && line[7..10] == "1Mi" && line[11..] == "memory: 1Mi"
    ensures var lines := [header, line];
            Then(Patched(MemoryPatch(2.0), lines), MemoryPatch(2.0)) != Patched(MemoryPatch(4.0), lines)
  {
    var lines := [header, line];
    var kinds := Kinds(LimitsKind, lines);
    StripTrimmed(line);
    assert kinds[0].Open? && kinds[1].Hit?;
    assert OpenedAt(kinds, 0, 1);
    Fails(line);
    FactorsMultiply(lines, 2, 2, 4);
    assert !Unreadable(lines);
    assert !AllMultiply(lines, 2, 2);
    assert 2 as real == 2.0 && 4 as real == 4.0;
  }

  lemma Fails(line: string)
    requires |line| > 11 && '"' !in line
    requires line[..7] == QUOTED.key && line[7..10] == "1Mi" && line[11..] == "memory: 1Mi"
    ensures !Multiplies(line, 2, 2) && !NamesFraction(line)
  {
    FirstQuantity(line);
    NoSiteHere(line);
    LaterSite(line[11..]);
    SiteLater(BARE, line, 11);
    FailsOnFraction(line, 2.0);
  }

  lemma NoSiteHere(line: string)
    requires |line| > 7 && line[..7] == BARE.key && line[7] == '1'
    ensures Site(BARE, line).None?
  {
    RunIs(Space, line, 7, 7);
  }

  lemma FirstQuantity(line: string)
    requires |line| > 10 && line[..7] == QUOTED.key && line[7..10] == "1Mi"
    ensures line[7] == '1' && CaptureHere(QUOTED.key, line).Some? && AmountOf(line) == Some(1)
  {
    assert FormatMemory(1) == "1Mi" == "1" + "Mi";
    ParseFormatted(1);
    FirstCapture(QUOTED.key, line, "1", "Mi");
  }

  lemma FirstCapture(key: string, line: string, digits: string, unit: string)
    requires |key| == 7 && |line| > 10 && line[..7] == key && line[7..10] == digits + unit
    requires |digits| == 1 && AllDigits(digits) && |unit| == 2 && unit[0] in "MG" && unit[1] == 'i'
    ensures line[7] == digits[0] && CaptureHere(key, line) == Some(digits + unit)
    ensures Search(key, line) == Some(digits + unit)
  {
    assert line[7] == line[7..10][0] == digits[0];
    RunIs(Space, line, 7, 7);
    QuantityIs(line, 7, digits, unit);
  }

  lemma LaterSite(line: string)
    requires line == "memory: 1Mi"
    ensures Site(BARE, line).Some?
  {
    RunIs(Space, line, 7, 8);
  }

  // ---------- Both patches ----------

  /** A patch puts no line end into a line. */
  lemma LimitStaysLine(line: string, factor: Factor)
    requires OneLine(line) && RaiseLimit(line, factor).Some?
    ensures OneLine(RaiseLimit(line, factor).value)
  {
    if AmountOf(line).Some? {
      SubKeepsOut(MemoryRule(line), line, FormatMemory(Times(AmountOf(line).value, factor)), '\n');
    }
  }

  lemma LinesStayLines(lines: seq<string>, factor: Factor, out: seq<string>)
    requires Patched(MemoryPatch(factor), lines) == Some(out)
    requires forall i :: 0 <= i < |lines| ==> OneLine(lines[i])
    ensures forall i :: 0 <= i < |out| ==> OneLine(out[i])
  {
    forall i: nat | i < |out| ensures OneLine(out[i]) {
      assert Changed(MemoryPatch(factor), lines, i) == Some(out[i]);
      if out[i] != lines[i] {
        LimitStaysLine(lines[i], factor);
      }
    }
  }

  lemma DelayFills(seconds: nat)
    ensures Fills(DelayPatch(seconds))
  {
    forall line: string | LivenessKind(line).Hit? ensures RaiseDelay(line, seconds) != "" {
      DelayKeepsKinds(line, seconds);
    }
  }

  /** `_patch_memory_and_liveness`: the text between the two patches is joined and split. */
  method PatchMemoryAndLiveness(lines: seq<string>) returns (out: Option<seq<string>>)
    requires forall i :: 0 <= i < |lines| ==> OneLine(lines[i])
    ensures out == Resplitted(Then(Patched(MemoryPatch(1.5), lines), DelayPatch(30)))
  {
    out := PatchMemoryLimit(lines, 1.5);
    if out.Some? {
      var between := out.value;
      LinesStayLines(lines, 1.5, between);
      SplitJoined(between);
      var last := PatchLivenessDelay(SplitLines(Join(between)), 30);
      DelayFills(30);
      PatchedResplit(DelayPatch(30), between);
      out := Some(last);
    }
  }
}
