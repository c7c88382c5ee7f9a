/** What the two YAML patches do to a manifest, said of its text: which lines are rewritten, and
    what becomes of a line as manifests write it. */
module YamlLines {
  import opened Text
  import opened LineRewrite
  import opened LinePatch
  import opened MemoryQuantity
  import opened YamlPatch

  // ---------- Which lines are rewritten ----------

  /** A line that leaves a `limits:` block open: blank, a comment, without a colon, the `cpu:`
      limit; or the header again. */
  predicate StaysInLimits(stripped: string) {
    || stripped == "" || stripped[0] == '#' || ':' !in stripped
    || StartsWith(stripped, "cpu:") || stripped == "limits:"
  }

  /** Line `m` stands below a `limits:`, with nothing in between that leaves the block. */
  ghost predicate InLimits(lines: seq<string>, m: nat)
    requires m <= |lines|
  {
    exists o: nat :: o < m && Strip(lines[o]) == "limits:" && forall k | o < k < m :: StaysInLimits(Strip(lines[k]))
  }

  /** A line that leaves a `livenessProbe:` block open: any but three headers and the delay. */
  predicate StaysInLiveness(stripped: string) {
    && stripped != "readinessProbe:" && stripped != "startupProbe:" && stripped != "resources:"
    && !StartsWith(stripped, "initialDelaySeconds:")
  }

  ghost predicate InLiveness(lines: seq<string>, m: nat)
    requires m <= |lines|
  {
    exists o: nat ::
      o < m && Strip(lines[o]) == "livenessProbe:" && forall k | o < k < m :: StaysInLiveness(Strip(lines[k]))
  }

  /** The name before the first colon, and what the text starts with. */
  lemma NameBefore(s: string, name: string, key: string)
    requires ':' in s && key == name + ":" && forall i :: 0 <= i < |name| ==> name[i] != ':'
    ensures Before(s, ':') == name <==> StartsWith(s, key)
  {
    var i := Find(s, ':');
    if Before(s, ':') == name {
      assert s[..i + 1] == key;
    }
    if StartsWith(s, key) {
      assert forall k :: 0 <= k < |key| ==> s[k] == key[k];
      FindIs(s, ':', |name|);
      assert s[..|name|] == key[..|name|];
    }
  }

  lemma LimitsKindOf(stripped: string)
    ensures StaysInLimits(stripped) <==> KindInLimits(stripped).Open? || KindInLimits(stripped).Other?
    ensures KindInLimits(stripped).Hit? <==> StartsWith(stripped, "memory:")
    ensures KindInLimits(stripped).Open? <==> stripped == "limits:"
  {
    if ':' in stripped {
      NameBefore(stripped, "memory", "memory:");
      NameBefore(stripped, "cpu", "cpu:");
    }
    NoTwoStarts(stripped);
  }

  lemma NoTwoStarts(stripped: string)
    ensures StartsWith(stripped, "memory:") ==>
      ':' in stripped && stripped[0] != '#' && stripped != "limits:" && !StartsWith(stripped, "cpu:")
  {
    if StartsWith(stripped, "memory:") {
      assert stripped[0] == 'm' && stripped[6] == ':';
    }
  }

  lemma LivenessKindOf(stripped: string)
    ensures StaysInLiveness(stripped) <==> KindInLiveness(stripped).Open? || KindInLiveness(stripped).Other?
    ensures KindInLiveness(stripped).Hit? <==> StartsWith(stripped, "initialDelaySeconds:")
    ensures KindInLiveness(stripped).Open? <==> stripped == "livenessProbe:"
  {
    if StartsWith(stripped, "initialDelaySeconds:") {
      assert stripped[0] == 'i';
    }
  }

  /** The memory patch rewrites a line exactly when it starts with `memory:` inside a block. */
  lemma LimitsTargets(lines: seq<string>, m: nat)
    requires m < |lines|
    ensures Target(Kinds(LimitsKind, lines), m) <==> StartsWith(Strip(lines[m]), "memory:") && InLimits(lines, m)
  {
    var kinds := Kinds(LimitsKind, lines);
    forall i | 0 <= i < |lines|
      ensures kinds[i] == KindInLimits(Strip(lines[i]))
      ensures StaysInLimits(Strip(lines[i])) <==> kinds[i].Open? || kinds[i].Other?
      ensures kinds[i].Hit? <==> StartsWith(Strip(lines[i]), "memory:")
      ensures kinds[i].Open? <==> Strip(lines[i]) == "limits:"
    {
      LimitsKindOf(Strip(lines[i]));
    }
    forall o: nat | o < m
      ensures OpenedAt(kinds, o, m)
         <==> Strip(lines[o]) == "limits:" && forall k | o < k < m :: StaysInLimits(Strip(lines[k]))
    {
    }
  }

  /** The liveness patch, exactly when it starts with `initialDelaySeconds:` inside a block. */
  lemma LivenessTargets(lines: seq<string>, m: nat)
    requires m < |lines|
    ensures Target(Kinds(LivenessKind, lines), m)
       <==> StartsWith(Strip(lines[m]), "initialDelaySeconds:") && InLiveness(lines, m)
  {
    var kinds := Kinds(LivenessKind, lines);
    forall i | 0 <= i < |lines|
      ensures kinds[i] == KindInLiveness(Strip(lines[i]))
      ensures StaysInLiveness(Strip(lines[i])) <==> kinds[i].Open? || kinds[i].Other?
      ensures kinds[i].Hit? <==> StartsWith(Strip(lines[i]), "initialDelaySeconds:")
      ensures kinds[i].Open? <==> Strip(lines[i]) == "livenessProbe:"
    {
      LivenessKindOf(Strip(lines[i]));
    }
    forall o: nat | o < m
      ensures OpenedAt(kinds, o, m)
         <==> Strip(lines[o]) == "livenessProbe:" && forall k | o < k < m :: StaysInLiveness(Strip(lines[k]))
    {
    }
  }

  /** Line by line: a `memory:` line inside a `limits:` block is raised, and reads as the product
      when the substitution reaches its quantity; every other line stays. */
  lemma MemoryLimitIsRaised(lines: seq<string>, factor: Factor, out: seq<string>, m: nat)
    requires Patched(MemoryPatch(factor), lines) == Some(out) && m < |lines|
    ensures |out| == |lines|
    ensures if StartsWith(Strip(lines[m]), "memory:") && InLimits(lines, m)
            then RaiseLimit(lines[m], factor) == Some(out[m]) else out[m] == lines[m]
    ensures StartsWith(Strip(lines[m]), "memory:") && InLimits(lines, m)
            && AmountOf(lines[m]).Some? && SiteFirst(MemoryRule(lines[m]), lines[m]) ==>
      AmountOf(out[m]) == Some(Times(AmountOf(lines[m]).value, factor))
  {
    LimitsTargets(lines, m);
    assert Changed(MemoryPatch(factor), lines, m) == Some(out[m]);
    if AmountOf(lines[m]).Some? {
      AmountAfter(lines[m], Times(AmountOf(lines[m]).value, factor));
    }
  }

  /** The same for the delay inside a `livenessProbe:` block, which then reads as the sum. */
  lemma LivenessDelayIsRaised(lines: seq<string>, seconds: nat, out: seq<string>, m: nat)
    requires Patched(DelayPatch(seconds), lines) == Some(out) && m < |lines|
    ensures |out| == |lines|
    ensures out[m] == if StartsWith(Strip(lines[m]), "initialDelaySeconds:") && InLiveness(lines, m)
                      then RaiseDelay(lines[m], seconds) else lines[m]
    ensures StartsWith(Strip(lines[m]), "initialDelaySeconds:") && InLiveness(lines, m)
            && NumberOf(DELAY, lines[m]).Some? ==>
      NumberOf(DELAY, out[m]) == Some(NumberOf(DELAY, lines[m]).value + seconds)
  {
    LivenessTargets(lines, m);
    assert Changed(DelayPatch(seconds), lines, m) == Some(out[m]);
    if NumberOf(DELAY, lines[m]).Some? {
      DelayIsKey();
      NumberAfter(DELAY, lines[m], NumberOf(DELAY, lines[m]).value + seconds);
    }
  }

  // ---------- Lines as manifests write them ----------

  predicate Blank(s: string) {
    forall i :: 0 <= i < |s| ==> IsSpace(s[i])
  }

  /** The indentation, the key, what leads to the value, the value, and the rest. */
  function Written(pre: string, key: string, lead: string, value: string, post: string): string {
    pre + (key + (lead + (value + post)))
  }

  lemma KeyStarts(key: string, s: string)
    requires IsKey(key)
    ensures StartsWith(s, key) ==> s != "" && s[0] == key[0] && ':' in s
  {
    if StartsWith(s, key) {
      assert s[|key| - 1] == key[|key| - 1];
    }
  }

  lemma NoSiteAtSpace(rule: Rule, s: string)
    requires IsKey(rule.key) && s != "" && s[0] != rule.key[0]
    ensures Site(rule, s).None? && CaptureHere(rule.key, s).None?
  {
    KeyStarts(rule.key, s);
  }

  lemma SkipsOne(rule: Rule, s: string, value: string)
    requires IsKey(rule.key) && s != "" && s[0] != rule.key[0]
    ensures Sub(rule, s, value) == [s[0]] + Sub(rule, s[1..], value)
    ensures Search(rule.key, s) == Search(rule.key, s[1..]) && FirstValue(rule, s) == FirstValue(rule, s[1..])
  {
    NoSiteAtSpace(rule, s);
    SubThere(rule, s, value);
  }

  /** Indentation is skipped. */
  lemma {:induction false} SkipsBlank(rule: Rule, pre: string, rest: string, value: string)
    requires IsKey(rule.key) && Blank(pre)
    ensures Sub(rule, pre + rest, value) == pre + Sub(rule, rest, value)
    ensures Search(rule.key, pre + rest) == Search(rule.key, rest)
    ensures FirstValue(rule, pre + rest) == FirstValue(rule, rest)
  {
    if pre == "" {
      assert pre + rest == rest;
    } else {
      var c, tail := pre[0], pre[1..];
      assert IsSpace(c) && pre == [c] + tail;
      SkipsBlank(rule, tail, rest, value);
      OneMore(c, tail, rest, Sub(rule, rest, value));
      SkipsOne(rule, pre + rest, value);
    }
  }

  lemma OneMore(c: char, tail: string, rest: string, end: string)
    ensures var s := [c] + tail + rest; s[0] == c && s[1..] == tail + rest
    ensures [c] + (tail + end) == [c] + tail + end
  {
  }

  /** Without a colon there is no key. */
  lemma {:induction false} NoColonNoSite(rule: Rule, s: string)
    requires IsKey(rule.key) && ':' !in s
    ensures !HasSite(rule, s)
  {
    if s != "" {
      KeyStarts(rule.key, s);
      NoColonNoSite(rule, s[1..]);
    }
  }

  /** `part` stands in `s` from `at` on. */
  predicate StandsAt(s: string, at: nat, part: string) {
    at + |part| <= |s| && forall i :: at <= i < at + |part| ==> s[i] == part[i - at]
  }

  lemma WrittenStands(key: string, lead: string, value: string, post: string)
    ensures var s, start, end := key + (lead + (value + post)), |key| + |lead|, |key| + |lead| + |value|;
      && |s| == end + |post| && StartsWith(s, key)
      && StandsAt(s, 0, key) && StandsAt(s, |key|, lead) && StandsAt(s, start, value) && StandsAt(s, end, post)
  {
    var s := key + (lead + (value + post));
    assert s[..|key|] == key;
  }

  lemma CutWritten(key: string, lead: string, value: string, post: string)
    ensures var s, start, end := key + (lead + (value + post)), |key| + |lead|, |key| + |lead| + |value|;
      s != "" || value == ""
    ensures var s, start, end := key + (lead + (value + post)), |key| + |lead|, |key| + |lead| + |value|;
      s[..start] == key + lead && s[start..end] == value && s[end..] == post
  {
    Regroup(key, lead, value, post);
    Parts(key + lead, value, post);
  }

  lemma Regroup(a: string, b: string, c: string, d: string)
    ensures a + b + c + d == a + (b + (c + d))
  {
  }

  /** A match at the very start is replaced; behind it nothing is, without a colon there. */
  lemma FirstIsReplaced(rule: Rule, s: string, at: Span, put: string)
    requires IsKey(rule.key) && Site(rule, s) == Some(at) && ':' !in s[at.end..]
    ensures Sub(rule, s, put) == s[..at.start] + put + s[at.end..]
  {
    SubHere(rule, s, put, at);
    NoColonNoSite(rule, s[at.end..]);
    SubNoSite(rule, s[at.end..], put);
  }

  lemma ReplacedBehind(rule: Rule, pre: string, s: string, at: Span, put: string)
    requires IsKey(rule.key) && Blank(pre) && Site(rule, s) == Some(at) && ':' !in s[at.end..]
    ensures Sub(rule, pre + s, put) == pre + (s[..at.start] + put + s[at.end..])
  {
    FirstIsReplaced(rule, s, at, put);
    SkipsBlank(rule, pre, s, put);
  }

  lemma FirstBehind(rule: Rule, pre: string, s: string, at: Span)
    requires IsKey(rule.key) && Blank(pre) && s != "" && Site(rule, s) == Some(at)
    ensures FirstValue(rule, pre + s) == Some(s[at.start..at.end])
  {
    FirstIs(rule, s, at);
    SkipsBlank(rule, pre, s, "");
  }

  /** The value of a written line is replaced, and nothing else. */
  lemma WrittenIsReplaced(rule: Rule, pre: string, lead: string, value: string, post: string, put: string)
    requires IsKey(rule.key) && Blank(pre) && ':' !in post && value != ""
    requires var start := |rule.key| + |lead|;
      Site(rule, rule.key + (lead + (value + post))) == Some(Span(start, start + |value|))
    ensures Sub(rule, Written(pre, rule.key, lead, value, post), put) == Written(pre, rule.key, lead, put, post)
  {
    var s, start := rule.key + (lead + (value + post)), |rule.key| + |lead|;
    CutWritten(rule.key, lead, value, post);
    ReplacedIn(rule, pre, s, Span(start, start + |value|), rule.key + lead, post, put);
    Regroup(rule.key, lead, put, post);
  }

  lemma ReplacedIn(rule: Rule, pre: string, s: string, at: Span, head: string, post: string, put: string)
    requires IsKey(rule.key) && Blank(pre) && Site(rule, s) == Some(at) && ':' !in post
    requires s[..at.start] == head && s[at.end..] == post
    ensures Sub(rule, pre + s, put) == pre + (head + put + post)
  {
    ReplacedBehind(rule, pre, s, at, put);
  }

  lemma WrittenIsFirst(rule: Rule, pre: string, lead: string, value: string, post: string)
    requires IsKey(rule.key) && Blank(pre) && value != ""
    requires var start := |rule.key| + |lead|;
      Site(rule, rule.key + (lead + (value + post))) == Some(Span(start, start + |value|))
    ensures FirstValue(rule, Written(pre, rule.key, lead, value, post)) == Some(value)
  {
    var s, start := rule.key + (lead + (value + post)), |rule.key| + |lead|;
    CutWritten(rule.key, lead, value, post);
    FirstBehind(rule, pre, s, Span(start, start + |value|));
  }

  lemma FirstIs(rule: Rule, s: string, at: Span)
    requires s != "" && Site(rule, s) == Some(at)
    ensures FirstValue(rule, s) == Some(s[at.start..at.end])
  {
  }

  /** Where the rules find a value: behind white space, up to where its characters end. */
  lemma SiteAt(rule: Rule, s: string, start: nat, end: nat)
    requires StartsWith(s, rule.key) && |rule.key| <= start < end <= |s|
    requires match rule.style
      case Quoted =>
        && |rule.key| + 1 < start && s[start - 1] == '"' && (forall i :: |rule.key| <= i < start - 1 ==> IsSpace(s[i]))
        && end < |s| && s[end] == '"' && forall i :: start <= i < end ==> s[i] != '"'
      case Bare =>
        && |rule.key| < start && (forall i :: |rule.key| <= i < start ==> IsSpace(s[i]))
        && (end < |s| ==> IsSpace(s[end])) && forall i :: start <= i < end ==> !IsSpace(s[i])
      case Number =>
        && (forall i :: |rule.key| <= i < start ==> IsSpace(s[i]))
        && (end < |s| ==> !IsDigit(s[end])) && forall i :: start <= i < end ==> IsDigit(s[i])
    ensures Site(rule, s) == Some(Span(start, end))
  {
    match rule.style
    case Quoted =>
      RunIs(Space, s, |rule.key|, start - 1);
      RunIs(NonQuote, s, start, end);
    case Bare =>
      RunIs(Space, s, |rule.key|, start);
      RunIs(NonSpace, s, start, end);
    case Number =>
      RunIs(Space, s, |rule.key|, start);
      RunIs(Digit, s, start, end);
  }

  lemma SiteOfQuoted(key: string, gap: string, value: string, post: string)
    requires IsKey(key) && value != "" && gap != "" && Blank(gap) && '"' !in value && post != "" && post[0] == '"'
    ensures var start := |key| + |gap + "\""|;
      Site(Rule(key, Quoted), key + (gap + "\"" + (value + post))) == Some(Span(start, start + |value|))
  {
    WrittenStands(key, gap + "\"", value, post);
    var start := |key| + |gap + "\""|;
    QuotedLead(gap);
    SiteAt(Rule(key, Quoted), key + (gap + "\"" + (value + post)), start, start + |value|);
  }

  lemma QuotedLead(gap: string)
    requires Blank(gap)
    ensures var lead := gap + "\"";
      lead[|lead| - 1] == '"' && forall i :: 0 <= i < |lead| - 1 ==> IsSpace(lead[i])
  {
  }

  lemma SiteOfBare(key: string, gap: string, value: string, post: string)
    requires IsKey(key) && value != "" && gap != "" && Blank(gap) && (post == "" || IsSpace(post[0]))
    requires forall i :: 0 <= i < |value| ==> !IsSpace(value[i])
    ensures var start := |key| + |gap|;
      Site(Rule(key, Bare), key + (gap + (value + post))) == Some(Span(start, start + |value|))
  {
    WrittenStands(key, gap, value, post);
    SiteAt(Rule(key, Bare), key + (gap + (value + post)), |key| + |gap|, |key| + |gap| + |value|);
  }

  lemma SiteOfNumber(key: string, gap: string, value: string, post: string)
    requires IsKey(key) && value != "" && AllDigits(value) && Blank(gap) && (post == "" || !IsDigit(post[0]))
    ensures var start := |key| + |gap|;
      Site(Rule(key, Number), key + (gap + (value + post))) == Some(Span(start, start + |value|))
  {
    WrittenStands(key, gap, value, post);
    SiteAt(Rule(key, Number), key + (gap + (value + post)), |key| + |gap|, |key| + |gap| + |value|);
  }

  /** MiB per unit. */
  function Scale(unit: string): nat {
    if unit == "Gi" || unit == "G" then 1024 else 1
  }

  predicate IsUnit(unit: string) {
    unit == "Mi" || unit == "Gi" || unit == "M" || unit == "G"
  }

  lemma UnitLetters(unit: string)
    requires IsUnit(unit)
    ensures |unit| == 1 || |unit| == 2
    ensures unit[0] == 'M' || unit[0] == 'G'
    ensures |unit| == 2 ==> unit[1] == 'i'
    ensures Scale(unit) == if unit[0] == 'G' then 1024 else 1
  {
  }

  /** What the program reads in a written quantity. */
  lemma ParseWritten(n: nat, unit: string)
    requires IsUnit(unit)
    ensures ParseMemory(Decimal(n) + unit) == Some(n * Scale(unit))
    ensures ParseMemory(Decimal(n)) == Some(n)
  {
    UnitLetters(unit);
    ParsePrinted(n);
    ParseByUnit(Decimal(n), unit);
    ParseBare(Decimal(n));
  }

  lemma ParseByUnit(digits: string, unit: string)
    requires digits != "" && AllDigits(digits) && IsUnit(unit)
    ensures ParseMemory(digits + unit) == Some(ParseDecimal(digits) * Scale(unit))
  {
    var q, n := digits + unit, |digits|;
    UnitLetters(unit);
    assert q[..n] == digits && q[|q| - 1] == unit[|unit| - 1];
    assert "Gi"[0] == 'G' && "Gi"[1] == 'i' && "Mi"[0] == 'M' && "Mi"[1] == 'i' && "G"[0] == 'G' && "M"[0] == 'M';
    assert |unit| == 2 ==> q[|q| - 2] == unit[0];
  }

  lemma ParseBare(digits: string)
    requires digits != "" && AllDigits(digits)
    ensures ParseMemory(digits) == Some(ParseDecimal(digits))
  {
    assert IsDigit(digits[|digits| - 1]);
    assert "Gi"[1] == 'i' && "Mi"[1] == 'i' && "G"[0] == 'G' && "M"[0] == 'M';
  }

  /** How the program writes an amount: in GiB when it is a whole number of them. */
  lemma FormatWritten(k: nat, mi: nat)
    ensures FormatMemory(1024 * k) == Decimal(k) + "Gi"
    ensures mi % 1024 != 0 ==> FormatMemory(mi) == Decimal(mi) + "Mi"
  {
  }

  /** The product is cut down to whole MiB. */
  lemma TimesIsFloor(mi: nat, factor: Factor)
    ensures Times(mi, factor) as real <= mi as real * factor < Times(mi, factor) as real + 1.0
  {
  }

  /** What may follow a quantity. */
  predicate Ends(c: char) {
    c == '"' || c == '\'' || IsSpace(c)
  }

  /** The search finds the quantity of a written line, behind white space and maybe a quote of either kind. */
  lemma SearchWritten(key: string, pre: string, gap: string, quote: string, digits: string, unit: string, post: string)
    requires IsKey(key) && Blank(pre) && Blank(gap) && digits != "" && AllDigits(digits) && IsUnit(unit)
    requires quote == "" || quote == "\"" || quote == "'"
    requires post == "" || Ends(post[0])
    ensures Search(key, Written(pre, key, gap + quote, digits + unit, post)) == Some(digits + unit)
  {
    var s := key + (gap + quote + ((digits + unit) + post));
    CaptureWritten(key, gap, quote, digits + unit, digits, unit, post, s);
    SkipsBlank(Rule(key, Bare), pre, s, "");
    FirstCaptured(key, s);
  }

  lemma CaptureWritten(
    key: string, gap: string, quote: string, value: string, digits: string, unit: string, post: string, s: string)
    requires IsKey(key) && Blank(gap) && digits != "" && AllDigits(digits) && IsUnit(unit) && value == digits + unit
    requires quote == "" || quote == "\"" || quote == "'"
    requires post == "" || Ends(post[0])
    requires s == key + (gap + quote + (value + post))
    ensures s != "" && CaptureHere(key, s) == Some(value)
  {
    var j := |key| + |gap + quote|;
    assert value[0] == digits[0];
    LeadSkipped(key, gap, quote, value, post, s);
    QuantityOf(s, j, value, digits, unit);
    CaptureIs(key, s, j, value);
  }

  lemma QuantityOf(s: string, j: nat, value: string, digits: string, unit: string)
    requires digits != "" && AllDigits(digits) && IsUnit(unit) && value == digits + unit && StandsAt(s, j, value)
    requires var e := j + |value|; e == |s| || Ends(s[e])
    ensures Quantity(s, j) == Some(value)
  {
    QuantityAt(s, j, digits, unit);
  }

  /** Behind the key the search skips white space and a quote, and reads a quantity there. */
  lemma LeadSkipped(key: string, gap: string, quote: string, value: string, post: string, s: string)
    requires IsKey(key) && Blank(gap) && value != "" && IsDigit(value[0])
    requires quote == "" || quote == "\"" || quote == "'"
    requires s == key + (gap + quote + (value + post))
    ensures var j := |key| + |gap + quote|;
      && |s| == j + |value| + |post| && StartsWith(s, key) && AfterQuote(s, Run(Space, s, |key|)) == j
      && StandsAt(s, j, value) && (post != "" ==> s[j + |value|] == post[0])
  {
    WrittenStands(key, gap + quote, value, post);
    LeadAt(s, |key|, gap, quote, gap + quote);
    FirstAt(s, |key| + |gap + quote|, value);
    if post != "" {
      FirstAt(s, |key| + |gap + quote| + |value|, post);
    }
    CaptureSkips(key, s, |key| + |gap|, |key| + |gap + quote|);
  }

  lemma FirstAt(s: string, at: nat, part: string)
    requires part != "" && StandsAt(s, at, part)
    ensures s[at] == part[0]
  {
  }

  lemma LeadAt(s: string, at: nat, gap: string, quote: string, lead: string)
    requires lead == gap + quote && Blank(gap) && StandsAt(s, at, lead)
    ensures forall k | at <= k < at + |gap| :: IsSpace(s[k])
    ensures quote != "" ==> s[at + |gap|] == quote[0]
  {
    forall k | at <= k < at + |gap| ensures IsSpace(s[k]) {
      assert s[k] == lead[k - at] == gap[k - at];
    }
    if quote != "" {
      assert s[at + |gap|] == lead[|gap|] == quote[0];
    }
  }

  lemma CaptureSkips(key: string, s: string, i: nat, j: nat)
    requires StartsWith(s, key) && |key| <= i <= j < |s| && IsDigit(s[j])
    requires forall k :: |key| <= k < i ==> IsSpace(s[k])
    requires i == j || (i + 1 == j && (s[i] == '"' || s[i] == '\''))
    ensures AfterQuote(s, Run(Space, s, |key|)) == j
  {
    RunIs(Space, s, |key|, i);
  }

  lemma CaptureIs(key: string, s: string, j: nat, quantity: string)
    requires StartsWith(s, key) && j <= |s| && AfterQuote(s, Run(Space, s, |key|)) == j
    requires Quantity(s, j) == Some(quantity)
    ensures CaptureHere(key, s) == Some(quantity)
  {
  }

  lemma FirstCaptured(key: string, s: string)
    requires s != "" && CaptureHere(key, s).Some?
    ensures Search(key, s) == CaptureHere(key, s)
  {
  }

  lemma QuantityAt(s: string, j: nat, digits: string, unit: string)
    requires digits != "" && AllDigits(digits) && IsUnit(unit) && StandsAt(s, j, digits + unit)
    requires var e := j + |digits + unit|; e == |s| || Ends(s[e])
    ensures Quantity(s, j) == Some(digits + unit)
  {
    var d := j + |digits|;
    UnitLetters(unit);
    forall i | j <= i < d ensures s[i] == digits[i - j] && IsDigit(s[i]) {
      assert s[i] == (digits + unit)[i - j] == digits[i - j];
    }
    assert s[d] == (digits + unit)[|digits|] == unit[0];
    assert |unit| == 2 ==> s[d + 1] == (digits + unit)[|digits| + 1] == unit[1];
    RunIs(Digit, s, j, d);
    assert AfterFraction(s, d) == d;
    assert Unit(s, d) == unit;
    assert s[j..d] == digits;
  }

  /** A limit as manifests write it, quoted or not: its amount is replaced by the product in
      whole MiB, and nothing else changes. */
  lemma WrittenLimitIsRaised(
    pre: string, gap: string, quoted: bool, n: nat, unit: string, comment: string, factor: Factor)
    requires Blank(pre) && Blank(gap) && gap != "" && IsUnit(unit)
    requires ':' !in comment && '"' !in comment && (comment == "" || IsSpace(comment[0]))
    ensures var quote, more := if quoted then "\"" else "", Times(n * Scale(unit), factor);
      RaiseLimit(Written(pre, "memory:", gap + quote, Decimal(n) + unit, quote + comment), factor)
        == Some(Written(pre, "memory:", gap + quote, FormatMemory(more), quote + comment))
  {
    MemoryIsKey();
    if quoted {
      QuotedIsRaised(QUOTED, pre, gap, n, unit, comment, "\"", factor);
    } else {
      BareIsRaised(BARE, pre, gap, n, unit, comment, factor);
      assert gap + "" == gap && "" + comment == comment;
    }
  }

  lemma AmountWritten(pre: string, gap: string, quote: string, n: nat, unit: string, post: string, key: string)
    requires key == "memory:" && IsKey(key) && Blank(pre) && Blank(gap) && IsUnit(unit)
    requires quote == "" || quote == "\"" || quote == "'"
    requires post == "" || Ends(post[0])
    ensures AmountOf(Written(pre, key, gap + quote, Decimal(n) + unit, post)) == Some(n * Scale(unit))
  {
    SearchWritten(key, pre, gap, quote, Decimal(n), unit, post);
    ParseWritten(n, unit);
  }

  lemma QuotedSub(
    rule: Rule, pre: string, gap: string, value: string, comment: string, quote: string, put: string)
    requires rule.style.Quoted? && IsKey(rule.key) && quote == "\"" && Blank(pre) && Blank(gap) && gap != ""
    requires value != "" && '"' !in value && ':' !in comment
    ensures var line := Written(pre, rule.key, gap + quote, value, quote + comment);
      '"' in line && Sub(rule, line, put) == Written(pre, rule.key, gap + quote, put, quote + comment)
  {
    SiteOfQuoted(rule.key, gap, value, quote + comment);
    WrittenIsReplaced(rule, pre, gap + quote, value, quote + comment, put);
    HasQuote(pre, rule.key, gap + quote, value, quote + comment);
  }

  lemma BareSub(rule: Rule, pre: string, gap: string, value: string, comment: string, put: string)
    requires rule.style.Bare? && IsKey(rule.key) && '"' !in rule.key && Blank(pre) && Blank(gap) && gap != ""
    requires value != "" && '"' !in value && forall i :: 0 <= i < |value| ==> !IsSpace(value[i])
    requires ':' !in comment && '"' !in comment && (comment == "" || IsSpace(comment[0]))
    ensures var line := Written(pre, rule.key, gap, value, comment);
      '"' !in line && Sub(rule, line, put) == Written(pre, rule.key, gap, put, comment)
  {
    SiteOfBare(rule.key, gap, value, comment);
    WrittenIsReplaced(rule, pre, gap, value, comment, put);
  }

  lemma QuotedIsRaised(
    rule: Rule, pre: string, gap: string, n: nat, unit: string, comment: string, quote: string, factor: Factor)
    requires rule == QUOTED && IsKey(rule.key) && quote == "\""
    requires Blank(pre) && Blank(gap) && gap != "" && IsUnit(unit) && ':' !in comment
    ensures RaiseLimit(Written(pre, rule.key, gap + quote, Decimal(n) + unit, quote + comment), factor)
         == Some(Written(pre, rule.key, gap + quote, FormatMemory(Times(n * Scale(unit), factor)), quote + comment))
  {
    var put := FormatMemory(Times(n * Scale(unit), factor));
    ValueIsPlain(Decimal(n), unit);
    AmountWritten(pre, gap, quote, n, unit, quote + comment, rule.key);
    QuotedSub(rule, pre, gap, Decimal(n) + unit, comment, quote, put);
    RaisedIs(Written(pre, rule.key, gap + quote, Decimal(n) + unit, quote + comment), factor, n * Scale(unit));
  }

  lemma BareIsRaised(
    rule: Rule, pre: string, gap: string, n: nat, unit: string, comment: string, factor: Factor)
    requires rule == BARE && IsKey(rule.key) && '"' !in rule.key
    requires Blank(pre) && Blank(gap) && gap != "" && IsUnit(unit)
    requires ':' !in comment && '"' !in comment && (comment == "" || IsSpace(comment[0]))
    ensures RaiseLimit(Written(pre, rule.key, gap, Decimal(n) + unit, comment), factor)
         == Some(Written(pre, rule.key, gap, FormatMemory(Times(n * Scale(unit), factor)), comment))
  {
    var put := FormatMemory(Times(n * Scale(unit), factor));
    assert gap + "" == gap;
    ValueIsPlain(Decimal(n), unit);
    AmountWritten(pre, gap, "", n, unit, comment, rule.key);
    BareSub(rule, pre, gap, Decimal(n) + unit, comment, put);
    RaisedIs(Written(pre, rule.key, gap, Decimal(n) + unit, comment), factor, n * Scale(unit));
  }

  /** A limit in single quotes loses them: the substitution takes the quotes for a part of the
      value. */
  lemma SingleQuotedIsRaised(pre: string, gap: string, n: nat, unit: string, comment: string, factor: Factor)
    requires Blank(pre) && Blank(gap) && gap != "" && IsUnit(unit)
    requires ':' !in comment && '"' !in comment && (comment == "" || IsSpace(comment[0]))
    ensures RaiseLimit(Written(pre, "memory:", gap, "'" + (Decimal(n) + unit) + "'", comment), factor)
         == Some(Written(pre, "memory:", gap, FormatMemory(Times(n * Scale(unit), factor)), comment))
  {
    MemoryIsKey();
    TickedIsRaised(BARE, pre, gap, n, unit, comment, "'", factor);
  }

  lemma TickedIsRaised(
    rule: Rule, pre: string, gap: string, n: nat, unit: string, comment: string, tick: string, factor: Factor)
    requires rule == BARE && IsKey(rule.key) && '"' !in rule.key && tick == "'"
    requires Blank(pre) && Blank(gap) && gap != "" && IsUnit(unit)
    requires ':' !in comment && '"' !in comment && (comment == "" || IsSpace(comment[0]))
    ensures RaiseLimit(Written(pre, rule.key, gap, tick + (Decimal(n) + unit) + tick, comment), factor)
         == Some(Written(pre, rule.key, gap, FormatMemory(Times(n * Scale(unit), factor)), comment))
  {
    var put, value := FormatMemory(Times(n * Scale(unit), factor)), Decimal(n) + unit;
    ValueIsPlain(Decimal(n), unit);
    TickedIsPlain(value, tick);
    AmountWritten(pre, gap, tick, n, unit, tick + comment, rule.key);
    Retick(pre, rule.key, gap, value, comment, tick);
    BareSub(rule, pre, gap, tick + value + tick, comment, put);
    RaisedIs(Written(pre, rule.key, gap, tick + value + tick, comment), factor, n * Scale(unit));
  }

  lemma TickedIsPlain(value: string, tick: string)
    requires tick == "'" && '"' !in value && forall i :: 0 <= i < |value| ==> !IsSpace(value[i])
    ensures var ticked := tick + value + tick;
      '"' !in ticked && ticked != "" && forall i :: 0 <= i < |ticked| ==> !IsSpace(ticked[i])
  {
  }

  lemma Retick(pre: string, key: string, gap: string, value: string, comment: string, tick: string)
    ensures Written(pre, key, gap + tick, value, tick + comment) == Written(pre, key, gap, tick + value + tick, comment)
  {
    assert gap + tick + (value + (tick + comment)) == gap + (tick + value + tick + comment);
  }

  /** A limit with a fraction makes the patch fail. */
  lemma WrittenFractionFails(
    pre: string, gap: string, quote: string, digits: string, fraction: string, unit: string, post: string,
    factor: Factor)
    requires Blank(pre) && Blank(gap) && IsUnit(unit) && (quote == "" || quote == "\"" || quote == "'")
    requires digits != "" && AllDigits(digits) && fraction != "" && AllDigits(fraction)
    requires post == "" || Ends(post[0])
    ensures RaiseLimit(Written(pre, "memory:", gap + quote, digits + "." + fraction + unit, post), factor) == None
  {
    MemoryIsKey();
    FractionFound("memory:", pre, gap, quote, digits, fraction, ".", unit, post);
    FailsOnFraction(Written(pre, "memory:", gap + quote, digits + "." + fraction + unit, post), factor);
  }

  lemma FractionFound(
    key: string, pre: string, gap: string, quote: string, digits: string, fraction: string, dot: string,
    unit: string, post: string)
    requires IsKey(key) && Blank(pre) && Blank(gap) && IsUnit(unit) && dot == "."
    requires quote == "" || quote == "\"" || quote == "'"
    requires digits != "" && AllDigits(digits) && fraction != "" && AllDigits(fraction)
    requires post == "" || Ends(post[0])
    ensures var found := Search(key, Written(pre, key, gap + quote, digits + dot + fraction + unit, post));
      found == Some(digits + dot + fraction + unit) && '.' in found.value
  {
    var value := digits + dot + fraction + unit;
    var s := key + (gap + quote + (value + post));
    assert value == digits + dot + (fraction + unit);
    FractionStarts(digits, dot, fraction + unit, value);
    FractionCaptured(key, gap, quote, value, digits, fraction, dot, unit, post, s);
    SkipsBlank(Rule(key, Bare), pre, s, "");
    FirstCaptured(key, s);
  }

  lemma FractionStarts(digits: string, dot: string, rest: string, value: string)
    requires digits != "" && dot == "." && value == digits + dot + rest
    ensures value[0] == digits[0] && value[|digits|] == '.' && '.' in value
  {
  }

  lemma FractionCaptured(
    key: string, gap: string, quote: string, value: string, digits: string, fraction: string, dot: string,
    unit: string, post: string, s: string)
    requires IsKey(key) && Blank(gap) && IsUnit(unit) && dot == "." && value == digits + dot + fraction + unit
    requires quote == "" || quote == "\"" || quote == "'"
    requires digits != "" && AllDigits(digits) && fraction != "" && AllDigits(fraction)
    requires post == "" || Ends(post[0])
    requires s == key + (gap + quote + (value + post))
    ensures s != "" && CaptureHere(key, s) == Some(value)
  {
    var j := |key| + |gap + quote|;
    assert value[0] == digits[0];
    LeadSkipped(key, gap, quote, value, post, s);
    FractionOf(s, j, value, digits, fraction, dot, unit);
    CaptureIs(key, s, j, value);
  }

  lemma FractionOf(
    s: string, j: nat, value: string, digits: string, fraction: string, dot: string, unit: string)
    requires digits != "" && AllDigits(digits) && fraction != "" && AllDigits(fraction) && IsUnit(unit) && dot == "."
    requires value == digits + dot + fraction + unit && StandsAt(s, j, value)
    requires var e := j + |value|; e == |s| || Ends(s[e])
    ensures Quantity(s, j) == Some(value)
  {
    FractionAt(s, j, digits, fraction, dot, unit);
  }

  lemma FractionAt(s: string, j: nat, digits: string, fraction: string, dot: string, unit: string)
    requires digits != "" && AllDigits(digits) && fraction != "" && AllDigits(fraction) && IsUnit(unit) && dot == "."
    requires StandsAt(s, j, digits + dot + fraction + unit)
    requires var e := j + |digits + dot + fraction + unit|; e == |s| || Ends(s[e])
    ensures Quantity(s, j) == Some(digits + dot + fraction + unit)
  {
    var value, d := digits + dot + fraction + unit, j + |digits|;
    var e := d + 1 + |fraction|;
    UnitLetters(unit);
    forall i | j <= i < d ensures s[i] == digits[i - j] && IsDigit(s[i]) {
      assert s[i] == value[i - j];
    }
    assert s[d] == value[|digits|] == dot[0] == '.';
    forall i | d < i < e ensures s[i] == fraction[i - d - 1] && IsDigit(s[i]) {
      assert s[i] == value[i - j];
    }
    assert s[e] == value[e - j] == unit[0];
    assert |unit| == 2 ==> s[e + 1] == value[e + 1 - j] == unit[1];
    RunIs(Digit, s, j, d);
    RunIs(Digit, s, d + 1, e);
    assert AfterFraction(s, d) == e;
    assert Unit(s, e) == unit;
    forall i | j <= i < e ensures s[i] == (digits + dot + fraction)[i - j] {
      assert s[i] == value[i - j];
    }
    assert s[j..e] == digits + dot + fraction;
  }

  lemma HasQuote(pre: string, key: string, lead: string, value: string, post: string)
    requires '"' in lead
    ensures '"' in Written(pre, key, lead, value, post)
  {
  }

  lemma RaisedIs(line: string, factor: Factor, mi: nat)
    requires AmountOf(line) == Some(mi)
    ensures RaiseLimit(line, factor)
         == Some(Sub(if '"' in line then QUOTED else BARE, line, FormatMemory(Times(mi, factor))))
  {
  }

  lemma ValueIsPlain(digits: string, unit: string)
    requires digits != "" && AllDigits(digits) && IsUnit(unit)
    ensures digits + unit != "" && '"' !in digits + unit && ':' !in digits + unit
    ensures forall i :: 0 <= i < |digits + unit| ==> !IsSpace((digits + unit)[i])
  {
    UnitLetters(unit);
  }

  /** A delay as manifests write it. */
  lemma WrittenDelayIsRaised(pre: string, gap: string, n: nat, post: string, seconds: nat)
    requires Blank(pre) && Blank(gap) && ':' !in post && (post == "" || !IsDigit(post[0]))
    ensures RaiseDelay(Written(pre, "initialDelaySeconds:", gap, Decimal(n), post), seconds)
         == Written(pre, "initialDelaySeconds:", gap, Decimal(n + seconds), post)
  {
    DelayIsKey();
    NumberIsRaised(DELAY, pre, gap, n, post, seconds);
  }

  lemma NumberIsRaised(rule: Rule, pre: string, gap: string, n: nat, post: string, seconds: nat)
    requires rule.style.Number? && IsKey(rule.key)
    requires Blank(pre) && Blank(gap) && ':' !in post && (post == "" || !IsDigit(post[0]))
    ensures AddTo(rule, Written(pre, rule.key, gap, Decimal(n), post), seconds)
         == Written(pre, rule.key, gap, Decimal(n + seconds), post)
  {
    NumberSub(rule, pre, gap, Decimal(n), post, Decimal(n + seconds));
    AddToIs(rule, Written(pre, rule.key, gap, Decimal(n), post), n, seconds);
  }

  lemma NumberSub(rule: Rule, pre: string, gap: string, value: string, post: string, put: string)
    requires rule.style.Number? && IsKey(rule.key) && value != "" && AllDigits(value)
    requires Blank(pre) && Blank(gap) && ':' !in post && (post == "" || !IsDigit(post[0]))
    ensures Sub(rule, Written(pre, rule.key, gap, value, post), put) == Written(pre, rule.key, gap, put, post)
    ensures FirstValue(rule, Written(pre, rule.key, gap, value, post)) == Some(value)
  {
    SiteOfNumber(rule.key, gap, value, post);
    WrittenIsReplaced(rule, pre, gap, value, post, put);
    WrittenIsFirst(rule, pre, gap, value, post);
  }

  lemma AddToIs(rule: Rule, line: string, n: nat, seconds: nat)
    requires rule.style.Number? && FirstValue(rule, line) == Some(Decimal(n))
    ensures AddTo(rule, line, seconds) == Sub(rule, line, Decimal(n + seconds))
  {
    ParsePrinted(n);
  }
}
