/** The regular expressions that agents/sre/bug_library.py applies to one line of YAML:
    `re.search` for a quantity and `re.sub` of the value after a key. None of the
    expressions needs backtracking, so each is a left-to-right reading of the text.
    `\d` is an ASCII digit here. */
module LineRewrite {
  import opened Text

  datatype Class = Space | NonSpace | NonQuote | Digit

  predicate In(c: Class, x: char) {
    match c
    case Space => IsSpace(x)
    case NonSpace => !IsSpace(x)
    case NonQuote => x != '"'
    case Digit => IsDigit(x)
  }

  /** Where the longest run of the class that starts at `i` ends. */
  function Run(c: Class, s: string, i: nat): (end: nat)
    requires i <= |s|
    ensures i <= end <= |s|
    ensures forall k :: i <= k < end ==> In(c, s[k])
    ensures end < |s| ==> !In(c, s[end])
    decreases |s| - i
  {
    if i < |s| && In(c, s[i]) then Run(c, s, i + 1) else i
  }

  lemma RunIs(c: Class, s: string, i: nat, end: nat)
    requires i <= end <= |s|
    requires forall k :: i <= k < end ==> In(c, s[k])
    requires end < |s| ==> !In(c, s[end])
    ensures Run(c, s, i) == end
  {
  }

  // ---------- Substitution ----------

  /** The three substitutions: `(memory:\s+")[^"]+(")`, `(memory:\s+)\S+` and
      `(initialDelaySeconds:\s*)\d+`. */
  datatype Rule = Rule(key: string, style: Style)
  datatype Style = Quoted | Bare | Number

  const QUOTED := Rule("memory:", Quoted)
  const BARE := Rule("memory:", Bare)
  const DELAY := Rule("initialDelaySeconds:", Number)

  /** What the proofs use of a key: it is a word that ends at its only colon. */
  predicate IsKey(key: string) {
    && |key| > 1
    && 'a' <= key[0] <= 'z'
    && key[|key| - 1] == ':'
    && (forall i :: 0 <= i < |key| ==> !IsSpace(key[i]))
    && (forall i :: 0 <= i < |key| - 1 ==> key[i] != ':')
  }

  /** `s.split(":")[0]` of a text that starts with a key, and its first letter. */
  lemma BeforeKey(s: string, key: string)
    requires IsKey(key) && StartsWith(s, key)
    ensures ':' in s && Before(s, ':') == key[..|key| - 1]
    ensures s != "" && s[0] == key[0]
  {
    assert forall i :: 0 <= i < |key| ==> s[i] == key[i];
    FindIs(s, ':', |key| - 1);
    assert s[..|key| - 1] == key[..|key| - 1];
  }

  /** The rules of the program have such keys. */
  predicate Known(rule: Rule) {
    rule == QUOTED || rule == BARE || rule == DELAY
  }

  lemma KnownKeys(rule: Rule)
    requires Known(rule)
    ensures IsKey(rule.key)
  {
    if rule == DELAY {
      DelayIsKey();
    } else {
      MemoryIsKey();
    }
  }

  lemma MemoryIsKey()
    ensures IsKey("memory:")
  {
  }

  lemma DelayIsKey()
    ensures IsKey("initialDelaySeconds:")
  {
  }

  datatype Span = Span(start: nat, end: nat)

  /** The part of `s` that is replaced when the rule matches at its very start. */
  function Site(rule: Rule, s: string): (r: Option<Span>)
    ensures r.Some? ==> StartsWith(s, rule.key) && |rule.key| <= r.value.start < r.value.end <= |s|
  {
    if !StartsWith(s, rule.key) then None else
      var word := |rule.key|;
      var i := Run(Space, s, word);
      match rule.style
      case Quoted =>
        if i > word && i < |s| && s[i] == '"' then
          var end := Run(NonQuote, s, i + 1);
          if i + 1 < end < |s| then Some(Span(i + 1, end)) else None
        else None
      case Bare =>
        if i > word && i < |s| then Some(Span(i, Run(NonSpace, s, i))) else None
      case Number =>
        var end := Run(Digit, s, i);
        if i < end then Some(Span(i, end)) else None
  }

  /** `re.sub`: every match, from the left, gets the new value. No match can start at
      the closing quote, so going on from it is going on behind it. */
  function Sub(rule: Rule, s: string, value: string): (r: string)
    ensures s == "" ==> r == ""
    ensures s != "" && rule.key != "" ==> r != "" && r[0] == s[0]
    decreases |s|
  {
    if s == "" then "" else
      match Site(rule, s)
      case None => [s[0]] + Sub(rule, s[1..], value)
      case Some(at) => s[..at.start] + value + Sub(rule, s[at.end..], value)
  }

  /** The rule matches somewhere. */
  predicate HasSite(rule: Rule, s: string)
    decreases |s|
  {
    s != "" && (Site(rule, s).Some? || HasSite(rule, s[1..]))
  }

  lemma {:induction false} SiteLater(rule: Rule, s: string, n: nat)
    requires n < |s| && Site(rule, s[n..]).Some?
    ensures HasSite(rule, s)
    decreases n
  {
    if n == 0 {
      assert s[0..] == s;
    } else {
      assert s[1..][n - 1..] == s[n..];
      SiteLater(rule, s[1..], n - 1);
    }
  }

  lemma SubHere(rule: Rule, s: string, value: string, at: Span)
    requires s != "" && Site(rule, s) == Some(at)
    ensures Sub(rule, s, value) == s[..at.start] + value + Sub(rule, s[at.end..], value)
  {
  }

  lemma SubThere(rule: Rule, s: string, value: string)
    requires s != "" && Site(rule, s).None?
    ensures Sub(rule, s, value) == [s[0]] + Sub(rule, s[1..], value)
  {
  }

  /** Without a match nothing changes. */
  lemma {:induction false} SubNoSite(rule: Rule, s: string, value: string)
    requires !HasSite(rule, s)
    ensures Sub(rule, s, value) == s
    decreases |s|
  {
    if s != "" {
      SubThere(rule, s, value);
      SubNoSite(rule, s[1..], value);
    }
  }

  /** The first `p` characters are the same; recursive, which is easier on the verifier
      than a quantifier here. */
  predicate Agrees(s: string, t: string, p: nat) {
    p == 0 || (p <= |s| && p <= |t| && t[p - 1] == s[p - 1] && Agrees(s, t, p - 1))
  }

  lemma {:induction false} AgreesAt(s: string, t: string, p: nat)
    ensures Agrees(s, t, p) <==> p <= |s| && p <= |t| && forall k :: 0 <= k < p ==> t[k] == s[k]
  {
    if p > 0 {
      AgreesAt(s, t, p - 1);
    }
  }

  lemma {:induction false} AgreesShifts(head: char, s: string, t: string, p: nat)
    requires Agrees(s, t, p)
    ensures Agrees([head] + s, [head] + t, p + 1)
  {
    if p > 0 {
      AgreesShifts(head, s, t, p - 1);
    }
  }

  predicate NoColon(s: string, i: nat, n: nat) {
    n == 0 || (i + n <= |s| && s[i + n - 1] != ':' && NoColon(s, i, n - 1))
  }

  lemma {:induction false} NoColonAt(s: string, i: nat, n: nat, k: nat)
    requires NoColon(s, i, n) && i <= k < i + n
    ensures k < |s| && s[k] != ':'
  {
    if k < i + n - 1 {
      NoColonAt(s, i, n - 1, k);
    }
  }

  lemma {:induction false} NoColonInKey(s: string, n: nat)
    requires n <= |s| && forall k :: 0 <= k < n ==> s[k] != ':'
    ensures NoColon(s, 0, n)
  {
    if n > 0 {
      NoColonInKey(s, n - 1);
    }
  }

  lemma {:induction false} NoColonShifts(head: char, s: string, i: nat, n: nat)
    requires NoColon(s, i, n)
    ensures NoColon([head] + s, i + 1, n)
  {
    if n > 0 {
      NoColonShifts(head, s, i, n - 1);
    }
  }

  /** The two lines agree up to the value at `p` of the first match, which starts at `f`. */
  predicate SplitAt(rule: Rule, s: string, t: string, f: nat, p: nat) {
    && rule.key != "" && f + |rule.key| <= p <= |s|
    && Agrees(s, t, p)
    && s[f] == rule.key[0] && NoColon(s, f, |rule.key| - 1)
    && (rule.style.Quoted? ==> s[p - 1] == '"')
  }

  /** Nothing changes before the value at the first match. */
  lemma {:induction false} SubSplit(rule: Rule, s: string, value: string) returns (f: nat, p: nat)
    requires IsKey(rule.key) && HasSite(rule, s)
    ensures SplitAt(rule, s, Sub(rule, s, value), f, p)
    ensures Site(rule, s).None? ==> f > 0
    decreases |s|
  {
    match Site(rule, s)
    case Some(at) =>
      f, p := 0, at.start;
      SplitFound(rule, s, value, at);
    case None =>
      var f', p' := SubSplit(rule, s[1..], value);
      SplitLater(rule, s, value, f', p');
      f, p := f' + 1, p' + 1;
  }

  lemma SplitFound(rule: Rule, s: string, value: string, at: Span)
    requires IsKey(rule.key) && Site(rule, s) == Some(at)
    ensures SplitAt(rule, s, Sub(rule, s, value), 0, at.start)
  {
    SubHere(rule, s, value, at);
    OpeningQuote(rule, s);
    SplitHere(rule, s, Sub(rule, s[at.end..], value), value, at.start);
  }

  lemma SplitLater(rule: Rule, s: string, value: string, f: nat, p: nat)
    requires s != "" && Site(rule, s).None?
    requires SplitAt(rule, s[1..], Sub(rule, s[1..], value), f, p)
    ensures SplitAt(rule, s, Sub(rule, s, value), f + 1, p + 1)
  {
    SubThere(rule, s, value);
    SplitShifts(rule, s, s[1..], Sub(rule, s[1..], value), f, p);
  }

  lemma SplitHere(rule: Rule, s: string, rest: string, value: string, p: nat)
    requires IsKey(rule.key) && StartsWith(s, rule.key) && |rule.key| <= p <= |s|
    requires rule.style.Quoted? ==> s[p - 1] == '"'
    ensures SplitAt(rule, s, s[..p] + value + rest, 0, p)
  {
    AgreesAt(s, s[..p] + value + rest, p);
    assert forall k :: 0 <= k < |rule.key| ==> s[k] == rule.key[k];
    NoColonInKey(s, |rule.key| - 1);
  }

  lemma SplitShifts(rule: Rule, s: string, tail: string, t: string, f: nat, p: nat)
    requires s != "" && tail == s[1..] && SplitAt(rule, tail, t, f, p)
    ensures SplitAt(rule, s, [s[0]] + t, f + 1, p + 1)
  {
    assert s == [s[0]] + tail;
    AgreesShifts(s[0], tail, t, p);
    NoColonShifts(s[0], tail, f, |rule.key| - 1);
  }

  lemma OpeningQuote(rule: Rule, s: string)
    requires Site(rule, s).Some?
    ensures rule.style.Quoted? ==> Site(rule, s).value.start > 0 && s[Site(rule, s).value.start - 1] == '"'
  {
  }

  /** The new values: digits, and for memory a unit. */
  predicate Fits(rule: Rule, value: string) {
    && value != ""
    && forall i :: 0 <= i < |value| ==> IsDigit(value[i]) || (!rule.style.Number? && value[i] in "MGi")
  }

  /** A replaced value is found again, in full, by the same rule. */
  lemma SiteKept(rule: Rule, s: string, value: string, rest: string)
    requires IsKey(rule.key)
    requires Site(rule, s).Some? && Fits(rule, value)
    requires var at := Site(rule, s).value; at.end == |s| <==> rest == ""
    requires var at := Site(rule, s).value; rest != "" ==> rest[0] == s[at.end]
    ensures var at := Site(rule, s).value;
            Site(rule, s[..at.start] + value + rest) == Some(Span(at.start, at.start + |value|))
  {
    var at := Site(rule, s).value;
    var t := s[..at.start] + value + rest;
    var end := at.start + |value|;
    assert end < |t| ==> t[end] == rest[0];
    SameSite(rule, s, t, at, end);
  }

  /** Where the replaced part ends is where its class of characters ends. */
  lemma SameSite(rule: Rule, s: string, t: string, at: Span, end: nat)
    requires IsKey(rule.key) && Site(rule, s) == Some(at)
    requires at.start < end <= |t| && (at.end == |s| <==> end == |t|)
    requires forall k :: 0 <= k < at.start ==> t[k] == s[k]
    requires end < |t| ==> t[end] == s[at.end]
    requires forall k :: at.start <= k < end ==> IsDigit(t[k]) || (!rule.style.Number? && t[k] in "MGi")
    ensures Site(rule, t) == Some(Span(at.start, end))
  {
    var word := |rule.key|;
    assert StartsWith(t, rule.key) by { assert t[..word] == s[..word]; }
    RunIs(Space, t, word, Run(Space, s, word));
    match rule.style
    case Quoted => RunIs(NonQuote, t, at.start, end);
    case Bare => RunIs(NonSpace, t, at.start, end);
    case Number => RunIs(Digit, t, at.start, end);
  }

  /** Two occurrences of a key never overlap, because a key ends at its only colon. */
  lemma KeysApart(key: string, s: string, n: nat)
    requires IsKey(key) && 0 < n && n + |key| <= |s|
    requires StartsWith(s, key) && NoColon(s, n, |key| - 1)
    ensures |key| <= n
  {
    assert s[|key| - 1] == key[|key| - 1];
    if n < |key| {
      NoColonAt(s, n, |key| - 1, |key| - 1);
    }
  }

  /** Where the rule does not match, replacing a later match makes none. */
  lemma NoSiteKept(rule: Rule, s: string, t: string, n: nat, p: nat)
    requires IsKey(rule.key) && n > 0 && Site(rule, s).None?
    requires SplitAt(rule, s, t, n, p)
    ensures Site(rule, t).None?
  {
    AgreesAt(s, t, p);
    if StartsWith(t, rule.key) {
      assert s[..|rule.key|] == t[..|rule.key|];
      KeysApart(rule.key, s, n);
      SameNoSite(rule, s, t, n, p);
    }
  }

  lemma SameNoSite(rule: Rule, s: string, t: string, n: nat, p: nat)
    requires IsKey(rule.key) && Site(rule, s).None? && StartsWith(s, rule.key) && StartsWith(t, rule.key)
    requires |rule.key| <= n && SplitAt(rule, s, t, n, p)
    ensures Site(rule, t).None?
  {
    AgreesAt(s, t, p);
    var word := |rule.key|;
    var i := Run(Space, s, word);
    assert s[n] == rule.key[0];
    assert i <= n;
    RunIs(Space, t, word, i);
    if rule.style.Quoted? && word < i < n && s[i] == '"' {
      assert Run(NonQuote, s, i + 1) < |s|;
      RunIs(NonQuote, t, i + 1, i + 1);
    }
  }

  lemma HeadKept(rule: Rule, s: string, value: string)
    requires IsKey(rule.key) && s != "" && Site(rule, s).None?
    ensures Site(rule, [s[0]] + Sub(rule, s[1..], value)).None?
  {
    SubThere(rule, s, value);
    if HasSite(rule, s) {
      var f, p := SubSplit(rule, s, value);
      NoSiteKept(rule, s, Sub(rule, s, value), f, p);
    } else {
      SubNoSite(rule, s, value);
    }
  }

  /** A second substitution by the same rule overrides the first. */
  lemma {:induction false} SubTwice(rule: Rule, s: string, first: string, second: string)
    requires IsKey(rule.key)
    requires Fits(rule, first)
    ensures Sub(rule, Sub(rule, s, first), second) == Sub(rule, s, second)
    decreases |s|
  {
    if s == "" {
    } else if Site(rule, s).None? {
      HeadKept(rule, s, first);
      SubTwice(rule, s[1..], first, second);
      assert Sub(rule, s, first)[1..] == Sub(rule, s[1..], first);
    } else {
      var at := Site(rule, s).value;
      ValueKept(rule, s, first, at);
      SubTwice(rule, s[at.end..], first, second);
    }
  }

  lemma Parts(before: string, value: string, rest: string)
    ensures var t, n := before + value + rest, |before| + |value|;
            t[..|before|] == before && t[|before|..n] == value && t[n..] == rest
  {
  }

  lemma ValueKept(rule: Rule, s: string, value: string, at: Span)
    requires IsKey(rule.key) && Fits(rule, value) && Site(rule, s) == Some(at)
    ensures var t, n := Sub(rule, s, value), at.start + |value|;
            && Site(rule, t) == Some(Span(at.start, n))
            && t[..at.start] == s[..at.start] && t[at.start..n] == value && t[n..] == Sub(rule, s[at.end..], value)
  {
    var rest := SubRest(rule, s, value, at);
    ValueStands(rule, s, value, at, rest, Sub(rule, s, value));
  }

  lemma ValueStands(rule: Rule, s: string, value: string, at: Span, rest: string, t: string)
    requires IsKey(rule.key) && Fits(rule, value) && Site(rule, s) == Some(at)
    requires t == s[..at.start] + value + rest
    requires (at.end == |s| <==> rest == "") && (rest != "" ==> rest[0] == s[at.end])
    ensures var n := at.start + |value|;
            && Site(rule, t) == Some(Span(at.start, n))
            && t[..at.start] == s[..at.start] && t[at.start..n] == value && t[n..] == rest
  {
    SiteKept(rule, s, value, rest);
    Parts(s[..at.start], value, rest);
  }

  lemma SubRest(rule: Rule, s: string, value: string, at: Span) returns (rest: string)
    requires IsKey(rule.key) && Site(rule, s) == Some(at)
    ensures rest == Sub(rule, s[at.end..], value) && Sub(rule, s, value) == s[..at.start] + value + rest
    ensures at.end == |s| <==> rest == ""
    ensures rest != "" ==> rest[0] == s[at.end]
  {
    rest := Sub(rule, s[at.end..], value);
    SubHere(rule, s, value, at);
    assert at.end < |s| ==> s[at.end..][0] == s[at.end];
  }

  /** Different values give different lines, unless nothing matches. */
  lemma {:induction false} SubInjective(rule: Rule, s: string, first: string, second: string)
    requires IsKey(rule.key) && Fits(rule, first) && Fits(rule, second)
    requires HasSite(rule, s) && Sub(rule, s, first) == Sub(rule, s, second)
    ensures first == second
    decreases |s|
  {
    if Site(rule, s).None? {
      assert Sub(rule, s, first)[1..] == Sub(rule, s[1..], first);
      assert Sub(rule, s, second)[1..] == Sub(rule, s[1..], second);
      SubInjective(rule, s[1..], first, second);
    } else {
      var at := Site(rule, s).value;
      var t := Sub(rule, s, first);
      ValueKept(rule, s, first, at);
      ValueKept(rule, s, second, at);
    }
  }

  /** The line still starts with its key, behind the same indentation. */
  lemma KeyKept(rule: Rule, s: string, value: string)
    requires IsKey(rule.key) && Indented(s, rule.key)
    ensures Indented(Sub(rule, s, value), rule.key)
  {
    if HasSite(rule, s) {
      var n: nat :| IndentIs(s, rule.key, n);
      var f, p := SubSplit(rule, s, value);
      IndentStays(rule, s, Sub(rule, s, value), n, f, p);
    } else {
      SubNoSite(rule, s, value);
    }
  }

  lemma IndentStays(rule: Rule, s: string, t: string, n: nat, f: nat, p: nat)
    requires IsKey(rule.key) && IndentIs(s, rule.key, n) && SplitAt(rule, s, t, f, p)
    ensures IndentIs(t, rule.key, n)
  {
    AgreesAt(s, t, p);
    assert n <= f;
  }

  /** The text that the first match would replace: what `re.search` with the same
      expression captures. */
  function FirstValue(rule: Rule, s: string): (r: Option<string>)
    ensures rule.style.Number? && r.Some? ==> AllDigits(r.value)
    decreases |s|
  {
    if s == "" then None else
      match Site(rule, s)
      case Some(at) => Some(s[at.start..at.end])
      case None => FirstValue(rule, s[1..])
  }

  /** After a substitution the first match holds the new value. */
  lemma {:induction false} FirstValueAfter(rule: Rule, s: string, value: string)
    requires IsKey(rule.key) && Fits(rule, value)
    ensures FirstValue(rule, Sub(rule, s, value))
         == if FirstValue(rule, s).None? then None else Some(value)
    decreases |s|
  {
    var t := Sub(rule, s, value);
    if s == "" {
    } else if Site(rule, s).None? {
      HeadKept(rule, s, value);
      FirstValueAfter(rule, s[1..], value);
      assert t[1..] == Sub(rule, s[1..], value);
    } else {
      var at := Site(rule, s).value;
      ValueKept(rule, s, value, at);
    }
  }

  /** A substitution brings in no character that neither the line nor the value has. */
  lemma {:induction false} SubKeepsOut(rule: Rule, s: string, value: string, c: char)
    requires c !in s && c !in value
    ensures c !in Sub(rule, s, value)
    decreases |s|
  {
    if s == "" {
    } else if Site(rule, s).None? {
      SubKeepsOut(rule, s[1..], value, c);
    } else {
      var at := Site(rule, s).value;
      assert c !in s[..at.start] && c !in s[at.end..];
      SubKeepsOut(rule, s[at.end..], value, c);
    }
  }

  /** A quoted value keeps its quotes. */
  lemma QuotesKept(rule: Rule, s: string, value: string)
    requires IsKey(rule.key) && rule.style.Quoted? && '"' in s
    ensures '"' in Sub(rule, s, value)
  {
    if HasSite(rule, s) {
      var f, p := SubSplit(rule, s, value);
    } else {
      SubNoSite(rule, s, value);
    }
  }
}
