/** Memory quantities: finding one in a line, reading it as MiB, printing it, and what
    the line says after a new one was put in. */
module MemoryQuantity {
  import opened Text
  import opened LineRewrite

  // ---------- Reading and printing ----------

  /** `int(text)`; `None` stands for the `ValueError` that anything but digits raises. */
  function Int(text: string): Option<nat> {
    if text != "" && AllDigits(text) then Some(ParseDecimal(text)) else None
  }

  function Scaled(n: Option<nat>, factor: nat): Option<nat> {
    match n
    case None => None
    case Some(value) => Some(value * factor)
  }

  predicate EndsWith(s: string, suffix: string) {
    |suffix| <= |s| && forall k :: 0 <= k < |suffix| ==> s[|s| - |suffix| + k] == suffix[k]
  }

  /** MiB of a quantity. The texts that the search captures hold neither spaces nor
      quotes, so the stripping that the program does first changes nothing. */
  function ParseMemory(value: string): Option<nat> {
    if EndsWith(value, "Gi") then Scaled(Int(value[..|value| - 2]), 1024)
    else if EndsWith(value, "Mi") then Int(value[..|value| - 2])
    else if EndsWith(value, "G") then Scaled(Int(value[..|value| - 1]), 1024)
    else if EndsWith(value, "M") then Int(value[..|value| - 1])
    else Int(value)
  }

  function FormatMemory(mi: nat): string {
    if mi % 1024 == 0 then Decimal(mi / 1024) + "Gi" else Decimal(mi) + "Mi"
  }

  /** Printing an amount and reading it back loses nothing, for every number of MiB. */
  lemma ParseFormatted(mi: nat)
    ensures ParseMemory(FormatMemory(mi)) == Some(mi)
  {
    var n := if mi % 1024 == 0 then mi / 1024 else mi;
    var unit := if mi % 1024 == 0 then "Gi" else "Mi";
    var v := FormatMemory(mi);
    assert v == Decimal(n) + unit;
    assert v[..|v| - 2] == Decimal(n);
    assert v[|v| - 2] == unit[0] && v[|v| - 1] == unit[1];
    assert "Gi"[0] == 'G';
    assert EndsWith(v, unit);
    ParsePrinted(n);
  }

  lemma FormatFits(rule: Rule, mi: nat)
    requires !rule.style.Number?
    ensures Fits(rule, FormatMemory(mi))
  {
  }

  // ---------- Searching a line ----------

  /** The unit that stands at `i`: `(?:Mi|Gi|G|M)`. */
  function Unit(s: string, i: nat): string
    requires i <= |s|
  {
    if i < |s| && (s[i] == 'M' || s[i] == 'G') then
      if i + 1 < |s| && s[i + 1] == 'i' then [s[i], 'i'] else [s[i]]
    else ""
  }

  /** Behind the fraction that may stand at `d`: `(?:\.\d+)?`. */
  function AfterFraction(s: string, d: nat): (e: nat)
    requires d <= |s|
    ensures d <= e <= |s|
  {
    if d < |s| && s[d] == '.' && Run(Digit, s, d + 1) > d + 1 then Run(Digit, s, d + 1) else d
  }

  /** The quantity that starts at `j`, with the digits, the fraction and the unit. */
  function Quantity(s: string, j: nat): Option<string>
    requires j <= |s|
  {
    var d := Run(Digit, s, j);
    var e := AfterFraction(s, d);
    if d == j || Unit(s, e) == "" then None else Some(s[j..e] + Unit(s, e))
  }

  function AfterQuote(s: string, i: nat): (j: nat)
    requires i <= |s|
    ensures i <= j <= |s|
  {
    if i < |s| && (s[i] == '"' || s[i] == '\'') then i + 1 else i
  }

  /** What follows a key that ends at `word`: `\s*["']?` and a quantity. */
  function Capture(s: string, word: nat): Option<string>
    requires word <= |s|
  {
    Quantity(s, AfterQuote(s, Run(Space, s, word)))
  }

  function CaptureHere(key: string, s: string): Option<string> {
    if StartsWith(s, key) then Capture(s, |key|) else None
  }

  /** `re.search`: the quantity of the first occurrence of the key that has one. */
  function Search(key: string, s: string): Option<string>
    decreases |s|
  {
    if s == "" then None
    else if CaptureHere(key, s).Some? then CaptureHere(key, s)
    else Search(key, s[1..])
  }

  // ---------- Which quantities parse ----------

  /** A quantity that was found parses exactly when it has no decimal point. */
  lemma {:induction false} FoundParses(key: string, s: string)
    requires Search(key, s).Some?
    ensures ParseMemory(Search(key, s).value).None? <==> '.' in Search(key, s).value
    decreases |s|
  {
    if CaptureHere(key, s).Some? {
      QuantityParses(s, AfterQuote(s, Run(Space, s, |key|)));
    } else {
      FoundParses(key, s[1..]);
    }
  }

  lemma QuantityParses(s: string, j: nat)
    requires j <= |s| && Quantity(s, j).Some?
    ensures ParseMemory(Quantity(s, j).value).None? <==> '.' in Quantity(s, j).value
  {
    var d := Run(Digit, s, j);
    var e := AfterFraction(s, d);
    var number, unit := s[j..e], Unit(s, e);
    assert forall k :: j <= k < d ==> number[k - j] == s[k];
    if e > d {
      assert number[d - j] == s[d] == '.';
      assert Int(number).None? && '.' in number;
    } else {
      assert forall k :: 0 <= k < |number| ==> number[k] == s[j + k];
      assert AllDigits(number) && '.' !in number;
    }
    UnitParses(number, unit);
  }

  lemma UnitParses(number: string, unit: string)
    requires unit == ['M', 'i'] || unit == ['G', 'i'] || unit == ['M'] || unit == ['G']
    ensures ParseMemory(number + unit).None? <==> Int(number).None?
  {
    var q, n := number + unit, |number|;
    assert q[n..] == unit && q[..n] == number;
    assert q[|q| - 1] == unit[|unit| - 1];
    assert "Gi"[0] == 'G' && "Gi"[1] == 'i' && "Mi"[0] == 'M' && "Mi"[1] == 'i' && "G"[0] == 'G' && "M"[0] == 'M';
    assert |unit| == 2 ==> q[|q| - 2] == unit[0];
  }

  // ---------- What is found after a substitution ----------

  lemma RunAgrees(c: Class, s: string, t: string, i: nat, n: nat)
    requires i <= n < |s| && n < |t| && !In(c, s[n])
    requires forall k :: 0 <= k <= n ==> t[k] == s[k]
    ensures Run(c, t, i) == Run(c, s, i) <= n
  {
    RunIs(c, t, i, Run(c, s, i));
  }

  predicate Alike(s: string, t: string, n: nat) {
    && n < |s| && n < |t|
    && 'a' <= s[n] <= 'z' && s[n] != 'i'
    && forall k :: 0 <= k <= n ==> t[k] == s[k]
  }

  /** The search never reads past the first letter of the next key. */
  lemma CaptureAgrees(s: string, t: string, word: nat, n: nat)
    requires word <= n && Alike(s, t, n)
    ensures Capture(t, word) == Capture(s, word)
  {
    RunAgrees(Space, s, t, word, n);
    var j := AfterQuote(s, Run(Space, s, word));
    QuantityAgrees(s, t, j, n);
  }

  lemma QuantityAgrees(s: string, t: string, j: nat, n: nat)
    requires j <= n && Alike(s, t, n)
    ensures Quantity(t, j) == Quantity(s, j)
  {
    RunAgrees(Digit, s, t, j, n);
    var d := Run(Digit, s, j);
    FractionAgrees(s, t, d, n);
    var e := AfterFraction(s, d);
    assert t[j..e] == s[j..e];
  }

  lemma FractionAgrees(s: string, t: string, d: nat, n: nat)
    requires d <= n && Alike(s, t, n)
    ensures AfterFraction(t, d) == AfterFraction(s, d) <= n
    ensures Unit(t, AfterFraction(s, d)) == Unit(s, AfterFraction(s, d))
  {
    if d < n {
      RunAgrees(Digit, s, t, d + 1, n);
    }
  }

  lemma CaptureKept(rule: Rule, s: string, value: string)
    requires IsKey(rule.key) && rule.key[0] != 'i'
    requires s != "" && Site(rule, s).None?
    ensures CaptureHere(rule.key, Sub(rule, s, value)) == CaptureHere(rule.key, s)
  {
    if HasSite(rule, s) {
      var f, p := SubSplit(rule, s, value);
      NextKey(rule, s, Sub(rule, s, value), f, p);
    } else {
      SubNoSite(rule, s, value);
    }
  }

  lemma NextKey(rule: Rule, s: string, t: string, f: nat, p: nat)
    requires IsKey(rule.key) && rule.key[0] != 'i' && f > 0
    requires SplitAt(rule, s, t, f, p)
    ensures CaptureHere(rule.key, t) == CaptureHere(rule.key, s)
  {
    AgreesAt(s, t, p);
    assert s[..|rule.key|] == t[..|rule.key|];
    if StartsWith(s, rule.key) {
      KeysApart(rule.key, s, f);
      assert s[f] == rule.key[0];
      CaptureAgrees(s, t, |rule.key|, f);
    }
  }

  /** At a place that was rewritten, the search captures exactly the new value. */
  lemma CaptureNew(rule: Rule, t: string, at: Span, mi: nat)
    requires !rule.style.Number? && Site(rule, t) == Some(at)
    requires t[at.start..at.end] == FormatMemory(mi)
    ensures CaptureHere(rule.key, t) == Some(FormatMemory(mi))
  {
    var n := if mi % 1024 == 0 then mi / 1024 else mi;
    var unit := if mi % 1024 == 0 then "Gi" else "Mi";
    var v := FormatMemory(mi);
    assert v == Decimal(n) + unit;
    var i := Run(Space, t, |rule.key|);
    assert IsDigit(v[0]);
    assert t[at.start] == t[at.start..at.end][0];
    assert AfterQuote(t, i) == at.start;
    QuantityIs(t, at.start, Decimal(n), unit);
  }

  lemma QuantityIs(t: string, j: nat, digits: string, unit: string)
    requires digits != "" && AllDigits(digits) && |unit| == 2 && unit[0] in "MG" && unit[1] == 'i'
    requires j + |digits| + 2 <= |t| && t[j..j + |digits| + 2] == digits + unit
    ensures Quantity(t, j) == Some(digits + unit)
  {
    var d := j + |digits|;
    assert forall k :: j <= k < d + 2 ==> t[k] == t[j..d + 2][k - j] == (digits + unit)[k - j];
    RunIs(Digit, t, j, d);
    assert AfterFraction(t, d) == d;
    assert Unit(t, d) == unit;
    assert t[j..d] == digits;
  }

  /** A place that the rule rewrites comes no later than the first quantity. */
  predicate SiteFirst(rule: Rule, s: string)
    decreases |s|
  {
    s != "" && (Site(rule, s).Some? || (CaptureHere(rule.key, s).None? && SiteFirst(rule, s[1..])))
  }

  /** After the substitution the line carries the new amount, or, when the quantity that
      was found is not one that the rule rewrites, still the old one. */
  lemma {:induction false} SearchAfter(rule: Rule, s: string, mi: nat)
    requires IsKey(rule.key) && rule.key[0] != 'i' && !rule.style.Number?
    ensures Search(rule.key, Sub(rule, s, FormatMemory(mi)))
         == if SiteFirst(rule, s) then Some(FormatMemory(mi)) else Search(rule.key, s)
    decreases |s|
  {
    var v := FormatMemory(mi);
    var t := Sub(rule, s, v);
    if s == "" {
    } else if Site(rule, s).None? {
      CaptureKept(rule, s, v);
      SearchAfter(rule, s[1..], mi);
      assert t[1..] == Sub(rule, s[1..], v);
    } else {
      var at := Site(rule, s).value;
      FormatFits(rule, mi);
      ValueKept(rule, s, v, at);
      CaptureNew(rule, t, Span(at.start, at.start + |v|), mi);
    }
  }
}
