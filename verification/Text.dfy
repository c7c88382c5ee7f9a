/** The string operations of Python that the modelled code relies on. Letters are
    upper-cased in ASCII only; white space is the full set that `str.strip` and the
    regular expression class `\s` use. */
module Text {

  datatype Option<+T> = None | Some(value: T)

  predicate IsSpace(c: char) {
    || '\t' <= c <= '\r'
    || '\U{1C}' <= c <= ' '
    || c == '\U{85}' || c == '\U{A0}' || c == '\U{1680}'
    || '\U{2000}' <= c <= '\U{200A}'
    || c == '\U{2028}' || c == '\U{2029}' || c == '\U{202F}' || c == '\U{205F}' || c == '\U{3000}'
  }

  /** Where the white space that starts at `i` ends. */
  function AfterSpaces(s: string, i: nat): (n: nat)
    requires i <= |s|
    ensures i <= n <= |s|
    ensures forall k :: i <= k < n ==> IsSpace(s[k])
    ensures n < |s| ==> !IsSpace(s[n])
    decreases |s| - i
  {
    if i < |s| && IsSpace(s[i]) then AfterSpaces(s, i + 1) else i
  }

  /** Where the white space that ends at `i` starts. */
  function BeforeSpaces(s: string, i: nat): (n: nat)
    requires i <= |s|
    ensures n <= i
    ensures forall k :: n <= k < i ==> IsSpace(s[k])
    ensures n > 0 ==> !IsSpace(s[n - 1])
  {
    if i > 0 && IsSpace(s[i - 1]) then BeforeSpaces(s, i - 1) else i
  }

  /** `s[n:m]`. The characters are taken one by one: with nested slices around, that is easier
      on the verifier than a slice. */
  function Middle(s: string, n: nat, m: nat): (r: string)
    requires n <= |s| && m <= |s|
    ensures |r| == if n <= m then m - n else 0
  {
    if n <= m then seq(m - n, k requires 0 <= k < m - n => s[n + k]) else ""
  }

  lemma MiddleAt(s: string, n: nat, m: nat, k: nat)
    requires n <= |s| && m <= |s| && k < |Middle(s, n, m)|
    ensures n + k < m && Middle(s, n, m)[k] == s[n + k]
  {
  }

  /** `str.strip()`. */
  function Strip(s: string): (r: string)
    ensures Trimmed(r)
  {
    Middle(s, AfterSpaces(s, 0), BeforeSpaces(s, |s|))
  }

  lemma StripTrimmed(s: string)
    requires Trimmed(s)
    ensures Strip(s) == s
  {
    assert AfterSpaces(s, 0) == 0 && BeforeSpaces(s, |s|) == |s|;
  }

  /** A text is stripped once the spaces around it are known. */
  lemma StripIs(s: string, n: nat, r: string)
    requires n + |r| <= |s| && r != "" && Trimmed(r)
    requires forall i :: 0 <= i < |s| && !(n <= i < n + |r|) ==> IsSpace(s[i])
    requires forall i :: n <= i < n + |r| ==> s[i] == r[i - n]
    ensures Strip(s) == r
  {
    assert s[n] == r[0] && s[n + |r| - 1] == r[|r| - 1];
    assert AfterSpaces(s, 0) == n;
    assert BeforeSpaces(s, |s|) == n + |r|;
    assert |Strip(s)| == |r|;
    forall k: nat | k < |r| ensures Strip(s)[k] == r[k] {
      StripAt(s, k);
      assert s[n + k] == r[n + k - n];
    }
  }

  lemma StripAt(s: string, k: nat)
    requires k < |Strip(s)|
    ensures AfterSpaces(s, 0) + k < |s| && Strip(s)[k] == s[AfterSpaces(s, 0) + k]
  {
    MiddleAt(s, AfterSpaces(s, 0), BeforeSpaces(s, |s|), k);
  }

  /** The word stands in the text behind nothing but white space. */
  ghost predicate Indented(s: string, word: string) {
    exists n: nat :: IndentIs(s, word, n)
  }

  predicate IndentIs(s: string, word: string, n: nat) {
    && n + |word| <= |s|
    && (forall i :: 0 <= i < n ==> IsSpace(s[i]))
    && (forall i :: n <= i < n + |word| ==> s[i] == word[i - n])
  }

  /** `text.strip().startswith(word)`, said without `strip`. */
  lemma StripStartsWith(s: string, word: string)
    requires word != "" && forall i :: 0 <= i < |word| ==> !IsSpace(word[i])
    ensures StartsWith(Strip(s), word) <==> Indented(s, word)
  {
    if StartsWith(Strip(s), word) {
      var n := AfterSpaces(s, 0);
      forall i: nat | n <= i < n + |word| ensures i < |s| && s[i] == word[i - n] {
        StripAt(s, i - n);
        assert Strip(s)[i - n] == word[i - n];
      }
      assert IndentIs(s, word, n);
    }
    if n: nat :| IndentIs(s, word, n) {
      IndentStripped(s, word, n);
    }
  }

  lemma IndentStripped(s: string, word: string, n: nat)
    requires IndentIs(s, word, n) && word != "" && forall i :: 0 <= i < |word| ==> !IsSpace(word[i])
    ensures StartsWith(Strip(s), word)
  {
    var t, last := Strip(s), n + |word| - 1;
    assert s[n] == word[0] && s[last] == word[|word| - 1];
    assert AfterSpaces(s, 0) == n && BeforeSpaces(s, |s|) > last;
    forall i: nat | i < |word| ensures t[i] == word[i] {
      StripAt(s, i);
      assert s[n + i] == word[n + i - n];
    }
  }

  predicate Trimmed(s: string) {
    s == "" || (!IsSpace(s[0]) && !IsSpace(s[|s| - 1]))
  }

  function UpperChar(c: char): char {
    if 'a' <= c <= 'z' then c - 'a' + 'A' else c
  }

  /** `str.upper()` on ASCII letters. */
  function Upper(s: string): (r: string)
    ensures |r| == |s|
    ensures forall i :: 0 <= i < |s| ==> r[i] == UpperChar(s[i])
  {
    seq(|s|, i requires 0 <= i < |s| => UpperChar(s[i]))
  }

  function LowerChar(c: char): char {
    if 'A' <= c <= 'Z' then c - 'A' + 'a' else c
  }

  /** `str.lower()` on ASCII letters. */
  function Lower(s: string): string {
    seq(|s|, i requires 0 <= i < |s| => LowerChar(s[i]))
  }

  predicate StartsWith(s: string, p: string) {
    p <= s
  }

  /** `part in s` for strings. */
  predicate Contains(s: string, part: string) {
    exists i :: 0 <= i <= |s| && part <= s[i..]
  }

  lemma ContainsIs(s: string, part: string)
    ensures Contains(s, part) <==> exists a: string, b: string :: s == a + part + b
  {
    if Contains(s, part) {
      var i :| 0 <= i <= |s| && part <= s[i..];
      assert s == s[..i] + part + s[i + |part|..];
    }
    if a: string, b: string :| s == a + part + b {
      assert s[|a|..] == part + b;
      assert part <= s[|a|..];
    }
  }

  /** Conversion changes the letters of ASCII, and nothing else. */
  lemma CaseIs(c: char)
    ensures 'a' <= c <= 'z' ==> UpperChar(c) as int == c as int - 32 && LowerChar(UpperChar(c)) == c
    ensures 'A' <= c <= 'Z' ==> LowerChar(c) as int == c as int + 32 && UpperChar(LowerChar(c)) == c
    ensures !('a' <= c <= 'z') ==> UpperChar(c) == c
    ensures !('A' <= c <= 'Z') ==> LowerChar(c) == c
  {
  }

  /** Position of the first `c` in `s` from `i` on, or the length of `s`. */
  function FindFrom(s: string, c: char, i: nat): (n: nat)
    requires i <= |s|
    ensures i <= n <= |s|
    ensures forall k :: i <= k < n ==> s[k] != c
    ensures n < |s| ==> s[n] == c
    decreases |s| - i
  {
    if i < |s| && s[i] != c then FindFrom(s, c, i + 1) else i
  }

  function Find(s: string, c: char): nat {
    FindFrom(s, c, 0)
  }

  /** `s.split(c)[0]`. */
  function Before(s: string, c: char): string {
    s[..Find(s, c)]
  }

  /** A text has only one first occurrence of a character. */
  lemma FindIs(s: string, c: char, i: nat)
    requires i < |s| && s[i] == c
    requires forall k :: 0 <= k < i ==> s[k] != c
    ensures Find(s, c) == i
  {
  }

  predicate Distinct(texts: seq<string>) {
    forall i, j | 0 <= i < j < |texts| :: texts[i] != texts[j]
  }

  // ---------- Decimal numbers ----------

  predicate IsDigit(c: char) {
    '0' <= c <= '9'
  }

  predicate AllDigits(s: string) {
    forall i | 0 <= i < |s| :: IsDigit(s[i])
  }

  /** `str(n)`. */
  function Decimal(n: nat): (s: string)
    ensures s != "" && AllDigits(s)
  {
    if n < 10 then ['0' + n as char] else Decimal(n / 10) + ['0' + (n % 10) as char]
  }

  /** `int(s)` on a text of digits. */
  function ParseDecimal(s: string): nat
    requires AllDigits(s)
  {
    if s == "" then 0 else 10 * ParseDecimal(s[..|s| - 1]) + (s[|s| - 1] - '0') as nat
  }

  /** Printing and parsing a number gives it back. */
  lemma {:induction false} ParsePrinted(n: nat)
    ensures ParseDecimal(Decimal(n)) == n
  {
    if n >= 10 {
      ParsePrinted(n / 10);
      assert Decimal(n)[..|Decimal(n)| - 1] == Decimal(n / 10);
    }
  }
}
