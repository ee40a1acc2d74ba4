/** The parts of `java.lang.String` the domain relies on: `trim`, "blank"
    (`s.trim().isEmpty()`), `toLowerCase`, `equalsIgnoreCase`, `hashCode`
    and `String.valueOf(int)`. Case mapping is the ASCII one. */
module JavaStrings {
  import opened Common

  /** The characters `String.trim()` strips: every code unit up to U+0020. */
  predicate IsTrimSpace(c: char) {
    c <= ' '
  }

  /** The first index at or after `i` whose character `trim` keeps, or `|s|`:
      the forward scan of `String.trim()`. */
  function TrimStart(s: string, i: nat): (st: nat)
    requires i <= |s|
    ensures i <= st <= |s|
    ensures forall j :: i <= j < st ==> IsTrimSpace(s[j])
    ensures st < |s| ==> !IsTrimSpace(s[st])
    decreases |s| - i
  {
    if i < |s| && IsTrimSpace(s[i]) then TrimStart(s, i + 1) else i
  }

  /** The backward scan of `String.trim()`: shortens `len` while the
      character before it is trimmable, never going below `st`. */
  function TrimEnd(s: string, st: nat, len: nat): (e: nat)
    requires st <= len <= |s|
    ensures st <= e <= len
    ensures forall j :: e <= j < len ==> IsTrimSpace(s[j])
    ensures st < e ==> !IsTrimSpace(s[e - 1])
    decreases len
  {
    if st < len && IsTrimSpace(s[len - 1]) then TrimEnd(s, st, len - 1) else len
  }

  /** `String.trim()`: the infix between the two scans. Every character cut
      off is trimmable, neither end of what is kept is, and nothing is kept
      exactly when every character is trimmable. */
  function Trim(s: string): (r: string)
    ensures var st := TrimStart(s, 0);
      var e := TrimEnd(s, st, |s|);
      && r == s[st..e]
      && (forall i :: 0 <= i < st ==> IsTrimSpace(s[i]))
      && (forall i :: e <= i < |s| ==> IsTrimSpace(s[i]))
    ensures r == [] || (!IsTrimSpace(r[0]) && !IsTrimSpace(r[|r| - 1]))
    ensures r == [] <==> forall i :: 0 <= i < |s| ==> IsTrimSpace(s[i])
  {
    var st := TrimStart(s, 0);
    s[st..TrimEnd(s, st, |s|)]
  }

  /** `s == null || s.trim().isEmpty()` once null is ruled out. */
  predicate IsBlank(s: string) {
    Trim(s) == []
  }

  /** What a trimming constructor stores from a non-blank argument. */
  predicate IsTrimmedText(s: string) {
    s != [] && !IsTrimSpace(s[0]) && !IsTrimSpace(s[|s| - 1])
  }

  /** The null-or-blank test every constructor and guest-id check performs. */
  predicate IsNullOrBlank(s: Option<string>) {
    s.None? || IsBlank(s.value)
  }

  lemma BlankIffAllTrimSpace(s: string)
    ensures IsBlank(s) <==> forall i :: 0 <= i < |s| ==> IsTrimSpace(s[i])
  {
  }

  /** What the constructors store is trimmed and not blank, and trimming it again changes nothing. */
  lemma TrimmedTextIsFixed(s: string)
    requires !IsBlank(s)
    ensures IsTrimmedText(Trim(s))
    ensures Trim(Trim(s)) == Trim(s)
  {
  }

  lemma TrimmedTextTrimsToItself(t: string)
    requires IsTrimmedText(t)
    ensures Trim(t) == t && !IsBlank(t)
  {
  }

  /** `Character.toLowerCase` restricted to ASCII letters. */
  function LowerChar(c: char): char {
    if 'A' <= c <= 'Z' then (c as int + 32) as char else c
  }

  /** `Character.toUpperCase` restricted to ASCII letters. */
  function UpperChar(c: char): char {
    if 'a' <= c <= 'z' then (c as int - 32) as char else c
  }

  /** `String.toLowerCase()`. */
  function Lower(s: string): (r: string)
    ensures |r| == |s|
  {
    seq(|s|, i requires 0 <= i < |s| => LowerChar(s[i]))
  }

  /** The per-character test of `String.regionMatches(true, ...)`. */
  predicate CharEqualsIgnoreCase(a: char, b: char) {
    a == b || UpperChar(a) == UpperChar(b) || LowerChar(UpperChar(a)) == LowerChar(UpperChar(b))
  }

  /** `a.equalsIgnoreCase(b)` for non-null `b`: same length, and every
      position matches ignoring case. */
  predicate EqualsIgnoreCase(a: string, b: string) {
    |a| == |b| && forall i :: 0 <= i < |a| ==> CharEqualsIgnoreCase(a[i], b[i])
  }

  lemma CharEqualsIgnoreCaseIffLower(a: char, b: char)
    ensures CharEqualsIgnoreCase(a, b) <==> LowerChar(a) == LowerChar(b)
  {
  }

  /** `equalsIgnoreCase` agrees with comparing the lower-cased strings, which
      is what the `hashCode` methods hash. */
  lemma EqualsIgnoreCaseIffLowerEqual(a: string, b: string)
    ensures EqualsIgnoreCase(a, b) <==> Lower(a) == Lower(b)
  {
    if EqualsIgnoreCase(a, b) {
      forall i | 0 <= i < |a| ensures Lower(a)[i] == Lower(b)[i] {
        CharEqualsIgnoreCaseIffLower(a[i], b[i]);
      }
    }
    if Lower(a) == Lower(b) {
      forall i | 0 <= i < |a| ensures CharEqualsIgnoreCase(a[i], b[i]) {
        assert Lower(a)[i] == Lower(b)[i];
        CharEqualsIgnoreCaseIffLower(a[i], b[i]);
      }
    }
  }

  /** `equalsIgnoreCase` is an equivalence relation. */
  lemma EqualsIgnoreCaseIsEquivalence(a: string, b: string, c: string)
    ensures EqualsIgnoreCase(a, a)
    ensures EqualsIgnoreCase(a, b) ==> EqualsIgnoreCase(b, a)
    ensures EqualsIgnoreCase(a, b) && EqualsIgnoreCase(b, c) ==> EqualsIgnoreCase(a, c)
  {
  }

  /** `String.hashCode()`: `h = 31 * h + c` over the characters, in `int` arithmetic. */
  function HashCode(s: string): Int32
    decreases |s|
  {
    if s == [] then 0 else Wrap32(31 * HashCode(s[..|s| - 1]) + s[|s| - 1] as int)
  }

  predicate IsDigit(c: char) {
    '0' <= c <= '9'
  }

  function DigitChar(d: nat): (c: char)
    requires d < 10
    ensures IsDigit(c)
  {
    ('0' as int + d) as char
  }

  /** Decimal digits of a natural number, most significant first. */
  function Decimal(n: nat): string
    decreases n
  {
    if n < 10 then [DigitChar(n)] else Decimal(n / 10) + [DigitChar(n % 10)]
  }

  /** `String.valueOf(int)`. */
  function IntToString(x: int): string {
    if x < 0 then "-" + Decimal(-x) else Decimal(x)
  }

  /** The number a string of decimal digits denotes (the reading `Integer.parseInt` gives it). */
  function DigitsValue(s: string): int
    requires forall i :: 0 <= i < |s| ==> IsDigit(s[i])
    decreases |s|
  {
    if s == [] then 0 else DigitsValue(s[..|s| - 1]) * 10 + (s[|s| - 1] as int - '0' as int)
  }

  /** `Decimal` writes a non-empty digit string without a leading zero that reads back as `n`. */
  lemma {:induction false} DecimalRoundTrip(n: nat)
    ensures var d := Decimal(n);
      && d != []
      && (forall i :: 0 <= i < |d| ==> IsDigit(d[i]))
      && (n > 0 ==> d[0] != '0')
      && DigitsValue(d) == n
    decreases n
  {
    if n >= 10 {
      DecimalRoundTrip(n / 10);
      var d := Decimal(n);
      assert d[..|d| - 1] == Decimal(n / 10);
    }
  }
}
