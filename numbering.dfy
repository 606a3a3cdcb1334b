/**
 * The numbering rule of CloneFormFields: decimal text of a container
 * number, and the regular expression `/_[0-9]+$/` that strips one trailing
 * `_<digits>` suffix before a new `_<n>` is appended.
 */
module Numbering {

  predicate IsDigit(c: char) { '0' <= c <= '9' }

  predicate AllDigits(s: string) {
    forall i | 0 <= i < |s| :: IsDigit(s[i])
  }

  /** `s` ends with `t`. */
  predicate EndsWith(s: string, t: string) {
    |t| <= |s| && s[|s| - |t|..] == t
  }

  function DigitChar(d: nat): (c: char)
    requires d < 10
    ensures IsDigit(c) && c as int - '0' as int == d
  {
    "0123456789"[d]
  }

  function DigitValue(c: char): (d: nat)
    requires IsDigit(c)
    ensures d < 10
  {
    c as int - '0' as int
  }

  /** The text of `n` that a template literal `${n}` produces. */
  function Decimal(n: nat): (r: string)
    ensures |r| > 0 && AllDigits(r)
    ensures r[0] == '0' ==> n == 0
  {
    if n < 10 then [DigitChar(n)] else Decimal(n / 10) + [DigitChar(n % 10)]
  }

  /** Reads a string of digits back as a number (the inverse of Decimal). */
  function ParseDecimal(s: string): nat
    requires AllDigits(s)
  {
    if s == [] then 0 else 10 * ParseDecimal(s[..|s| - 1]) + DigitValue(s[|s| - 1])
  }

  lemma {:induction false} ParseDecimalOfDecimal(n: nat)
    ensures ParseDecimal(Decimal(n)) == n
  {
    var r := Decimal(n);
    if n >= 10 {
      assert r[..|r| - 1] == Decimal(n / 10);
      ParseDecimalOfDecimal(n / 10);
    }
  }

  lemma DecimalInjective(m: nat, n: nat)
    requires Decimal(m) == Decimal(n)
    ensures m == n
  {
    ParseDecimalOfDecimal(m);
    ParseDecimalOfDecimal(n);
  }

  /** The suffix `_<n>` that the numbering appends. */
  function Suffix(n: nat): (r: string)
    ensures |r| > 1 && r[0] == '_' && AllDigits(r[1..])
  {
    "_" + Decimal(n)
  }

  /** The pattern `_[0-9]+$` matches `s` from position `i` to the end. */
  predicate SuffixMatchAt(s: string, i: int) {
    0 <= i < |s| - 1 && s[i] == '_' && AllDigits(s[i + 1..])
  }

  /** Length of the longest run of digits at the end of `s`. */
  function TrailingDigits(s: string): (d: nat)
    ensures d <= |s| && AllDigits(s[|s| - d..])
    ensures d < |s| ==> !IsDigit(s[|s| - d - 1])
  {
    if s == [] || !IsDigit(s[|s| - 1]) then 0
    else
      var init := s[..|s| - 1];
      var d := 1 + TrailingDigits(init);
      assert s[|s| - d..] == init[|init| - (d - 1)..] + [s[|s| - 1]];
      assert d < |s| ==> s[|s| - d - 1] == init[|init| - (d - 1) - 1];
      d
  }

  /**
   * `s.replace(/_[0-9]+$/, '')`: removes one trailing `_<digits>` when the
   * pattern matches and returns `s` unchanged otherwise.
   */
  function StripSuffix(s: string): (r: string)
    ensures forall i | SuffixMatchAt(s, i) :: r == s[..i]
    ensures (forall i :: !SuffixMatchAt(s, i)) ==> r == s
  {
    var d := TrailingDigits(s);
    forall i | SuffixMatchAt(s, i) ensures i == |s| - d - 1 {
      assert s[i + 1..][|s| - i - 2] == s[|s| - 1];
    }
    if 0 < d < |s| && s[|s| - d - 1] == '_' then
      assert SuffixMatchAt(s, |s| - d - 1);
      s[..|s| - d - 1]
    else
      s
  }

  /** `s.replace(/_[0-9]+$/, '') + `_${n}``: the renumbering rule for ids. */
  function Renumber(s: string, n: nat): (r: string)
    ensures EndsWith(r, Suffix(n))
    ensures StripSuffix(r) == StripSuffix(s)
  {
    StripSuffixOfSuffixed(StripSuffix(s), n);
    StripSuffix(s) + Suffix(n)
  }

  /** Appending `_<n>` and then stripping gives back exactly the original string. */
  lemma StripSuffixOfSuffixed(s: string, n: nat)
    ensures StripSuffix(s + Suffix(n)) == s
  {
    var t := s + Suffix(n);
    assert t[|s| + 1..] == Suffix(n)[1..];
    assert SuffixMatchAt(t, |s|);
    assert t[..|s|] == s;
  }

  /** Renumbering forgets the previous number: only the last one counts. */
  lemma RenumberTwice(s: string, m: nat, n: nat)
    ensures Renumber(Renumber(s, m), n) == Renumber(s, n)
  {
  }

  /** A string that ends with `_<n>` is its own renumbering to `n`. */
  lemma RenumberFixed(s: string, n: nat)
    requires EndsWith(s, Suffix(n))
    ensures Renumber(s, n) == s
  {
    var k := |s| - |Suffix(n)|;
    assert s == s[..k] + Suffix(n);
    StripSuffixOfSuffixed(s[..k], n);
  }

  /** The stripping removes one suffix only: `email_1_1` becomes `email_1`. */
  lemma StripSuffixRemovesOne()
    ensures StripSuffix("email_1_1") == "email_1"
  {
    assert "email_1_1" == "email_1" + Suffix(1);
    StripSuffixOfSuffixed("email_1", 1);
  }

  /** A string without a trailing `_<digits>` is left alone: `email1` stays. */
  lemma StripSuffixNoMatch()
    ensures StripSuffix("email1") == "email1"
  {
    forall i | 0 <= i < |"email1"| ensures "email1"[i] != '_' {
    }
  }
}
