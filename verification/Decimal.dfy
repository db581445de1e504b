/** Decimal numerals: what int() reads and what the 0-padded format specs write. A number written in at least so many
    digits is read back as it was, begins with no zero it does not need, and so no two numbers look alike; names such
    as SPEAKER_07 and overlap_0012 are numbered this way. */
module Decimal {

  function DigitChar(d: nat): char
    requires d < 10
  {
    "0123456789"[d]
  }

  predicate IsDigit(c: char) {
    '0' <= c <= '9'
  }

  function DigitValue(c: char): nat {
    if IsDigit(c) then c as nat - '0' as nat else 0
  }

  /** int(digits) */
  function ToInt(digits: string): nat {
    if digits == "" then 0
    else 10 * ToInt(digits[..|digits| - 1]) + DigitValue(digits[|digits| - 1])
  }

  /** str(n) */
  function Numeral(n: nat): string {
    if n < 10 then [DigitChar(n)] else Numeral(n / 10) + [DigitChar(n % 10)]
  }

  function Zeros(n: nat): string {
    seq(n, _ => '0')
  }

  /** f"{n:0{width}d}" */
  function Padded(n: nat, width: nat): string {
    var s := Numeral(n);
    if |s| < width then Zeros(width - |s|) + s else s
  }

  lemma {:induction false} ReadNumeral(n: nat)
    ensures ToInt(Numeral(n)) == n
  {
    if n >= 10 {
      ReadNumeral(n / 10);
      assert Numeral(n)[..|Numeral(n)| - 1] == Numeral(n / 10);
      assert DigitValue(DigitChar(n % 10)) == n % 10;
    } else {
      assert [DigitChar(n)][..0] == "";
    }
  }

  lemma {:induction false} LeadingZeros(k: nat, s: string)
    ensures ToInt(Zeros(k) + s) == ToInt(s)
    decreases k + |s|
  {
    if s != "" {
      LeadingZeros(k, s[..|s| - 1]);
      assert (Zeros(k) + s)[..k + |s| - 1] == Zeros(k) + s[..|s| - 1];
    } else if k > 0 {
      LeadingZeros(k - 1, "");
      assert (Zeros(k) + s)[..k - 1] == Zeros(k - 1) + "";
    }
  }

  /** Padding never makes two numbers look alike. */
  lemma PaddedInjective(m: nat, n: nat, width: nat)
    requires Padded(m, width) == Padded(n, width)
    ensures m == n
  {
    ReadPadded(m, width);
    ReadPadded(n, width);
  }

  lemma ReadPadded(n: nat, width: nat)
    ensures ToInt(Padded(n, width)) == n
  {
    hide Numeral, ToInt;
    ReadNumeral(n);
    if |Numeral(n)| < width {
      LeadingZeros(width - |Numeral(n)|, Numeral(n));
    }
  }

  ghost predicate AllDigits(s: string) {
    forall i :: 0 <= i < |s| ==> IsDigit(s[i])
  }

  lemma {:induction false} NoLeadingZero(n: nat)
    requires n > 0
    ensures |Numeral(n)| > 0 && Numeral(n)[0] != '0'
  {
    if n >= 10 {
      NoLeadingZero(n / 10);
    }
  }

  lemma {:induction false} NumeralIsDigits(n: nat)
    ensures AllDigits(Numeral(n)) && |Numeral(n)| >= 1 && (|Numeral(n)| > 1 ==> Numeral(n)[0] != '0')
  {
    if n >= 10 {
      NumeralIsDigits(n / 10);
      NoLeadingZero(n);
    }
  }

  /** The prefix and the number, in `width` digits and more only if it takes more. */
  ghost predicate Numbered(name: string, prefix: string, width: nat, n: nat) {
    && |name| >= |prefix| + width && name[..|prefix|] == prefix
    && var digits := name[|prefix|..];
    AllDigits(digits) && ToInt(digits) == n && (|digits| > width ==> digits[0] != '0')
  }

  lemma PaddedIsNumbered(prefix: string, n: nat, width: nat)
    requires width > 0
    ensures Numbered(prefix + Padded(n, width), prefix, width, n)
  {
    hide Numeral, ToInt;
    NumeralIsDigits(n);
    ReadPadded(n, width);
    assert (prefix + Padded(n, width))[|prefix|..] == Padded(n, width);
  }

  /** A digit string without a leading zero is the numeral of its value. */
  lemma {:induction false} WriteInt(s: string)
    requires s != "" && AllDigits(s) && (s[0] != '0' || |s| == 1)
    ensures Numeral(ToInt(s)) == s
    ensures s[0] != '0' ==> ToInt(s) > 0
  {
    hide ToInt, Numeral;
    var n := |s| - 1;
    var front, last := s[..n], DigitValue(s[n]);
    IntSnoc(s);
    assert s == front + [DigitChar(last)];
    if n == 0 {
      OneDigitNumeral(last);
      assert ToInt(front) == 0 by { NoInt(); }
    } else {
      assert front[0] == s[0];
      WriteInt(front);
      NumeralSnoc(ToInt(front), last);
    }
  }

  lemma IntSnoc(s: string)
    requires s != ""
    ensures ToInt(s) == 10 * ToInt(s[..|s| - 1]) + DigitValue(s[|s| - 1])
  {
  }

  lemma NoInt()
    ensures ToInt("") == 0
  {
  }

  lemma OneDigitNumeral(d: nat)
    requires d < 10
    ensures Numeral(d) == [DigitChar(d)]
  {
  }

  lemma NumeralSnoc(n: nat, d: nat)
    requires n > 0 && d < 10
    ensures Numeral(10 * n + d) == Numeral(n) + [DigitChar(d)]
  {
    assert (10 * n + d) / 10 == n && (10 * n + d) % 10 == d;
  }
}
