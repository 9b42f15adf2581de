/** Positional numerals in bases 8, 10 and 16: how Python prints and reads them. */
module Numerals {

  predicate IsRadix(base: nat) {
    base == 8 || base == 10 || base == 16
  }

  /** The digit's value, or 16 for a character that is no digit. Hexadecimal letters may be in
      either case. */
  function DigitValue(c: char): (v: nat)
    ensures v <= 16
  {
    if '0' <= c <= '9' then (c - '0') as int
    else if 'a' <= c <= 'f' then (c - 'a') as int + 10
    else if 'A' <= c <= 'F' then (c - 'A') as int + 10
    else 16
  }

  /** Exactly the sixteen hexadecimal digits have a value, their letters in either case. */
  lemma DigitValues(c: char)
    ensures DigitValue(c) < 16 <==> '0' <= c <= '9' || 'a' <= c <= 'f' || 'A' <= c <= 'F'
    ensures 'A' <= c <= 'Z' ==> DigitValue(c) == DigitValue(c - 'A' + 'a')
    ensures '0' <= c < '9' || 'a' <= c < 'f' ==> DigitValue(c + 1 as char) == DigitValue(c) + 1
    ensures DigitValue('0') == 0 && DigitValue('a') == DigitValue('9') + 1
  {
  }

  function DigitChar(d: nat): (c: char)
    requires d < 16
    ensures DigitValue(c) == d
    ensures '0' <= c <= '9' || 'a' <= c <= 'f'
  {
    if d < 10 then '0' + d as char else 'a' + (d - 10) as char
  }

  predicate AllDigits(s: string, base: nat) {
    forall i | 0 <= i < |s| :: DigitValue(s[i]) < base
  }

  function Times(n: nat, base: nat): nat
    requires IsRadix(base)
  {
    if base == 8 then n * 8 else if base == 10 then n * 10 else n * 16
  }

  function Quotient(n: nat, base: nat): (q: nat)
    requires IsRadix(base)
    ensures Times(q, base) <= n < Times(q, base) + base
    ensures n >= base ==> 0 < q < n
  {
    if base == 8 then n / 8 else if base == 10 then n / 10 else n / 16
  }

  function Value(s: string, base: nat): nat
    requires IsRadix(base) && AllDigits(s, base)
  {
    if s == "" then 0 else Times(Value(s[..|s| - 1], base), base) + DigitValue(s[|s| - 1])
  }

  function Render(n: nat, base: nat): (s: string)
    requires IsRadix(base)
    ensures |s| > 0 && AllDigits(s, base)
    ensures s[0] == '0' ==> n == 0 && s == "0"
  {
    if n < base then [DigitChar(n)]
    else
      var q := Quotient(n, base);
      Render(q, base) + [DigitChar(n - Times(q, base))]
  }

  /** Reading undoes printing. */
  lemma {:induction false} ValueOfRender(n: nat, base: nat)
    requires IsRadix(base)
    ensures Value(Render(n, base), base) == n
  {
    var s, q := Render(n, base), Quotient(n, base);
    if n >= base {
      assert s[..|s| - 1] == Render(q, base);
      ValueOfRender(q, base);
    } else {
      assert s[..0] == "";
    }
  }

  function Zeros(k: nat): (s: string)
    ensures |s| == k && forall i | 0 <= i < k :: s[i] == '0'
  {
    seq(k, _ => '0')
  }

  /** Zeros in front change nothing. */
  lemma {:induction false} LeadingZeros(zeros: nat, s: string, base: nat)
    requires IsRadix(base) && AllDigits(s, base)
    ensures AllDigits(Zeros(zeros) + s, base)
    ensures Value(Zeros(zeros) + s, base) == Value(s, base)
    decreases |s| + zeros
  {
    var t := Zeros(zeros) + s;
    assert AllDigits(t, base);
    if s == "" && zeros == 0 {
      assert t == s;
    } else if s == "" {
      assert t[..|t| - 1] == Zeros((zeros - 1) as nat) + "";
      LeadingZeros(zeros - 1, "", base);
    } else {
      assert t[..|t| - 1] == Zeros(zeros) + s[..|s| - 1];
      LeadingZeros(zeros, s[..|s| - 1], base);
    }
  }

  lemma {:induction false} ValueIsPositive(s: string, base: nat)
    requires IsRadix(base) && AllDigits(s, base) && s != "" && s[0] != '0'
    ensures Value(s, base) > 0
  {
    if |s| == 1 {
      assert s[..0] == "";
      assert DigitValue(s[0]) > 0;
    } else {
      ValueIsPositive(s[..|s| - 1], base);
    }
  }

  lemma RenderSnoc(n: nat, d: nat)
    requires d < 10 && n > 0
    ensures Render(n * 10 + d, 10) == Render(n, 10) + [DigitChar(d)]
  {
    assert Quotient(n * 10 + d, 10) == n;
  }

  /** Printing undoes reading, for decimals with no superfluous zero. */
  lemma {:induction false} RenderOfValue(s: string)
    requires AllDigits(s, 10) && s != "" && (s[0] == '0' ==> s == "0")
    ensures Render(Value(s, 10), 10) == s
  {
    var init, last := s[..|s| - 1], s[|s| - 1];
    assert s == init + [last];
    assert DigitChar(DigitValue(last)) == last;
    if init == "" {
    } else {
      ValueIsPositive(init, 10);
      RenderOfValue(init);
      RenderSnoc(Value(init, 10), DigitValue(last));
    }
  }
}
