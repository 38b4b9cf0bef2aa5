/** Decimal strings and the natural numbers they denote. */
module Decimal {
  import opened Orders

  predicate IsDigit(c: char) {
    '0' <= c <= '9'
  }

  predicate AllDigits(s: string) {
    forall k :: 0 <= k < |s| ==> IsDigit(s[k])
  }

  function DigitValue(c: char): nat {
    if IsDigit(c) then c as int - '0' as int else 0
  }

  /** The number that a string of digits denotes. */
  function Value(s: string): nat {
    if |s| == 0 then 0 else 10 * Value(s[..|s| - 1]) + DigitValue(s[|s| - 1])
  }

  function StripZeros(s: string): string {
    if |s| > 0 && s[0] == '0' then StripZeros(s[1..]) else s
  }

  /** The canonical spelling of a number, as Python's formatting writes it. */
  function Spell(n: nat): string {
    if n < 10 then [DigitChar(n)] else Spell(n / 10) + [DigitChar(n % 10)]
  }

  function DigitChar(d: nat): char
    requires d < 10
  {
    '0' + d as char
  }

  predicate Canonical(s: string) {
    |s| > 0 && AllDigits(s) && (s[0] == '0' ==> |s| == 1)
  }

  function Pow10(n: nat): nat {
    if n == 0 then 1 else 10 * Pow10(n - 1)
  }

  lemma {:induction false} Pow10Monotone(m: nat, n: nat)
    requires m <= n
    ensures 0 < Pow10(m) <= Pow10(n)
    decreases n
  {
    if m < n {
      Pow10Monotone(m, n - 1);
    } else if m > 0 {
      Pow10Monotone(m - 1, n - 1);
    }
  }

  lemma TenTimes(v: int, p: int)
    ensures 10 * (v * p) == v * (10 * p)
  {
  }

  lemma {:induction false} ValueConcat(s: string, t: string)
    ensures Value(s + t) == Value(s) * Pow10(|t|) + Value(t)
  {
    if |t| == 0 {
      assert s + t == s;
    } else {
      var front := t[..|t| - 1];
      assert (s + t)[..|s + t| - 1] == s + front;
      ValueConcat(s, front);
      TenTimes(Value(s), Pow10(|front|));
    }
  }

  lemma {:induction false} ValueStrip(s: string)
    ensures AllDigits(s) ==> AllDigits(StripZeros(s))
    ensures Value(StripZeros(s)) == Value(s)
  {
    if |s| > 0 && s[0] == '0' {
      assert s == [s[0]] + s[1..];
      ValueConcat([s[0]], s[1..]);
      ValueStrip(s[1..]);
    }
  }

  lemma {:induction false} StripHead(s: string)
    ensures |StripZeros(s)| > 0 ==> StripZeros(s)[0] != '0'
    ensures |StripZeros(s)| <= |s| && StripZeros(s) == s[|s| - |StripZeros(s)|..]
  {
    if |s| > 0 && s[0] == '0' {
      StripHead(s[1..]);
    }
  }

  lemma {:induction false} ValueBounds(s: string)
    requires AllDigits(s)
    ensures Value(s) < Pow10(|s|)
    ensures |s| > 0 && s[0] != '0' ==> Pow10(|s| - 1) <= Value(s)
  {
    if |s| > 0 {
      ValueBounds(s[..|s| - 1]);
    }
  }

  /** Digit strings of one length compare as text the way they compare as numbers. */
  lemma {:induction false} ValueOrderSameLength(s: string, t: string)
    requires AllDigits(s) && AllDigits(t) && |s| == |t|
    ensures StrCmp(s, t) == Cmp(Value(s), Value(t))
  {
    if |s| > 0 {
      var s', t' := s[..|s| - 1], t[..|t| - 1];
      var x, y := s[|s| - 1], t[|t| - 1];
      assert s == s' + [x] && t == t' + [y];
      StrCmpLast(s', t', x, y);
      ValueOrderSameLength(s', t');
    }
  }

  /** The order of two numbers without leading zeros: the longer one is greater, and at one length the text decides. */
  function DigitsCmp(s: string, t: string): int {
    if |s| != |t| then Cmp(|s|, |t|) else StrCmp(s, t)
  }

  lemma ValueOrderStripped(s: string, t: string)
    requires AllDigits(s) && AllDigits(t)
    requires |s| > 0 ==> s[0] != '0'
    requires |t| > 0 ==> t[0] != '0'
    ensures Cmp(Value(s), Value(t)) == DigitsCmp(s, t)
  {
    ValueBounds(s);
    ValueBounds(t);
    if |s| < |t| {
      Pow10Monotone(|s|, |t| - 1);
    } else if |t| < |s| {
      Pow10Monotone(|t|, |s| - 1);
    } else {
      ValueOrderSameLength(s, t);
    }
  }

  /** Digit strings compare as numbers once their leading zeros are stripped. */
  lemma StrippedOrder(s: string, t: string)
    requires AllDigits(s) && AllDigits(t)
    ensures DigitsCmp(StripZeros(s), StripZeros(t)) == Cmp(Value(s), Value(t))
  {
    ValueStrip(s);
    ValueStrip(t);
    StripHead(s);
    StripHead(t);
    ValueOrderStripped(StripZeros(s), StripZeros(t));
  }

  function Zeros(n: nat): (s: string)
    ensures |s| == n && AllDigits(s)
  {
    seq(n, _ => '0')
  }

  lemma {:induction false} LeadingZerosDoNotCount(n: nat, s: string)
    ensures Value(Zeros(n) + s) == Value(s)
  {
    if n == 0 {
      assert Zeros(n) + s == s;
    } else {
      assert Zeros(n) + s == "0" + (Zeros(n - 1) + s);
      ValueConcat("0", Zeros(n - 1) + s);
      LeadingZerosDoNotCount(n - 1, s);
      assert Value("0") == 0 by { assert "0"[..0] == ""; }
    }
  }

  /** Digit strings of any lengths compare as numbers the way they compare as text when their ends are aligned. */
  lemma AlignedOrder(s: string, t: string)
    requires AllDigits(s) && AllDigits(t) && |s| <= |t|
    ensures Cmp(Value(s), Value(t)) == StrCmp(Zeros(|t| - |s|) + s, t)
  {
    LeadingZerosDoNotCount(|t| - |s|, s);
    ValueOrderSameLength(Zeros(|t| - |s|) + s, t);
  }

  lemma {:induction false} SpellValue(n: nat)
    ensures Canonical(Spell(n)) && Value(Spell(n)) == n
    ensures Spell(n)[0] == '0' ==> n == 0
  {
    if n >= 10 {
      SpellValue(n / 10);
      var s := Spell(n);
      assert s[..|s| - 1] == Spell(n / 10);
    } else {
      assert Spell(n)[..0] == [];
    }
  }

  lemma {:induction false} ValueSpell(s: string)
    requires Canonical(s)
    ensures Spell(Value(s)) == s
  {
    if |s| == 1 {
      assert Value(s[..0]) == 0;
      assert s == [s[0]];
    } else {
      var s' := s[..|s| - 1];
      ValueSpell(s');
      ValueBounds(s');
      Pow10Monotone(0, |s'| - 1);
      assert s == s' + [s[|s| - 1]];
    }
  }
}
