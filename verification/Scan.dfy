/** Classes of ASCII characters, and runs of characters of one class within a string. */
module Scan {
  import opened Decimal
  import opened Options

  predicate IsAlpha(c: char) {
    ('a' <= c <= 'z') || ('A' <= c <= 'Z')
  }

  predicate IsAlnum(c: char) {
    IsAlpha(c) || IsDigit(c)
  }

  datatype Class = Digit | Alpha | NonDigit | NonAlnum | RpmSeparator | Zero | Hex

  predicate Is(k: Class, c: char) {
    match k
    case Digit => IsDigit(c)
    case Alpha => IsAlpha(c)
    case NonDigit => !IsDigit(c)
    case NonAlnum => !IsAlnum(c)
    case RpmSeparator => !IsAlnum(c) && c != '~' && c != '^'
    case Zero => c == '0'
    case Hex => IsDigit(c) || 'a' <= c <= 'f'
  }

  /** Where the run of characters of class `k` that starts at `i` ends. */
  function RunEnd(s: string, i: nat, k: Class): (n: nat)
    requires i <= |s|
    ensures i <= n <= |s|
    ensures n < |s| ==> !Is(k, s[n])
    decreases |s| - i
  {
    if i < |s| && Is(k, s[i]) then RunEnd(s, i + 1, k) else i
  }

  /** All of a run is of its class. */
  lemma {:induction false} RunIsOfClass(s: string, i: nat, k: Class)
    requires i <= |s|
    ensures forall j :: i <= j < RunEnd(s, i, k) ==> Is(k, s[j])
    decreases |s| - i
  {
    if i < |s| && Is(k, s[i]) {
      RunIsOfClass(s, i + 1, k);
    }
  }

  lemma DigitRun(s: string, i: nat)
    requires i <= |s|
    ensures AllDigits(s[i..RunEnd(s, i, Digit)])
  {
    RunIsOfClass(s, i, Digit);
  }

  lemma {:induction false} RunEndUnique(s: string, i: nat, k: Class, n: nat)
    requires i <= n <= |s|
    requires forall j :: i <= j < n ==> Is(k, s[j])
    requires n < |s| ==> !Is(k, s[n])
    ensures RunEnd(s, i, k) == n
    decreases n - i
  {
    if i < n {
      RunEndUnique(s, i + 1, k, n);
    }
  }

  /** `s` is what stands in `ps` from position `d` on. */
  predicate Suffix(ps: string, d: nat, s: string) {
    d <= |ps| && ps[d..] == s
  }

  lemma SuffixSlice(ps: string, d: nat, s: string, i: nat, n: nat)
    requires Suffix(ps, d, s) && i <= n <= |s|
    ensures ps[d + i..d + n] == s[i..n]
  {
    assert ps[d..][i..n] == ps[d + i..d + n];
  }

  /** Runs do not depend on what stands before them. */
  lemma {:induction false} RunEndShift(ps: string, d: nat, s: string, i: nat, k: Class)
    requires Suffix(ps, d, s) && i <= |s|
    ensures RunEnd(ps, d + i, k) == d + RunEnd(s, i, k)
    decreases |s| - i
  {
    if i < |s| && Is(k, s[i]) {
      RunEndShift(ps, d, s, i + 1, k);
    }
  }

  /** A run that ends within `p`, or at a character of another class behind it, does not depend on what follows. */
  lemma {:induction false} RunEndPrefix(p: string, s: string, i: nat, k: Class)
    requires i <= |p|
    requires RunEnd(p, i, k) < |p| || |s| == 0 || !Is(k, s[0])
    ensures RunEnd(p + s, i, k) == RunEnd(p, i, k)
    decreases |p| - i
  {
    if i < |p| && Is(k, p[i]) {
      RunEndPrefix(p, s, i + 1, k);
    }
  }

  /** Moves an index past the run that starts there: the inner loops of the version scanners. */
  method SkipRun(s: string, start: nat, k: Class) returns (i: nat)
    requires start <= |s|
    ensures start <= i <= |s|
    ensures i == RunEnd(s, start, k)
  {
    i := start;
    while i < |s| && Is(k, s[i])
      invariant start <= i <= |s|
      invariant RunEnd(s, i, k) == RunEnd(s, start, k)
    {
      i := i + 1;
    }
  }

  /** The first position of `c` from `i` on, or the length of the string. */
  function IndexOf(s: string, c: char, i: nat): (n: nat)
    requires i <= |s|
    ensures i <= n <= |s|
    ensures n < |s| ==> s[n] == c
    ensures forall k :: i <= k < n ==> s[k] != c
    decreases |s| - i
  {
    if i == |s| || s[i] == c then i else IndexOf(s, c, i + 1)
  }

  function LastIndexOf(s: string, c: char): (r: Option<nat>)
    ensures r.Some? ==> r.value < |s| && s[r.value] == c && forall k :: r.value < k < |s| ==> s[k] != c
    ensures r.None? ==> forall k :: 0 <= k < |s| ==> s[k] != c
  {
    if |s| == 0 then None
    else if s[|s| - 1] == c then Some(|s| - 1)
    else LastIndexOf(s[..|s| - 1], c)
  }

  lemma {:induction false} IndexOfAbsent(s: string, c: char, i: nat)
    requires i <= |s| && forall k :: i <= k < |s| ==> s[k] != c
    ensures IndexOf(s, c, i) == |s|
    decreases |s| - i
  {
    if i < |s| {
      IndexOfAbsent(s, c, i + 1);
    }
  }

  lemma {:induction false} IndexOfConcat(p: string, s: string, c: char, i: nat)
    requires i <= |p|
    ensures IndexOf(p, c, i) < |p| ==> IndexOf(p + s, c, i) == IndexOf(p, c, i)
    ensures IndexOf(p, c, i) == |p| && c !in s ==> IndexOf(p + s, c, i) == |p + s|
    decreases |p| - i
  {
    if i < |p| && p[i] != c {
      IndexOfConcat(p, s, c, i + 1);
    } else if i == |p| && c !in s {
      IndexOfAbsent(p + s, c, i);
    }
  }

  lemma {:induction false} LastIndexOfConcat(p: string, s: string, c: char)
    requires c !in s
    ensures LastIndexOf(p + [c] + s, c) == Some(|p|)
  {
    var t := p + [c] + s;
    if |s| > 0 {
      assert t[..|t| - 1] == p + [c] + s[..|s| - 1];
      assert t[|t| - 1] == s[|s| - 1];
      LastIndexOfConcat(p, s[..|s| - 1], c);
    }
  }

  // Versions with a release behind a hyphen.

  /** Neither a hyphen nor the colon of an epoch. */
  predicate Unhyphened(s: string) {
    '-' !in s && ':' !in s
  }

  function WithRelease(version: string, release: Option<string>): string {
    match release
    case None => version
    case Some(r) => version + ("-" + r)
  }

  // Versions with an epoch in front of a colon.

  lemma ColonBehind(epoch: string, x: string)
    requires ':' !in epoch
    ensures var s := epoch + ":" + x;
      IndexOf(s, ':', 0) == |epoch| && s[..|epoch|] == epoch && s[|epoch| + 1..] == x
  {
    var s := epoch + ":" + x;
    forall k | 0 <= k < |epoch| ensures s[k] != ':' {
      assert s[k] == epoch[k];
    }
    assert s[|epoch|] == ':';
  }

  /** What stands in front of the first colon is no number. */
  ghost predicate BadEpoch(s: string) {
    exists k :: 0 <= k < |s| && s[k] == ':' && ':' !in s[..k] && !IsNumber(s[..k])
  }

  lemma BadEpochIsAtFirstColon(s: string)
    ensures var colon := IndexOf(s, ':', 0);
      BadEpoch(s) <==> colon < |s| && !IsNumber(s[..colon])
  {
    var colon := IndexOf(s, ':', 0);
    if colon < |s| {
      assert ':' !in s[..colon];
      forall k | colon < k < |s| ensures ':' in s[..k] {
        assert s[..k][colon] == ':';
      }
    }
  }

  // Reading a number off the front of a string.

  predicate IsNumber(s: string) {
    |s| > 0 && AllDigits(s)
  }

  predicate IsWord(s: string) {
    |s| > 0 && forall k :: 0 <= k < |s| ==> IsAlpha(s[k])
  }

  function Digits(s: string): string {
    s[..RunEnd(s, 0, Digit)]
  }

  function Rest(s: string): (r: string)
    ensures |r| <= |s| && (|Digits(s)| > 0 ==> |r| < |s|)
  {
    s[RunEnd(s, 0, Digit)..]
  }

  lemma DigitsAreDigits(s: string)
    ensures AllDigits(Digits(s)) && s == Digits(s) + Rest(s)
    ensures |s| > 0 && IsDigit(s[0]) ==> |Digits(s)| > 0
  {
    RunIsOfClass(s, 0, Digit);
  }

  lemma HeadNumber(d: string, t: string)
    requires IsNumber(d) && (|t| > 0 ==> !IsDigit(t[0]))
    ensures Digits(d + t) == d && Rest(d + t) == t
  {
    RunEndUnique(d + t, 0, Digit, |d|);
  }

  function Dotted(x: string, y: string): string {
    x + ("." + y)
  }

  predicate DotAt(s: string) {
    |s| > 0 && s[0] == '.'
  }

  lemma HeadDotted(d: string, y: string)
    requires IsNumber(d)
    ensures Digits(Dotted(d, y)) == d && DotAt(Rest(Dotted(d, y))) && Rest(Dotted(d, y))[1..] == y
  {
    HeadNumber(d, "." + y);
  }

  lemma DottedConcat(x: string, y: string, t: string)
    ensures Dotted(x, y) + t == Dotted(x, y + t)
  {
    assert "." + y + t == "." + (y + t);
    assert x + ("." + y) + t == x + ("." + y + t);
  }
}
