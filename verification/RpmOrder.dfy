/** RPM's version comparison (scripts/pkgrepo/versions.py, rpmvercmp and rpm_evr_compare). */
module RpmOrder {
  import opened Orders
  import opened Decimal
  import opened Scan
  import opened Options

  /** What one string contributes to a comparison. `End` stands for the end of the string. */
  datatype Token = Tilde | End | Caret | Letters(text: string) | Number(value: nat)

  /** The tokens of `s` from position `i` on; no other string has any influence on them. */
  function TokensFrom(s: string, i: nat): List<Token>
    requires i <= |s|
    decreases |s| - i
  {
    if i == |s| then Nil
    else if s[i] == '~' then Cons(Tilde, TokensFrom(s, i + 1))
    else if s[i] == '^' then Cons(Caret, TokensFrom(s, i + 1))
    else if IsDigit(s[i]) then
      var n := RunEnd(s, i, Digit);
      Cons(Number(Value(s[i..n])), TokensFrom(s, n))
    else if IsAlpha(s[i]) then
      var n := RunEnd(s, i, Alpha);
      Cons(Letters(s[i..n]), TokensFrom(s, n))
    else TokensFrom(s, i + 1)
  }

  function Tokens(s: string): List<Token> {
    TokensFrom(s, 0)
  }

  function Rank(t: Token): nat {
    match t
    case Tilde => 0
    case End => 1
    case Caret => 2
    case Letters(_) => 3
    case Number(_) => 4
  }

  /** Tilde < end < caret < letters < number; letters compare as text and numbers as numbers. */
  function TokenCmp(x: Token, y: Token): int {
    if Rank(x) != Rank(y) then Cmp(Rank(x), Rank(y))
    else match x
      case Letters(s) => StrCmp(s, y.text)
      case Number(n) => Cmp(n, y.value)
      case _ => 0
  }

  /** The comparison from positions `i` and `j` on. */
  function CompareFrom(a: string, i: nat, b: string, j: nat): int
    requires i <= |a| && j <= |b|
  {
    Lex(TokenCmp, End, TokensFrom(a, i), TokensFrom(b, j))
  }

  function Compare(a: string, b: string): int {
    CompareFrom(a, 0, b, 0)
  }

  lemma TokenCmpIsTotalPreorder()
    ensures TotalPreorder(TokenCmp)
  {
    forall x, y ensures TokenCmp(x, y) == -TokenCmp(y, x) {
      if x.Letters? && y.Letters? {
        StrCmpAntisymmetric(x.text, y.text);
      }
    }
    forall x, y, z | TokenCmp(x, y) <= 0 && TokenCmp(y, z) <= 0 ensures TokenCmp(x, z) <= 0 {
      if x.Letters? && y.Letters? && z.Letters? {
        StrCmpTransitive(x.text, y.text, z.text);
      }
    }
  }

  lemma {:induction false} TokensSkipSeparators(s: string, i: nat)
    requires i <= |s|
    ensures TokensFrom(s, RunEnd(s, i, RpmSeparator)) == TokensFrom(s, i)
    decreases |s| - i
  {
    if i < |s| && Is(RpmSeparator, s[i]) {
      TokensSkipSeparators(s, i + 1);
    }
  }

  /** The first segments decide, or the comparison goes on behind them. */
  lemma NumberStep(a: string, i: nat, b: string, j: nat)
    requires i < |a| && j < |b| && IsDigit(a[i]) && IsAlnum(b[j])
    ensures var n, m := RunEnd(a, i, Digit), RunEnd(b, j, Digit);
      && i < n
      && (m == j ==> CompareFrom(a, i, b, j) == 1)
      && (m > j ==>
        var c := DigitsCmp(StripZeros(a[i..n]), StripZeros(b[j..m]));
        CompareFrom(a, i, b, j) == if c != 0 then c else CompareFrom(a, n, b, m))
  {
    var n, m := RunEnd(a, i, Digit), RunEnd(b, j, Digit);
    assert TokensFrom(a, i) == Cons(Number(Value(a[i..n])), TokensFrom(a, n));
    if m > j {
      DigitRun(a, i);
      DigitRun(b, j);
      StrippedOrder(a[i..n], b[j..m]);
      assert TokensFrom(b, j) == Cons(Number(Value(b[j..m])), TokensFrom(b, m));
    }
  }

  lemma LettersStep(a: string, i: nat, b: string, j: nat)
    requires i < |a| && j < |b| && IsAlpha(a[i]) && IsAlnum(b[j])
    ensures var n, m := RunEnd(a, i, Alpha), RunEnd(b, j, Alpha);
      && i < n
      && (m == j ==> CompareFrom(a, i, b, j) == -1)
      && (m > j ==>
        var c := StrCmp(a[i..n], b[j..m]);
        CompareFrom(a, i, b, j) == if c != 0 then c else CompareFrom(a, n, b, m))
  {
    var n, m := RunEnd(a, i, Alpha), RunEnd(b, j, Alpha);
    assert TokensFrom(a, i) == Cons(Letters(a[i..n]), TokensFrom(a, n));
    if m > j {
      assert TokensFrom(b, j) == Cons(Letters(b[j..m]), TokensFrom(b, m));
    }
  }

  predicate At(s: string, i: nat, c: char) {
    i < |s| && s[i] == c
  }

  /** What the tildes, the carets and the ends of the strings decide, once separators are skipped. */
  lemma MarkStep(a: string, i: nat, b: string, j: nat)
    requires i <= |a| && j <= |b|
    requires i < |a| ==> !Is(RpmSeparator, a[i])
    requires j < |b| ==> !Is(RpmSeparator, b[j])
    ensures At(a, i, '~') && At(b, j, '~') ==> CompareFrom(a, i, b, j) == CompareFrom(a, i + 1, b, j + 1)
    ensures At(a, i, '~') && !At(b, j, '~') ==> CompareFrom(a, i, b, j) == -1
    ensures !At(a, i, '~') && At(b, j, '~') ==> CompareFrom(a, i, b, j) == 1
    ensures At(a, i, '^') && At(b, j, '^') ==> CompareFrom(a, i, b, j) == CompareFrom(a, i + 1, b, j + 1)
    ensures !At(a, i, '~') && !At(b, j, '~') ==>
      && (i == |a| && j == |b| ==> CompareFrom(a, i, b, j) == 0)
      && (i == |a| && j < |b| ==> CompareFrom(a, i, b, j) == -1)
      && (i < |a| && j == |b| ==> CompareFrom(a, i, b, j) == 1)
      && (At(a, i, '^') && j < |b| && !At(b, j, '^') ==> CompareFrom(a, i, b, j) == -1)
      && (At(b, j, '^') && i < |a| && !At(a, i, '^') ==> CompareFrom(a, i, b, j) == 1)
  {
  }

  method SkipSeparators(s: string, start: nat) returns (i: nat)
    requires start <= |s|
    ensures start <= i <= |s|
    ensures i < |s| ==> !Is(RpmSeparator, s[i])
    ensures TokensFrom(s, i) == TokensFrom(s, start)
  {
    i := SkipRun(s, start, RpmSeparator);
    TokensSkipSeparators(s, start);
  }

  /** A round of the loop behind the marks: a segment of `a` against a segment of `b`; 0 when they are equal. */
  method CompareSegments(a: string, startA: nat, b: string, startB: nat) returns (r: int, i: nat, j: nat)
    requires startA < |a| && startB < |b| && IsAlnum(a[startA]) && IsAlnum(b[startB])
    ensures r != 0 ==> r == CompareFrom(a, startA, b, startB)
    ensures r == 0 ==> startA < i <= |a| && startB < j <= |b|
    ensures r == 0 ==> CompareFrom(a, startA, b, startB) == CompareFrom(a, i, b, j)
  {
    var numeric := IsDigit(a[startA]);
    if numeric {
      i := SkipRun(a, startA, Digit);
      j := SkipRun(b, startB, Digit);
      NumberStep(a, startA, b, startB);
    } else {
      i := SkipRun(a, startA, Alpha);
      j := SkipRun(b, startB, Alpha);
      LettersStep(a, startA, b, startB);
    }
    var segmentA, segmentB := a[startA..i], b[startB..j];
    if |segmentB| == 0 {
      return if numeric then 1 else -1, i, j;
    }
    if numeric {
      segmentA, segmentB := StripZeros(segmentA), StripZeros(segmentB);
      if |segmentA| != |segmentB| {
        return if |segmentA| > |segmentB| then 1 else -1, i, j;
      }
    }
    StrCmpAntisymmetric(segmentA, segmentB);
    if segmentA != segmentB {
      return if StrCmp(segmentA, segmentB) > 0 then 1 else -1, i, j;
    }
    r := 0;
  }

  method RpmVerCmp(a: string, b: string) returns (r: int)
    ensures r == Compare(a, b)
  {
    if a == b {
      TokenCmpIsTotalPreorder();
      LexReflexive(TokenCmp, End, Tokens(a));
      return 0;
    }
    var i, j := 0, 0;
    while i < |a| || j < |b|
      invariant 0 <= i <= |a| && 0 <= j <= |b|
      invariant CompareFrom(a, i, b, j) == Compare(a, b)
      decreases |a| - i + |b| - j
    {
      i := SkipSeparators(a, i);
      j := SkipSeparators(b, j);
      MarkStep(a, i, b, j);
      var aTilde := i < |a| && a[i] == '~';
      var bTilde := j < |b| && b[j] == '~';
      if aTilde || bTilde {
        if !aTilde { return 1; }
        if !bTilde { return -1; }
        i, j := i + 1, j + 1;
        continue;
      }
      var aCaret := i < |a| && a[i] == '^';
      var bCaret := j < |b| && b[j] == '^';
      if aCaret || bCaret {
        if i >= |a| { return -1; }
        if j >= |b| { return 1; }
        if !aCaret { return 1; }
        if !bCaret { return -1; }
        i, j := i + 1, j + 1;
        continue;
      }
      if !(i < |a| && j < |b|) { break; }
      r, i, j := CompareSegments(a, i, b, j);
      if r != 0 { return r; }
    }
    MarkStep(a, i, b, j);
    if i >= |a| && j >= |b| { return 0; }
    return if i >= |a| then -1 else 1;
  }

  lemma CompareIsTotalPreorder()
    ensures TotalPreorder(Compare)
  {
    TokenCmpIsTotalPreorder();
    LexIsTotalPreorder(TokenCmp, End);
    PullbackIsTotalPreorder((s: List<Token>, t: List<Token>) => Lex(TokenCmp, End, s, t), Tokens, Compare);
  }

  // Epoch, version and release.

  method RpmEvrCompare(a: Evr, b: Evr) returns (r: int)
    ensures r == EvrOrder(Compare, a, b)
  {
    if a.epoch != b.epoch {
      return if a.epoch > b.epoch then 1 else -1;
    }
    r := RpmVerCmp(a.version, b.version);
    if r == 0 {
      r := RpmVerCmp(a.release, b.release);
    }
  }

  lemma EvrCompareIsTotalPreorder()
    ensures TotalPreorder((a: Evr, b: Evr) => EvrOrder(Compare, a, b))
  {
    CompareIsTotalPreorder();
    EvrOrderIsTotalPreorder(Compare);
  }

  // Whole version strings: [epoch:]version[-release].

  /** The last hyphen separates the release. With nothing in front of it, what follows it is the version. */
  function SplitRelease(epoch: int, s: string): Evr {
    match LastIndexOf(s, '-')
    case None => Evr(epoch, s, "")
    case Some(k) => if k == 0 then Evr(epoch, s[1..], "") else Evr(epoch, s[..k], s[k + 1..])
  }

  /** None stands for the error that int() raises on an epoch that is no number. */
  function ParseRpm(s: string): Option<Evr> {
    var colon := IndexOf(s, ':', 0);
    if colon == |s| then Some(SplitRelease(0, s))
    else if colon == 0 || !AllDigits(s[..colon]) then None
    else Some(SplitRelease(Value(s[..colon]), s[colon + 1..]))
  }

  function RpmOrder(a: string, b: string): Option<int> {
    var x, y := ParseRpm(a), ParseRpm(b);
    if x.None? || y.None? then None else Some(EvrOrder(Compare, x.value, y.value))
  }

  method RpmCompare(a: string, b: string) returns (r: Option<int>)
    ensures r == RpmOrder(a, b)
  {
    var x, y := ParseRpm(a), ParseRpm(b);
    if x.None? || y.None? {
      return None;
    }
    var result := RpmEvrCompare(x.value, y.value);
    return Some(result);
  }

  type RpmVersion = s: string | ParseRpm(s).Some? witness ""

  /** Whole versions whose epoch is a number are totally preordered. */
  lemma VersionOrderIsTotalPreorder()
    ensures TotalPreorder((a: RpmVersion, b: RpmVersion) => RpmOrder(a, b).value)
  {
    EvrCompareIsTotalPreorder();
    PullbackIsTotalPreorder((a: Evr, b: Evr) => EvrOrder(Compare, a, b), (s: RpmVersion) => ParseRpm(s).value,
      (a: RpmVersion, b: RpmVersion) => RpmOrder(a, b).value);
  }

  /** A version without an epoch splits at the hyphen in front of its release. */
  lemma ParseWithRelease(x: string, release: Option<string>)
    requires |x| > 0 && Unhyphened(x) && (release.Some? ==> Unhyphened(release.value))
    ensures ParseRpm(WithRelease(x, release)) == Some(Evr(0, x, if release.Some? then release.value else ""))
  {
    var s := WithRelease(x, release);
    IndexOfAbsent(s, ':', 0);
    if release.Some? {
      assert s == x + ['-'] + release.value;
      LastIndexOfConcat(x, release.value, '-');
      assert s[..|x|] == x && s[|x| + 1..] == release.value;
    }
  }

  // Concatenation.

  lemma {:induction false} TokensShift(ps: string, d: nat, s: string, i: nat)
    requires Suffix(ps, d, s) && i <= |s|
    ensures TokensFrom(ps, d + i) == TokensFrom(s, i)
    decreases |s| - i
  {
    if i < |s| {
      if IsDigit(s[i]) || IsAlpha(s[i]) {
        var k := if IsDigit(s[i]) then Digit else Alpha;
        RunEndShift(ps, d, s, i, k);
        var n := RunEnd(s, i, k);
        SuffixSlice(ps, d, s, i, n);
        TokensShift(ps, d, s, n);
      } else {
        TokensShift(ps, d, s, i + 1);
      }
    }
  }

  /** No segment runs over the end of `p` into `s`. */
  predicate Boundary(p: string, s: string) {
    |p| == 0 || |s| == 0 ||
    !((IsDigit(p[|p| - 1]) && IsDigit(s[0])) || (IsAlpha(p[|p| - 1]) && IsAlpha(s[0])))
  }

  lemma {:induction false} TokensConcatFrom(p: string, s: string, i: nat)
    requires i <= |p| && Boundary(p, s)
    ensures TokensFrom(p + s, i) == Append(TokensFrom(p, i), Tokens(s))
    decreases |p| - i
  {
    if i == |p| {
      assert Suffix(p + s, |p|, s);
      TokensShift(p + s, |p|, s, 0);
    } else if IsDigit(p[i]) || IsAlpha(p[i]) {
      var k := if IsDigit(p[i]) then Digit else Alpha;
      var n := RunEnd(p, i, k);
      RunIsOfClass(p, i, k);
      RunEndPrefix(p, s, i, k);
      assert (p + s)[i..n] == p[i..n];
      TokensConcatFrom(p, s, n);
    } else {
      TokensConcatFrom(p, s, i + 1);
    }
  }

  lemma TokensConcat(p: string, s: string)
    requires Boundary(p, s)
    ensures Tokens(p + s) == Append(Tokens(p), Tokens(s))
  {
    TokensConcatFrom(p, s, 0);
  }
}
