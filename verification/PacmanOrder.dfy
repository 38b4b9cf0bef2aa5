/** pacman's version comparison (scripts/pkgrepo/versions.py, alpm_rpmvercmp and pacman_compare). */
module PacmanOrder {
  import opened Options
  import opened Orders
  import opened Decimal
  import opened Scan

  /** A segment with the length of the separator in front of it. `Trail` is a separator with nothing behind it. */
  datatype Token =
    | Letters(separator: nat, text: string)
    | Number(separator: nat, value: nat)
    | Trail
    | End

  function SegmentEnd(s: string, x: nat): (n: nat)
    requires x < |s| && IsAlnum(s[x])
    ensures x < n <= |s|
  {
    RunEnd(s, x, if IsDigit(s[x]) then Digit else Alpha)
  }

  function SegmentFrom(s: string, i: nat, x: nat): Token
    requires i <= x < |s| && IsAlnum(s[x])
  {
    if IsDigit(s[x]) then Number(x - i, Value(s[x..SegmentEnd(s, x)]))
    else Letters(x - i, s[x..SegmentEnd(s, x)])
  }

  function TokensFrom(s: string, i: nat): List<Token>
    requires i <= |s|
    decreases |s| - i
  {
    if i == |s| then Nil
    else
      var x := RunEnd(s, i, NonAlnum);
      if x == |s| then Cons(Trail, Nil) else Cons(SegmentFrom(s, i, x), TokensFrom(s, SegmentEnd(s, x)))
  }

  function Tokens(s: string): List<Token> {
    TokensFrom(s, 0)
  }

  predicate IsSegment(t: Token) {
    t.Letters? || t.Number?
  }

  /** The end is above letters with no separator and below every other segment; a trailing separator is above the end
      and above all letters, and below all numbers. */
  function TokenCmp(x: Token, y: Token): int {
    if !IsSegment(x) && !IsSegment(y) then Cmp(if x.Trail? then 1 else 0, if y.Trail? then 1 else 0)
    else if !IsSegment(x) then AgainstSegment(x, y)
    else if !IsSegment(y) then -AgainstSegment(y, x)
    else if x.separator != y.separator then Cmp(x.separator, y.separator)
    else if x.Letters? != y.Letters? then if x.Letters? then -1 else 1
    else if x.Letters? then StrCmp(x.text, y.text)
    else Cmp(x.value, y.value)
  }

  function AgainstSegment(x: Token, segment: Token): int
    requires !IsSegment(x) && IsSegment(segment)
  {
    if segment.Letters? && (x.Trail? || segment.separator == 0) then 1 else -1
  }

  function CompareFrom(a: string, i: nat, b: string, j: nat): int
    requires i <= |a| && j <= |b|
  {
    Lex(TokenCmp, End, TokensFrom(a, i), TokensFrom(b, j))
  }

  function Compare(a: string, b: string): int {
    CompareFrom(a, 0, b, 0)
  }

  // The loop.

  lemma TokenCmpIsReflexive()
    ensures Reflexive(TokenCmp)
  {
    forall x ensures TokenCmp(x, x) == 0 {
      if x.Letters? {
        StrCmpAntisymmetric(x.text, x.text);
      }
    }
  }

  /** A position inside `s` whose separator, of length x - i, has a segment behind it. */
  predicate SegmentAt(s: string, i: nat, x: nat) {
    i <= x < |s| && x == RunEnd(s, i, NonAlnum)
  }

  lemma SeparatorStep(a: string, i: nat, x: nat, b: string, j: nat, y: nat)
    requires SegmentAt(a, i, x) && SegmentAt(b, j, y)
    requires x - i != y - j
    ensures CompareFrom(a, i, b, j) == Cmp(x - i, y - j)
  {
  }

  lemma NumberStep(a: string, i: nat, x: nat, b: string, j: nat, y: nat)
    requires SegmentAt(a, i, x) && SegmentAt(b, j, y) && x - i == y - j && IsDigit(a[x])
    ensures var n, m := RunEnd(a, x, Digit), RunEnd(b, y, Digit);
      && (m == y ==> CompareFrom(a, i, b, j) == 1)
      && (m > y ==>
        var c := DigitsCmp(StripZeros(a[x..n]), StripZeros(b[y..m]));
        CompareFrom(a, i, b, j) == if c != 0 then c else CompareFrom(a, n, b, m))
  {
    var n, m := RunEnd(a, x, Digit), RunEnd(b, y, Digit);
    assert SegmentFrom(a, i, x) == Number(x - i, Value(a[x..n]));
    if m > y {
      DigitRun(a, x);
      DigitRun(b, y);
      StrippedOrder(a[x..n], b[y..m]);
      assert SegmentFrom(b, j, y) == Number(y - j, Value(b[y..m]));
    }
  }

  lemma LettersStep(a: string, i: nat, x: nat, b: string, j: nat, y: nat)
    requires SegmentAt(a, i, x) && SegmentAt(b, j, y) && x - i == y - j && IsAlpha(a[x])
    ensures var n, m := RunEnd(a, x, Alpha), RunEnd(b, y, Alpha);
      && (m == y ==> CompareFrom(a, i, b, j) == -1)
      && (m > y ==>
        var c := StrCmp(a[x..n], b[y..m]);
        CompareFrom(a, i, b, j) == if c != 0 then c else CompareFrom(a, n, b, m))
  {
    var n, m := RunEnd(a, x, Alpha), RunEnd(b, y, Alpha);
    assert SegmentFrom(a, i, x) == Letters(x - i, a[x..n]);
    if m > y {
      assert SegmentFrom(b, j, y) == Letters(y - j, b[y..m]);
    }
  }

  /** The code behind the loop: what is left of the strings decides. */
  function Remainder(restA: string, restB: string): int {
    if |restA| == 0 && |restB| == 0 then 0
    else if (|restA| == 0 && !IsAlpha(restB[0])) || (|restA| > 0 && IsAlpha(restA[0])) then -1
    else 1
  }

  /** The loop ends at the end of a string, either at once or behind a trailing separator. */
  lemma EndStep(a: string, i: nat, b: string, j: nat)
    requires i <= |a| && j <= |b|
    requires i == |a| || j == |b|
    ensures CompareFrom(a, i, b, j) == Remainder(a[i..], b[j..])
  {
    assert a[i..] == if i < |a| then [a[i]] + a[i + 1..] else [];
    assert b[j..] == if j < |b| then [b[j]] + b[j + 1..] else [];
  }

  lemma TrailStep(a: string, i: nat, b: string, j: nat)
    requires i < |a| && j < |b|
    requires RunEnd(a, i, NonAlnum) == |a| || RunEnd(b, j, NonAlnum) == |b|
    ensures CompareFrom(a, i, b, j) == Remainder(a[RunEnd(a, i, NonAlnum)..], b[RunEnd(b, j, NonAlnum)..])
  {
    var x, y := RunEnd(a, i, NonAlnum), RunEnd(b, j, NonAlnum);
    assert a[x..] == if x < |a| then [a[x]] + a[x + 1..] else [];
    assert b[y..] == if y < |b| then [b[y]] + b[y + 1..] else [];
    assert TokensFrom(a, i).head == if x == |a| then Trail else SegmentFrom(a, i, x);
    assert TokensFrom(b, j).head == if y == |b| then Trail else SegmentFrom(b, j, y);
    if x == |a| && y == |b| {
      assert Lex(TokenCmp, End, Nil, Nil) == 0;
    }
  }

  /** A round of the loop behind the separators: a segment of `a` against a segment of `b`; 0 when they are equal. */
  method CompareSegments(a: string, ghost i0: nat, startA: nat, b: string, ghost j0: nat, startB: nat)
      returns (r: int, i: nat, j: nat)
    requires SegmentAt(a, i0, startA) && SegmentAt(b, j0, startB) && startA - i0 == startB - j0
    ensures r != 0 ==> r == CompareFrom(a, i0, b, j0)
    ensures r == 0 ==> startA < i <= |a| && startB < j <= |b|
    ensures r == 0 ==> CompareFrom(a, i0, b, j0) == CompareFrom(a, i, b, j)
  {
    var numeric := IsDigit(a[startA]);
    if numeric {
      i := SkipRun(a, startA, Digit);
      j := SkipRun(b, startB, Digit);
      NumberStep(a, i0, startA, b, j0, startB);
    } else {
      i := SkipRun(a, startA, Alpha);
      j := SkipRun(b, startB, Alpha);
      LettersStep(a, i0, startA, b, j0, startB);
    }
    var segmentA, segmentB := a[startA..i], b[startB..j];
    if |segmentB| == 0 {
      return if numeric then 1 else -1, i, j;
    }
    if numeric {
      segmentA, segmentB := StripZeros(segmentA), StripZeros(segmentB);
      if |segmentA| != |segmentB| {
        return if |segmentA| > |segmentB| then 1 else -1, i, j;
      }
    }
    StrCmpAntisymmetric(segmentA, segmentB);
    if segmentA != segmentB {
      return if StrCmp(segmentA, segmentB) > 0 then 1 else -1, i, j;
    }
    r := 0;
  }

  method AlpmRpmVerCmp(a: string, b: string) returns (r: int)
    ensures r == Compare(a, b)
  {
    if a == b {
      TokenCmpIsReflexive();
      LexReflexive(TokenCmp, End, Tokens(a));
      return 0;
    }
    var i, j := 0, 0;
    var previousA, previousB := 0, 0;
    while i < |a| && j < |b|
      invariant 0 <= i <= |a| && 0 <= j <= |b|
      invariant previousA == i && previousB == j
      invariant CompareFrom(a, i, b, j) == Compare(a, b)
      decreases |a| - i
    {
      i := SkipRun(a, i, NonAlnum);
      j := SkipRun(b, j, NonAlnum);
      if i >= |a| || j >= |b| {
        TrailStep(a, previousA, b, previousB);
        return Remainder(a[i..], b[j..]);
      }
      if i - previousA != j - previousB {
        SeparatorStep(a, previousA, i, b, previousB, j);
        return if i - previousA < j - previousB then -1 else 1;
      }
      r, i, j := CompareSegments(a, previousA, i, b, previousB, j);
      if r != 0 { return r; }
      previousA, previousB := i, j;
    }
    EndStep(a, i, b, j);
    r := Remainder(a[i..], b[j..]);
  }

  // The order, and where it stops being one.

  predicate HasTrailingSeparator(s: string) {
    |s| > 0 && !IsAlnum(s[|s| - 1])
  }

  lemma {:induction false} TrailingSeparatorToken(s: string, i: nat)
    requires i <= |s|
    ensures Contains(TokensFrom(s, i), Trail) <==> i < |s| && HasTrailingSeparator(s)
    ensures !Contains(TokensFrom(s, i), End)
    decreases |s| - i
  {
    if i < |s| {
      var x := RunEnd(s, i, NonAlnum);
      RunIsOfClass(s, i, NonAlnum);
      if x == |s| {
        assert Is(NonAlnum, s[|s| - 1]);
      } else {
        var k := if IsDigit(s[x]) then Digit else Alpha;
        var n := SegmentEnd(s, x);
        TrailingSeparatorToken(s, n);
        RunIsOfClass(s, x, k);
        assert n == |s| ==> Is(k, s[|s| - 1]);
      }
    }
  }

  /** A place for every token on one scale, in which the end and the trailing separator coincide. */
  function Rank(t: Token): int {
    match t
    case Letters(separator, _) => if separator == 0 then 0 else 2 * separator + 1
    case Number(separator, _) => 2 * separator + 2
    case _ => 1
  }

  function SegmentOrder(x: Token, y: Token): int {
    if Rank(x) != Rank(y) then Cmp(Rank(x), Rank(y))
    else match x
      case Letters(_, text) => StrCmp(text, y.text)
      case Number(_, value) => Cmp(value, y.value)
      case _ => 0
  }

  lemma SegmentOrderIsTotalPreorder()
    ensures TotalPreorder(SegmentOrder)
  {
    forall x, y ensures SegmentOrder(x, y) == -SegmentOrder(y, x) {
      if x.Letters? && y.Letters? {
        StrCmpAntisymmetric(x.text, y.text);
      }
    }
    forall x, y, z | SegmentOrder(x, y) <= 0 && SegmentOrder(y, z) <= 0 ensures SegmentOrder(x, z) <= 0 {
      if x.Letters? && y.Letters? && z.Letters? && Rank(x) == Rank(y) == Rank(z) {
        StrCmpTransitive(x.text, y.text, z.text);
      }
    }
  }

  type Clean = s: string | !HasTrailingSeparator(s)

  function CleanOrder(a: string, b: string): int {
    Lex(SegmentOrder, End, Tokens(a), Tokens(b))
  }

  /** Without trailing separators the comparison is the lexicographic one of the segments of the two strings. */
  lemma CompareIsCleanOrder(a: Clean, b: Clean)
    ensures Compare(a, b) == CleanOrder(a, b)
  {
    TrailingSeparatorToken(a, 0);
    TrailingSeparatorToken(b, 0);
    forall x, y | (Contains(Tokens(a), x) || x == End) && (Contains(Tokens(b), y) || y == End)
      ensures TokenCmp(x, y) == SegmentOrder(x, y)
    {
    }
    LexCongruence(TokenCmp, SegmentOrder, End, Tokens(a), Tokens(b));
  }

  lemma CleanOrderIsTotalPreorder()
    ensures TotalPreorder(CleanOrder)
  {
    SegmentOrderIsTotalPreorder();
    LexIsTotalPreorder(SegmentOrder, End);
    PullbackIsTotalPreorder((s: List<Token>, t: List<Token>) => Lex(SegmentOrder, End, s, t), Tokens, CleanOrder);
  }

  lemma CompareIsTotalPreorderOnClean()
    ensures TotalPreorder((a: Clean, b: Clean) => Compare(a, b))
  {
    CleanOrderIsTotalPreorder();
    var cmp := (a: Clean, b: Clean) => Compare(a, b);
    forall a: Clean, b: Clean ensures cmp(a, b) == CleanOrder(a, b) {
      CompareIsCleanOrder(a, b);
    }
  }

  // Concatenation.

  lemma SegmentShift(ps: string, d: nat, s: string, i: nat, x: nat)
    requires Suffix(ps, d, s)
    requires SegmentAt(s, i, x)
    ensures SegmentAt(ps, d + i, d + x) && SegmentEnd(ps, d + x) == d + SegmentEnd(s, x)
    ensures SegmentFrom(ps, d + i, d + x) == SegmentFrom(s, i, x)
  {
    var k := if IsDigit(s[x]) then Digit else Alpha;
    RunEndShift(ps, d, s, i, NonAlnum);
    RunEndShift(ps, d, s, x, k);
    var n := RunEnd(s, x, k);
    SuffixSlice(ps, d, s, x, n);
  }

  lemma {:induction false} TokensShift(ps: string, d: nat, s: string, i: nat)
    requires Suffix(ps, d, s) && i <= |s|
    ensures TokensFrom(ps, d + i) == TokensFrom(s, i)
    decreases |s| - i
  {
    var x := RunEnd(s, i, NonAlnum);
    if x < |s| {
      SegmentShift(ps, d, s, i, x);
      TokensShift(ps, d, s, SegmentEnd(s, x));
    } else {
      RunEndShift(ps, d, s, i, NonAlnum);
    }
  }

  /** `p` ends with a segment, and no segment runs over its end into `s`. */
  predicate Boundary(p: string, s: string) {
    |p| == 0 || |s| == 0 ||
    (IsAlnum(p[|p| - 1]) &&
     !(IsDigit(p[|p| - 1]) && IsDigit(s[0])) && !(IsAlpha(p[|p| - 1]) && IsAlpha(s[0])))
  }

  lemma SegmentPrefix(p: string, s: string, i: nat, x: nat)
    requires SegmentAt(p, i, x) && Boundary(p, s)
    ensures SegmentAt(p + s, i, x) && SegmentEnd(p + s, x) == SegmentEnd(p, x)
    ensures SegmentFrom(p + s, i, x) == SegmentFrom(p, i, x)
  {
    var k := if IsDigit(p[x]) then Digit else Alpha;
    RunEndPrefix(p, s, i, NonAlnum);
    RunIsOfClass(p, x, k);
    RunEndPrefix(p, s, x, k);
    var n := RunEnd(p, x, k);
    assert (p + s)[x..n] == p[x..n];
  }

  lemma {:induction false} TokensConcatFrom(p: string, s: string, i: nat)
    requires i <= |p| && Boundary(p, s) && !HasTrailingSeparator(p)
    ensures TokensFrom(p + s, i) == Append(TokensFrom(p, i), Tokens(s))
    decreases |p| - i
  {
    if i == |p| {
      assert Suffix(p + s, |p|, s);
      TokensShift(p + s, |p|, s, 0);
    } else {
      var x := RunEnd(p, i, NonAlnum);
      assert !Is(NonAlnum, p[|p| - 1]);
      RunIsOfClass(p, i, NonAlnum);
      SegmentPrefix(p, s, i, x);
      TokensConcatFrom(p, s, SegmentEnd(p, x));
    }
  }

  lemma TokensConcat(p: string, s: string)
    requires Boundary(p, s) && !HasTrailingSeparator(p)
    ensures Tokens(p + s) == Append(Tokens(p), Tokens(s))
  {
    TokensConcatFrom(p, s, 0);
  }

  // Trailing separators.

  ghost predicate Cycle(x: string, y: string, z: string) {
    Compare(x, y) > 0 && Compare(y, z) > 0 && Compare(z, x) > 0
  }

  /** `s` without its trailing separator. */
  function Core(s: string): (c: string)
    ensures c <= s && !HasTrailingSeparator(c)
    ensures forall k :: |c| <= k < |s| ==> !IsAlnum(s[k])
  {
    if HasTrailingSeparator(s) then Core(s[..|s| - 1]) else s
  }

  lemma TokensOfTails()
    ensures Tokens("..a") == Cons(Letters(2, "a"), Nil)
    ensures Tokens(".1") == Cons(Number(1, 1), Nil)
  {
    RunEndUnique("..a", 0, NonAlnum, 2);
    RunEndUnique("..a", 2, Alpha, 3);
    assert "..a"[2..3] == "a";
    RunEndUnique(".1", 0, NonAlnum, 1);
    RunEndUnique(".1", 1, Digit, 2);
    assert ".1"[1..2] == "1" && "1"[..0] == "";
    assert TokensFrom("..a", 3) == Nil && TokensFrom(".1", 2) == Nil;
  }

  /** Every string with a trailing separator is on a cycle with two strings that have none, and no other string is:
      dropping the hypothesis of `CompareIsTotalPreorderOnClean` for any one string loses the order. */
  lemma TrailingSeparatorIffCycle(x: string)
    ensures HasTrailingSeparator(x) <==> exists y: Clean, z: Clean :: Cycle(x, y, z)
  {
    if HasTrailingSeparator(x) {
      var w := Core(x);
      var y: Clean, z: Clean := w + "..a", w + ".1";
      var tail := x[|w|..];
      assert x == w + tail && |tail| > 0;
      TokensOfTails();
      RunEndUnique(tail, 0, NonAlnum, |tail|);
      assert Tokens(tail) == Cons(Trail, Nil);
      TokensConcat(w, tail);
      TokensConcat(w, "..a");
      TokensConcat(w, ".1");
      TokenCmpIsReflexive();
      LexPrefix(TokenCmp, End, Tokens(w), Cons(Trail, Nil), Cons(Letters(2, "a"), Nil));
      LexPrefix(TokenCmp, End, Tokens(w), Cons(Letters(2, "a"), Nil), Cons(Number(1, 1), Nil));
      LexPrefix(TokenCmp, End, Tokens(w), Cons(Number(1, 1), Nil), Cons(Trail, Nil));
      assert Cycle(x, y, z);
    } else {
      forall y: Clean, z: Clean ensures !Cycle(x, y, z) {
        CompareIsTotalPreorderOnClean();
        var cmp := (a: Clean, b: Clean) => Compare(a, b);
        var x': Clean := x;
        assert cmp(x', y) == -cmp(y, x') && cmp(y, z) == -cmp(z, y) && cmp(z, x') == -cmp(x', z);
        assert !(cmp(y, x') < 0 && cmp(z, y) < 0 && cmp(z, x') > 0);
      }
    }
  }

  // Whole version strings: [epoch:]pkgver[-pkgrel].

  datatype Version = Version(epoch: string, pkgver: string, pkgrel: Option<string>)

  /** How much of `s` the epoch and its colon take; 0 when there is no epoch. */
  function EpochLength(s: string): (n: nat)
    ensures n <= |s|
  {
    var colon := IndexOf(s, ':', 0);
    if 0 < colon < |s| && AllDigits(s[..colon]) then colon + 1 else 0
  }

  function SplitRelease(epoch: string, s: string): Version {
    match LastIndexOf(s, '-')
    case None => Version(epoch, s, None)
    case Some(k) => Version(epoch, s[..k], Some(s[k + 1..]))
  }

  function SplitEvr(s: string): Version {
    var n := EpochLength(s);
    SplitRelease(if n == 0 then "0" else s[..n - 1], s[n..])
  }

  function VersionOrder(x: Version, y: Version): int {
    if Compare(x.epoch, y.epoch) != 0 then Compare(x.epoch, y.epoch)
    else if Compare(x.pkgver, y.pkgver) != 0 then Compare(x.pkgver, y.pkgver)
    else if x.pkgrel.Some? && y.pkgrel.Some? then Compare(x.pkgrel.value, y.pkgrel.value)
    else 0
  }

  function PacmanOrder(a: string, b: string): int {
    VersionOrder(SplitEvr(a), SplitEvr(b))
  }

  method PacmanCompare(a: string, b: string) returns (r: int)
    ensures r == PacmanOrder(a, b)
  {
    if a == b {
      TokenCmpIsReflexive();
      var v := SplitEvr(a);
      LexReflexive(TokenCmp, End, Tokens(v.epoch));
      LexReflexive(TokenCmp, End, Tokens(v.pkgver));
      if v.pkgrel.Some? {
        LexReflexive(TokenCmp, End, Tokens(v.pkgrel.value));
      }
      return 0;
    }
    var x, y := SplitEvr(a), SplitEvr(b);
    r := AlpmRpmVerCmp(x.epoch, y.epoch);
    if r == 0 {
      r := AlpmRpmVerCmp(x.pkgver, y.pkgver);
      if r == 0 && x.pkgrel.Some? && y.pkgrel.Some? {
        r := AlpmRpmVerCmp(x.pkgrel.value, y.pkgrel.value);
      }
    }
  }

  /** A version with a pkgrel and without trailing separators. */
  predicate IsComplete(s: string) {
    var v := SplitEvr(s);
    v.pkgrel.Some? && !HasTrailingSeparator(v.pkgver) && !HasTrailingSeparator(v.pkgrel.value)
  }

  type Complete = s: string | IsComplete(s) witness "-"

  lemma VersionOrderIsTotalPreorder()
    ensures TotalPreorder((a: Complete, b: Complete) => PacmanOrder(a, b))
  {
    CompareIsTotalPreorderOnClean();
    var clean := (a: Clean, b: Clean) => Compare(a, b);
    var byEpoch := (a: Complete, b: Complete) => Compare(SplitEvr(a).epoch, SplitEvr(b).epoch);
    var byPkgver := (a: Complete, b: Complete) => Compare(SplitEvr(a).pkgver, SplitEvr(b).pkgver);
    var byPkgrel := (a: Complete, b: Complete) => Compare(SplitEvr(a).pkgrel.value, SplitEvr(b).pkgrel.value);
    PullbackIsTotalPreorder<Complete, Clean>(clean, (a: Complete) => SplitEvr(a).epoch, byEpoch);
    PullbackIsTotalPreorder<Complete, Clean>(clean, (a: Complete) => SplitEvr(a).pkgver, byPkgver);
    PullbackIsTotalPreorder<Complete, Clean>(clean, (a: Complete) => SplitEvr(a).pkgrel.value, byPkgrel);
    var rest := (a: Complete, b: Complete) => if byPkgver(a, b) != 0 then byPkgver(a, b) else byPkgrel(a, b);
    ThenIsTotalPreorder(byPkgver, byPkgrel, rest);
    ThenIsTotalPreorder(byEpoch, rest, (a: Complete, b: Complete) => PacmanOrder(a, b));
  }

  lemma EpochLengthConcat(x: string, t: string)
    requires ':' !in t
    ensures EpochLength(x + t) == EpochLength(x)
  {
    IndexOfConcat(x, t, ':', 0);
    var colon := IndexOf(x, ':', 0);
    if colon < |x| {
      assert (x + t)[..colon] == x[..colon];
    }
  }

  lemma SplitReleaseConcat(epoch: string, x: string, n: char)
    requires n != '-'
    ensures SplitRelease(epoch, x + "-" + [n]) == Version(epoch, x, Some([n]))
  {
    var full := x + "-" + [n];
    assert full == x + ['-'] + [n];
    LastIndexOfConcat(x, [n], '-');
    assert full[..|x|] == x && full[|x| + 1..] == [n];
  }

  /** A version without an epoch splits at the hyphen in front of its pkgrel. */
  lemma SplitWithRelease(x: string, pkgrel: Option<string>)
    requires Unhyphened(x) && (pkgrel.Some? ==> Unhyphened(pkgrel.value))
    ensures SplitEvr(WithRelease(x, pkgrel)) == Version("0", x, pkgrel)
  {
    var s := WithRelease(x, pkgrel);
    IndexOfAbsent(s, ':', 0);
    assert EpochLength(s) == 0 && s[0..] == s;
    if pkgrel.Some? {
      assert s == x + ['-'] + pkgrel.value;
      LastIndexOfConcat(x, pkgrel.value, '-');
      assert s[..|x|] == x && s[|x| + 1..] == pkgrel.value;
    }
  }

  /** Appending a pkgrel to a version that has none changes nothing else. */
  lemma SplitWithPkgrel(x: string, n: char)
    requires SplitEvr(x).pkgrel.None? && IsDigit(n)
    ensures SplitEvr(x + "-" + [n]) == SplitEvr(x).(pkgrel := Some([n]))
  {
    var full, k := x + "-" + [n], EpochLength(x);
    assert full == x + ['-', n];
    EpochLengthConcat(x, ['-', n]);
    assert full[k..] == x[k..] + "-" + [n];
    assert k > 0 ==> full[..k - 1] == x[..k - 1];
    SplitReleaseConcat(if k == 0 then "0" else x[..k - 1], x[k..], n);
  }

  lemma PkgrelsDiffer()
    ensures Compare("1", "2") == -1
  {
    RunEndUnique("1", 0, NonAlnum, 0);
    RunEndUnique("1", 0, Digit, 1);
    RunEndUnique("2", 0, NonAlnum, 0);
    RunEndUnique("2", 0, Digit, 1);
    assert "1"[0..1] == "1" && "1"[..0] == "" && "2"[0..1] == "2" && "2"[..0] == "";
    assert Tokens("1") == Cons(Number(0, 1), Nil) && Tokens("2") == Cons(Number(0, 2), Nil);
  }

  ghost predicate Tie(x: string, y: string, z: string) {
    PacmanOrder(y, x) == 0 && PacmanOrder(x, z) == 0 && PacmanOrder(y, z) != 0
  }

  lemma MissingPkgrelTies(x: string)
    requires SplitEvr(x).pkgrel.None?
    ensures Tie(x, x + "-" + ['1'], x + "-" + ['2'])
  {
    var v := SplitEvr(x);
    SplitWithPkgrel(x, '1');
    SplitWithPkgrel(x, '2');
    TokenCmpIsReflexive();
    LexReflexive(TokenCmp, End, Tokens(v.epoch));
    LexReflexive(TokenCmp, End, Tokens(v.pkgver));
    PkgrelsDiffer();
    assert ['1'] == "1" && ['2'] == "2";
  }

  lemma CompleteHasNoTie(x: Complete, y: Complete, z: Complete)
    ensures !Tie(x, y, z)
  {
    var order := (a: Complete, b: Complete) => PacmanOrder(a, b);
    VersionOrderIsTotalPreorder();
    assert order(y, x) == -order(x, y) && order(x, z) == -order(z, x) && order(y, z) == -order(z, y);
    assert order(y, x) == 0 == order(x, z) ==> order(y, z) <= 0 && order(z, y) <= 0;
  }

  /** A version without a pkgrel equals versions that differ, and a complete one never does. */
  lemma MissingPkgrelIffTie(x: string)
    requires !HasTrailingSeparator(SplitEvr(x).pkgver)
    requires SplitEvr(x).pkgrel.Some? ==> !HasTrailingSeparator(SplitEvr(x).pkgrel.value)
    ensures SplitEvr(x).pkgrel.None? <==> exists y: Complete, z: Complete :: Tie(x, y, z)
  {
    if SplitEvr(x).pkgrel.None? {
      SplitWithPkgrel(x, '1');
      SplitWithPkgrel(x, '2');
      var y: Complete, z: Complete := x + "-" + ['1'], x + "-" + ['2'];
      MissingPkgrelTies(x);
      assert Tie(x, y, z);
    } else {
      forall y: Complete, z: Complete ensures !Tie(x, y, z) {
        CompleteHasNoTie(x, y, z);
      }
    }
  }
}
