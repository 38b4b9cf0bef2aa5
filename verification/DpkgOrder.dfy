/** Debian's version comparison (scripts/pkgrepo/versions.py, _verrevcmp and dpkg_compare). */
module DpkgOrder {
  import opened Orders
  import opened Decimal
  import opened Scan
  import opened Options

  /** A run of non-digits, by the orders of its characters, and the number behind it. */
  datatype Part = Part(run: List<int>, number: nat)

  const PADDING := Part(Nil, 0)

  function Order(c: char): int {
    if IsDigit(c) then 0
    else if IsAlpha(c) then c as int
    else if c == '~' then -1
    else c as int + 256
  }

  function RunFrom(s: string, i: nat): List<int>
    requires i <= |s|
    decreases |s| - i
  {
    if i < |s| && !IsDigit(s[i]) then Cons(Order(s[i]), RunFrom(s, i + 1)) else Nil
  }

  /** Where the pair that starts at `i` ends. */
  function PairEnd(s: string, i: nat): nat
    requires i <= |s|
    ensures i <= PairEnd(s, i) <= |s| && (i < |s| ==> i < PairEnd(s, i))
  {
    RunEnd(s, RunEnd(s, i, NonDigit), Digit)
  }

  function PairFrom(s: string, i: nat): Part
    requires i <= |s|
  {
    Part(RunFrom(s, i), Value(s[RunEnd(s, i, NonDigit)..PairEnd(s, i)]))
  }

  /** The pairs of `s` from position `i` on; no other string has any influence on them. */
  function PartsFrom(s: string, i: nat): List<Part>
    requires i <= |s|
    decreases |s| - i
  {
    if i == |s| then Nil else Cons(PairFrom(s, i), PartsFrom(s, PairEnd(s, i)))
  }

  function Parts(s: string): List<Part> {
    PartsFrom(s, 0)
  }

  /** The end of a run has order 0: above the tilde and below every letter. */
  function RunCmp(x: List<int>, y: List<int>): int {
    Lex(Cmp, 0, x, y)
  }

  function PartCmp(x: Part, y: Part): int {
    if RunCmp(x.run, y.run) != 0 then RunCmp(x.run, y.run) else Cmp(x.number, y.number)
  }

  function CompareFrom(a: string, i: nat, b: string, j: nat): int
    requires i <= |a| && j <= |b|
  {
    Lex(PartCmp, PADDING, PartsFrom(a, i), PartsFrom(b, j))
  }

  function Compare(a: string, b: string): int {
    CompareFrom(a, 0, b, 0)
  }

  lemma CmpIsTotalPreorder()
    ensures TotalPreorder(Cmp)
  {
  }

  lemma PartCmpIsTotalPreorder()
    ensures TotalPreorder(PartCmp)
  {
    CmpIsTotalPreorder();
    LexIsTotalPreorder(Cmp, 0);
    var byRun := (x: Part, y: Part) => RunCmp(x.run, y.run);
    var byNumber := (x: Part, y: Part) => Cmp(x.number, y.number);
    PullbackIsTotalPreorder((x: List<int>, y: List<int>) => Lex(Cmp, 0, x, y), (x: Part) => x.run, byRun);
    ThenIsTotalPreorder(byRun, byNumber, PartCmp);
  }

  lemma CompareIsTotalPreorder()
    ensures TotalPreorder(Compare)
  {
    PartCmpIsTotalPreorder();
    LexIsTotalPreorder(PartCmp, PADDING);
    PullbackIsTotalPreorder((s: List<Part>, t: List<Part>) => Lex(PartCmp, PADDING, s, t), Parts, Compare);
  }

  // The loops.

  function OrderAt(s: string, i: nat): int
    requires i <= |s|
  {
    if i < |s| then Order(s[i]) else 0
  }

  /** The first inner loop: the runs of non-digits, character by character. */
  method CompareRuns(a: string, startA: nat, b: string, startB: nat) returns (r: int, i: nat, j: nat)
    requires startA <= |a| && startB <= |b|
    ensures Sign(r) == RunCmp(RunFrom(a, startA), RunFrom(b, startB))
    ensures r == 0 ==> i == RunEnd(a, startA, NonDigit) && j == RunEnd(b, startB, NonDigit)
  {
    i, j := startA, startB;
    while (i < |a| && !IsDigit(a[i])) || (j < |b| && !IsDigit(b[j]))
      invariant startA <= i <= |a| && startB <= j <= |b|
      invariant RunEnd(a, i, NonDigit) == RunEnd(a, startA, NonDigit)
      invariant RunEnd(b, j, NonDigit) == RunEnd(b, startB, NonDigit)
      invariant RunCmp(RunFrom(a, i), RunFrom(b, j)) == RunCmp(RunFrom(a, startA), RunFrom(b, startB))
      decreases |a| - i
    {
      var orderA, orderB := OrderAt(a, i), OrderAt(b, j);
      if orderA != orderB {
        return orderA - orderB, i, j;
      }
      i, j := i + 1, j + 1;
    }
    r := 0;
  }

  /** Leading zeros change neither the number nor where it ends. */
  lemma {:induction false} ZerosDoNotCount(s: string, i: nat)
    requires i <= |s|
    ensures var z, m := RunEnd(s, i, Zero), RunEnd(s, i, Digit);
      z <= m && RunEnd(s, z, Digit) == m && Value(s[i..m]) == Value(s[z..m])
    decreases |s| - i
  {
    var m := RunEnd(s, i, Digit);
    if i < |s| && s[i] == '0' {
      ZerosDoNotCount(s, i + 1);
      assert s[i..m] == [s[i]] + s[i + 1..m];
      ValueConcat([s[i]], s[i + 1..m]);
    }
  }

  /** The last inner loop: the longer digit run wins, then the first different digit. */
  method CompareDigits(a: string, startA: nat, b: string, startB: nat) returns (r: int, i: nat, j: nat)
    requires startA <= |a| && startB <= |b|
    ensures var m, n := RunEnd(a, startA, Digit), RunEnd(b, startB, Digit);
      && Sign(r) == DigitsCmp(a[startA..m], b[startB..n])
      && (r == 0 ==> i == m && j == n)
  {
    i, j := startA, startB;
    ghost var m, n := RunEnd(a, i, Digit), RunEnd(b, j, Digit);
    var firstDiff := 0;
    while i < |a| && IsDigit(a[i]) && j < |b| && IsDigit(b[j])
      invariant startA <= i <= |a| && startB <= j <= |b| && i - startA == j - startB
      invariant RunEnd(a, i, Digit) == m && RunEnd(b, j, Digit) == n
      invariant Sign(firstDiff) == StrCmp(a[startA..i], b[startB..j])
    {
      StrCmpLast(a[startA..i], b[startB..j], a[i], b[j]);
      assert a[startA..i + 1] == a[startA..i] + [a[i]] && b[startB..j + 1] == b[startB..j] + [b[j]];
      if firstDiff == 0 {
        firstDiff := a[i] as int - b[j] as int;
      }
      i, j := i + 1, j + 1;
    }
    if i < |a| && IsDigit(a[i]) { return 1, i, j; }
    if j < |b| && IsDigit(b[j]) { return -1, i, j; }
    r := firstDiff;
  }

  /** The numbers at two positions: zeros are skipped first. */
  method CompareNumbers(a: string, startA: nat, b: string, startB: nat) returns (r: int, i: nat, j: nat)
    requires startA <= |a| && startB <= |b|
    ensures var m, n := RunEnd(a, startA, Digit), RunEnd(b, startB, Digit);
      && Sign(r) == Cmp(Value(a[startA..m]), Value(b[startB..n]))
      && (r == 0 ==> i == m && j == n)
  {
    ZerosDoNotCount(a, startA);
    ZerosDoNotCount(b, startB);
    i := SkipRun(a, startA, Zero);
    j := SkipRun(b, startB, Zero);
    DigitRun(a, i);
    DigitRun(b, j);
    ValueOrderStripped(a[i..RunEnd(a, i, Digit)], b[j..RunEnd(b, j, Digit)]);
    r, i, j := CompareDigits(a, i, b, j);
  }

  method VerRevCmp(a: string, b: string) returns (r: int)
    ensures Sign(r) == Compare(a, b)
  {
    var i, j := 0, 0;
    while i < |a| || j < |b|
      invariant 0 <= i <= |a| && 0 <= j <= |b|
      invariant CompareFrom(a, i, b, j) == Compare(a, b)
      decreases |a| - i + |b| - j
    {
      ghost var i0, j0 := i, j;
      r, i, j := CompareRuns(a, i, b, j);
      if r != 0 { return; }
      r, i, j := CompareNumbers(a, i, b, j);
      if r != 0 { return; }
    }
    r := 0;
  }

  // Whole version strings: [epoch:]upstream[-revision].

  /** The epoch is a decimal number in front of the first colon, the revision stands behind the last hyphen. */
  function SplitDeb(s: string): Option<Evr> {
    var colon := IndexOf(s, ':', 0);
    var head, tail := s[..colon], if colon < |s| then s[colon + 1..] else s;
    if colon < |s| && !(|head| > 0 && AllDigits(head)) then None
    else
      var epoch := if colon < |s| then Value(head) else 0;
      var hyphen := LastIndexOf(tail, '-');
      match hyphen
      case None => Some(Evr(epoch, tail, ""))
      case Some(k) => Some(Evr(epoch, tail[..k], tail[k + 1..]))
  }

  /** None stands for the error that int() raises on an epoch that is no number. */
  function DebOrder(a: string, b: string): Option<int> {
    var x, y := SplitDeb(a), SplitDeb(b);
    if x.None? || y.None? then None else Some(EvrOrder(Compare, x.value, y.value))
  }

  method DpkgCompare(a: string, b: string) returns (r: Option<int>)
    ensures r == DebOrder(a, b)
  {
    var x, y := SplitDeb(a), SplitDeb(b);
    if x.None? || y.None? {
      return None;
    }
    var left, right := x.value, y.value;
    if left.epoch != right.epoch {
      return Some(if left.epoch > right.epoch then 1 else -1);
    }
    var result := VerRevCmp(left.version, right.version);
    if result == 0 {
      result := VerRevCmp(left.release, right.release);
    }
    r := Some(if result > 0 then 1 else if result < 0 then -1 else 0);
  }

  type DebVersion = s: string | SplitDeb(s).Some? witness ""

  /** Whole versions whose epoch is a number are totally preordered. */
  lemma VersionOrderIsTotalPreorder()
    ensures TotalPreorder((a: DebVersion, b: DebVersion) => DebOrder(a, b).value)
  {
    CompareIsTotalPreorder();
    EvrOrderIsTotalPreorder(Compare);
    PullbackIsTotalPreorder((a: Evr, b: Evr) => EvrOrder(Compare, a, b), (s: DebVersion) => SplitDeb(s).value,
      (a: DebVersion, b: DebVersion) => DebOrder(a, b).value);
  }

  /** A version without an epoch splits at the hyphen in front of its revision. */
  lemma SplitWithRevision(x: string, revision: Option<string>)
    requires Unhyphened(x) && (revision.Some? ==> Unhyphened(revision.value))
    ensures SplitDeb(WithRelease(x, revision)) == Some(Evr(0, x, if revision.Some? then revision.value else ""))
  {
    IndexOfAbsent(WithRelease(x, revision), ':', 0);
    if revision.Some? {
      var s := WithRelease(x, revision);
      assert s == x + ['-'] + revision.value;
      LastIndexOfConcat(x, revision.value, '-');
      assert s[..|x|] == x && s[|x| + 1..] == revision.value;
    }
  }

  // Concatenation.

  lemma {:induction false} RunShift(ps: string, d: nat, s: string, i: nat)
    requires Suffix(ps, d, s) && i <= |s|
    ensures RunFrom(ps, d + i) == RunFrom(s, i)
    decreases |s| - i
  {
    if i < |s| && !IsDigit(s[i]) {
      RunShift(ps, d, s, i + 1);
    }
  }

  lemma PairShift(ps: string, d: nat, s: string, i: nat)
    requires Suffix(ps, d, s) && i <= |s|
    ensures PairEnd(ps, d + i) == d + PairEnd(s, i)
    ensures PairFrom(ps, d + i) == PairFrom(s, i)
  {
    var n, m := RunEnd(s, i, NonDigit), PairEnd(s, i);
    RunEndShift(ps, d, s, i, NonDigit);
    RunEndShift(ps, d, s, n, Digit);
    RunShift(ps, d, s, i);
    SuffixSlice(ps, d, s, n, m);
  }

  lemma {:induction false} PartsShift(ps: string, d: nat, s: string, i: nat)
    requires Suffix(ps, d, s) && i <= |s|
    ensures PartsFrom(ps, d + i) == PartsFrom(s, i)
    decreases |s| - i
  {
    if i < |s| {
      PairShift(ps, d, s, i);
      PartsShift(ps, d, s, PairEnd(s, i));
    }
  }

  lemma {:induction false} RunPrefix(p: string, s: string, i: nat)
    requires i <= |p| && |p| > 0 && IsDigit(p[|p| - 1])
    ensures RunFrom(p + s, i) == RunFrom(p, i) || i == |p|
    decreases |p| - i
  {
    if i < |p| && !IsDigit(p[i]) {
      RunPrefix(p, s, i + 1);
    }
  }

  lemma PairPrefix(p: string, s: string, i: nat)
    requires i < |p| && IsDigit(p[|p| - 1])
    requires |s| > 0 ==> !IsDigit(s[0])
    ensures PairEnd(p + s, i) == PairEnd(p, i) && PairFrom(p + s, i) == PairFrom(p, i)
  {
    var n, m := RunEnd(p, i, NonDigit), PairEnd(p, i);
    assert !Is(NonDigit, p[|p| - 1]);
    RunIsOfClass(p, i, NonDigit);
    RunEndPrefix(p, s, i, NonDigit);
    RunEndPrefix(p, s, n, Digit);
    RunPrefix(p, s, i);
    assert (p + s)[n..m] == p[n..m];
  }

  lemma {:induction false} PartsConcatFrom(p: string, s: string, i: nat)
    requires i <= |p|
    requires |p| > 0 ==> IsDigit(p[|p| - 1])
    requires |s| > 0 ==> !IsDigit(s[0])
    ensures PartsFrom(p + s, i) == Append(PartsFrom(p, i), Parts(s))
    decreases |p| - i
  {
    if i == |p| {
      assert Suffix(p + s, |p|, s);
      PartsShift(p + s, |p|, s, 0);
    } else {
      PairPrefix(p, s, i);
      PartsConcatFrom(p, s, PairEnd(p, i));
    }
  }

  /** A string that ends in a digit ends a pair, so what follows starts a new one. */
  lemma PartsConcat(p: string, s: string)
    requires |p| > 0 ==> IsDigit(p[|p| - 1])
    requires |s| > 0 ==> !IsDigit(s[0])
    ensures Parts(p + s) == Append(Parts(p), Parts(s))
  {
    PartsConcatFrom(p, s, 0);
  }
}
