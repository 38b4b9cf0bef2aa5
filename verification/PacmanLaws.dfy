/** What pacman's order says of strings, in terms of their characters (scripts/pkgrepo/versions.py, alpm_rpmvercmp and
    _split_evr). */
module PacmanLaws {
  import opened Options
  import opened Orders
  import opened Decimal
  import opened Scan
  import opened P = PacmanOrder

  predicate IsSeparator(s: string) {
    forall k :: 0 <= k < |s| ==> !IsAlnum(s[k])
  }

  predicate StartsSegment(s: string) {
    |s| > 0 && IsAlnum(s[0])
  }

  lemma SegmentTokens(s: string)
    requires StartsSegment(s)
    ensures Tokens(s) == Cons(SegmentFrom(s, 0, 0), TokensFrom(s, SegmentEnd(s, 0)))
  {
  }

  function Moved(t: Token, separator: nat): Token
    requires IsSegment(t)
  {
    t.(separator := separator)
  }

  lemma SeparatedTokens(p: string, s: string)
    requires IsSeparator(p) && StartsSegment(s)
    ensures Tokens(p + s) == Cons(Moved(SegmentFrom(s, 0, 0), |p|), TokensFrom(s, SegmentEnd(s, 0)))
  {
    var ps := p + s;
    RunEndUnique(ps, 0, NonAlnum, |p|);
    assert Suffix(ps, |p|, s);
    SegmentShift(ps, |p|, s, 0, 0);
    TokensShift(ps, |p|, s, SegmentEnd(s, 0));
  }

  /** The longer separator is newer, and separators of one length do not count. */
  lemma SeparatorsDecide(p: string, s: string, q: string, t: string)
    requires IsSeparator(p) && StartsSegment(s)
    requires IsSeparator(q) && StartsSegment(t)
    ensures |p| < |q| ==> Compare(p + s, q + t) == -1
    ensures |p| == |q| ==> Compare(p + s, q + t) == Compare(s, t)
  {
    SeparatedTokens(p, s);
    SeparatedTokens(q, t);
    SegmentTokens(s);
    SegmentTokens(t);
  }

  lemma TrailTokens(p: string)
    requires IsSeparator(p) && |p| > 0
    ensures Tokens(p) == Cons(Trail, Nil)
  {
    RunEndUnique(p, 0, NonAlnum, |p|);
  }

  /** Where both strings end, or one of them behind a separator: letters are older than that, and numbers newer. */
  lemma TrailingSeparatorDecides(p: string, q: string, c: char, t: string)
    requires IsSeparator(p) && |p| > 0 && IsSeparator(q)
    ensures |q| > 0 ==> Compare(p, q) == 0
    ensures IsAlpha(c) ==> Compare(q + ([c] + t), p) == -1
    ensures IsDigit(c) ==> Compare(p, q + ([c] + t)) == -1
  {
    TrailTokens(p);
    if |q| > 0 {
      TrailTokens(q);
    }
    if IsAlnum(c) {
      SeparatedTokens(q, [c] + t);
    }
  }

  /** Where one string ends: letters at once are older, and everything else is newer. */
  lemma EndDecides(c: char, s: string)
    ensures IsAlpha(c) ==> Compare([c] + s, "") == -1
    ensures !IsAlpha(c) ==> Compare("", [c] + s) == -1
    ensures Compare("", "") == 0
  {
  }

  /** Letters are older than digits. */
  lemma LettersBelowDigits(c: char, s: string, d: char, t: string)
    requires IsAlpha(c) && IsDigit(d)
    ensures Compare([c] + s, [d] + t) == -1
  {
  }

  lemma NumberTokens(d: string, s: string)
    requires IsNumber(d) && (|s| > 0 ==> !IsDigit(s[0]))
    ensures Tokens(d + s) == Cons(Number(0, Value(d)), Tokens(s))
  {
    RunEndUnique(d, 0, Digit, |d|);
    assert d[0..|d|] == d && TokensFrom(d, |d|) == Nil;
    assert Tokens(d) == Cons(Number(0, Value(d)), Nil);
    TokensConcat(d, s);
  }

  /** Numbers decide by their values, however they are spelt. */
  lemma NumbersDecide(d: string, s: string, e: string, t: string)
    requires IsNumber(d) && (|s| > 0 ==> !IsDigit(s[0]))
    requires IsNumber(e) && (|t| > 0 ==> !IsDigit(t[0]))
    ensures Value(d) < Value(e) ==> Compare(d + s, e + t) == -1
    ensures Value(d) == Value(e) ==> Compare(d + s, e + t) == Compare(s, t)
  {
    NumberTokens(d, s);
    NumberTokens(e, t);
  }

  lemma WordTokens(w: string, s: string)
    requires IsWord(w) && (|s| > 0 ==> !IsAlpha(s[0]))
    ensures Tokens(w + s) == Cons(Letters(0, w), Tokens(s))
  {
    RunEndUnique(w, 0, Alpha, |w|);
    assert w[0..|w|] == w && TokensFrom(w, |w|) == Nil;
    assert Tokens(w) == Cons(Letters(0, w), Nil);
    TokensConcat(w, s);
  }

  /** Words decide as text. */
  lemma WordsDecide(v: string, s: string, w: string, t: string)
    requires IsWord(v) && (|s| > 0 ==> !IsAlpha(s[0]))
    requires IsWord(w) && (|t| > 0 ==> !IsAlpha(t[0]))
    ensures TextBefore(v, w) ==> Compare(v + s, w + t) == -1
    ensures v == w ==> Compare(v + s, w + t) == Compare(s, t)
  {
    WordTokens(v, s);
    WordTokens(w, t);
    StrCmpIsTextOrder(v, w);
    StrCmpAntisymmetric(v, w);
  }

  // Whole version strings.

  lemma SplitHyphened(x: string, r: string)
    requires ':' !in x && Unhyphened(r)
    ensures SplitEvr(x + "-" + r) == Version("0", x, Some(r))
  {
    var s := x + "-" + r;
    IndexOfAbsent(s, ':', 0);
    LastIndexOfConcat(x, r, '-');
    assert s == x + ['-'] + r && s[0..] == s;
    assert s[..|x|] == x && s[|x| + 1..] == r;
  }

  lemma SplitUnhyphened(x: string)
    requires Unhyphened(x)
    ensures SplitEvr(x) == Version("0", x, None)
  {
    IndexOfAbsent(x, ':', 0);
    assert x[0..] == x;
  }

  lemma ComparesReflexively(s: string)
    ensures Compare(s, s) == 0
  {
    TokenCmpIsReflexive();
    LexReflexive(TokenCmp, End, Tokens(s));
  }

  /** What stands behind the last hyphen is the pkgrel, and decides when nothing in front of it does. */
  lemma PkgrelDecidesLast(x: string, r: string, y: string, q: string)
    requires ':' !in x && Unhyphened(r)
    requires ':' !in y && Unhyphened(q)
    ensures PacmanOrder(x + "-" + r, y + "-" + q) == if Compare(x, y) != 0 then Compare(x, y) else Compare(r, q)
    ensures PacmanOrder(x + "-" + r, x + "-" + q) == Compare(r, q)
  {
    SplitHyphened(x, r);
    SplitHyphened(y, q);
    SplitHyphened(x, q);
    ComparesReflexively("0");
    ComparesReflexively(x);
  }

  /** A version without a pkgrel compares by its pkgver alone. */
  lemma MissingPkgrelDoesNotCount(x: string, y: string, q: string)
    requires Unhyphened(x) && ':' !in y && Unhyphened(q)
    ensures PacmanOrder(x, y + "-" + q) == Compare(x, y) && PacmanOrder(y + "-" + q, x) == Compare(y, x)
    ensures Unhyphened(y) ==> PacmanOrder(x, y) == Compare(x, y)
  {
    SplitUnhyphened(x);
    SplitHyphened(y, q);
    ComparesReflexively("0");
    if Unhyphened(y) {
      SplitUnhyphened(y);
    }
  }

  lemma SplitEpoch(epoch: string, x: string)
    requires IsNumber(epoch)
    ensures SplitEvr(epoch + ":" + x) == SplitRelease(epoch, x)
  {
    ColonBehind(epoch, x);
  }

  lemma SplitKeepsEpoch(epoch: string, x: string)
    ensures SplitRelease(epoch, x) == SplitRelease("0", x).(epoch := epoch)
  {
  }

  /** The epoch decides first, upwards; with equal epochs the rest decides. */
  lemma EpochDecidesFirst(d: string, x: string, e: string, y: string)
    requires IsNumber(d) && IsNumber(e)
    ensures Value(d) < Value(e) ==> PacmanOrder(d + ":" + x, e + ":" + y) == -1
    ensures Value(d) == Value(e) ==> PacmanOrder(d + ":" + x, e + ":" + y) == PacmanOrder("0:" + x, "0:" + y)
  {
    hide Value, Compare, P.SplitRelease, SplitEvr;
    assert "0" + ":" == "0:";
    SplitEpoch(d, x);
    SplitEpoch(e, y);
    SplitEpoch("0", x);
    SplitEpoch("0", y);
    SplitKeepsEpoch(d, x);
    SplitKeepsEpoch(e, y);
    SplitKeepsEpoch("0", x);
    SplitKeepsEpoch("0", y);
    ComparesReflexively("0");
    EpochsCompare(d, e);
  }

  lemma EpochsCompare(d: string, e: string)
    requires IsNumber(d) && IsNumber(e)
    ensures Value(d) < Value(e) ==> Compare(d, e) == -1
    ensures Value(d) == Value(e) ==> Compare(d, e) == 0
  {
    assert d + "" == d && e + "" == e;
    NumbersDecide(d, "", e, "");
    EndDecides('0', "");
  }

  /** What stands in front of the first colon is an epoch only if it is a number; without an epoch it is 0. */
  lemma MissingEpochIsZero(p: string, x: string, b: string)
    requires ':' !in p
    ensures PacmanOrder(p, b) == PacmanOrder("0:" + p, b) && PacmanOrder(b, p) == PacmanOrder(b, "0:" + p)
    ensures !IsNumber(p) ==>
      var s := p + ":" + x;
      PacmanOrder(s, b) == PacmanOrder("0:" + s, b) && PacmanOrder(b, s) == PacmanOrder(b, "0:" + s)
  {
    hide Compare, LastIndexOf, Value;
    assert "0" + ":" == "0:" && p[0..] == p;
    IndexOfAbsent(p, ':', 0);
    SplitEpoch("0", p);
    if !IsNumber(p) {
      var s := p + ":" + x;
      ColonBehind(p, x);
      assert s[0..] == s;
      SplitEpoch("0", s);
    }
  }
}
