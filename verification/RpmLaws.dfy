/** What RPM's order says of strings, in terms of their characters (scripts/pkgrepo/versions.py, rpmvercmp and
    _parse_rpm). */
module RpmLaws {
  import opened Options
  import opened Orders
  import opened Decimal
  import opened Scan
  import opened R = RpmOrder

  lemma TokensBehindHead(c: char, s: string)
    ensures TokensFrom([c] + s, 1) == Tokens(s)
  {
    assert Suffix([c] + s, 1, s);
    TokensShift([c] + s, 1, s, 0);
  }

  lemma SeparatorsDoNotCount(c: char, s: string, t: string)
    requires !IsAlnum(c) && c != '~' && c != '^'
    ensures Compare([c] + s, t) == Compare(s, t) && Compare(t, [c] + s) == Compare(t, s)
  {
    TokensBehindHead(c, s);
  }

  /** Where a string ends: above a tilde and below everything else. */
  lemma EndDecides(c: char, s: string)
    ensures c == '~' ==> Compare([c] + s, "") == -1
    ensures c == '^' || IsAlnum(c) ==> Compare("", [c] + s) == -1
    ensures Compare("", "") == 0
  {
  }

  /** Two characters of different kinds decide: a tilde is below a caret, a caret below letters, letters below digits,
      and equal marks decide nothing. */
  lemma HeadsDecide(c: char, s: string, d: char, t: string)
    ensures c == '~' && (d == '^' || IsAlnum(d)) ==> Compare([c] + s, [d] + t) == -1
    ensures c == '^' && IsAlnum(d) ==> Compare([c] + s, [d] + t) == -1
    ensures IsAlpha(c) && IsDigit(d) ==> Compare([c] + s, [d] + t) == -1
    ensures (c == d == '~') || (c == d == '^') ==> Compare([c] + s, [d] + t) == Compare(s, t)
  {
    TokensBehindHead(c, s);
    TokensBehindHead(d, t);
  }

  lemma NumberTokens(d: string, s: string)
    requires IsNumber(d) && (|s| > 0 ==> !IsDigit(s[0]))
    ensures Tokens(d + s) == Cons(Number(Value(d)), Tokens(s))
  {
    RunEndUnique(d, 0, Digit, |d|);
    assert d[0..|d|] == d && TokensFrom(d, |d|) == Nil;
    assert Tokens(d) == Cons(Number(Value(d)), Nil);
    TokensConcat(d, s);
  }

  /** Numbers decide by their values, however they are spelt. */
  lemma NumbersDecide(d: string, s: string, e: string, t: string)
    requires IsNumber(d) && (|s| > 0 ==> !IsDigit(s[0]))
    requires IsNumber(e) && (|t| > 0 ==> !IsDigit(t[0]))
    ensures Value(d) < Value(e) ==> Compare(d + s, e + t) == -1
    ensures Value(d) == Value(e) ==> Compare(d + s, e + t) == Compare(s, t)
  {
    NumberTokens(d, s);
    NumberTokens(e, t);
  }

  lemma WordTokens(w: string, s: string)
    requires IsWord(w) && (|s| > 0 ==> !IsAlpha(s[0]))
    ensures Tokens(w + s) == Cons(Letters(w), Tokens(s))
  {
    RunEndUnique(w, 0, Alpha, |w|);
    assert w[0..|w|] == w && TokensFrom(w, |w|) == Nil;
    assert Tokens(w) == Cons(Letters(w), Nil);
    TokensConcat(w, s);
  }

  /** Words decide as text. */
  lemma WordsDecide(v: string, s: string, w: string, t: string)
    requires IsWord(v) && (|s| > 0 ==> !IsAlpha(s[0]))
    requires IsWord(w) && (|t| > 0 ==> !IsAlpha(t[0]))
    ensures TextBefore(v, w) ==> Compare(v + s, w + t) == -1
    ensures v == w ==> Compare(v + s, w + t) == Compare(s, t)
  {
    WordTokens(v, s);
    WordTokens(w, t);
    StrCmpIsTextOrder(v, w);
    StrCmpAntisymmetric(v, w);
  }

  // Whole version strings.

  lemma ParseHyphened(x: string, r: string)
    requires |x| > 0 && ':' !in x && Unhyphened(r)
    ensures ParseRpm(x + "-" + r) == Some(Evr(0, x, r))
  {
    var s := x + "-" + r;
    IndexOfAbsent(s, ':', 0);
    LastIndexOfConcat(x, r, '-');
    assert s == x + ['-'] + r;
    assert s[..|x|] == x && s[|x| + 1..] == r;
  }

  /** What stands behind the last hyphen is the release, and decides when nothing in front of it does. */
  lemma ReleaseDecidesLast(x: string, r: string, y: string, q: string)
    requires |x| > 0 && ':' !in x && Unhyphened(r)
    requires |y| > 0 && ':' !in y && Unhyphened(q)
    ensures RpmOrder(x + "-" + r, y + "-" + q) == Some(if Compare(x, y) != 0 then Compare(x, y) else Compare(r, q))
    ensures RpmOrder(x + "-" + r, x + "-" + q) == Some(Compare(r, q))
  {
    ParseHyphened(x, r);
    ParseHyphened(y, q);
    ParseHyphened(x, q);
    TokenCmpIsTotalPreorder();
    LexReflexive(TokenCmp, End, Tokens(x));
  }

  /** A version without a hyphen has an empty release, and a hyphen with nothing in front of it separates nothing. */
  lemma MissingReleaseIsEmpty(x: string, b: string)
    requires Unhyphened(x)
    ensures |x| > 0 ==> RpmOrder(x, b) == RpmOrder(x + "-", b) && RpmOrder(b, x) == RpmOrder(b, x + "-")
    ensures RpmOrder("-" + x, b) == RpmOrder(x, b) && RpmOrder(b, "-" + x) == RpmOrder(b, x)
  {
    IndexOfAbsent(x, ':', 0);
    if |x| > 0 {
      assert x + "-" + "" == x + "-";
      ParseHyphened(x, "");
    }
    IndexOfAbsent("-" + x, ':', 0);
    assert "-" + x == "" + ['-'] + x;
    LastIndexOfConcat("", x, '-');
  }

  lemma ParseEpoch(epoch: string, x: string)
    requires IsNumber(epoch)
    ensures ParseRpm(epoch + ":" + x) == Some(SplitRelease(Value(epoch), x))
  {
    ColonBehind(epoch, x);
  }

  /** A version without an epoch has epoch 0, and leading zeros of an epoch do not count. */
  lemma EpochIsNumber(epoch: string, x: string, b: string)
    requires IsNumber(epoch)
    ensures RpmOrder(epoch + ":" + x, b) == RpmOrder(Spell(Value(epoch)) + ":" + x, b)
    ensures RpmOrder(b, epoch + ":" + x) == RpmOrder(b, Spell(Value(epoch)) + ":" + x)
    ensures ':' !in x ==> RpmOrder(x, b) == RpmOrder(Spell(0) + ":" + x, b)
    ensures ':' !in x ==> RpmOrder(b, x) == RpmOrder(b, Spell(0) + ":" + x)
  {
    hide Value, Spell;
    SpellValue(Value(epoch));
    SpellValue(0);
    ParseEpoch(epoch, x);
    ParseEpoch(Spell(Value(epoch)), x);
    ParseEpoch(Spell(0), x);
    if ':' !in x {
      IndexOfAbsent(x, ':', 0);
    }
  }

  /** The epoch decides first, upwards; with equal epochs the rest decides. */
  lemma EpochDecidesFirst(m: nat, x: string, n: nat, y: string)
    ensures m < n ==> RpmOrder(Spell(m) + ":" + x, Spell(n) + ":" + y) == Some(-1)
    ensures m == n ==>
      RpmOrder(Spell(m) + ":" + x, Spell(n) + ":" + y) == RpmOrder(Spell(0) + ":" + x, Spell(0) + ":" + y)
  {
    hide Value, Spell, Compare, LastIndexOf, ParseRpm;
    SpellValue(m);
    SpellValue(n);
    SpellValue(0);
    ParseEpoch(Spell(m), x);
    ParseEpoch(Spell(n), y);
    ParseEpoch(Spell(0), x);
    ParseEpoch(Spell(0), y);
  }

  /** An error if and only if what stands in front of a first colon is no number. */
  lemma ErrorIffBadEpoch(a: string, b: string)
    ensures RpmOrder(a, b).None? <==> BadEpoch(a) || BadEpoch(b)
  {
    BadEpochIsAtFirstColon(a);
    BadEpochIsAtFirstColon(b);
  }
}
