/** What Debian's order says of strings, in terms of their characters (scripts/pkgrepo/versions.py, _verrevcmp and
    _split_deb; section 5.6.12 of the Debian Policy Manual). */
module DpkgLaws {
  import opened Options
  import opened Orders
  import opened Decimal
  import opened Scan
  import opened DpkgOrder

  lemma PartsOf(s: string)
    ensures Head(Parts(s), PADDING) == PairFrom(s, 0) && Tail(Parts(s)) == PartsFrom(s, PairEnd(s, 0))
    ensures |s| > 0 <==> Parts(s).Cons?
  {
    assert |s| == 0 ==> s[0..0] == "";
  }

  lemma PairBehindHead(c: char, s: string)
    requires !IsDigit(c)
    ensures var p := PairFrom(s, 0);
      && PairEnd([c] + s, 0) == 1 + PairEnd(s, 0)
      && PairFrom([c] + s, 0) == Part(Cons(Order(c), p.run), p.number)
  {
    hide Value;
    var cs := [c] + s;
    assert Suffix(cs, 1, s);
    PairShift(cs, 1, s, 0);
    RunShift(cs, 1, s, 0);
    assert RunEnd(cs, 0, NonDigit) == RunEnd(cs, 1, NonDigit);
  }

  lemma PartsBehindHead(c: char, s: string)
    requires !IsDigit(c)
    ensures var p := PairFrom(s, 0);
      Parts([c] + s) == Cons(Part(Cons(Order(c), p.run), p.number), PartsFrom(s, PairEnd(s, 0)))
  {
    hide Value, PairFrom, PairEnd;
    var cs := [c] + s;
    PairBehindHead(c, s);
    assert Suffix(cs, 1, s);
    PartsShift(cs, 1, s, PairEnd(s, 0));
  }

  /** Two different characters decide: a tilde is below all others, and letters are below all but the tilde. */
  lemma CharactersDecide(c: char, s: string, d: char, t: string)
    requires !IsDigit(c) && !IsDigit(d)
    ensures c == '~' && d != '~' ==> Compare([c] + s, [d] + t) == -1
    ensures IsAlpha(c) && !IsAlpha(d) && d != '~' ==> Compare([c] + s, [d] + t) == -1
    ensures IsAlpha(c) && IsAlpha(d) && c < d ==> Compare([c] + s, [d] + t) == -1
    ensures !IsAlpha(c) && c != '~' && !IsAlpha(d) && d != '~' && c < d ==> Compare([c] + s, [d] + t) == -1
    ensures c == d ==> Compare([c] + s, [d] + t) == Compare(s, t)
  {
    PartsBehindHead(c, s);
    PartsBehindHead(d, t);
    PartsOf(s);
    PartsOf(t);
    var p, q := PairFrom(s, 0), PairFrom(t, 0);
    if c == d {
      assert PartCmp(Part(Cons(Order(c), p.run), p.number), Part(Cons(Order(d), q.run), q.number)) == PartCmp(p, q);
    }
  }

  /** Where a run of non-digits ends: above a tilde and below everything else. */
  lemma EndDecides(c: char, s: string, t: string)
    requires !IsDigit(c) && (|t| > 0 ==> IsDigit(t[0]))
    ensures c == '~' ==> Compare([c] + s, t) == -1
    ensures c != '~' ==> Compare(t, [c] + s) == -1
    ensures Compare("", "") == 0
  {
    PartsBehindHead(c, s);
    PartsOf(t);
  }

  lemma PartsOfNumber(d: string, s: string)
    requires IsNumber(d) && (|s| > 0 ==> !IsDigit(s[0]))
    ensures Parts(d + s) == Cons(Part(Nil, Value(d)), Parts(s))
  {
    RunEndUnique(d, 0, Digit, |d|);
    assert RunEnd(d, 0, NonDigit) == 0 && d[0..|d|] == d && PartsFrom(d, |d|) == Nil;
    assert Parts(d) == Cons(Part(Nil, Value(d)), Nil);
    PartsConcat(d, s);
  }

  /** Numbers decide by their values, and no number is zero. */
  lemma NumbersDecide(d: string, s: string, e: string, t: string)
    requires IsNumber(d) && (|s| > 0 ==> !IsDigit(s[0]))
    requires IsNumber(e) && (|t| > 0 ==> !IsDigit(t[0]))
    ensures Value(d) < Value(e) ==> Compare(d + s, e + t) == -1
    ensures Value(d) == Value(e) ==> Compare(d + s, e + t) == Compare(s, t)
    ensures 0 < Value(e) ==> Compare("", e + t) == -1
    ensures 0 == Value(e) ==> Compare("", e + t) == Compare("", t)
  {
    PartsOfNumber(d, s);
    PartsOfNumber(e, t);
  }

  // Whole version strings.

  lemma SplitHyphened(x: string, r: string)
    requires ':' !in x && Unhyphened(r)
    ensures SplitDeb(x + "-" + r) == Some(Evr(0, x, r))
  {
    var s := x + "-" + r;
    IndexOfAbsent(s, ':', 0);
    LastIndexOfConcat(x, r, '-');
    assert s == x + ['-'] + r;
    assert s[..|x|] == x && s[|x| + 1..] == r;
  }

  /** What stands behind the last hyphen is the revision, and decides when nothing in front of it does. */
  lemma RevisionDecidesLast(x: string, r: string, y: string, q: string)
    requires ':' !in x && Unhyphened(r)
    requires ':' !in y && Unhyphened(q)
    ensures DebOrder(x + "-" + r, y + "-" + q) == Some(if Compare(x, y) != 0 then Compare(x, y) else Compare(r, q))
    ensures DebOrder(x + "-" + r, x + "-" + q) == Some(Compare(r, q))
  {
    SplitHyphened(x, r);
    SplitHyphened(y, q);
    SplitHyphened(x, q);
    CompareIsTotalPreorder();
    assert Compare(x, x) == -Compare(x, x);
  }

  /** A version without a hyphen has an empty revision. */
  lemma MissingRevisionIsEmpty(x: string, b: string)
    requires Unhyphened(x)
    ensures DebOrder(x, b) == DebOrder(x + "-", b) && DebOrder(b, x) == DebOrder(b, x + "-")
  {
    IndexOfAbsent(x, ':', 0);
    assert x + "-" + "" == x + "-";
    SplitHyphened(x, "");
  }

  /** What stands behind the epoch, split at its last hyphen. */
  function SplitBehind(epoch: nat, x: string): Evr {
    match LastIndexOf(x, '-')
    case None => Evr(epoch, x, "")
    case Some(k) => Evr(epoch, x[..k], x[k + 1..])
  }

  lemma SplitEpoch(epoch: string, x: string)
    requires IsNumber(epoch)
    ensures SplitDeb(epoch + ":" + x) == Some(SplitBehind(Value(epoch), x))
  {
    ColonBehind(epoch, x);
  }

  lemma SplitWithoutEpoch(x: string)
    requires ':' !in x
    ensures SplitDeb(x) == Some(SplitBehind(0, x))
  {
    IndexOfAbsent(x, ':', 0);
  }

  /** A version without an epoch has epoch 0, and leading zeros of an epoch do not count. */
  lemma EpochIsNumber(epoch: string, x: string, b: string)
    requires IsNumber(epoch)
    ensures DebOrder(epoch + ":" + x, b) == DebOrder(Spell(Value(epoch)) + ":" + x, b)
    ensures DebOrder(b, epoch + ":" + x) == DebOrder(b, Spell(Value(epoch)) + ":" + x)
    ensures ':' !in x ==> DebOrder(x, b) == DebOrder(Spell(0) + ":" + x, b)
    ensures ':' !in x ==> DebOrder(b, x) == DebOrder(b, Spell(0) + ":" + x)
  {
    hide Value, Spell, LastIndexOf, Compare, SplitDeb;
    SpellValue(Value(epoch));
    SpellValue(0);
    SplitEpoch(epoch, x);
    SplitEpoch(Spell(Value(epoch)), x);
    SplitEpoch(Spell(0), x);
    if ':' !in x {
      SplitWithoutEpoch(x);
    }
  }

  /** The epoch decides first, upwards; with equal epochs the rest decides. */
  lemma EpochDecidesFirst(m: nat, x: string, n: nat, y: string)
    ensures m < n ==> DebOrder(Spell(m) + ":" + x, Spell(n) + ":" + y) == Some(-1)
    ensures m == n ==>
      DebOrder(Spell(m) + ":" + x, Spell(n) + ":" + y) == DebOrder(Spell(0) + ":" + x, Spell(0) + ":" + y)
  {
    hide Value, Spell, Compare, LastIndexOf, SplitDeb;
    SpellValue(m);
    SpellValue(n);
    SpellValue(0);
    SplitEpoch(Spell(m), x);
    SplitEpoch(Spell(n), y);
    SplitEpoch(Spell(0), x);
    SplitEpoch(Spell(0), y);
  }

  /** An error if and only if what stands in front of a first colon is no number. */
  lemma ErrorIffBadEpoch(a: string, b: string)
    ensures DebOrder(a, b).None? <==> BadEpoch(a) || BadEpoch(b)
  {
    BadEpochIsAtFirstColon(a);
    BadEpochIsAtFirstColon(b);
  }
}
