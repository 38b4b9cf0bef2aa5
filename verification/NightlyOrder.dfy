/** Where nightly versions sort in the four orders of the package managers. */
module NightlyOrder {
  import opened Options
  import opened Orders
  import opened Decimal
  import opened Scan
  import opened Nightly
  import RpmOrder
  import DpkgOrder
  import PacmanOrder
  import ApkOrder

  /** A later nightly of the same base: the date decides, then the commit count. */
  predicate Later(v: NightlyVersion, w: NightlyVersion) {
    StrCmp(v.date, w.date) < 0 || (v.date == w.date && v.count < w.count)
  }

  lemma LaterByNumbers(v: NightlyVersion, w: NightlyVersion)
    requires IsDate(v.date) && IsDate(w.date)
    ensures Later(v, w) <==> Value(v.date) < Value(w.date) || (Value(v.date) == Value(w.date) && v.count < w.count)
  {
    ValueOrderSameLength(v.date, w.date);
    StrCmpAntisymmetric(v.date, w.date);
  }

  // RPM.

  lemma RpmNumber(d: string)
    requires IsNumber(d)
    ensures RpmOrder.Tokens(d) == Cons(RpmOrder.Number(Value(d)), Nil)
  {
    RunEndUnique(d, 0, Digit, |d|);
    assert d[0..|d|] == d;
    assert RpmOrder.TokensFrom(d, |d|) == Nil;
  }

  lemma RpmDotted(d: string, y: string)
    requires IsNumber(d)
    ensures RpmOrder.Tokens(Dotted(d, y)) == Cons(RpmOrder.Number(Value(d)), RpmOrder.Tokens(y))
  {
    RpmNumber(d);
    RpmOrder.TokensConcat(d, "." + y);
    RpmOrder.TokensConcat(".", y);
    assert RpmOrder.TokensFrom(".", 1) == Nil;
    assert RpmOrder.Tokens(".") == Nil;
  }

  function RpmCore(c: Core, rest: List<RpmOrder.Token>): List<RpmOrder.Token> {
    Cons(RpmOrder.Number(c.major), Cons(RpmOrder.Number(c.minor), Cons(RpmOrder.Number(c.patch), rest)))
  }

  lemma RpmCoreTokens(c: Core)
    ensures RpmOrder.Tokens(CoreText(c)) == RpmCore(c, Nil)
    ensures IsDigit(CoreText(c)[|CoreText(c)| - 1])
  {
    SpellValue(c.major);
    SpellValue(c.minor);
    SpellValue(c.patch);
    RpmDotted(Spell(c.major), Dotted(Spell(c.minor), Spell(c.patch)));
    RpmDotted(Spell(c.minor), Spell(c.patch));
    RpmNumber(Spell(c.patch));
  }

  lemma RpmWord()
    ensures RpmOrder.Tokens("nightly") == Cons(RpmOrder.Letters("nightly"), Nil)
  {
    RunEndUnique("nightly", 0, Alpha, 7);
    assert "nightly"[0..7] == "nightly";
    assert RpmOrder.TokensFrom("nightly", 7) == Nil;
  }

  lemma RpmPrereleaseTokens(date: string, n: string, g: string)
    requires IsNumber(date) && IsNumber(n)
    ensures RpmOrder.Tokens("~" + Dotted("nightly", Dotted(date, Dotted(n, g)))) ==
      Cons(RpmOrder.Tilde, Cons(RpmOrder.Letters("nightly"),
        Cons(RpmOrder.Number(Value(date)), Cons(RpmOrder.Number(Value(n)), RpmOrder.Tokens(g)))))
  {
    var tail := Dotted(date, Dotted(n, g));
    RpmDotted(date, Dotted(n, g));
    RpmDotted(n, g);
    RpmWord();
    RpmOrder.TokensConcat("~", Dotted("nightly", tail));
    RpmOrder.TokensConcat("nightly", "." + tail);
    RpmOrder.TokensConcat(".", tail);
    assert RpmOrder.TokensFrom(".", 1) == Nil && RpmOrder.Tokens(".") == Nil;
    assert RpmOrder.TokensFrom("~", 1) == Nil && RpmOrder.Tokens("~") == Cons(RpmOrder.Tilde, Nil);
  }

  lemma RpmCoreAppend(c: Core, rest: List<RpmOrder.Token>)
    ensures Append(RpmCore(c, Nil), rest) == RpmCore(c, rest)
  {
    assert Append(Cons(RpmOrder.Number(c.patch), Nil), rest) == Cons(RpmOrder.Number(c.patch), rest);
  }

  lemma RpmCoreCompare(x: Core, y: Core, s: List<RpmOrder.Token>, t: List<RpmOrder.Token>)
    ensures Lex(RpmOrder.TokenCmp, RpmOrder.End, RpmCore(x, s), RpmCore(y, t)) ==
      if CoreCmp(x, y) != 0 then CoreCmp(x, y) else Lex(RpmOrder.TokenCmp, RpmOrder.End, s, t)
  {
    var xs, ys := RpmCore(x, s).tail, RpmCore(y, t).tail;
    assert Lex(RpmOrder.TokenCmp, RpmOrder.End, xs.tail, ys.tail) ==
      if x.patch != y.patch then Cmp(x.patch, y.patch) else Lex(RpmOrder.TokenCmp, RpmOrder.End, s, t);
    assert Lex(RpmOrder.TokenCmp, RpmOrder.End, xs, ys) ==
      if x.minor != y.minor then Cmp(x.minor, y.minor) else Lex(RpmOrder.TokenCmp, RpmOrder.End, xs.tail, ys.tail);
  }

  function RpmTail(date: nat, count: nat, rest: List<RpmOrder.Token>): List<RpmOrder.Token> {
    Cons(RpmOrder.Tilde, Cons(RpmOrder.Letters("nightly"),
      Cons(RpmOrder.Number(date), Cons(RpmOrder.Number(count), rest))))
  }

  lemma RpmTailCompare(d: nat, n: nat, e: nat, m: nat, s: List<RpmOrder.Token>, t: List<RpmOrder.Token>)
    ensures Lex(RpmOrder.TokenCmp, RpmOrder.End, RpmTail(d, n, s), Nil) == -1
    ensures d < e || (d == e && n < m) ==>
      Lex(RpmOrder.TokenCmp, RpmOrder.End, RpmTail(d, n, s), RpmTail(e, m, t)) == -1
  {
    var xs, ys := RpmTail(d, n, s).tail, RpmTail(e, m, t).tail;
    StrCmpAntisymmetric("nightly", "nightly");
    if d < e || (d == e && n < m) {
      assert Lex(RpmOrder.TokenCmp, RpmOrder.End, xs.tail, ys.tail) == -1;
      assert Lex(RpmOrder.TokenCmp, RpmOrder.End, xs, ys) == -1;
    }
  }

  lemma RpmNightlyTokens(v: NightlyVersion, c: Core)
    requires IsNightly(v, c)
    ensures RpmOrder.Tokens(v.Rpm()) == RpmCore(c, RpmTail(Value(v.date), v.count, RpmOrder.Tokens("g" + v.commit)))
  {
    RpmCoreTokens(c);
    SpellValue(v.count);
    RpmPrereleaseTokens(v.date, Spell(v.count), "g" + v.commit);
    RpmOrder.TokensConcat(v.base, "~" + v.Prerelease());
    RpmCoreAppend(c, RpmTail(Value(v.date), v.count, RpmOrder.Tokens("g" + v.commit)));
  }

  lemma RpmBetween(v: NightlyVersion, c: Core, last: Core)
    requires IsNightly(v, c) && CoreCmp(last, c) == -1
    ensures RpmOrder.Compare(CoreText(last), v.Rpm()) == -1
    ensures RpmOrder.Compare(v.Rpm(), CoreText(c)) == -1
  {
    var tail := RpmTail(Value(v.date), v.count, RpmOrder.Tokens("g" + v.commit));
    RpmNightlyTokens(v, c);
    RpmCoreTokens(c);
    RpmCoreTokens(last);
    RpmCoreCompare(last, c, Nil, tail);
    RpmCoreCompare(c, c, tail, Nil);
    RpmTailCompare(Value(v.date), v.count, 0, 0, tail.tail.tail.tail.tail, Nil);
  }

  lemma RpmGrows(v: NightlyVersion, w: NightlyVersion, c: Core)
    requires IsNightly(v, c) && IsNightly(w, c) && Later(v, w)
    ensures RpmOrder.Compare(v.Rpm(), w.Rpm()) == -1
  {
    var g, h := RpmOrder.Tokens("g" + v.commit), RpmOrder.Tokens("g" + w.commit);
    var d, e := Value(v.date), Value(w.date);
    RpmNightlyTokens(v, c);
    RpmNightlyTokens(w, c);
    LaterByNumbers(v, w);
    RpmTailCompare(d, v.count, e, w.count, g, h);
    RpmCoreCompare(c, c, RpmTail(d, v.count, g), RpmTail(e, w.count, h));
  }

  // Debian.

  lemma {:induction false} DebRun(x: string, t: string, i: nat)
    requires i <= |x| && forall k :: 0 <= k < |x| ==> !IsDigit(x[k])
    requires |t| > 0 ==> IsDigit(t[0])
    ensures DpkgOrder.RunFrom(x + t, i) == DpkgOrder.RunFrom(x, i)
    decreases |x| - i
  {
    if i < |x| {
      DebRun(x, t, i + 1);
    }
  }

  lemma DebOne(x: string, d: string, s: string)
    requires IsNumber(d) && (forall k :: 0 <= k < |x| ==> !IsDigit(x[k])) && s == x + d
    ensures DpkgOrder.Parts(s) == Cons(DpkgOrder.Part(DpkgOrder.RunFrom(x, 0), Value(d)), Nil)
  {
    RunEndUnique(s, 0, NonDigit, |x|);
    RunEndUnique(s, |x|, Digit, |s|);
    DebRun(x, d, 0);
    assert s[|x|..|s|] == d;
    assert DpkgOrder.PartsFrom(s, |s|) == Nil;
  }

  lemma DebPart(x: string, d: string, t: string)
    requires IsNumber(d) && (forall k :: 0 <= k < |x| ==> !IsDigit(x[k])) && (|t| > 0 ==> !IsDigit(t[0]))
    ensures DpkgOrder.Parts(x + (d + t)) ==
      Cons(DpkgOrder.Part(DpkgOrder.RunFrom(x, 0), Value(d)), DpkgOrder.Parts(t))
  {
    var p := x + d;
    assert x + (d + t) == p + t;
    assert IsDigit(p[|p| - 1]);
    DpkgOrder.PartsConcat(p, t);
    DebOne(x, d, p);
    AppendOne(DpkgOrder.Part(DpkgOrder.RunFrom(x, 0), Value(d)), DpkgOrder.Parts(t));
  }

  lemma AppendOne<T>(x: T, t: List<T>)
    ensures Append(Cons(x, Nil), t) == Cons(x, t)
  {
  }

  const DOT := DpkgOrder.RunFrom(".", 0)
  const TILDE_NIGHTLY := DpkgOrder.RunFrom("~nightly.", 0)

  function DebCore(c: Core, rest: List<DpkgOrder.Part>): List<DpkgOrder.Part> {
    Cons(DpkgOrder.Part(Nil, c.major), Cons(DpkgOrder.Part(DOT, c.minor), Cons(DpkgOrder.Part(DOT, c.patch), rest)))
  }

  lemma DebDotted(a: string, b: string, d: string, t: string)
    requires IsNumber(a) && IsNumber(b) && IsNumber(d) && (|t| > 0 ==> !IsDigit(t[0]))
    ensures DpkgOrder.Parts(Dotted(a, Dotted(b, d)) + t) ==
      DebCore(Core(Value(a), Value(b), Value(d)), DpkgOrder.Parts(t))
  {
    DottedConcat(a, Dotted(b, d), t);
    DottedConcat(b, d, t);
    DebPart(".", d, t);
    DebPart(".", b, "." + (d + t));
    DebPart("", a, "." + Dotted(b, d + t));
    assert "" + Dotted(a, Dotted(b, d + t)) == Dotted(a, Dotted(b, d + t));
  }

  lemma DebCoreParts(c: Core, t: string)
    requires |t| > 0 ==> !IsDigit(t[0])
    ensures DpkgOrder.Parts(CoreText(c) + t) == DebCore(c, DpkgOrder.Parts(t))
  {
    SpellValue(c.major);
    SpellValue(c.minor);
    SpellValue(c.patch);
    DebDotted(Spell(c.major), Spell(c.minor), Spell(c.patch), t);
  }

  lemma DebPrereleaseParts(date: string, n: string, g: string)
    requires IsNumber(date) && IsNumber(n) && (|g| > 0 ==> !IsDigit(g[0]))
    ensures DpkgOrder.Parts("~" + Dotted("nightly", Dotted(date, Dotted(n, g)))) ==
      Cons(DpkgOrder.Part(TILDE_NIGHTLY, Value(date)), Cons(DpkgOrder.Part(DOT, Value(n)), DpkgOrder.Parts("." + g)))
  {
    var tail := Dotted(n, g);
    assert "~" + Dotted("nightly", Dotted(date, tail)) == "~nightly." + (date + ("." + tail));
    DebPart("~nightly.", date, "." + tail);
    DebPart(".", n, "." + g);
  }

  function DebTail(date: nat, count: nat, rest: List<DpkgOrder.Part>): List<DpkgOrder.Part> {
    Cons(DpkgOrder.Part(TILDE_NIGHTLY, date), Cons(DpkgOrder.Part(DOT, count), rest))
  }

  lemma DebNightlyParts(v: NightlyVersion, c: Core)
    requires IsNightly(v, c)
    ensures DpkgOrder.Parts(v.Deb()) ==
      DebCore(c, DebTail(Value(v.date), v.count, DpkgOrder.Parts("." + ("g" + v.commit))))
  {
    SpellValue(v.count);
    DebCoreParts(c, "~" + v.Prerelease());
    DebPrereleaseParts(v.date, Spell(v.count), "g" + v.commit);
  }

  lemma DebCoreCompare(x: Core, y: Core, s: List<DpkgOrder.Part>, t: List<DpkgOrder.Part>)
    ensures Lex(DpkgOrder.PartCmp, DpkgOrder.PADDING, DebCore(x, s), DebCore(y, t)) ==
      if CoreCmp(x, y) != 0 then CoreCmp(x, y) else Lex(DpkgOrder.PartCmp, DpkgOrder.PADDING, s, t)
  {
    var xs, ys := DebCore(x, s).tail, DebCore(y, t).tail;
    LexReflexive(Cmp, 0, DOT);
    assert Lex(DpkgOrder.PartCmp, DpkgOrder.PADDING, xs.tail, ys.tail) ==
      if x.patch != y.patch then Cmp(x.patch, y.patch) else Lex(DpkgOrder.PartCmp, DpkgOrder.PADDING, s, t);
    assert Lex(DpkgOrder.PartCmp, DpkgOrder.PADDING, xs, ys) ==
      if x.minor != y.minor then Cmp(x.minor, y.minor) else Lex(DpkgOrder.PartCmp, DpkgOrder.PADDING, xs.tail, ys.tail);
  }

  lemma DebTailCompare(d: nat, n: nat, e: nat, m: nat, s: List<DpkgOrder.Part>, t: List<DpkgOrder.Part>)
    ensures Lex(DpkgOrder.PartCmp, DpkgOrder.PADDING, DebTail(d, n, s), Nil) == -1
    ensures d < e || (d == e && n < m) ==>
      Lex(DpkgOrder.PartCmp, DpkgOrder.PADDING, DebTail(d, n, s), DebTail(e, m, t)) == -1
  {
    assert TILDE_NIGHTLY.head == -1;
    LexReflexive(Cmp, 0, DOT);
    LexReflexive(Cmp, 0, TILDE_NIGHTLY);
    if d < e || (d == e && n < m) {
      assert d == e ==> Lex(DpkgOrder.PartCmp, DpkgOrder.PADDING, DebTail(d, n, s).tail, DebTail(e, m, t).tail) == -1;
    }
  }

  lemma DebBetween(v: NightlyVersion, c: Core, last: Core)
    requires IsNightly(v, c) && CoreCmp(last, c) == -1
    ensures DpkgOrder.Compare(CoreText(last), v.Deb()) == -1
    ensures DpkgOrder.Compare(v.Deb(), CoreText(c)) == -1
  {
    var rest := DpkgOrder.Parts("." + ("g" + v.commit));
    var tail := DebTail(Value(v.date), v.count, rest);
    DebNightlyParts(v, c);
    DebCoreParts(c, "");
    DebCoreParts(last, "");
    assert CoreText(c) + "" == CoreText(c) && CoreText(last) + "" == CoreText(last);
    assert DpkgOrder.Parts("") == Nil;
    DebCoreCompare(last, c, Nil, tail);
    DebCoreCompare(c, c, tail, Nil);
    DebTailCompare(Value(v.date), v.count, 0, 0, rest, Nil);
  }

  lemma DebGrows(v: NightlyVersion, w: NightlyVersion, c: Core)
    requires IsNightly(v, c) && IsNightly(w, c) && Later(v, w)
    ensures DpkgOrder.Compare(v.Deb(), w.Deb()) == -1
  {
    var g, h := DpkgOrder.Parts("." + ("g" + v.commit)), DpkgOrder.Parts("." + ("g" + w.commit));
    var d, e := Value(v.date), Value(w.date);
    DebNightlyParts(v, c);
    DebNightlyParts(w, c);
    LaterByNumbers(v, w);
    DebTailCompare(d, v.count, e, w.count, g, h);
    DebCoreCompare(c, c, DebTail(d, v.count, g), DebTail(e, w.count, h));
  }

  // pacman.

  lemma PacNumber(d: string)
    requires IsNumber(d)
    ensures PacmanOrder.Tokens(d) == Cons(PacmanOrder.Number(0, Value(d)), Nil)
    ensures PacmanOrder.Tokens("." + d) == Cons(PacmanOrder.Number(1, Value(d)), Nil)
  {
    var s := "." + d;
    RunEndUnique(d, 0, NonAlnum, 0);
    RunEndUnique(d, 0, Digit, |d|);
    assert d[0..|d|] == d;
    assert PacmanOrder.TokensFrom(d, |d|) == Nil;
    RunEndUnique(s, 0, NonAlnum, 1);
    RunEndUnique(s, 1, Digit, |s|);
    assert s[1..|s|] == d;
    assert PacmanOrder.TokensFrom(s, |s|) == Nil;
  }

  function PacCore(c: Core, rest: List<PacmanOrder.Token>): List<PacmanOrder.Token> {
    Cons(PacmanOrder.Number(0, c.major),
      Cons(PacmanOrder.Number(1, c.minor), Cons(PacmanOrder.Number(1, c.patch), rest)))
  }

  lemma PacDotted(a: string, b: string, d: string)
    requires IsNumber(a) && IsNumber(b) && IsNumber(d)
    ensures PacmanOrder.Tokens(Dotted(a, Dotted(b, d))) == PacCore(Core(Value(a), Value(b), Value(d)), Nil)
  {
    var s := "." + Dotted(b, d);
    PacNumber(a);
    PacTwo(b, d, s);
    PacmanOrder.TokensConcat(a, s);
    assert Append(Cons(PacmanOrder.Number(0, Value(a)), Nil), PacmanOrder.Tokens(s)) ==
      Cons(PacmanOrder.Number(0, Value(a)), PacmanOrder.Tokens(s));
  }

  lemma PacTwo(b: string, d: string, s: string)
    requires IsNumber(b) && IsNumber(d) && s == "." + Dotted(b, d)
    ensures PacmanOrder.Tokens(s) ==
      Cons(PacmanOrder.Number(1, Value(b)), Cons(PacmanOrder.Number(1, Value(d)), Nil))
  {
    var x, y := "." + b, "." + d;
    assert s == x + y;
    PacNumber(b);
    PacNumber(d);
    PacmanOrder.TokensConcat(x, y);
  }

  lemma PacCoreTokens(c: Core)
    ensures PacmanOrder.Tokens(CoreText(c)) == PacCore(c, Nil)
    ensures IsDigit(CoreText(c)[|CoreText(c)| - 1])
  {
    SpellValue(c.major);
    SpellValue(c.minor);
    SpellValue(c.patch);
    PacDotted(Spell(c.major), Spell(c.minor), Spell(c.patch));
  }

  lemma PacWord()
    ensures PacmanOrder.Tokens("nightly") == Cons(PacmanOrder.Letters(0, "nightly"), Nil)
  {
    RunEndUnique("nightly", 0, NonAlnum, 0);
    RunEndUnique("nightly", 0, Alpha, 7);
    assert "nightly"[0..7] == "nightly";
    assert PacmanOrder.TokensFrom("nightly", 7) == Nil;
  }

  lemma PacTailTokens(date: string, n: string)
    requires IsNumber(date) && IsNumber(n)
    ensures PacmanOrder.Tokens("nightly" + Dotted(date, n)) == Cons(PacmanOrder.Letters(0, "nightly"),
      Cons(PacmanOrder.Number(0, Value(date)), Cons(PacmanOrder.Number(1, Value(n)), Nil)))
  {
    PacWord();
    PacNumber(date);
    PacNumber(n);
    PacmanOrder.TokensConcat(date, "." + n);
    PacmanOrder.TokensConcat("nightly", Dotted(date, n));
  }

  function PacTail(date: nat, count: nat): List<PacmanOrder.Token> {
    Cons(PacmanOrder.Letters(0, "nightly"), Cons(PacmanOrder.Number(0, date), Cons(PacmanOrder.Number(1, count), Nil)))
  }

  lemma PacCoreAppend(c: Core, rest: List<PacmanOrder.Token>)
    ensures Append(PacCore(c, Nil), rest) == PacCore(c, rest)
  {
    assert Append(Cons(PacmanOrder.Number(1, c.patch), Nil), rest) == Cons(PacmanOrder.Number(1, c.patch), rest);
  }

  lemma PacNightlyTokens(v: NightlyVersion, c: Core)
    requires IsNightly(v, c)
    ensures PacmanOrder.Tokens(v.Arch()) == PacCore(c, PacTail(Value(v.date), v.count))
  {
    SpellValue(v.count);
    PacCoreTokens(c);
    PacTailTokens(v.date, Spell(v.count));
    PacmanOrder.TokensConcat(v.base, "nightly" + Dotted(v.date, Spell(v.count)));
    PacCoreAppend(c, PacTail(Value(v.date), v.count));
  }

  lemma PacCoreCompare(x: Core, y: Core, s: List<PacmanOrder.Token>, t: List<PacmanOrder.Token>)
    ensures Lex(PacmanOrder.TokenCmp, PacmanOrder.End, PacCore(x, s), PacCore(y, t)) ==
      if CoreCmp(x, y) != 0 then CoreCmp(x, y) else Lex(PacmanOrder.TokenCmp, PacmanOrder.End, s, t)
  {
    var xs, ys := PacCore(x, s).tail, PacCore(y, t).tail;
    assert Lex(PacmanOrder.TokenCmp, PacmanOrder.End, xs.tail, ys.tail) ==
      if x.patch != y.patch then Cmp(x.patch, y.patch) else Lex(PacmanOrder.TokenCmp, PacmanOrder.End, s, t);
    assert Lex(PacmanOrder.TokenCmp, PacmanOrder.End, xs, ys) ==
      if x.minor != y.minor then Cmp(x.minor, y.minor)
        else Lex(PacmanOrder.TokenCmp, PacmanOrder.End, xs.tail, ys.tail);
  }

  lemma PacTailCompare(d: nat, n: nat, e: nat, m: nat)
    ensures Lex(PacmanOrder.TokenCmp, PacmanOrder.End, PacTail(d, n), Nil) == -1
    ensures d < e || (d == e && n < m) ==>
      Lex(PacmanOrder.TokenCmp, PacmanOrder.End, PacTail(d, n), PacTail(e, m)) == -1
  {
    StrCmpAntisymmetric("nightly", "nightly");
    if d < e || (d == e && n < m) {
      assert Lex(PacmanOrder.TokenCmp, PacmanOrder.End, PacTail(d, n).tail, PacTail(e, m).tail) == -1;
    }
  }

  lemma PacBetween(v: NightlyVersion, c: Core, last: Core)
    requires IsNightly(v, c) && CoreCmp(last, c) == -1
    ensures PacmanOrder.Compare(CoreText(last), v.Arch()) == -1
    ensures PacmanOrder.Compare(v.Arch(), CoreText(c)) == -1
  {
    var tail := PacTail(Value(v.date), v.count);
    PacNightlyTokens(v, c);
    PacCoreTokens(c);
    PacCoreTokens(last);
    PacCoreCompare(last, c, Nil, tail);
    PacCoreCompare(c, c, tail, Nil);
    PacTailCompare(Value(v.date), v.count, 0, 0);
  }

  lemma PacGrows(v: NightlyVersion, w: NightlyVersion, c: Core)
    requires IsNightly(v, c) && IsNightly(w, c) && Later(v, w)
    ensures PacmanOrder.Compare(v.Arch(), w.Arch()) == -1
  {
    var d, e := Value(v.date), Value(w.date);
    PacNightlyTokens(v, c);
    PacNightlyTokens(w, c);
    LaterByNumbers(v, w);
    PacTailCompare(d, v.count, e, w.count);
    PacCoreCompare(c, c, PacTail(d, v.count), PacTail(e, w.count));
  }

  // Alpine.

  lemma ApkNumbers(a: string, b: string, d: string, t: string)
    requires IsNumber(a) && IsNumber(b) && IsNumber(d) && (|t| > 0 ==> !IsDigit(t[0]) && t[0] != '.')
    ensures ApkOrder.Numbers(Dotted(a, Dotted(b, d)) + t) == Cons(a, Cons(b, Cons(d, Nil)))
    ensures ApkOrder.NumbersRest(Dotted(a, Dotted(b, d)) + t) == t
  {
    DottedConcat(a, Dotted(b, d), t);
    DottedConcat(b, d, t);
    HeadDotted(a, Dotted(b, d + t));
    HeadDotted(b, d + t);
    HeadNumber(d, t);
    assert ApkOrder.Numbers(d + t) == Cons(d, Nil) && ApkOrder.NumbersRest(d + t) == t;
    assert ApkOrder.Numbers(Dotted(b, d + t)) == Cons(b, Cons(d, Nil)) && ApkOrder.NumbersRest(Dotted(b, d + t)) == t;
  }

  function CoreNumbers(c: Core): List<string> {
    Cons(Spell(c.major), Cons(Spell(c.minor), Cons(Spell(c.patch), Nil)))
  }

  lemma ApkCoreNumbers(c: Core, t: string)
    requires |t| > 0 ==> !IsDigit(t[0]) && t[0] != '.'
    ensures ApkOrder.Numbers(CoreText(c) + t) == CoreNumbers(c) && ApkOrder.NumbersRest(CoreText(c) + t) == t
    ensures IsDigit((CoreText(c) + t)[0])
  {
    SpellValue(c.major);
    SpellValue(c.minor);
    SpellValue(c.patch);
    ApkNumbers(Spell(c.major), Spell(c.minor), Spell(c.patch), t);
  }

  /** The release of an Alpine package. */
  function ApkRelease(release: Option<nat>): string {
    match release
    case None => ""
    case Some(r) => "-r" + Spell(r)
  }

  lemma ApkReleaseIs(release: Option<nat>)
    ensures var t := ApkRelease(release);
      && (|t| > 0 <==> release.Some?) && (|t| > 0 ==> t[0] == '-')
      && (release.Some? ==> ApkOrder.ReleaseAt(t) && Value(Digits(t[2..])) == release.value && Rest(t[2..]) == "")
  {
    if release.Some? {
      var n := Spell(release.value);
      SpellValue(release.value);
      assert ("-r" + n)[2..] == n && n + "" == n;
      HeadNumber(n, "");
    }
  }

  lemma ApkCoreParts(c: Core, release: Option<nat>)
    ensures ApkOrder.ApkParts(CoreText(c) + ApkRelease(release))
      == Some(ApkOrder.Parts(CoreNumbers(c), "", Nil, release))
  {
    ApkReleaseIs(release);
    ApkCoreNumbers(c, ApkRelease(release));
  }

  lemma ApkPre(d: string, t: string)
    requires IsNumber(d) && (|t| > 0 ==> t[0] == '-')
    ensures ApkOrder.Suffixes("_pre" + (d + t)) == Cons(ApkOrder.Suffix(-2, Value(d)), Nil)
    ensures ApkOrder.SuffixesRest("_pre" + (d + t)) == t
  {
    var s := "_pre" + (d + t);
    var u := s[1..];
    assert u == "pre" + (d + t) && "pre" <= u;
    assert u[0] == 'p';
    assert ApkOrder.SuffixName(u, 2) == Some(("pre", -2));
    assert "alpha"[0] == 'a' && "beta"[0] == 'b';
    assert !("beta" <= u) && !("alpha" <= u);
    assert ApkOrder.SuffixName(u, 1) == Some(("pre", -2));
    assert ApkOrder.SuffixName(u, 0) == Some(("pre", -2));
    assert ApkOrder.SuffixNumber(s) == d + t;
    HeadNumber(d, t);
  }

  /** The number of the suffix: the date and the count written together. */
  function ApkNumber(v: NightlyVersion): nat {
    Value(v.date) * Pow10(|Spell(v.count)|) + v.count
  }

  lemma ApkSuffixParts(c: Core, d: string, release: Option<nat>)
    requires IsNumber(d)
    ensures ApkOrder.ApkParts(CoreText(c) + ("_pre" + (d + ApkRelease(release)))) ==
      Some(ApkOrder.Parts(CoreNumbers(c), "", Cons(ApkOrder.Suffix(-2, Value(d)), Nil), release))
  {
    var t := ApkRelease(release);
    ApkReleaseIs(release);
    ApkCoreNumbers(c, "_pre" + (d + t));
    ApkPre(d, t);
    assert ApkOrder.HashRest(t) == t;
  }

  /** The digits behind the suffix. */
  function SuffixDigits(v: NightlyVersion): string {
    v.date + Spell(v.count)
  }

  lemma SuffixDigitsAre(v: NightlyVersion)
    requires IsDate(v.date)
    ensures IsNumber(SuffixDigits(v)) && Value(SuffixDigits(v)) == ApkNumber(v)
    ensures |SuffixDigits(v)| == 8 + |Spell(v.count)| && SuffixDigits(v)[0] == v.date[0]
  {
    SpellValue(v.count);
    ValueConcat(v.date, Spell(v.count));
  }

  lemma ApkNightlyParts(v: NightlyVersion, c: Core, release: Option<nat>)
    requires IsNightly(v, c)
    ensures ApkOrder.ApkParts(v.Apk() + ApkRelease(release)) ==
      Some(ApkOrder.Parts(CoreNumbers(c), "", Cons(ApkOrder.Suffix(-2, ApkNumber(v)), Nil), release))
  {
    var d, t := SuffixDigits(v), ApkRelease(release);
    SuffixDigitsAre(v);
    assert v.Apk() + t == CoreText(c) + ("_pre" + (d + t));
    ApkSuffixParts(c, d, release);
  }

  lemma CanonicalZero(p: string)
    requires Canonical(p)
    ensures p[0] == '0' <==> p == "0"
    ensures p[0] == '0' <==> Value(p) == 0
  {
    ValueBounds(p);
    Pow10Monotone(0, |p| - 1);
    if p[0] == '0' {
      assert p == "0" && p[..0] == "";
    }
  }

  lemma CanonicalComponents(later: bool, p: string, q: string)
    requires Canonical(p) && Canonical(q)
    ensures ApkOrder.ComponentCmp(later, p, q) == Cmp(Value(p), Value(q))
  {
    CanonicalZero(p);
    CanonicalZero(q);
    StrCmpAntisymmetric(p, q);
    if p[0] != q[0] && (p[0] == '0' || q[0] == '0') {
      assert StrCmp(p, q) == Cmp(p[0] as int, q[0] as int);
    }
  }

  lemma SpelledComponents(later: bool, m: nat, n: nat)
    ensures ApkOrder.ComponentCmp(later, Spell(m), Spell(n)) == Cmp(m, n)
  {
    SpellValue(m);
    SpellValue(n);
    CanonicalComponents(later, Spell(m), Spell(n));
  }

  lemma ZipThree(a: string, b: string, d: string, a': string, b': string, d': string, x: int, y: int, z: int)
    requires ApkOrder.ComponentCmp(false, a, a') == x
    requires ApkOrder.ComponentCmp(true, b, b') == y && ApkOrder.ComponentCmp(true, d, d') == z
    ensures ApkOrder.NumbersCmp(Cons(a, Cons(b, Cons(d, Nil))), Cons(a', Cons(b', Cons(d', Nil)))) ==
      if x != 0 then x else if y != 0 then y else z
  {
    var s, s' := Cons(d, Nil), Cons(d', Nil);
    assert ApkOrder.Length<string>(Nil) == 0 && ApkOrder.ZipCmp(true, Nil, Nil) == 0;
    var t, t' := Cons(b, s), Cons(b', s');
    assert ApkOrder.ZipCmp(true, s, s') == z && ApkOrder.Length(s) == 1 == ApkOrder.Length(s');
    assert ApkOrder.ZipCmp(true, t, t') == if y != 0 then y else z;
    assert ApkOrder.Length(t) == 2 == ApkOrder.Length(t');
  }

  lemma CoreNumbersCmp(x: Core, y: Core)
    ensures ApkOrder.NumbersCmp(CoreNumbers(x), CoreNumbers(y)) == CoreCmp(x, y)
  {
    SpelledComponents(false, x.major, y.major);
    SpelledComponents(true, x.minor, y.minor);
    SpelledComponents(true, x.patch, y.patch);
    ZipThree(Spell(x.major), Spell(x.minor), Spell(x.patch), Spell(y.major), Spell(y.minor), Spell(y.patch),
      Cmp(x.major, y.major), Cmp(x.minor, y.minor), Cmp(x.patch, y.patch));
  }

  lemma PartsOfOneCore(x: Core, y: Core, s: List<ApkOrder.Suffix>, t: List<ApkOrder.Suffix>, m: Option<nat>,
                       n: Option<nat>)
    ensures ApkOrder.PartsCmp(ApkOrder.Parts(CoreNumbers(x), "", s, m), ApkOrder.Parts(CoreNumbers(y), "", t, n)) ==
      if CoreCmp(x, y) != 0 then CoreCmp(x, y)
      else if Lex(ApkOrder.SuffixCmp, ApkOrder.Suffix(0, 0), s, t) != 0 then
        Lex(ApkOrder.SuffixCmp, ApkOrder.Suffix(0, 0), s, t)
      else ApkOrder.ReleaseCmp(m, n)
  {
    CoreNumbersCmp(x, y);
  }

  /** Whatever releases the packages carry. */
  lemma ApkBetween(v: NightlyVersion, c: Core, last: Core, m: Option<nat>, n: Option<nat>)
    requires IsNightly(v, c) && CoreCmp(last, c) == -1
    ensures ApkOrder.ApkCompare(CoreText(last) + ApkRelease(m), v.Apk() + ApkRelease(n)) == Some(-1)
    ensures ApkOrder.ApkCompare(v.Apk() + ApkRelease(n), CoreText(c) + ApkRelease(m)) == Some(-1)
  {
    var suffixes := Cons(ApkOrder.Suffix(-2, ApkNumber(v)), Nil);
    ApkNightlyParts(v, c, n);
    ApkCoreParts(c, m);
    ApkCoreParts(last, m);
    PartsOfOneCore(last, c, Nil, suffixes, m, n);
    PartsOfOneCore(c, c, suffixes, Nil, n, m);
  }

  /** Of one plain version the higher release is newer, and no release is older than any release. */
  lemma ApkReleasesDecide(c: Core, m: nat, n: nat)
    ensures ApkOrder.ApkCompare(CoreText(c) + ApkRelease(Some(m)), CoreText(c) + ApkRelease(Some(n))) == Some(Cmp(m, n))
    ensures ApkOrder.ApkCompare(CoreText(c) + ApkRelease(None), CoreText(c) + ApkRelease(Some(n))) == Some(-1)
    ensures ApkOrder.ApkCompare(CoreText(c) + ApkRelease(Some(n)), CoreText(c) + ApkRelease(None)) == Some(1)
    ensures ApkOrder.ApkCompare(CoreText(c) + ApkRelease(None), CoreText(c) + ApkRelease(None)) == Some(0)
  {
    ApkCoreParts(c, None);
    ApkCoreParts(c, Some(m));
    ApkCoreParts(c, Some(n));
    PartsOfOneCore(c, c, Nil, Nil, Some(m), Some(n));
    PartsOfOneCore(c, c, Nil, Nil, None, Some(n));
    PartsOfOneCore(c, c, Nil, Nil, Some(n), None);
    PartsOfOneCore(c, c, Nil, Nil, None, None);
  }

  /** For one base Alpine compares the numbers of the suffixes, and then the releases. */
  lemma ApkByNumber(v: NightlyVersion, w: NightlyVersion, c: Core, m: Option<nat>, n: Option<nat>)
    requires IsNightly(v, c) && IsNightly(w, c)
    ensures ApkOrder.ApkCompare(v.Apk() + ApkRelease(m), w.Apk() + ApkRelease(n)) ==
      Some(if ApkNumber(v) != ApkNumber(w) then Cmp(ApkNumber(v), ApkNumber(w))
        else if m.None? then if n.None? then 0 else -1
        else if n.None? then 1 else Cmp(m.value, n.value))
  {
    ApkNightlyParts(v, c, m);
    ApkNightlyParts(w, c, n);
    PartsOfOneCore(c, c, Cons(ApkOrder.Suffix(-2, ApkNumber(v)), Nil), Cons(ApkOrder.Suffix(-2, ApkNumber(w)), Nil),
      m, n);
  }

  lemma SpellLength(m: nat, n: nat)
    requires m <= n
    ensures |Spell(m)| <= |Spell(n)|
  {
    SpellValue(m);
    SpellValue(n);
    ValueBounds(Spell(m));
    ValueBounds(Spell(n));
    if |Spell(m)| > |Spell(n)| {
      Pow10Monotone(|Spell(n)|, |Spell(m)| - 1);
    }
  }

  lemma TimesMonotone(d: nat, e: nat, p: nat, q: nat)
    requires d <= e && p <= q
    ensures d * p <= e * q
  {
    assert e * q - d * q == (e - d) * q >= 0;
    assert d * q - d * p == d * (q - p) >= 0;
  }

  lemma Times(d: nat, e: nat, p: nat, q: nat)
    requires d <= e && p <= q
    ensures d * p <= e * q
    ensures d < e ==> d * p + p <= e * q
  {
    TimesMonotone(d, e, p, q);
    if d < e {
      TimesMonotone(d + 1, e, p, q);
      assert (d + 1) * p == d * p + p;
    }
  }

  /** Alpine's number grows when neither the date nor the count goes back and one of them advances. */
  lemma ApkNumberGrows(v: NightlyVersion, w: NightlyVersion)
    requires IsDate(v.date) && IsDate(w.date)
    requires StrCmp(v.date, w.date) <= 0 && v.count <= w.count && (v.date != w.date || v.count < w.count)
    ensures ApkNumber(v) < ApkNumber(w)
  {
    ValueOrderSameLength(v.date, w.date);
    StrCmpAntisymmetric(v.date, w.date);
    SpellLength(v.count, w.count);
    Pow10Monotone(|Spell(v.count)|, |Spell(w.count)|);
    Times(Value(v.date), Value(w.date), Pow10(|Spell(v.count)|), Pow10(|Spell(w.count)|));
  }

  /** For one base, the date and the count written together decide, aligned at their last digit. */
  lemma ApkOrdersAligned(v: NightlyVersion, w: NightlyVersion, c: Core, m: Option<nat>, n: Option<nat>)
    requires IsNightly(v, c) && IsNightly(w, c) && |Spell(v.count)| <= |Spell(w.count)|
    ensures var x, y := Zeros(|Spell(w.count)| - |Spell(v.count)|) + SuffixDigits(v), SuffixDigits(w);
      ApkOrder.ApkCompare(v.Apk() + ApkRelease(m), w.Apk() + ApkRelease(n)) ==
        Some(if x != y then StrCmp(x, y)
          else if m.None? then if n.None? then 0 else -1
          else if n.None? then 1 else Cmp(m.value, n.value))
  {
    var x, y := SuffixDigits(v), SuffixDigits(w);
    SuffixDigitsAre(v);
    SuffixDigitsAre(w);
    AlignedOrder(x, y);
    ApkByNumber(v, w, c, m, n);
    StrCmpAntisymmetric(Zeros(|y| - |x|) + x, y);
  }

  lemma SameDigits(v: NightlyVersion, w: NightlyVersion)
    requires IsDate(v.date) && IsDate(w.date) && |Spell(v.count)| == |Spell(w.count)|
    ensures ApkNumber(v) < ApkNumber(w) <==> Later(v, w)
  {
    SpellValue(v.count);
    SpellValue(w.count);
    LaterByNumbers(v, w);
    ValueBounds(Spell(v.count));
    ValueBounds(Spell(w.count));
    var p := Pow10(|Spell(v.count)|);
    if Value(v.date) < Value(w.date) {
      Times(Value(v.date), Value(w.date), p, p);
    } else if Value(w.date) < Value(v.date) {
      Times(Value(w.date), Value(v.date), p, p);
    }
  }

  lemma MoreDigits(v: NightlyVersion, w: NightlyVersion)
    requires IsDate(v.date) && IsDate(w.date) && w.date[0] != '0' && |Spell(v.count)| < |Spell(w.count)|
    ensures ApkNumber(v) < ApkNumber(w)
  {
    var x, y := SuffixDigits(v), SuffixDigits(w);
    SuffixDigitsAre(v);
    SuffixDigitsAre(w);
    ValueBounds(x);
    ValueBounds(y);
    Pow10Monotone(|x|, |y| - 1);
  }

  /** The order of nightlies that Alpine comes to: the number of digits of the count, then the date, then the count. */
  predicate LaterByDigits(v: NightlyVersion, w: NightlyVersion) {
    |Spell(v.count)| < |Spell(w.count)| || (|Spell(v.count)| == |Spell(w.count)| && Later(v, w))
  }

  /** It is the order by date and count as long as the count does not go back. */
  lemma LaterByDigitsIff(v: NightlyVersion, w: NightlyVersion)
    requires (Later(v, w) ==> v.count <= w.count) && (Later(w, v) ==> w.count <= v.count)
    ensures LaterByDigits(v, w) <==> Later(v, w)
  {
    StrCmpAntisymmetric(v.date, w.date);
    if v.count <= w.count {
      SpellLength(v.count, w.count);
    }
    if w.count <= v.count {
      SpellLength(w.count, v.count);
    }
  }

  /** For dates that do not begin with a zero. */
  lemma ApkNewerIff(v: NightlyVersion, w: NightlyVersion, c: Core, m: Option<nat>, n: Option<nat>)
    requires IsNightly(v, c) && IsNightly(w, c) && v.date[0] != '0' && w.date[0] != '0'
    requires v.date != w.date || v.count != w.count
    ensures ApkOrder.ApkCompare(v.Apk() + ApkRelease(m), w.Apk() + ApkRelease(n)) ==
      Some(if LaterByDigits(v, w) then -1 else 1)
  {
    OneIsLater(v, w);
    LaterIsAsymmetric(v, w);
    ApkByNumber(v, w, c, m, n);
    if |Spell(v.count)| == |Spell(w.count)| {
      SameDigits(v, w);
      SameDigits(w, v);
    } else if |Spell(v.count)| < |Spell(w.count)| {
      MoreDigits(v, w);
    } else {
      MoreDigits(w, v);
    }
  }

  lemma OneIsLater(v: NightlyVersion, w: NightlyVersion)
    ensures Later(v, w) || Later(w, v) || (v.date == w.date && v.count == w.count)
  {
    StrCmpAntisymmetric(v.date, w.date);
  }

  lemma LaterIsAsymmetric(v: NightlyVersion, w: NightlyVersion)
    ensures !(Later(v, w) && Later(w, v))
  {
    StrCmpAntisymmetric(v.date, w.date);
  }

  /** So Alpine's order of two nightlies of one base is decided by the number of digits of the count, if the date with
      the longer one does not begin with a zero, and then by the date and the count. */
  lemma ApkOrdersByDigitsFirst(v: NightlyVersion, w: NightlyVersion, c: Core, m: Option<nat>, n: Option<nat>)
    requires IsNightly(v, c) && IsNightly(w, c)
    ensures |Spell(v.count)| < |Spell(w.count)| && w.date[0] != '0' ==>
      ApkOrder.ApkCompare(v.Apk() + ApkRelease(m), w.Apk() + ApkRelease(n)) == Some(-1)
    ensures |Spell(v.count)| == |Spell(w.count)| && (v.date != w.date || v.count != w.count) ==>
      (ApkOrder.ApkCompare(v.Apk() + ApkRelease(m), w.Apk() + ApkRelease(n)) == Some(-1) <==> Later(v, w))
  {
    ApkByNumber(v, w, c, m, n);
    if |Spell(v.count)| == |Spell(w.count)| {
      SameDigits(v, w);
      SameDigits(w, v);
      LaterByNumbers(v, w);
      LaterByNumbers(w, v);
      ValueOrderSameLength(v.date, w.date);
      StrCmpAntisymmetric(v.date, w.date);
    } else if |Spell(v.count)| < |Spell(w.count)| && w.date[0] != '0' {
      MoreDigits(v, w);
    }
  }

  /** A later nightly can be older for Alpine, whatever the base: the count went from three digits back to one. */
  lemma ApkLaterCanBeOlder(v: NightlyVersion, w: NightlyVersion, c: Core, m: Option<nat>, n: Option<nat>)
    requires IsNightly(v, c) && IsNightly(w, c)
    requires v.date == "20260101" && v.count == 100 && w.date == "20260102" && w.count == 9
    ensures Later(v, w) && ApkOrder.ApkCompare(w.Apk() + ApkRelease(n), v.Apk() + ApkRelease(m)) == Some(-1)
  {
    assert Spell(100) == Spell(10) + "0" && Spell(10) == Spell(1) + "0";
    assert |Spell(100)| == 3 && |Spell(9)| == 1;
    ApkOrdersByDigitsFirst(w, v, c, n, m);
    StrCmpLast("2026010", "2026010", '1', '2');
    StrCmpAntisymmetric("2026010", "2026010");
    assert v.date == "2026010" + ['1'] && w.date == "2026010" + ['2'];
  }

  lemma MadeNightly(last: string, tree: Option<string>, date: string, count: int, commit: string, v: NightlyVersion)
      returns (l: Core, c: Core)
    requires MakeNightly(last, tree, date, count, commit) == Some(v)
    ensures last == CoreText(l) && IsNightly(v, c) && CoreCmp(l, c) == -1
  {
    NextStableIsNewer(last, tree);
    TextOfParsed(last);
    TextOfParsed(v.base);
    l, c := ParseCore(last).value, ParseCore(v.base).value;
  }

  // Whole versions, with the release of the package.

  predicate IsRelease(release: Option<string>) {
    release.Some? ==> Unhyphened(release.value)
  }

  lemma CoreIsUnhyphened(c: Core)
    ensures Unhyphened(CoreText(c)) && |CoreText(c)| > 0
  {
    SpellValue(c.major);
    SpellValue(c.minor);
    SpellValue(c.patch);
  }

  lemma NightlyIsUnhyphened(v: NightlyVersion, c: Core)
    requires IsNightly(v, c)
    ensures Unhyphened(v.Deb()) && Unhyphened(v.Arch()) && |v.Deb()| > 0
  {
    CoreIsUnhyphened(c);
    SpellValue(v.count);
    assert Unhyphened("~nightly.") && Unhyphened("nightly");
  }

  /** The version segments decide when they differ. */
  lemma RevisionsDoNotMatter(x: string, y: string, r: Option<string>, q: Option<string>)
    requires Unhyphened(x) && Unhyphened(y) && IsRelease(r) && IsRelease(q) && DpkgOrder.Compare(x, y) != 0
    ensures DpkgOrder.DebOrder(WithRelease(x, r), WithRelease(y, q)) == Some(DpkgOrder.Compare(x, y))
  {
    DpkgOrder.SplitWithRevision(x, r);
    DpkgOrder.SplitWithRevision(y, q);
  }

  lemma RpmReleasesDoNotMatter(x: string, y: string, r: Option<string>, q: Option<string>)
    requires |x| > 0 && |y| > 0 && Unhyphened(x) && Unhyphened(y) && IsRelease(r) && IsRelease(q)
    requires RpmOrder.Compare(x, y) != 0
    ensures RpmOrder.RpmOrder(WithRelease(x, r), WithRelease(y, q)) == Some(RpmOrder.Compare(x, y))
  {
    RpmOrder.ParseWithRelease(x, r);
    RpmOrder.ParseWithRelease(y, q);
  }

  lemma PkgrelsDoNotMatter(x: string, y: string, r: Option<string>, q: Option<string>)
    requires Unhyphened(x) && Unhyphened(y) && IsRelease(r) && IsRelease(q) && PacmanOrder.Compare(x, y) != 0
    ensures PacmanOrder.PacmanOrder(WithRelease(x, r), WithRelease(y, q)) == PacmanOrder.Compare(x, y)
  {
    PacmanOrder.SplitWithRelease(x, r);
    PacmanOrder.SplitWithRelease(y, q);
    PacmanOrder.TokenCmpIsReflexive();
    LexReflexive(PacmanOrder.TokenCmp, PacmanOrder.End, PacmanOrder.Tokens("0"));
  }

  /** Every nightly is newer than the last stable version and older than the version it leads to, in all four orders,
      whatever releases the packages carry. */
  lemma NightlyIsBetween(last: string, tree: Option<string>, date: string, count: int, commit: string,
                         v: NightlyVersion, r: Option<string>, q: Option<string>, m: Option<nat>, n: Option<nat>)
    requires MakeNightly(last, tree, date, count, commit) == Some(v) && IsRelease(r) && IsRelease(q)
    ensures RpmOrder.RpmOrder(WithRelease(last, r), WithRelease(v.Rpm(), q)) == Some(-1)
    ensures RpmOrder.RpmOrder(WithRelease(v.Rpm(), q), WithRelease(v.base, r)) == Some(-1)
    ensures DpkgOrder.DebOrder(WithRelease(last, r), WithRelease(v.Deb(), q)) == Some(-1)
    ensures DpkgOrder.DebOrder(WithRelease(v.Deb(), q), WithRelease(v.base, r)) == Some(-1)
    ensures PacmanOrder.PacmanOrder(WithRelease(last, r), WithRelease(v.Arch(), q)) == -1
    ensures PacmanOrder.PacmanOrder(WithRelease(v.Arch(), q), WithRelease(v.base, r)) == -1
    ensures ApkOrder.ApkCompare(last + ApkRelease(m), v.Apk() + ApkRelease(n)) == Some(-1)
    ensures ApkOrder.ApkCompare(v.Apk() + ApkRelease(n), v.base + ApkRelease(m)) == Some(-1)
  {
    var l, c := MadeNightly(last, tree, date, count, commit, v);
    CoreIsUnhyphened(l);
    CoreIsUnhyphened(c);
    NightlyIsUnhyphened(v, c);
    RpmBetween(v, c, l);
    DebBetween(v, c, l);
    PacBetween(v, c, l);
    ApkBetween(v, c, l, m, n);
    RpmReleasesDoNotMatter(last, v.Rpm(), r, q);
    RpmReleasesDoNotMatter(v.Rpm(), v.base, q, r);
    RevisionsDoNotMatter(last, v.Deb(), r, q);
    RevisionsDoNotMatter(v.Deb(), v.base, q, r);
    PkgrelsDoNotMatter(last, v.Arch(), r, q);
    PkgrelsDoNotMatter(v.Arch(), v.base, q, r);
  }

  /** And a later nightly of one base is newer for rpm, dpkg and pacman. */
  lemma NightliesGrow(v: NightlyVersion, w: NightlyVersion, c: Core, r: Option<string>, q: Option<string>)
    requires IsNightly(v, c) && IsNightly(w, c) && Later(v, w) && IsRelease(r) && IsRelease(q)
    ensures RpmOrder.RpmOrder(WithRelease(v.Rpm(), r), WithRelease(w.Rpm(), q)) == Some(-1)
    ensures DpkgOrder.DebOrder(WithRelease(v.Deb(), r), WithRelease(w.Deb(), q)) == Some(-1)
    ensures PacmanOrder.PacmanOrder(WithRelease(v.Arch(), r), WithRelease(w.Arch(), q)) == -1
  {
    NightlyIsUnhyphened(v, c);
    NightlyIsUnhyphened(w, c);
    RpmGrows(v, w, c);
    DebGrows(v, w, c);
    PacGrows(v, w, c);
    RpmReleasesDoNotMatter(v.Rpm(), w.Rpm(), r, q);
    RevisionsDoNotMatter(v.Deb(), w.Deb(), r, q);
    PkgrelsDoNotMatter(v.Arch(), w.Arch(), r, q);
  }
}
