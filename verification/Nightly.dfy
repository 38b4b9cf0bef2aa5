/** Nightly versions and how they are spelled for each package manager (scripts/pkgrepo/versions.py). */
module Nightly {
  import opened Options
  import opened Orders
  import opened Decimal
  import opened Scan

  datatype Core = Core(major: nat, minor: nat, patch: nat)

  function CoreText(c: Core): string {
    Dotted(Spell(c.major), Dotted(Spell(c.minor), Spell(c.patch)))
  }

  function CoreCmp(x: Core, y: Core): int {
    if x.major != y.major then Cmp(x.major, y.major)
    else if x.minor != y.minor then Cmp(x.minor, y.minor)
    else Cmp(x.patch, y.patch)
  }

  /** MAJOR.MINOR.PATCH without leading zeros; None stands for the error on anything else. */
  function ParseCore(s: string): Option<Core> {
    var a, s1 := Digits(s), Rest(s);
    if !(Canonical(a) && DotAt(s1)) then None
    else
      var b, s2 := Digits(s1[1..]), Rest(s1[1..]);
      if !(Canonical(b) && DotAt(s2) && Canonical(s2[1..])) then None
      else Some(Core(Value(a), Value(b), Value(s2[1..])))
  }

  function NextStable(last: string, tree: Option<string>): Option<string> {
    match ParseCore(last)
    case None => None
    case Some(l) =>
      if tree.Some? && ParseCore(tree.value).None? then None
      else if tree.Some? && CoreCmp(ParseCore(tree.value).value, l) > 0 then Some(tree.value)
      else Some(CoreText(l.(patch := l.patch + 1)))
  }

  datatype NightlyVersion = NightlyVersion(base: string, date: string, count: nat, commit: string) {
    function Prerelease(): string {
      Dotted("nightly", Dotted(date, Dotted(Spell(count), "g" + commit)))
    }

    function Rpm(): string {
      base + ("~" + Prerelease())
    }

    function Deb(): string {
      Rpm()
    }

    function Arch(): string {
      base + ("nightly" + Dotted(date, Spell(count)))
    }

    function Apk(): string {
      base + ("_pre" + (date + Spell(count)))
    }

    function Semver(): string {
      base + ("-" + Prerelease())
    }
  }

  predicate AllHex(s: string) {
    forall k :: 0 <= k < |s| ==> Is(Hex, s[k])
  }

  predicate IsDate(s: string) {
    |s| == 8 && AllDigits(s)
  }

  predicate IsCommit(s: string) {
    7 <= |s| <= 40 && AllHex(s)
  }

  function MakeNightly(last: string, tree: Option<string>, date: string, count: int,
                       commit: string): Option<NightlyVersion> {
    if !IsDate(date) || count < 0 || !IsCommit(commit) then None
    else match NextStable(last, tree)
      case None => None
      case Some(base) => Some(NightlyVersion(base, date, count, commit[..7]))
  }

  // Reading a core version back.

  lemma ParseDotted(a: string, b: string, d: string)
    requires Canonical(a) && Canonical(b) && Canonical(d)
    ensures ParseCore(Dotted(a, Dotted(b, d))) == Some(Core(Value(a), Value(b), Value(d)))
  {
    HeadDotted(a, Dotted(b, d));
    HeadDotted(b, d);
  }

  lemma ParseCoreText(c: Core)
    ensures ParseCore(CoreText(c)) == Some(c)
  {
    SpellValue(c.major);
    SpellValue(c.minor);
    SpellValue(c.patch);
    ParseDotted(Spell(c.major), Spell(c.minor), Spell(c.patch));
  }

  lemma TextOfParsed(s: string)
    requires ParseCore(s).Some?
    ensures s == CoreText(ParseCore(s).value)
  {
    var a, s1 := Digits(s), Rest(s);
    var b, s2 := Digits(s1[1..]), Rest(s1[1..]);
    DigitsAreDigits(s);
    DigitsAreDigits(s1[1..]);
    assert s1 == "." + s1[1..] && s2 == "." + s2[1..];
    ValueSpell(a);
    ValueSpell(b);
    ValueSpell(s2[1..]);
  }

  /** The base of a nightly is a plain version above the last stable one, and never above the version in the tree
      when that is the newer one. */
  lemma NextStableIsNewer(last: string, tree: Option<string>)
    requires NextStable(last, tree).Some?
    ensures ParseCore(last).Some? && ParseCore(NextStable(last, tree).value).Some?
    ensures CoreCmp(ParseCore(last).value, ParseCore(NextStable(last, tree).value).value) == -1
  {
    var l := ParseCore(last).value;
    ParseCoreText(l.(patch := l.patch + 1));
  }

  // Spellings made from the semantic version.

  predicate IsPrereleaseChar(c: char) {
    IsAlnum(c) || c == '.' || c == '-'
  }

  /** What follows MAJOR.MINOR.PATCH, leading zeros allowed. */
  function AfterCore(s: string): (r: Option<string>)
    ensures r.Some? ==> |r.value| <= |s|
  {
    var s1 := Rest(s);
    if !(|Digits(s)| > 0 && DotAt(s1)) then None
    else
      var s2 := Rest(s1[1..]);
      if !(|Digits(s1[1..])| > 0 && DotAt(s2)) then None
      else if |Digits(s2[1..])| == 0 then None
      else Some(Rest(s2[1..]))
  }

  datatype Semver = Semver(core: string, prerelease: Option<string>)

  function ParseSemver(s: string): Option<Semver> {
    match AfterCore(s)
    case None => None
    case Some(t) =>
      if |t| == 0 then Some(Semver(s, None))
      else if t[0] == '-' && |t| > 1 && (forall n :: 0 < n < |t| ==> IsPrereleaseChar(t[n])) then
        Some(Semver(s[..|s| - |t|], Some(t[1..])))
      else None
  }

  /** The pieces of `s` between the separators. */
  function Split(s: string, hyphens: bool): List<string>
    decreases |s|
  {
    var n := PieceEnd(s, 0, hyphens);
    if n == |s| then Cons(s, Nil) else Cons(s[..n], Split(s[n + 1..], hyphens))
  }

  predicate IsSplit(c: char, hyphens: bool) {
    c == '.' || (hyphens && c == '-')
  }

  function PieceEnd(s: string, i: nat, hyphens: bool): (n: nat)
    requires i <= |s|
    ensures i <= n <= |s|
    decreases |s| - i
  {
    if i == |s| || IsSplit(s[i], hyphens) then i else PieceEnd(s, i + 1, hyphens)
  }

  predicate IsCommitIdentifier(t: string) {
    |t| > 0 && t[0] == 'g' && IsCommit(t[1..])
  }

  function DropCommits(tokens: List<string>): List<string> {
    if tokens.Nil? then Nil
    else if IsCommitIdentifier(tokens.head) then DropCommits(tokens.tail)
    else Cons(tokens.head, DropCommits(tokens.tail))
  }

  function JoinArch(previous: string, tokens: List<string>): string
    decreases tokens
  {
    if tokens.Nil? then ""
    else
      var glue := if IsWord(previous) && |tokens.head| > 0 && AllDigits(tokens.head) then "" else ".";
      glue + tokens.head + JoinArch(tokens.head, tokens.tail)
  }

  function DigitsOf(s: string): string {
    if |s| == 0 then ""
    else if IsDigit(s[0]) then [s[0]] + DigitsOf(s[1..])
    else DigitsOf(s[1..])
  }

  function Concat(tokens: List<string>): string {
    if tokens.Nil? then "" else tokens.head + Concat(tokens.tail)
  }

  function SemverToRpm(s: string): Option<string> {
    match ParseSemver(s)
    case None => None
    case Some(Semver(_, None)) => Some(s)
    case Some(Semver(core, Some(pre))) => Some(core + ("~" + pre))
  }

  /** None also stands for the missing first token of a prerelease that is only commit identifiers. */
  function SemverToArch(s: string): Option<string> {
    match ParseSemver(s)
    case None => None
    case Some(Semver(_, None)) => Some(s)
    case Some(Semver(core, Some(pre))) =>
      var tokens := DropCommits(Split(pre, false));
      if tokens.Nil? then None else Some(core + (tokens.head + JoinArch(tokens.head, tokens.tail)))
  }

  function SemverToApk(s: string): Option<string> {
    match ParseSemver(s)
    case None => None
    case Some(Semver(_, None)) => Some(s)
    case Some(Semver(core, Some(pre))) => Some(core + ("_pre" + DigitsOf(Concat(DropCommits(Split(pre, true))))))
  }

  lemma {:induction false} PieceEndUnique(s: string, i: nat, hyphens: bool, n: nat)
    requires i <= n <= |s|
    requires forall k :: i <= k < n ==> !IsSplit(s[k], hyphens)
    requires n < |s| ==> IsSplit(s[n], hyphens)
    ensures PieceEnd(s, i, hyphens) == n
    decreases n - i
  {
    if i < n {
      PieceEndUnique(s, i + 1, hyphens, n);
    }
  }

  lemma SplitFirst(x: string, rest: string, hyphens: bool)
    requires forall k :: 0 <= k < |x| ==> !IsSplit(x[k], hyphens)
    ensures Split(Dotted(x, rest), hyphens) == Cons(x, Split(rest, hyphens))
  {
    var s := Dotted(x, rest);
    PieceEndUnique(s, 0, hyphens, |x|);
    assert s[..|x|] == x && s[|x| + 1..] == rest;
  }

  lemma SplitLast(x: string, hyphens: bool)
    requires forall k :: 0 <= k < |x| ==> !IsSplit(x[k], hyphens)
    ensures Split(x, hyphens) == Cons(x, Nil)
  {
    PieceEndUnique(x, 0, hyphens, |x|);
  }

  ghost predicate IsNightly(v: NightlyVersion, c: Core) {
    v.base == CoreText(c) && IsDate(v.date) && |v.commit| == 7 && AllHex(v.commit)
  }

  lemma AfterDotted(a: string, b: string, d: string, t: string)
    requires IsNumber(a) && IsNumber(b) && IsNumber(d) && (|t| > 0 ==> !IsDigit(t[0]))
    ensures AfterCore(Dotted(a, Dotted(b, d)) + t) == Some(t)
  {
    DottedConcat(a, Dotted(b, d), t);
    DottedConcat(b, d, t);
    HeadDotted(a, Dotted(b, d + t));
    HeadDotted(b, d + t);
    HeadNumber(d, t);
  }

  lemma AfterCoreText(c: Core, t: string)
    requires |t| > 0 ==> !IsDigit(t[0])
    ensures AfterCore(CoreText(c) + t) == Some(t)
  {
    SpellValue(c.major);
    SpellValue(c.minor);
    SpellValue(c.patch);
    AfterDotted(Spell(c.major), Spell(c.minor), Spell(c.patch), t);
  }

  lemma SemverAt(base: string, pre: string, s: string)
    requires s == base + ("-" + pre) && AfterCore(s) == Some("-" + pre) && |pre| > 0
    requires forall n :: 0 <= n < |pre| ==> IsPrereleaseChar(pre[n])
    ensures ParseSemver(s) == Some(Semver(base, Some(pre)))
  {
    assert s[..|base|] == base && ("-" + pre)[1..] == pre;
  }

  lemma SemverParses(v: NightlyVersion, c: Core)
    requires IsNightly(v, c)
    ensures ParseSemver(v.Semver()) == Some(Semver(v.base, Some(v.Prerelease())))
  {
    AfterCoreText(c, "-" + v.Prerelease());
    PrereleaseChars(v, c);
    SemverAt(v.base, v.Prerelease(), v.Semver());
  }

  lemma PrereleaseChars(v: NightlyVersion, c: Core)
    requires IsNightly(v, c)
    ensures forall n :: 0 <= n < |v.Prerelease()| ==> IsPrereleaseChar(v.Prerelease()[n])
  {
    SpellValue(v.count);
  }

  lemma SplitPieces(date: string, n: string, g: string, hyphens: bool)
    requires AllDigits(date) && AllDigits(n) && forall k :: 0 <= k < |g| ==> IsAlnum(g[k])
    ensures Split(Dotted("nightly", Dotted(date, Dotted(n, g))), hyphens) ==
      Cons("nightly", Cons(date, Cons(n, Cons(g, Nil))))
  {
    SplitFirst("nightly", Dotted(date, Dotted(n, g)), hyphens);
    SplitFirst(date, Dotted(n, g), hyphens);
    SplitFirst(n, g, hyphens);
    SplitLast(g, hyphens);
  }

  lemma PrereleaseTokens(v: NightlyVersion, c: Core, hyphens: bool)
    requires IsNightly(v, c)
    ensures DropCommits(Split(v.Prerelease(), hyphens)) == Cons("nightly", Cons(v.date, Cons(Spell(v.count), Nil)))
  {
    SpellValue(v.count);
    SplitPieces(v.date, Spell(v.count), "g" + v.commit, hyphens);
    DropOneCommit(v.date, Spell(v.count), v.commit);
  }

  lemma DropOneCommit(date: string, n: string, commit: string)
    requires AllDigits(date) && AllDigits(n) && IsCommit(commit)
    ensures DropCommits(Cons("nightly", Cons(date, Cons(n, Cons("g" + commit, Nil))))) ==
      Cons("nightly", Cons(date, Cons(n, Nil)))
  {
    var g := "g" + commit;
    assert g[1..] == commit;
    assert DropCommits(Cons(g, Nil)) == Nil;
    assert DropCommits(Cons(n, Cons(g, Nil))) == Cons(n, Nil);
    assert DropCommits(Cons(date, Cons(n, Cons(g, Nil)))) == Cons(date, Cons(n, Nil));
  }

  lemma {:induction false} DigitsOfConcat(s: string, t: string)
    ensures DigitsOf(s + t) == DigitsOf(s) + DigitsOf(t)
  {
    if |s| == 0 {
      assert s + t == t;
    } else {
      assert (s + t)[1..] == s[1..] + t;
      DigitsOfConcat(s[1..], t);
    }
  }

  lemma {:induction false} DigitsOfDigits(s: string)
    requires AllDigits(s)
    ensures DigitsOf(s) == s
  {
    if |s| > 0 {
      DigitsOfDigits(s[1..]);
      assert s == [s[0]] + s[1..];
    }
  }

  lemma {:induction false} DigitsOfOthers(s: string)
    requires forall k :: 0 <= k < |s| ==> !IsDigit(s[k])
    ensures DigitsOf(s) == ""
  {
    if |s| > 0 {
      DigitsOfOthers(s[1..]);
    }
  }

  lemma ArchPieces(date: string, n: string)
    requires IsNumber(date) && IsNumber(n)
    ensures JoinArch("nightly", Cons(date, Cons(n, Nil))) == Dotted(date, n)
  {
    assert !IsAlpha(date[0]);
    assert JoinArch(date, Cons(n, Nil)) == "." + n + "";
    assert JoinArch("nightly", Cons(date, Cons(n, Nil))) == "" + date + ("." + n + "");
  }

  lemma ApkDigits(date: string, n: string)
    requires AllDigits(date) && AllDigits(n)
    ensures DigitsOf(Concat(Cons("nightly", Cons(date, Cons(n, Nil))))) == date + n
  {
    assert Concat(Cons(n, Nil)) == n + "" == n;
    assert Concat(Cons(date, Cons(n, Nil))) == date + n;
    assert Concat(Cons("nightly", Cons(date, Cons(n, Nil)))) == "nightly" + (date + n);
    DigitsOfConcat("nightly", date + n);
    DigitsOfDigits(date + n);
    DigitsOfOthers("nightly");
  }

  /** The spellings made from the semantic version of a nightly are the spellings of the nightly. */
  lemma SemverSpellings(v: NightlyVersion, c: Core)
    requires IsNightly(v, c)
    ensures SemverToRpm(v.Semver()) == Some(v.Rpm())
    ensures SemverToArch(v.Semver()) == Some(v.Arch())
    ensures SemverToApk(v.Semver()) == Some(v.Apk())
  {
    SemverParses(v, c);
    PrereleaseTokens(v, c, false);
    PrereleaseTokens(v, c, true);
    SpellValue(v.count);
    ArchPieces(v.date, Spell(v.count));
    ApkDigits(v.date, Spell(v.count));
  }
}
