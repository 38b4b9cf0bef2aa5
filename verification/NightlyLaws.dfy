/** What nightly versions are, in terms of their texts (scripts/pkgrepo/versions.py, parse_core to semver_to_apk). */
module NightlyLaws {
  import opened Options
  import opened Orders
  import opened Decimal
  import opened Scan
  import opened Nightly

  /** A plain version: three numbers without leading zeros. */
  ghost predicate IsPlain(s: string) {
    exists c: Core :: s == CoreText(c)
  }

  lemma PlainIffParses(s: string)
    ensures ParseCore(s).Some? <==> IsPlain(s)
  {
    if ParseCore(s).Some? {
      TextOfParsed(s);
    }
    forall c: Core | s == CoreText(c) ensures ParseCore(s).Some? {
      ParseCoreText(c);
    }
  }

  predicate Above(t: Core, l: Core) {
    t.major > l.major
    || (t.major == l.major && (t.minor > l.minor || (t.minor == l.minor && t.patch > l.patch)))
  }

  /** The next stable version is the one in the tree if that is above the last one, and otherwise the next patch. */
  lemma NextStableIs(l: Core, t: Core)
    ensures var patched := CoreText(Core(l.major, l.minor, l.patch + 1));
      && NextStable(CoreText(l), None) == Some(patched)
      && NextStable(CoreText(l), Some(CoreText(t))) == Some(if Above(t, l) then CoreText(t) else patched)
  {
    ParseCoreText(l);
    ParseCoreText(t);
  }

  lemma NextStableErrorIff(last: string, tree: Option<string>)
    ensures NextStable(last, tree).None? <==> !IsPlain(last) || (tree.Some? && !IsPlain(tree.value))
  {
    PlainIffParses(last);
    if tree.Some? {
      PlainIffParses(tree.value);
    }
  }

  /** A nightly has the next stable version as its base, the given date and count, and seven digits of the commit. */
  lemma MakeNightlyIs(l: Core, date: string, count: int, commit: string)
    ensures var v := MakeNightly(CoreText(l), None, date, count, commit);
      && (v.Some? <==>
        && |date| == 8 && (forall k :: 0 <= k < 8 ==> '0' <= date[k] <= '9')
        && 0 <= count
        && 7 <= |commit| <= 40 && (forall k :: 0 <= k < |commit| ==> commit[k] in "0123456789abcdef"))
      && (v.Some? ==>
        v.value == NightlyVersion(CoreText(Core(l.major, l.minor, l.patch + 1)), date, count, commit[..7]))
  {
    NextStableIs(l, l);
    HexIsListed(commit);
  }

  lemma HexIsListed(s: string)
    ensures AllHex(s) <==> forall k :: 0 <= k < |s| ==> s[k] in "0123456789abcdef"
  {
    forall k | 0 <= k < |s| ensures Is(Hex, s[k]) <==> s[k] in "0123456789abcdef" {
      HexDigitIsListed(s[k]);
    }
  }

  lemma HexDigitIsListed(c: char)
    ensures Is(Hex, c) <==> c in "0123456789abcdef"
  {
    var hex := "0123456789abcdef";
    if IsDigit(c) {
      assert hex[c as int - '0' as int] == c;
    } else if 'a' <= c <= 'f' {
      assert hex[c as int - 'a' as int + 10] == c;
    }
  }

  /** The tree decides about the base only. */
  lemma TreeDecidesBase(last: string, tree: Option<string>, date: string, count: int, commit: string)
    requires MakeNightly(last, None, date, count, commit).Some?
    ensures var v := MakeNightly(last, tree, date, count, commit);
      && (v.Some? <==> NextStable(last, tree).Some?)
      && (v.Some? ==>
        v.value == MakeNightly(last, None, date, count, commit).value.(base := NextStable(last, tree).value))
  {
  }

  /** How a nightly is spelled. */
  lemma NightlySpellings(v: NightlyVersion)
    ensures v.Rpm() == v.base + "~nightly." + v.date + "." + Spell(v.count) + ".g" + v.commit
    ensures v.Deb() == v.base + "~nightly." + v.date + "." + Spell(v.count) + ".g" + v.commit
    ensures v.Arch() == v.base + "nightly" + v.date + "." + Spell(v.count)
    ensures v.Apk() == v.base + "_pre" + v.date + Spell(v.count)
    ensures v.Semver() == v.base + "-nightly." + v.date + "." + Spell(v.count) + ".g" + v.commit
  {
    hide Spell;
  }

  // Semantic versions other than those of nightlies.

  /** A plain version is spelled as it is. */
  lemma PlainSpellings(c: Core)
    ensures SemverToRpm(CoreText(c)) == Some(CoreText(c))
    ensures SemverToArch(CoreText(c)) == Some(CoreText(c))
    ensures SemverToApk(CoreText(c)) == Some(CoreText(c))
  {
    AfterCoreText(c, "");
    assert CoreText(c) + "" == CoreText(c);
  }

  lemma ParsePrerelease(c: Core, pre: string)
    requires |pre| > 0 && forall n :: 0 <= n < |pre| ==> IsPrereleaseChar(pre[n])
    ensures ParseSemver(CoreText(c) + ("-" + pre)) == Some(Semver(CoreText(c), Some(pre)))
  {
    AfterCoreText(c, "-" + pre);
    SemverAt(CoreText(c), pre, CoreText(c) + ("-" + pre));
  }

  /** For rpm and Debian the hyphen in front of a prerelease becomes a tilde. */
  lemma PrereleaseForRpm(c: Core, pre: string)
    requires |pre| > 0 && forall n :: 0 <= n < |pre| ==> IsPrereleaseChar(pre[n])
    ensures SemverToRpm(CoreText(c) + ("-" + pre)) == Some(CoreText(c) + ("~" + pre))
  {
    ParsePrerelease(c, pre);
  }

  /** An identifier of a prerelease that names no commit. */
  predicate IsIdentifier(t: string) {
    |t| > 0 && (forall k :: 0 <= k < |t| ==> IsAlnum(t[k])) && !IsCommitIdentifier(t)
  }

  lemma TwoIdentifiers(x: string, y: string, hyphens: bool)
    requires IsIdentifier(x) && (IsIdentifier(y) || IsCommitIdentifier(y))
    ensures DropCommits(Split(x, hyphens)) == Cons(x, Nil)
    ensures DropCommits(Split(Dotted(x, y), hyphens)) ==
      Cons(x, if IsCommitIdentifier(y) then Nil else Cons(y, Nil))
  {
    hide Split;
    SplitLast(x, hyphens);
    SplitLast(y, hyphens);
    SplitFirst(x, y, hyphens);
    assert DropCommits(Cons(y, Nil)) == if IsCommitIdentifier(y) then Nil else Cons(y, Nil);
  }

  lemma PrereleaseChars(x: string, y: string)
    requires IsIdentifier(x) && (IsIdentifier(y) || IsCommitIdentifier(y))
    ensures forall n :: 0 <= n < |x| ==> IsPrereleaseChar(x[n])
    ensures forall n :: 0 <= n < |Dotted(x, y)| ==> IsPrereleaseChar(Dotted(x, y)[n])
  {
  }

  lemma JoinTwo(x: string, y: string)
    ensures JoinArch(x, Nil) == ""
    ensures x + JoinArch(x, Cons(y, Nil)) == if IsWord(x) && IsNumber(y) then x + y else Dotted(x, y)
  {
    assert JoinArch(x, Cons(y, Nil)) == (if IsWord(x) && IsNumber(y) then "" else ".") + y + "";
  }

  /** Letters are joined to a number that follows them, other identifiers keep their dot, and commits are dropped. */
  lemma PrereleaseForArch(c: Core, x: string, y: string)
    requires IsIdentifier(x) && (IsIdentifier(y) || IsCommitIdentifier(y))
    ensures SemverToArch(CoreText(c) + ("-" + x)) == Some(CoreText(c) + x)
    ensures SemverToArch(CoreText(c) + ("-" + Dotted(x, y))) == Some(CoreText(c) +
      if IsCommitIdentifier(y) then x else if IsWord(x) && IsNumber(y) then x + y else Dotted(x, y))
  {
    hide CoreText, ParseSemver, Split, DropCommits, JoinArch, IsCommitIdentifier, IsWord, IsNumber;
    PrereleaseChars(x, y);
    TwoIdentifiers(x, y, false);
    ParsePrerelease(c, x);
    ParsePrerelease(c, Dotted(x, y));
    JoinTwo(x, y);
    assert x + "" == x;
  }

  /** The digits of the identifiers that are no commits follow "_pre". */
  lemma PrereleaseForApk(c: Core, x: string, y: string)
    requires IsIdentifier(x) && (IsIdentifier(y) || IsCommitIdentifier(y))
    ensures SemverToApk(CoreText(c) + ("-" + x)) == Some(CoreText(c) + ("_pre" + DigitsOf(x)))
    ensures SemverToApk(CoreText(c) + ("-" + Dotted(x, y))) ==
      Some(CoreText(c) + ("_pre" + (DigitsOf(x) + if IsCommitIdentifier(y) then "" else DigitsOf(y))))
    ensures IsWord(x) && IsNumber(y) ==>
      SemverToApk(CoreText(c) + ("-" + Dotted(x, y))) == Some(CoreText(c) + ("_pre" + y))
  {
    hide CoreText, ParseSemver, Split, DropCommits, DigitsOf;
    PrereleaseChars(x, y);
    TwoIdentifiers(x, y, true);
    ParsePrerelease(c, x);
    ParsePrerelease(c, Dotted(x, y));
    ConcatTwo(x, y);
    DigitsOfConcat(x, y);
    assert DigitsOf(x) + "" == DigitsOf(x);
    if IsWord(x) && IsNumber(y) {
      DigitsOfOthers(x);
      DigitsOfDigits(y);
      assert !IsCommitIdentifier(y) && "" + y == y;
    }
  }

  lemma ConcatTwo(x: string, y: string)
    ensures Concat(Cons(x, Nil)) == x && Concat(Cons(x, Cons(y, Nil))) == x + y
  {
    assert Concat(Cons(y, Nil)) == y + "" == y;
  }
}
