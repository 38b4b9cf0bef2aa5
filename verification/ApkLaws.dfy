/** What Alpine's versions are made of, and what its order says of their pieces (scripts/pkgrepo/versions.py,
    _APK_VERSION and apk_compare). */
module ApkLaws {
  import opened Options
  import opened Orders
  import opened Decimal
  import opened Scan
  import opened ApkOrder

  datatype Piece = Piece(name: string, digits: string)

  /** A version in pieces; an empty letter, hash or release is a missing one. */
  datatype Pieces = Pieces(numbers: List<string>, letter: string, suffixes: List<Piece>, hash: string, release: string)

  function NumbersText(numbers: List<string>, rest: string): string {
    match numbers
    case Nil => rest
    case Cons(d, more) => if more.Nil? then d + rest else Dotted(d, NumbersText(more, rest))
  }

  function SuffixesText(suffixes: List<Piece>, rest: string): string {
    match suffixes
    case Nil => rest
    case Cons(x, more) => "_" + (x.name + (x.digits + SuffixesText(more, rest)))
  }

  function HashText(hash: string, rest: string): string {
    if hash == "" then rest else "~" + (hash + rest)
  }

  function ReleaseText(release: string): string {
    if release == "" then "" else "-r" + release
  }

  function Text(p: Pieces): string {
    NumbersText(p.numbers, p.letter + SuffixesText(p.suffixes, HashText(p.hash, ReleaseText(p.release))))
  }

  // The names, from the oldest to the newest; the empty one stands for a version that goes on without a suffix.
  const NAMES := ["alpha", "beta", "pre", "rc", "", "cvs", "svn", "git", "hg", "p"]

  predicate IsName(name: string) {
    name in NAMES && name != ""
  }

  predicate AllNumbers(numbers: List<string>) {
    numbers.Cons? ==> IsNumber(numbers.head) && AllNumbers(numbers.tail)
  }

  predicate AllSuffixes(suffixes: List<Piece>) {
    suffixes.Cons? ==> IsName(suffixes.head.name) && AllDigits(suffixes.head.digits) && AllSuffixes(suffixes.tail)
  }

  predicate IsLetter(s: string) {
    s == "" || (|s| == 1 && 'a' <= s[0] <= 'z')
  }

  predicate IsHash(s: string) {
    forall k :: 0 <= k < |s| ==> Is(Hex, s[k])
  }

  predicate WellFormed(p: Pieces) {
    && p.numbers.Cons? && AllNumbers(p.numbers) && IsLetter(p.letter)
    && AllSuffixes(p.suffixes) && IsHash(p.hash) && AllDigits(p.release)
  }

  // What the grammar reads is what was written.

  predicate Ends(rest: string, after: string) {
    |rest| > 0 ==> rest[0] in after
  }

  lemma {:induction false} NumbersOfText(numbers: List<string>, rest: string)
    requires numbers.Cons? && AllNumbers(numbers)
    requires |rest| > 0 ==> !IsDigit(rest[0]) && rest[0] != '.'
    ensures var s := NumbersText(numbers, rest);
      Numbers(s) == numbers && NumbersRest(s) == rest && |s| > 0 && IsDigit(s[0])
  {
    if numbers.tail.Nil? {
      HeadNumber(numbers.head, rest);
    } else {
      NumbersOfText(numbers.tail, rest);
      HeadDotted(numbers.head, NumbersText(numbers.tail, rest));
    }
  }

  /** The place of a name in the order that the code gives it. */
  function OrderOf(name: string): int
    requires IsName(name)
  {
    if name == "alpha" then -4 else if name == "beta" then -3 else if name == "pre" then -2 else if name == "rc" then -1
    else if name == "cvs" then 1 else if name == "svn" then 2 else if name == "git" then 3 else if name == "hg" then 4
    else 5
  }

  /** No name but itself starts a name with something else behind it, except that "pre" starts with "p". */
  lemma NamePrefix(name: string, rest: string, k: nat)
    requires IsName(name) && (|rest| > 0 ==> !IsAlpha(rest[0])) && k < |SUFFIXES|
    ensures SUFFIXES[k].0 <= name + rest <==> SUFFIXES[k].0 == name || (name == "pre" && k == 8)
  {
    var s, other := name + rest, SUFFIXES[k].0;
    assert forall n :: 0 <= n < |other| ==> IsAlpha(other[n]);
    assert |s| > |name| ==> s[|name|] == rest[0];
    if other <= s {
      assert s[..|other|] == name[..|other|];
      assert other[0] == name[0];
      assert |other| > 1 ==> other[1] == name[1];
    } else {
      assert name == s[..|name|];
      assert "p" <= "pre" && "pre" + rest == "p" + ("re" + rest);
    }
  }

  lemma NameOfText(name: string, rest: string)
    requires IsName(name) && (|rest| > 0 ==> !IsAlpha(rest[0]))
    ensures SuffixName(name + rest, 0) == Some((name, OrderOf(name)))
  {
    forall k | 0 <= k < |SUFFIXES|
      ensures SUFFIXES[k].0 <= name + rest <==> SUFFIXES[k].0 == name || (name == "pre" && k == 8)
    {
      NamePrefix(name, rest, k);
    }
    var s := name + rest;
    assert SuffixName(s, 9) == None;
    assert SuffixName(s, 8) == if name == "p" || name == "pre" then Some(("p", 5)) else None;
    assert SuffixName(s, 7) == if name == "hg" then Some(("hg", 4)) else SuffixName(s, 8);
    assert SuffixName(s, 6) == if name == "git" then Some(("git", 3)) else SuffixName(s, 7);
    assert SuffixName(s, 5) == if name == "svn" then Some(("svn", 2)) else SuffixName(s, 6);
    assert SuffixName(s, 4) == if name == "cvs" then Some(("cvs", 1)) else SuffixName(s, 5);
    assert SuffixName(s, 3) == if name == "rc" then Some(("rc", -1)) else SuffixName(s, 4);
    assert SuffixName(s, 2) == if name == "pre" then Some(("pre", -2)) else SuffixName(s, 3);
    assert SuffixName(s, 1) == if name == "beta" then Some(("beta", -3)) else SuffixName(s, 2);
  }

  function Read(suffixes: List<Piece>): List<Suffix>
    requires AllSuffixes(suffixes)
  {
    match suffixes
    case Nil => Nil
    case Cons(x, more) => Cons(Suffix(OrderOf(x.name), Value(x.digits)), Read(more))
  }

  lemma DigitsThen(d: string, t: string)
    requires AllDigits(d) && (|t| > 0 ==> !IsDigit(t[0]))
    ensures Digits(d + t) == d && Rest(d + t) == t
  {
    RunEndUnique(d + t, 0, Digit, |d|);
  }

  lemma {:induction false} SuffixesOfText(suffixes: List<Piece>, rest: string)
    requires AllSuffixes(suffixes) && Ends(rest, "~-")
    ensures var s := SuffixesText(suffixes, rest);
      Suffixes(s) == Read(suffixes) && SuffixesRest(s) == rest && Ends(s, "_~-")
  {
    if suffixes.Cons? {
      var x, more := suffixes.head, SuffixesText(suffixes.tail, rest);
      SuffixesOfText(suffixes.tail, rest);
      var s := SuffixesText(suffixes, rest);
      assert s[1..] == x.name + (x.digits + more);
      NameOfText(x.name, x.digits + more);
      assert SuffixNumber(s) == x.digits + more;
      DigitsThen(x.digits, more);
    }
  }

  lemma HashOfText(hash: string, release: string)
    requires IsHash(hash) && AllDigits(release)
    ensures var s := HashText(hash, ReleaseText(release));
      HashRest(s) == ReleaseText(release) && Ends(s, "~-")
  {
    if hash != "" {
      var s := HashText(hash, ReleaseText(release));
      RunEndUnique(s, 1, Hex, 1 + |hash|);
    }
  }

  lemma ReleaseOfText(release: string)
    requires AllDigits(release)
    ensures var s := ReleaseText(release);
      && (ReleaseAt(s) <==> release != "")
      && (release != "" ==> Digits(s[2..]) == release && Rest(s[2..]) == "")
  {
    if release != "" {
      var s := ReleaseText(release);
      assert s[2..] == release && release + "" == release;
      DigitsThen(release, "");
    }
  }

  function ReadRelease(release: string): Option<nat> {
    if release == "" then None else Some(Value(release))
  }

  lemma PartsOfText(p: Pieces)
    requires WellFormed(p)
    ensures ApkParts(Text(p)) == Some(Parts(p.numbers, p.letter, Read(p.suffixes), ReadRelease(p.release)))
  {
    hide Numbers, NumbersRest, Suffixes, SuffixesRest, HashRest, ReleaseAt, NumbersText, SuffixesText, HashText;
    var s3 := HashText(p.hash, ReleaseText(p.release));
    var s2 := SuffixesText(p.suffixes, s3);
    ReleaseOfText(p.release);
    HashOfText(p.hash, p.release);
    SuffixesOfText(p.suffixes, s3);
    NumbersOfText(p.numbers, p.letter + s2);
    assert LetterAt(p.letter + s2) <==> p.letter != "";
    assert p.letter == "" ==> p.letter + s2 == s2;
    assert p.letter != "" ==> (p.letter + s2)[..1] == p.letter && (p.letter + s2)[1..] == s2;
  }

  // Every string that parses is such a text.

  lemma {:induction false} NameIsPrefix(s: string, k: nat)
    requires k <= |SUFFIXES|
    ensures var r := SuffixName(s, k);
      r.Some? ==> IsName(r.value.0) && r.value.0 <= s
    decreases |SUFFIXES| - k
  {
    if k < |SUFFIXES| && !(SUFFIXES[k].0 <= s) {
      NameIsPrefix(s, k + 1);
    } else if k < |SUFFIXES| {
      assert SUFFIXES[k].0 == if k < 4 then NAMES[k] else NAMES[k + 1];
    }
  }

  function SuffixPieces(s: string): List<Piece>
    decreases |s|
  {
    if SuffixAt(s) then
      Cons(Piece(SuffixName(s[1..], 0).value.0, Digits(SuffixNumber(s))), SuffixPieces(Rest(SuffixNumber(s))))
    else Nil
  }

  lemma {:induction false} TextOfSuffixes(s: string)
    ensures AllSuffixes(SuffixPieces(s)) && SuffixesText(SuffixPieces(s), SuffixesRest(s)) == s
    decreases |s|
  {
    hide SuffixName, RunEnd;
    if SuffixAt(s) {
      var name, number := SuffixName(s[1..], 0).value.0, SuffixNumber(s);
      NameIsPrefix(s[1..], 0);
      DigitsAreDigits(number);
      TextOfSuffixes(Rest(number));
      assert s[1..] == name + number;
      assert s == "_" + s[1..];
    }
  }

  lemma {:induction false} TextOfNumbers(s: string)
    requires |s| > 0 && IsDigit(s[0])
    ensures AllNumbers(Numbers(s)) && NumbersText(Numbers(s), NumbersRest(s)) == s
    decreases |s|
  {
    DigitsAreDigits(s);
    if MoreNumbers(Rest(s)) {
      TextOfNumbers(Rest(s)[1..]);
      assert Rest(s) == "." + Rest(s)[1..];
    }
  }

  function HashOf(s: string): string {
    if HashRest(s) == s then "" else s[1..RunEnd(s, 1, Hex)]
  }

  lemma TextOfHash(s: string)
    ensures IsHash(HashOf(s)) && HashText(HashOf(s), HashRest(s)) == s
  {
    if HashRest(s) != s {
      RunIsOfClass(s, 1, Hex);
      assert RunEnd(s, 2, Hex) == RunEnd(s, 1, Hex);
      assert s == "~" + (HashOf(s) + HashRest(s));
    }
  }

  function ReleaseOf(s: string): string {
    if ReleaseAt(s) then Digits(s[2..]) else ""
  }

  lemma TextOfRelease(s: string)
    requires if ReleaseAt(s) then Rest(s[2..]) == "" else s == ""
    ensures AllDigits(ReleaseOf(s)) && ReleaseText(ReleaseOf(s)) == s
  {
    if ReleaseAt(s) {
      DigitsAreDigits(s[2..]);
      assert s == "-r" + s[2..];
    }
  }

  function PiecesOf(s: string): Pieces {
    var s1 := NumbersRest(s);
    var letter, s2 := if LetterAt(s1) then s1[..1] else "", if LetterAt(s1) then s1[1..] else s1;
    var s3 := SuffixesRest(s2);
    Pieces(Numbers(s), letter, SuffixPieces(s2), HashOf(s3), ReleaseOf(HashRest(s3)))
  }

  lemma TextOfParsed(s: string)
    requires ApkParts(s).Some?
    ensures WellFormed(PiecesOf(s)) && Text(PiecesOf(s)) == s
  {
    hide SuffixesText, SuffixPieces, SuffixesRest, HashText, HashOf, HashRest, NumbersText, ReleaseAt;
    var s1 := NumbersRest(s);
    var s2 := if LetterAt(s1) then s1[1..] else s1;
    var s3 := SuffixesRest(s2);
    TextOfNumbers(s);
    TextOfSuffixes(s2);
    TextOfHash(s3);
    TextOfRelease(HashRest(s3));
    assert s1 == PiecesOf(s).letter + s2;
  }

  /** A string is a version if and only if it is made of well-formed pieces, in this order. */
  lemma ParsesIffText(s: string)
    ensures ApkParts(s).Some? <==> exists p :: WellFormed(p) && Text(p) == s
    ensures forall b :: ApkCompare(s, b).None? <==> ApkParts(s).None? || ApkParts(b).None?
  {
    if ApkParts(s).Some? {
      TextOfParsed(s);
    }
    forall p | WellFormed(p) && Text(p) == s ensures ApkParts(s).Some? {
      PartsOfText(p);
    }
  }

  // The order.

  /** The release decides last, upwards, and no release is older than any release. */
  lemma ReleaseDecidesLast(p: Pieces, d: string, e: string)
    requires WellFormed(p) && IsNumber(d) && IsNumber(e)
    ensures Value(d) < Value(e) ==> ApkCompare(Text(p.(release := d)), Text(p.(release := e))) == Some(-1)
    ensures Value(d) == Value(e) ==> ApkCompare(Text(p.(release := d)), Text(p.(release := e))) == Some(0)
    ensures ApkCompare(Text(p.(release := "")), Text(p.(release := e))) == Some(-1)
  {
    hide Text, Value;
    PartsOfText(p.(release := d));
    PartsOfText(p.(release := e));
    PartsOfText(p.(release := ""));
    SamePieces(p);
  }

  lemma {:induction false} NumbersReflexive(later: bool, numbers: List<string>)
    ensures ZipCmp(later, numbers, numbers) == 0
    decreases numbers
  {
    if numbers.Cons? {
      StrCmpAntisymmetric(numbers.head, numbers.head);
      NumbersReflexive(true, numbers.tail);
    }
  }

  lemma SamePieces(p: Pieces)
    requires WellFormed(p)
    ensures NumbersCmp(p.numbers, p.numbers) == 0 && StrCmp(p.letter, p.letter) == 0
    ensures Lex(SuffixCmp, Suffix(0, 0), Read(p.suffixes), Read(p.suffixes)) == 0
  {
    NumbersReflexive(false, p.numbers);
    StrCmpAntisymmetric(p.letter, p.letter);
    assert Reflexive(SuffixCmp);
    LexReflexive(SuffixCmp, Suffix(0, 0), Read(p.suffixes));
  }

  /** The hash is not compared. */
  lemma HashDoesNotCount(p: Pieces, hash: string, b: string)
    requires WellFormed(p) && IsHash(hash)
    ensures ApkCompare(Text(p.(hash := hash)), b) == ApkCompare(Text(p), b)
    ensures ApkCompare(b, Text(p.(hash := hash))) == ApkCompare(b, Text(p))
  {
    hide Text, PartsCmp;
    PartsOfText(p);
    PartsOfText(p.(hash := hash));
  }

  function NameOf(suffixes: List<Piece>): string {
    if suffixes.Nil? then "" else suffixes.head.name
  }

  lemma {:induction false} ReadAppend(s: List<Piece>, t: List<Piece>)
    requires AllSuffixes(Append(s, t))
    ensures AllSuffixes(s) && AllSuffixes(t) && Read(Append(s, t)) == Append(Read(s), Read(t))
  {
    if s.Cons? {
      ReadAppend(s.tail, t);
    }
  }

  lemma SameNumbersCompare(p: Pieces, q: Pieces)
    requires WellFormed(p) && WellFormed(q) && p.numbers == q.numbers
    ensures var c := Lex(SuffixCmp, Suffix(0, 0), Read(p.suffixes), Read(q.suffixes));
      ApkCompare(Text(p), Text(q)) ==
        Some(if p.letter != q.letter then StrCmp(p.letter, q.letter)
          else if c != 0 then c else ReleaseCmp(ReadRelease(p.release), ReadRelease(q.release)))
  {
    hide Text, StrCmp, Lex, ReleaseCmp;
    PartsOfText(p);
    PartsOfText(q);
    NumbersReflexive(false, p.numbers);
    StrCmpAntisymmetric(p.letter, q.letter);
  }

  lemma ReadsCompare(common: List<Piece>, s: List<Piece>, t: List<Piece>)
    requires AllSuffixes(Append(common, s)) && AllSuffixes(Append(common, t))
    ensures AllSuffixes(s) && AllSuffixes(t)
    ensures Lex(SuffixCmp, Suffix(0, 0), Read(Append(common, s)), Read(Append(common, t))) ==
      Lex(SuffixCmp, Suffix(0, 0), Read(s), Read(t))
  {
    hide OrderOf, Value, IsName;
    ReadAppend(common, s);
    ReadAppend(common, t);
    assert Reflexive(SuffixCmp);
    LexPrefix(SuffixCmp, Suffix(0, 0), Read(common), Read(s), Read(t));
  }

  lemma {:induction false} AppendSuffixes(s: List<Piece>, t: List<Piece>)
    requires AllSuffixes(s) && AllSuffixes(t)
    ensures AllSuffixes(Append(s, t))
  {
    if s.Cons? {
      AppendSuffixes(s.tail, t);
    }
  }

  /** The orders that the code gives the names rise with the names. */
  lemma NamesRise(s: List<Piece>, t: List<Piece>, i: nat, j: nat)
    requires AllSuffixes(s) && AllSuffixes(t)
    requires i < j < |NAMES| && NAMES[i] == NameOf(s) && NAMES[j] == NameOf(t)
    ensures Lex(SuffixCmp, Suffix(0, 0), Read(s), Read(t)) == -1
  {
    hide Value;
    var x, y := Head(Read(s), Suffix(0, 0)), Head(Read(t), Suffix(0, 0));
    assert x.order == if i < 4 then i - 4 else if i == 4 then 0 else i - 4;
    assert y.order == if j < 4 then j - 4 else if j == 4 then 0 else j - 4;
  }

  /** Behind equal numbers, letters and suffixes, the name of the next suffix decides, or its absence. */
  lemma SuffixNamesDecide(p: Pieces, q: Pieces, common: List<Piece>, s: List<Piece>, t: List<Piece>, i: nat, j: nat)
    requires WellFormed(p) && WellFormed(q) && p.numbers == q.numbers && p.letter == q.letter
    requires p.suffixes == Append(common, s) && q.suffixes == Append(common, t)
    requires i < j < |NAMES| && NAMES[i] == NameOf(s) && NAMES[j] == NameOf(t)
    ensures ApkCompare(Text(p), Text(q)) == Some(-1)
  {
    hide Text, ApkCompare, Value, OrderOf, ReleaseCmp, Lex, Read;
    SameNumbersCompare(p, q);
    ReadsCompare(common, s, t);
    NamesRise(s, t, i, j);
  }

  lemma NumberedSuffixes(s: List<Piece>, t: List<Piece>)
    requires AllSuffixes(s) && AllSuffixes(t) && s.Cons? && t.Cons? && s.head.name == t.head.name
    ensures Value(s.head.digits) < Value(t.head.digits) ==> Lex(SuffixCmp, Suffix(0, 0), Read(s), Read(t)) == -1
    ensures Value(s.head.digits) == Value(t.head.digits) ==>
      Lex(SuffixCmp, Suffix(0, 0), Read(s), Read(t)) == Lex(SuffixCmp, Suffix(0, 0), Read(s.tail), Read(t.tail))
  {
    hide Value, OrderOf, IsName;
  }

  /** Where the names are equal, the numbers decide; a missing number is zero. */
  lemma SuffixNumbersDecide(p: Pieces, q: Pieces, common: List<Piece>, s: List<Piece>, t: List<Piece>)
    requires WellFormed(p) && WellFormed(q) && p.numbers == q.numbers && p.letter == q.letter
    requires p.suffixes == Append(common, s) && q.suffixes == Append(common, t)
    requires s.Cons? && t.Cons? && s.head.name == t.head.name
    ensures Value(s.head.digits) < Value(t.head.digits) ==> ApkCompare(Text(p), Text(q)) == Some(-1)
    ensures Value(s.head.digits) == Value(t.head.digits) ==>
      ApkCompare(Text(p), Text(q)) ==
        ApkCompare(Text(p.(suffixes := Append(common, s.tail))), Text(q.(suffixes := Append(common, t.tail))))
  {
    hide Text, ApkCompare, Value, OrderOf, ReleaseCmp, Lex, Read, Append, IsName;
    var p', q' := p.(suffixes := Append(common, s.tail)), q.(suffixes := Append(common, t.tail));
    ReadAppend(common, s);
    ReadAppend(common, t);
    AppendSuffixes(common, s.tail);
    AppendSuffixes(common, t.tail);
    SameNumbersCompare(p, q);
    SameNumbersCompare(p', q');
    ReadsCompare(common, s, t);
    ReadsCompare(common, s.tail, t.tail);
    NumberedSuffixes(s, t);
  }

  /** Behind equal numbers the letters decide, and no letter is older than any letter. */
  lemma LettersDecide(p: Pieces, q: Pieces)
    requires WellFormed(p) && WellFormed(q) && p.numbers == q.numbers
    ensures TextBefore(p.letter, q.letter) ==> ApkCompare(Text(p), Text(q)) == Some(-1)
  {
    hide Text, StrCmp;
    SameNumbersCompare(p, q);
    StrCmpIsTextOrder(p.letter, q.letter);
    StrCmpAntisymmetric(p.letter, q.letter);
  }

  lemma {:induction false} CommonNumbers(later: bool, common: List<string>, s: List<string>, t: List<string>)
    ensures ZipCmp(later, Append(common, s), Append(common, t)) == ZipCmp(later || common.Cons?, s, t)
    ensures Length(Append(common, s)) == Length(common) + Length(s)
    ensures Length(Append(common, t)) == Length(common) + Length(t)
    decreases common
  {
    if common.Cons? {
      StrCmpAntisymmetric(common.head, common.head);
      CommonNumbers(true, common.tail, s, t);
    }
  }

  lemma {:induction false} AppendedNumbers(common: List<string>, s: List<string>)
    requires AllNumbers(Append(common, s))
    ensures AllNumbers(s)
  {
    if common.Cons? {
      AppendedNumbers(common.tail, s);
    }
  }

  lemma HeadsDecide(later: bool, s: List<string>, t: List<string>)
    requires s.Cons? && t.Cons?
    requires if later && ("0" <= s.head || "0" <= t.head) then TextBefore(s.head, t.head)
      else Value(s.head) < Value(t.head)
    ensures ZipCmp(later, s, t) == -1
  {
    hide Value, StrCmp;
    StrCmpIsTextOrder(s.head, t.head);
  }

  lemma NumbersCompare(p: Pieces, q: Pieces)
    requires WellFormed(p) && WellFormed(q) && NumbersCmp(p.numbers, q.numbers) == -1
    ensures ApkCompare(Text(p), Text(q)) == Some(-1)
  {
    hide Text, NumbersCmp;
    PartsOfText(p);
    PartsOfText(q);
  }

  lemma BehindCommonNumbers(common: List<string>, s: List<string>, t: List<string>)
    requires t.Cons?
    requires s.Cons? ==> ZipCmp(common.Cons?, s, t) == -1
    ensures NumbersCmp(Append(common, s), Append(common, t)) == -1
  {
    hide ComponentCmp;
    CommonNumbers(false, common, s, t);
  }

  /** The first different numbers decide: by their values at the beginning and where neither starts with a zero, and
      as text elsewhere. If there are none, the longer version is newer. */
  lemma NumbersDecide(p: Pieces, q: Pieces, common: List<string>, s: List<string>, t: List<string>)
    requires WellFormed(p) && WellFormed(q)
    requires p.numbers == Append(common, s) && q.numbers == Append(common, t) && t.Cons?
    requires s.Cons? ==>
      if common.Cons? && ("0" <= s.head || "0" <= t.head) then TextBefore(s.head, t.head)
      else Value(s.head) < Value(t.head)
    ensures ApkCompare(Text(p), Text(q)) == Some(-1)
  {
    hide Text, ApkCompare, WellFormed, Value, TextBefore, NumbersCmp, ZipCmp, Append, Common;
    if s.Cons? {
      HeadsDecide(common.Cons?, s, t);
    }
    BehindCommonNumbers(common, s, t);
    NumbersCompare(p, q);
  }

  lemma FirstNumberCompares(d: string, numbers: List<string>, others: List<string>)
    requires numbers.Cons? && Value(d) == Value(numbers.head)
    ensures NumbersCmp(Cons(d, numbers.tail), others) == NumbersCmp(numbers, others)
    ensures NumbersCmp(others, Cons(d, numbers.tail)) == NumbersCmp(others, numbers)
  {
    hide Value;
  }

  /** Leading zeros of the first number do not count. */
  lemma FirstNumberIsValue(p: Pieces, d: string, b: string)
    requires WellFormed(p) && IsNumber(d) && Value(d) == Value(p.numbers.head)
    ensures var q := p.(numbers := Cons(d, p.numbers.tail));
      ApkCompare(Text(q), b) == ApkCompare(Text(p), b) && ApkCompare(b, Text(q)) == ApkCompare(b, Text(p))
  {
    hide Text, Value, ApkParts, NumbersCmp, Lex, StrCmp, ReleaseCmp;
    var parsed := ApkParts(b);
    PartsOfText(p);
    PartsOfText(p.(numbers := Cons(d, p.numbers.tail)));
    if parsed.Some? {
      FirstNumberCompares(d, p.numbers, parsed.value.numbers);
    }
  }
}
