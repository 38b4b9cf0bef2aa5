/** Alpine's version comparison (scripts/pkgrepo/versions.py, _apk_parts and apk_compare). */
module ApkOrder {
  import opened Options
  import opened Orders
  import opened Decimal
  import opened Scan

  datatype Suffix = Suffix(order: int, number: nat)
  datatype Parts = Parts(numbers: List<string>, letter: string, suffixes: List<Suffix>, release: Option<nat>)

  // The grammar: numbers, a letter, suffixes, a hash, a release.

  /** Another component follows when a dot has a digit behind it. */
  predicate MoreNumbers(s: string) {
    |s| > 1 && s[0] == '.' && IsDigit(s[1])
  }

  function Numbers(s: string): List<string>
    decreases |s|
  {
    Cons(Digits(s), if MoreNumbers(Rest(s)) then Numbers(Rest(s)[1..]) else Nil)
  }

  function NumbersRest(s: string): (r: string)
    ensures |r| <= |s|
    decreases |s|
  {
    if MoreNumbers(Rest(s)) then NumbersRest(Rest(s)[1..]) else Rest(s)
  }

  const SUFFIXES := [("alpha", -4), ("beta", -3), ("pre", -2), ("rc", -1), ("cvs", 1), ("svn", 2), ("git", 3),
    ("hg", 4), ("p", 5)]

  /** The first suffix name, in the order of the grammar, that `s` starts with. */
  function SuffixName(s: string, k: nat): (r: Option<(string, int)>)
    requires k <= |SUFFIXES|
    ensures r.Some? ==> |r.value.0| <= |s|
    decreases |SUFFIXES| - k
  {
    if k == |SUFFIXES| then None
    else if SUFFIXES[k].0 <= s then Some(SUFFIXES[k])
    else SuffixName(s, k + 1)
  }

  predicate SuffixAt(s: string) {
    |s| > 0 && s[0] == '_' && SuffixName(s[1..], 0).Some?
  }

  /** What stands behind the name of the suffix. */
  function SuffixNumber(s: string): (r: string)
    requires SuffixAt(s)
    ensures |r| < |s|
  {
    s[1 + |SuffixName(s[1..], 0).value.0|..]
  }

  /** The suffixes with their numbers; a missing number counts as 0. */
  function Suffixes(s: string): List<Suffix>
    decreases |s|
  {
    if SuffixAt(s) then
      Cons(Suffix(SuffixName(s[1..], 0).value.1, Value(Digits(SuffixNumber(s)))), Suffixes(Rest(SuffixNumber(s))))
    else Nil
  }

  function SuffixesRest(s: string): (r: string)
    ensures |r| <= |s|
    decreases |s|
  {
    if SuffixAt(s) then SuffixesRest(Rest(SuffixNumber(s))) else s
  }

  function HashRest(s: string): (r: string)
    ensures |r| <= |s|
  {
    if |s| > 1 && s[0] == '~' && Is(Hex, s[1]) then s[RunEnd(s, 1, Hex)..] else s
  }

  predicate ReleaseAt(s: string) {
    |s| > 2 && s[0] == '-' && s[1] == 'r' && IsDigit(s[2])
  }

  predicate LetterAt(s: string) {
    |s| > 0 && 'a' <= s[0] <= 'z'
  }

  /** None stands for the error on a string that is no Alpine version. */
  function ApkParts(s: string): Option<Parts> {
    if |s| == 0 || !IsDigit(s[0]) then None
    else
      var s1 := NumbersRest(s);
      var letter, s2 := if LetterAt(s1) then s1[..1] else "", if LetterAt(s1) then s1[1..] else s1;
      var s3 := HashRest(SuffixesRest(s2));
      var release := if ReleaseAt(s3) then Some(Value(Digits(s3[2..]))) else None;
      var end := if ReleaseAt(s3) then Rest(s3[2..]) else s3;
      if |end| > 0 then None else Some(Parts(Numbers(s), letter, Suffixes(s2), release))
  }

  // The comparison.

  predicate LeadingZero(part: string) {
    |part| > 0 && part[0] == '0'
  }

  /** Behind the first component, a leading zero on either side turns the comparison into one of text. */
  function ComponentCmp(later: bool, p: string, q: string): int {
    if later && (LeadingZero(p) || LeadingZero(q)) then StrCmp(p, q) else Cmp(Value(p), Value(q))
  }

  function ZipCmp(later: bool, a: List<string>, b: List<string>): int
    decreases a
  {
    if a.Nil? || b.Nil? then 0
    else if ComponentCmp(later, a.head, b.head) != 0 then ComponentCmp(later, a.head, b.head)
    else ZipCmp(true, a.tail, b.tail)
  }

  function Length<T>(s: List<T>): nat {
    if s.Nil? then 0 else 1 + Length(s.tail)
  }

  function NumbersCmp(a: List<string>, b: List<string>): int {
    if ZipCmp(false, a, b) != 0 then ZipCmp(false, a, b) else Cmp(Length(a), Length(b))
  }

  function SuffixCmp(x: Suffix, y: Suffix): int {
    if x.order != y.order then Cmp(x.order, y.order) else Cmp(x.number, y.number)
  }

  function ReleaseCmp(x: Option<nat>, y: Option<nat>): int {
    match (x, y)
    case (None, None) => 0
    case (None, _) => -1
    case (_, None) => 1
    case (Some(m), Some(n)) => Cmp(m, n)
  }

  function PartsCmp(x: Parts, y: Parts): int {
    if NumbersCmp(x.numbers, y.numbers) != 0 then NumbersCmp(x.numbers, y.numbers)
    else if StrCmp(x.letter, y.letter) != 0 then StrCmp(x.letter, y.letter)
    else if Lex(SuffixCmp, Suffix(0, 0), x.suffixes, y.suffixes) != 0 then
      Lex(SuffixCmp, Suffix(0, 0), x.suffixes, y.suffixes)
    else ReleaseCmp(x.release, y.release)
  }

  function ApkCompare(a: string, b: string): Option<int> {
    var x, y := ApkParts(a), ApkParts(b);
    if x.None? || y.None? then None else Some(PartsCmp(x.value, y.value))
  }

  // The components sit on one scale although they are compared in two ways.

  predicate DigitStrings(s: List<string>) {
    s.Cons? ==> |s.head| > 0 && AllDigits(s.head) && DigitStrings(s.tail)
  }

  /** The end of the list, below a component with a leading zero, below a number. */
  datatype Key = EndKey | TextKey(text: string) | ValueKey(value: nat)

  function KeyOf(later: bool, part: string): Key {
    if later && LeadingZero(part) then TextKey(part) else ValueKey(Value(part))
  }

  function Keys(later: bool, s: List<string>): List<Key>
    decreases s
  {
    if s.Nil? then Nil else Cons(KeyOf(later, s.head), Keys(true, s.tail))
  }

  function KeyRank(k: Key): nat {
    match k
    case EndKey => 0
    case TextKey(_) => 1
    case ValueKey(_) => 2
  }

  function KeyCmp(x: Key, y: Key): int {
    if KeyRank(x) != KeyRank(y) then Cmp(KeyRank(x), KeyRank(y))
    else match x
      case EndKey => 0
      case TextKey(text) => StrCmp(text, y.text)
      case ValueKey(value) => Cmp(value, y.value)
  }

  lemma ComponentCmpIsKeyCmp(later: bool, p: string, q: string)
    requires |p| > 0 && AllDigits(p) && |q| > 0 && AllDigits(q)
    ensures ComponentCmp(later, p, q) == KeyCmp(KeyOf(later, p), KeyOf(later, q))
  {
  }

  lemma {:induction false} ZipCmpIsLex(later: bool, a: List<string>, b: List<string>)
    requires DigitStrings(a) && DigitStrings(b)
    ensures Lex(KeyCmp, EndKey, Keys(later, a), Keys(later, b)) ==
      if ZipCmp(later, a, b) != 0 then ZipCmp(later, a, b) else Cmp(Length(a), Length(b))
    decreases a
  {
    if a.Cons? && b.Cons? {
      ComponentCmpIsKeyCmp(later, a.head, b.head);
      ZipCmpIsLex(true, a.tail, b.tail);
    }
  }

  lemma KeyCmpIsTotalPreorder()
    ensures TotalPreorder(KeyCmp)
  {
    forall x, y ensures KeyCmp(x, y) == -KeyCmp(y, x) {
      if x.TextKey? && y.TextKey? {
        StrCmpAntisymmetric(x.text, y.text);
      }
    }
    forall x, y, z | KeyCmp(x, y) <= 0 && KeyCmp(y, z) <= 0 ensures KeyCmp(x, z) <= 0 {
      if x.TextKey? && y.TextKey? && z.TextKey? {
        StrCmpTransitive(x.text, y.text, z.text);
      }
    }
  }

  // Well-formed versions.

  lemma {:induction false} NumbersAreDigitStrings(s: string)
    requires |s| > 0 && IsDigit(s[0])
    ensures DigitStrings(Numbers(s))
    decreases |s|
  {
    DigitsAreDigits(s);
    if MoreNumbers(Rest(s)) {
      NumbersAreDigitStrings(Rest(s)[1..]);
    }
  }

  type WellFormed = p: Parts | DigitStrings(p.numbers) witness Parts(Nil, "", Nil, None)

  lemma NumbersCmpIsTotalPreorder()
    ensures TotalPreorder((x: WellFormed, y: WellFormed) => NumbersCmp(x.numbers, y.numbers))
  {
    var keys := (x: WellFormed) => Keys(false, x.numbers);
    var lex := (s: List<Key>, t: List<Key>) => Lex(KeyCmp, EndKey, s, t);
    var numbers := (x: WellFormed, y: WellFormed) => NumbersCmp(x.numbers, y.numbers);
    forall x: WellFormed, y: WellFormed ensures numbers(x, y) == lex(keys(x), keys(y)) {
      ZipCmpIsLex(false, x.numbers, y.numbers);
    }
    KeyCmpIsTotalPreorder();
    LexIsTotalPreorder(KeyCmp, EndKey);
    PullbackIsTotalPreorder(lex, keys, numbers);
  }

  lemma SuffixesCmpIsTotalPreorder()
    ensures TotalPreorder((x: WellFormed, y: WellFormed) => Lex(SuffixCmp, Suffix(0, 0), x.suffixes, y.suffixes))
  {
    var lex := (s: List<Suffix>, t: List<Suffix>) => Lex(SuffixCmp, Suffix(0, 0), s, t);
    assert TotalPreorder(SuffixCmp);
    LexIsTotalPreorder(SuffixCmp, Suffix(0, 0));
    PullbackIsTotalPreorder(lex, (x: WellFormed) => x.suffixes,
      (x: WellFormed, y: WellFormed) => Lex(SuffixCmp, Suffix(0, 0), x.suffixes, y.suffixes));
  }

  lemma LetterCmpIsTotalPreorder()
    ensures TotalPreorder((x: WellFormed, y: WellFormed) => StrCmp(x.letter, y.letter))
  {
    StrCmpIsTotalPreorder();
    PullbackIsTotalPreorder(StrCmp, (x: WellFormed) => x.letter,
      (x: WellFormed, y: WellFormed) => StrCmp(x.letter, y.letter));
  }

  lemma PartsCmpIsTotalPreorder()
    ensures TotalPreorder((x: WellFormed, y: WellFormed) => PartsCmp(x, y))
  {
    NumbersCmpIsTotalPreorder();
    LetterCmpIsTotalPreorder();
    SuffixesCmpIsTotalPreorder();
    var byNumbers := (x: WellFormed, y: WellFormed) => NumbersCmp(x.numbers, y.numbers);
    var byLetter := (x: WellFormed, y: WellFormed) => StrCmp(x.letter, y.letter);
    var bySuffixes := (x: WellFormed, y: WellFormed) => Lex(SuffixCmp, Suffix(0, 0), x.suffixes, y.suffixes);
    var byRelease := (x: WellFormed, y: WellFormed) => ReleaseCmp(x.release, y.release);
    var last := (x: WellFormed, y: WellFormed) => if bySuffixes(x, y) != 0 then bySuffixes(x, y) else byRelease(x, y);
    var middle := (x: WellFormed, y: WellFormed) => if byLetter(x, y) != 0 then byLetter(x, y) else last(x, y);
    ThenIsTotalPreorder(bySuffixes, byRelease, last);
    ThenIsTotalPreorder(byLetter, last, middle);
    ThenIsTotalPreorder(byNumbers, middle, (x: WellFormed, y: WellFormed) => PartsCmp(x, y));
  }

  type ApkVersion = s: string | ApkParts(s).Some? witness "0"

  function PartsOf(s: ApkVersion): WellFormed {
    NumbersAreDigitStrings(s);
    ApkParts(s).value
  }

  /** Well-formed versions are totally preordered. */
  lemma ApkCompareIsTotalPreorder()
    ensures TotalPreorder((a: ApkVersion, b: ApkVersion) => ApkCompare(a, b).value)
  {
    PartsCmpIsTotalPreorder();
    PullbackIsTotalPreorder<ApkVersion, WellFormed>((x: WellFormed, y: WellFormed) => PartsCmp(x, y), PartsOf,
      (a: ApkVersion, b: ApkVersion) => ApkCompare(a, b).value);
  }
}
