/** What the edit distance means, and which hints there are (src/cli/gnoblinctl-cli.c, edit_distance and
    closest_word). */
module EditLaws {
  import opened EditDistance

  // The distance is the fewest edits of one character.

  predicate Inserts(a: string, b: string, i: nat) {
    i <= |a| && |b| == |a| + 1 && b == a[..i] + [b[i]] + a[i..]
  }

  predicate Substitutes(a: string, b: string, i: nat) {
    i < |a| == |b| && b == a[i := b[i]]
  }

  /** One character is inserted, deleted or replaced. */
  ghost predicate OneEdit(a: string, b: string) {
    exists i: nat :: Inserts(a, b, i) || Inserts(b, a, i) || Substitutes(a, b, i)
  }

  /** From string to string by edits of one character. */
  ghost predicate Chain(path: seq<string>) {
    |path| > 0 && forall k :: 0 <= k < |path| - 1 ==> OneEdit(path[k], path[k + 1])
  }

  /** Only the characters up to the two positions count. */
  lemma {:induction false} DistOfPrefixes(a: string, i: nat, b: string, j: nat, a': string, b': string)
    requires i <= |a| && j <= |b| && i <= |a'| && j <= |b'| && a[..i] == a'[..i] && b[..j] == b'[..j]
    ensures Dist(a, i, b, j) == Dist(a', i, b', j)
    decreases i + j
  {
    if i > 0 && j > 0 {
      assert a[i - 1] == a[..i][i - 1] == a'[i - 1] && b[j - 1] == b[..j][j - 1] == b'[j - 1];
      assert a[..i - 1] == a[..i][..i - 1] && a'[..i - 1] == a'[..i][..i - 1];
      assert b[..j - 1] == b[..j][..j - 1] && b'[..j - 1] == b'[..j][..j - 1];
      DistOfPrefixes(a, i - 1, b, j, a', b');
      DistOfPrefixes(a, i, b, j - 1, a', b');
      DistOfPrefixes(a, i - 1, b, j - 1, a', b');
      hide Dist;
      DistUnfold(a, i, b, j);
      DistUnfold(a', i, b', j);
    }
  }

  lemma DistIsLevenshtein(a: string, i: nat, b: string, j: nat)
    requires i <= |a| && j <= |b|
    ensures Dist(a, i, b, j) == Levenshtein(a[..i], b[..j])
  {
    DistOfPrefixes(a, i, b, j, a[..i], b[..j]);
  }

  /** What one more character at the end of either string changes. */
  lemma OneMore(p: string, q: string, x: char, y: char)
    ensures Levenshtein(p + [x], q) <= Levenshtein(p, q) + 1
    ensures Levenshtein(p, q + [y]) <= Levenshtein(p, q) + 1
    ensures Levenshtein(p + [x], q + [y]) <= Levenshtein(p, q) + Cost(x, y)
  {
    hide Dist;
    var a, b := p + [x], q + [y];
    assert a[..|p|] == p && b[..|q|] == q && a[..|a|] == a && b[..|b|] == b;
    DistStep(a, |a|, b, |b|);
    DistStep(a, |a|, b, |q|);
    DistStep(a, |p|, b, |b|);
    DistIsLevenshtein(a, |p|, b, |q|);
    DistIsLevenshtein(a, |a|, b, |q|);
    DistIsLevenshtein(a, |p|, b, |b|);
  }

  /** A common end adds nothing. */
  lemma {:induction false} CommonEnd(p: string, q: string, s: string)
    ensures Levenshtein(p + s, q + s) <= Levenshtein(p, q)
  {
    hide Levenshtein;
    if |s| == 0 {
      assert p + s == p && q + s == q;
    } else {
      var front, x := s[..|s| - 1], s[|s| - 1];
      CommonEnd(p, q, front);
      OneMore(p + front, q + front, x, x);
      assert p + s == p + front + [x] && q + s == q + front + [x];
    }
  }

  lemma EditIsOne(a: string, b: string)
    requires OneEdit(a, b)
    ensures Levenshtein(a, b) <= 1
  {
    hide Levenshtein;
    var i: nat :| Inserts(a, b, i) || Inserts(b, a, i) || Substitutes(a, b, i);
    if Inserts(a, b, i) {
      InsertIsOne(a, b, i);
    } else if Inserts(b, a, i) {
      InsertIsOne(b, a, i);
      LevenshteinIsMetric(a, b, a);
    } else {
      var p, s := a[..i], a[i + 1..];
      LevenshteinIsMetric(p, p, p);
      OneMore(p, p, a[i], b[i]);
      CommonEnd(p + [a[i]], p + [b[i]], s);
      assert a == p + [a[i]] + s && b == p + [b[i]] + s;
    }
  }

  lemma InsertIsOne(a: string, b: string, i: nat)
    requires Inserts(a, b, i)
    ensures Levenshtein(a, b) <= 1
  {
    hide Levenshtein;
    var p, s := a[..i], a[i..];
    LevenshteinIsMetric(p, p, p);
    OneMore(p, p, b[i], b[i]);
    CommonEnd(p, p + [b[i]], s);
    assert a == p + s;
  }

  /** No chain of edits is shorter than the distance. */
  lemma {:induction false} NoChainIsShorter(path: seq<string>)
    requires Chain(path)
    ensures Levenshtein(path[0], path[|path| - 1]) <= |path| - 1
  {
    hide Levenshtein, OneEdit;
    if |path| == 1 {
      LevenshteinIsMetric(path[0], path[0], path[0]);
    } else {
      var front := path[..|path| - 1];
      NoChainIsShorter(front);
      EditIsOne(path[|path| - 2], path[|path| - 1]);
      LevenshteinIsMetric(path[0], path[|path| - 2], path[|path| - 1]);
    }
  }

  ghost predicate Links(path: seq<string>, a: string, b: string, n: nat) {
    Chain(path) && |path| == n + 1 && path[0] == a && path[n] == b
  }

  lemma Longer(path: seq<string>, a: string, b: string, n: nat, c: string)
    requires Links(path, a, b, n) && OneEdit(b, c)
    ensures Links(path + [c], a, c, n + 1)
  {
  }

  lemma Earlier(path: seq<string>, a: string, b: string, n: nat, c: string)
    requires Links(path, a, b, n) && OneEdit(c, a)
    ensures Links([c] + path, c, b, n + 1)
  {
  }

  lemma EditBehind(a: string, b: string, x: char)
    requires OneEdit(a, b)
    ensures OneEdit(a + [x], b + [x])
  {
    var i: nat :| Inserts(a, b, i) || Inserts(b, a, i) || Substitutes(a, b, i);
    if Inserts(a, b, i) {
      assert Inserts(a + [x], b + [x], i);
    } else if Inserts(b, a, i) {
      assert Inserts(b + [x], a + [x], i);
    } else {
      assert Substitutes(a + [x], b + [x], i);
    }
  }

  function Ended(path: seq<string>, x: char): seq<string> {
    seq(|path|, k requires 0 <= k < |path| => path[k] + [x])
  }

  lemma EndedLinks(path: seq<string>, a: string, b: string, n: nat, x: char)
    requires Links(path, a, b, n)
    ensures Links(Ended(path, x), a + [x], b + [x], n)
  {
    forall k | 0 <= k < n ensures OneEdit(Ended(path, x)[k], Ended(path, x)[k + 1]) {
      EditBehind(path[k], path[k + 1], x);
    }
  }

  /** One chain of edits is as short as the distance. */
  lemma {:induction false} SomeChainIsAsShort(a: string, i: nat, b: string, j: nat) returns (path: seq<string>)
    requires i <= |a| && j <= |b|
    ensures Links(path, a[..i], b[..j], Dist(a, i, b, j))
    decreases i + j
  {
    hide Dist, Links, OneEdit;
    if i == 0 && j == 0 {
      DistEdge(a, i, b, j);
      path := [""];
      Alone();
    } else if j == 0 || (i > 0 && Dist(a, i, b, j) == Dist(a, i - 1, b, j) + 1) {
      EdgeStep(a, i, b, j);
      path := SomeChainIsAsShort(a, i - 1, b, j);
      DropLast(a, i);
      Earlier(path, a[..i - 1], b[..j], Dist(a, i - 1, b, j), a[..i]);
      path := [a[..i]] + path;
    } else if i == 0 || Dist(a, i, b, j) == Dist(a, i, b, j - 1) + 1 {
      EdgeStep(a, i, b, j);
      path := SomeChainIsAsShort(a, i, b, j - 1);
      AddLast(b, j);
      Longer(path, a[..i], b[..j - 1], Dist(a, i, b, j - 1), b[..j]);
      path := path + [b[..j]];
    } else {
      DistUnfold(a, i, b, j);
      var n := Dist(a, i - 1, b, j - 1);
      path := SomeChainIsAsShort(a, i - 1, b, j - 1);
      var x, y := a[i - 1], b[j - 1];
      EndedLinks(path, a[..i - 1], b[..j - 1], n, x);
      path := Ended(path, x);
      assert a[..i] == a[..i - 1] + [x] && b[..j] == b[..j - 1] + [y];
      if x != y {
        ReplaceLast(b[..j - 1], x, y);
        Longer(path, a[..i], b[..j - 1] + [x], n, b[..j]);
        path := path + [b[..j]];
      }
    }
  }

  lemma Alone()
    ensures Links([""], "", "", 0)
  {
  }

  lemma EdgeStep(a: string, i: nat, b: string, j: nat)
    requires i <= |a| && j <= |b|
    ensures j == 0 && i > 0 ==> Dist(a, i, b, j) == Dist(a, i - 1, b, j) + 1
    ensures i == 0 && j > 0 ==> Dist(a, i, b, j) == Dist(a, i, b, j - 1) + 1
  {
  }

  lemma AddLast(b: string, j: nat)
    requires 0 < j <= |b|
    ensures OneEdit(b[..j - 1], b[..j])
  {
    assert Inserts(b[..j - 1], b[..j], j - 1);
  }

  lemma DropLast(a: string, i: nat)
    requires 0 < i <= |a|
    ensures OneEdit(a[..i], a[..i - 1])
  {
    assert Inserts(a[..i - 1], a[..i], i - 1);
  }

  lemma ReplaceLast(p: string, x: char, y: char)
    ensures OneEdit(p + [x], p + [y])
  {
    assert Substitutes(p + [x], p + [y], |p|);
  }

  /** The distance of two words is the length of the shortest chain of edits from one to the other. */
  lemma DistanceIsFewestEdits(a: string, b: string)
    ensures exists path :: Links(path, a, b, Levenshtein(a, b))
    ensures forall path, n: nat :: Links(path, a, b, n) ==> Levenshtein(a, b) <= n
  {
    assert a[..|a|] == a && b[..|b|] == b;
    var path := SomeChainIsAsShort(a, |a|, b, |b|);
    assert Links(path, a, b, Levenshtein(a, b));
    forall path, n: nat | Links(path, a, b, n) ensures Levenshtein(a, b) <= n {
      NoChainIsShorter(path);
    }
  }

  // The hint.

  /** A word that the typed one begins, by two characters or more, counts as one edit away; words of more than 40
      characters are not compared otherwise. */
  lemma ScoreMeans(typed: string, word: string, path: seq<string>, n: nat)
    ensures typed <= word && |typed| >= 2 ==> Score(typed, word) == 1
    ensures !(typed <= word && |typed| >= 2) && (|typed| > 40 || |word| > 40) ==> Score(typed, word) == 0xFFFF_FFFF
    ensures !(typed <= word && |typed| >= 2) && |typed| <= 40 && |word| <= 40 && Links(path, typed, word, n) ==>
      Score(typed, word) <= n && exists shortest :: Links(shortest, typed, word, Score(typed, word))
  {
    hide Levenshtein, Links;
    DistanceIsFewestEdits(typed, word);
  }

  /** Where a list is split: at every space, once. */
  lemma SplitsAtSpace(word: string, rest: string)
    requires ' ' !in word
    ensures |word| > 0 ==> SplitWords(word) == [word]
    ensures |rest| > 0 ==> SplitWords(word + (" " + rest)) == [word] + SplitWords(rest)
  {
    PiecesOfWord(word, 0);
    assert word[0..] == word;
    if |rest| > 0 {
      PiecesBehindSpace(word, rest, 0);
      assert (word + (" " + rest))[..|word|] == word;
    }
  }

  lemma {:induction false} PiecesOfWord(word: string, i: nat)
    requires ' ' !in word && i <= |word|
    ensures Pieces(word, i) == [word[i..]]
    decreases |word| - i
  {
    if i < |word| {
      PiecesOfWord(word, i + 1);
      assert word[i] in word && word[i..] == [word[i]] + word[i + 1..];
      assert [word[i + 1..]][1..] == [];
    } else {
      assert word[i..] == "";
    }
  }

  lemma {:induction false} PiecesShift(front: string, s: string, i: nat)
    requires i <= |s|
    ensures Pieces(front + s, |front| + i) == Pieces(s, i)
    decreases |s| - i
  {
    if i < |s| {
      PiecesShift(front, s, i + 1);
    }
  }

  lemma {:induction false} PiecesBehindSpace(word: string, rest: string, i: nat)
    requires ' ' !in word && i <= |word|
    ensures Pieces(word + (" " + rest), i) == [word[i..]] + Pieces(rest, 0)
    decreases |word| - i
  {
    var s := word + (" " + rest);
    if i < |word| {
      PiecesBehindSpace(word, rest, i + 1);
      assert s[i] == word[i] && word[i..] == [word[i]] + word[i + 1..];
    } else {
      assert s == (word + " ") + rest && s[i] == ' ';
      PiecesShift(word + " ", rest, 0);
      assert word[i..] == "";
    }
  }
}
