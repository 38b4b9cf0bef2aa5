/** The "did you mean" hint (src/cli/gnoblinctl-cli.c, edit_distance and closest_word). */
module EditDistance {
  import opened Options

  const LONGEST: nat := 40

  /** The largest guint, which stands for "too long to compare". */
  const NO_DISTANCE: nat := 0xFFFF_FFFF

  function Min(x: nat, y: nat): nat {
    if x < y then x else y
  }

  function Max(x: nat, y: nat): nat {
    if x < y then y else x
  }

  function Cost(x: char, y: char): nat {
    if x == y then 0 else 1
  }

  /** The fewest insertions, deletions and substitutions that turn the first i characters of `a` into the first j of
      `b`. */
  function Dist(a: string, i: nat, b: string, j: nat): nat
    requires i <= |a| && j <= |b|
    decreases i + j
  {
    if i == 0 then j
    else if j == 0 then i
    else Min(Min(Dist(a, i - 1, b, j) + 1, Dist(a, i, b, j - 1) + 1),
      Dist(a, i - 1, b, j - 1) + Cost(a[i - 1], b[j - 1]))
  }

  function Levenshtein(a: string, b: string): nat {
    Dist(a, |a|, b, |b|)
  }

  /** The row of `i` characters of `a`, as far as the column of `n` characters of `b`. */
  ghost predicate IsRow(row: seq<nat>, a: string, i: nat, b: string, n: nat)
    requires i <= |a| && n <= |b| < |row|
  {
    forall k :: 0 <= k <= n ==> row[k] == Dist(a, i, b, k)
  }

  /** `next` comes out of `row` by the recurrence, with x the character that the new row adds. */
  ghost predicate IsNextRow(row: seq<nat>, next: seq<nat>, i: nat, x: char, b: string)
    requires |b| < |row| == |next|
  {
    && next[0] == i
    && forall k :: 0 < k <= |b| ==> next[k] == Min(Min(row[k] + 1, next[k - 1] + 1), row[k - 1] + Cost(x, b[k - 1]))
  }

  lemma FirstRow(row: seq<nat>, a: string, b: string)
    requires |b| < |row| && forall k :: 0 <= k <= |b| ==> row[k] == k
    ensures IsRow(row, a, 0, b, |b|)
  {
  }

  lemma NextEntry(row: seq<nat>, next: seq<nat>, a: string, i: nat, b: string, n: nat)
    requires 0 < i <= |a| && 0 < n <= |b| < |row| == |next| && IsNextRow(row, next, i, a[i - 1], b)
    requires row[n] == Dist(a, i - 1, b, n) && row[n - 1] == Dist(a, i - 1, b, n - 1)
    requires next[n - 1] == Dist(a, i, b, n - 1)
    ensures next[n] == Dist(a, i, b, n)
  {
    hide Dist;
    DistUnfold(a, i, b, n);
  }

  lemma {:induction false} NextRowIsRow(row: seq<nat>, next: seq<nat>, a: string, i: nat, b: string, n: nat)
    requires 0 < i <= |a| && n <= |b| < |row| == |next|
    requires IsRow(row, a, i - 1, b, |b|) && IsNextRow(row, next, i, a[i - 1], b)
    ensures IsRow(next, a, i, b, n)
  {
    hide Dist;
    if n == 0 {
      DistEdge(a, i, b, 0);
    } else {
      NextRowIsRow(row, next, a, i, b, n - 1);
      NextEntry(row, next, a, i, b, n);
    }
  }

  /** One row of the table at a time, overwritten in place. */
  method ComputeDistance(a: string, b: string) returns (r: nat)
    ensures r == if |a| > LONGEST || |b| > LONGEST then NO_DISTANCE else Levenshtein(a, b)
  {
    if |a| > LONGEST || |b| > LONGEST {
      return NO_DISTANCE;
    }
    var row := new nat[LONGEST + 1];
    for j := 0 to |b| + 1
      invariant forall k :: 0 <= k < j ==> row[k] == k
    {
      row[j] := j;
    }
    FirstRow(row[..], a, b);
    for i := 1 to |a| + 1
      invariant IsRow(row[..], a, i - 1, b, |b|)
    {
      NextRow(row, a, i, b);
    }
    r := row[|b|];
  }

  method NextRow(row: array<nat>, a: string, i: nat, b: string)
    requires 0 < i <= |a| && |b| < row.Length
    requires IsRow(row[..], a, i - 1, b, |b|)
    modifies row
    ensures IsRow(row[..], a, i, b, |b|)
  {
    OverwriteRow(row, i, a[i - 1], b);
    NextRowIsRow(old(row[..]), row[..], a, i, b, |b|);
  }

  method OverwriteRow(row: array<nat>, i: nat, x: char, b: string)
    requires |b| < row.Length
    modifies row
    ensures IsNextRow(old(row[..]), row[..], i, x, b)
  {
    var diagonal := row[0];
    row[0] := i;
    for j := 1 to |b| + 1
      invariant row[0] == i && diagonal == old(row[j - 1])
      invariant forall k :: j <= k <= |b| ==> row[k] == old(row[k])
      invariant forall k :: 0 < k < j ==>
        row[k] == Min(Min(old(row[k]) + 1, row[k - 1] + 1), old(row[k - 1]) + Cost(x, b[k - 1]))
    {
      var above := row[j];
      row[j] := Min(Min(row[j] + 1, row[j - 1] + 1), diagonal + Cost(x, b[j - 1]));
      diagonal := above;
    }
  }

  // The distance is a metric.

  lemma {:induction false} DistZero(a: string, i: nat, b: string, j: nat)
    requires i <= |a| && j <= |b|
    ensures Dist(a, i, b, j) == 0 <==> a[..i] == b[..j]
    decreases i + j
  {
    if i > 0 && j > 0 {
      DistZero(a, i - 1, b, j - 1);
      assert a[..i] == a[..i - 1] + [a[i - 1]] && b[..j] == b[..j - 1] + [b[j - 1]];
    }
  }

  lemma {:induction false} DistSymmetric(a: string, i: nat, b: string, j: nat)
    requires i <= |a| && j <= |b|
    ensures Dist(a, i, b, j) == Dist(b, j, a, i)
    decreases i + j
  {
    hide Dist;
    if i == 0 || j == 0 {
      DistEdge(a, i, b, j);
      DistEdge(b, j, a, i);
    } else {
      DistUnfold(a, i, b, j);
      DistUnfold(b, j, a, i);
      DistSymmetric(a, i - 1, b, j);
      DistSymmetric(a, i, b, j - 1);
      DistSymmetric(a, i - 1, b, j - 1);
    }
  }

  /** One more character on either side changes the distance by at most one. */
  lemma DistStep(a: string, i: nat, b: string, j: nat)
    requires i <= |a| && j <= |b|
    ensures i > 0 ==> Dist(a, i, b, j) <= Dist(a, i - 1, b, j) + 1
    ensures j > 0 ==> Dist(a, i, b, j) <= Dist(a, i, b, j - 1) + 1
    ensures i > 0 && j > 0 ==> Dist(a, i, b, j) <= Dist(a, i - 1, b, j - 1) + Cost(a[i - 1], b[j - 1])
    ensures Dist(a, i, b, j) <= Max(i, j)
    ensures i <= j + Dist(a, i, b, j) && j <= i + Dist(a, i, b, j)
  {
    DistBounds(a, i, b, j);
    if i > 0 && j > 0 {
      hide Dist;
      DistUnfold(a, i, b, j);
    }
  }

  /** The distance is at most the longer length, and at least the difference of the lengths. */
  lemma {:induction false} DistBounds(a: string, i: nat, b: string, j: nat)
    requires i <= |a| && j <= |b|
    ensures Dist(a, i, b, j) <= Max(i, j)
    ensures i <= j + Dist(a, i, b, j) && j <= i + Dist(a, i, b, j)
    decreases i + j
  {
    hide Dist;
    if i == 0 || j == 0 {
      DistEdge(a, i, b, j);
    } else {
      DistUnfold(a, i, b, j);
      DistBounds(a, i - 1, b, j);
      DistBounds(a, i, b, j - 1);
      DistBounds(a, i - 1, b, j - 1);
    }
  }

  /** The last step of a cheapest way: what is left over, and what the step costs. */
  lemma LastStep(a: string, i: nat, b: string, j: nat) returns (i': nat, j': nat, cost: nat)
    requires 0 < i <= |a| && 0 < j <= |b|
    ensures i - 1 <= i' <= i && j - 1 <= j' <= j && Dist(a, i, b, j) == Dist(a, i', b, j') + cost
    ensures (i' == i - 1 && j' == j - 1 && cost == Cost(a[i - 1], b[j - 1])) || (i' + j' == i + j - 1 && cost == 1)
  {
    DistUnfold(a, i, b, j);
    if Dist(a, i, b, j) == Dist(a, i - 1, b, j) + 1 {
      i', j', cost := i - 1, j, 1;
    } else if Dist(a, i, b, j) == Dist(a, i, b, j - 1) + 1 {
      i', j', cost := i, j - 1, 1;
    } else {
      i', j', cost := i - 1, j - 1, Cost(a[i - 1], b[j - 1]);
    }
  }

  lemma DistEdge(a: string, i: nat, b: string, j: nat)
    requires i <= |a| && j <= |b| && (i == 0 || j == 0)
    ensures Dist(a, i, b, j) == i + j
  {
  }

  lemma DistUnfold(a: string, i: nat, b: string, j: nat)
    requires 0 < i <= |a| && 0 < j <= |b|
    ensures Dist(a, i, b, j) ==
      Min(Min(Dist(a, i - 1, b, j) + 1, Dist(a, i, b, j - 1) + 1), Dist(a, i - 1, b, j - 1) + Cost(a[i - 1], b[j - 1]))
  {
  }

  lemma TriangleEdge(a: string, i: nat, b: string, j: nat, c: string, k: nat)
    requires i <= |a| && j <= |b| && k <= |c| && (i == 0 || j == 0 || k == 0)
    ensures Dist(a, i, c, k) <= Dist(a, i, b, j) + Dist(b, j, c, k)
  {
    DistStep(a, i, b, j);
    DistStep(b, j, c, k);
    DistStep(a, i, c, k);
  }

  /** Dropping one character of either end costs at most one more. */
  lemma StepOver(a: string, i: nat, i': nat, c: string, k: nat, k': nat, bound: nat)
    requires 0 < i <= |a| && 0 < k <= |c| && i - 1 <= i' <= i && k - 1 <= k' <= k && i' + k' == i + k - 1
    requires Dist(a, i', c, k') + 1 <= bound
    ensures Dist(a, i, c, k) <= bound
  {
    DistStep(a, i, c, k);
  }

  /** The last steps of the two ways meet in the character `m` and combine into a step of the third way. */
  lemma StepThrough(a: string, i: nat, i': nat, m: char, c: string, k: nat, k': nat, x: nat, y: nat, bound: nat)
    requires 0 < i <= |a| && 0 < k <= |c| && i - 1 <= i' <= i && k - 1 <= k' <= k
    requires x == if i' == i then 1 else Cost(a[i - 1], m)
    requires y == if k' == k then 1 else Cost(m, c[k - 1])
    requires Dist(a, i', c, k') + x + y <= bound
    ensures Dist(a, i, c, k) <= bound
  {
    DistStep(a, i, c, k);
  }

  lemma {:induction false} DistTriangle(a: string, i: nat, b: string, j: nat, c: string, k: nat)
    requires i <= |a| && j <= |b| && k <= |c|
    ensures Dist(a, i, c, k) <= Dist(a, i, b, j) + Dist(b, j, c, k)
    decreases i + j + k
  {
    if i == 0 || j == 0 || k == 0 {
      TriangleEdge(a, i, b, j, c, k);
    } else {
      var bound := Dist(a, i, b, j) + Dist(b, j, c, k);
      var i', j', x := LastStep(a, i, b, j);
      var j'', k', y := LastStep(b, j, c, k);
      if j' == j {
        DistTriangle(a, i', b, j, c, k);
        StepOver(a, i, i', c, k, k, bound);
      } else if j'' == j {
        DistTriangle(a, i, b, j, c, k');
        StepOver(a, i, i, c, k, k', bound);
      } else {
        DistTriangle(a, i', b, j - 1, c, k');
        StepThrough(a, i, i', b[j - 1], c, k, k', x, y, bound);
      }
    }
  }

  /** Zero only on equal strings, symmetric, and subject to the triangle inequality; and small enough for a guint. */
  lemma LevenshteinIsMetric(a: string, b: string, c: string)
    ensures Levenshtein(a, b) == 0 <==> a == b
    ensures Levenshtein(a, b) == Levenshtein(b, a)
    ensures Levenshtein(a, c) <= Levenshtein(a, b) + Levenshtein(b, c)
    ensures Levenshtein(a, b) <= Max(|a|, |b|)
  {
    DistZero(a, |a|, b, |b|);
    assert a[..|a|] == a && b[..|b|] == b;
    DistSymmetric(a, |a|, b, |b|);
    DistTriangle(a, |a|, b, |b|, c, |c|);
    DistStep(a, |a|, b, |b|);
  }

  // The hint.

  /** The pieces between single spaces; the empty string has none. */
  function SplitWords(s: string): seq<string> {
    if |s| == 0 then [] else Pieces(s, 0)
  }

  function Pieces(s: string, i: nat): (r: seq<string>)
    requires i <= |s|
    ensures |r| > 0
    decreases |s| - i
  {
    if i == |s| then [""]
    else if s[i] == ' ' then [""] + Pieces(s, i + 1)
    else var rest := Pieces(s, i + 1); [[s[i]] + rest[0]] + rest[1..]
  }

  function JoinWords(words: seq<string>): string {
    if |words| == 0 then ""
    else if |words| == 1 then words[0]
    else words[0] + " " + JoinWords(words[1..])
  }

  function Score(typed: string, word: string): nat {
    if typed <= word && |typed| >= 2 then 1
    else if |typed| > LONGEST || |word| > LONGEST then NO_DISTANCE
    else Levenshtein(typed, word)
  }

  function Threshold(typed: string): nat {
    Max(2, |typed| / 3)
  }

  /** The word at `k` is the first one of the smallest score. */
  ghost predicate IsFirstBest(typed: string, words: seq<string>, k: nat) {
    && k < |words|
    && (forall i :: 0 <= i < |words| ==> Score(typed, words[k]) <= Score(typed, words[i]))
    && (forall i :: 0 <= i < k ==> Score(typed, words[k]) < Score(typed, words[i]))
  }

  method ClosestWord(typed: Option<string>, list: Option<string>) returns (r: Option<string>)
    ensures typed.None? || list.None? ==> r == None
    ensures r.Some? ==> Score(typed.value, r.value) <= 2 || 3 * Score(typed.value, r.value) <= |typed.value|
    ensures r.Some? ==> exists k: nat ::
      IsFirstBest(typed.value, SplitWords(list.value), k) && r.value == SplitWords(list.value)[k]
    ensures typed.Some? && list.Some? && r.None? ==> forall word :: word in SplitWords(list.value) ==>
      var score := Score(typed.value, word);
      (score > 2 && 3 * score > |typed.value|) || score >= NO_DISTANCE
  {
    if typed.None? || list.None? {
      return None;
    }
    var words := SplitWords(list.value);
    var best: Option<nat> := None;
    var bestDistance := NO_DISTANCE;
    for i := 0 to |words|
      invariant best.None? ==> bestDistance == NO_DISTANCE
      invariant best.Some? ==> best.value < i && bestDistance == Score(typed.value, words[best.value]) < NO_DISTANCE
      invariant forall k :: 0 <= k < i ==> bestDistance <= Score(typed.value, words[k])
      invariant best.Some? ==> forall k :: 0 <= k < best.value ==> bestDistance < Score(typed.value, words[k])
    {
      var distance := ComputeDistance(typed.value, words[i]);
      if typed.value <= words[i] && |typed.value| >= 2 {
        distance := 1;
      }
      if distance < bestDistance {
        best, bestDistance := Some(i), distance;
      }
    }
    if best.Some? && bestDistance <= Threshold(typed.value) {
      assert IsFirstBest(typed.value, words, best.value);
      return Some(words[best.value]);
    }
    r := None;
  }

  lemma JoinCons(head: string, rest: seq<string>)
    requires |rest| > 0
    ensures JoinWords([head] + rest) == head + " " + JoinWords(rest)
  {
    assert ([head] + rest)[1..] == rest;
  }

  lemma JoinGrow(x: char, head: string, rest: seq<string>)
    ensures JoinWords([[x] + head] + rest) == [x] + JoinWords([head] + rest)
  {
    if |rest| > 0 {
      JoinCons([x] + head, rest);
      JoinCons(head, rest);
      assert ([x] + head) + " " + JoinWords(rest) == [x] + (head + " " + JoinWords(rest));
    }
  }

  /** Splitting loses nothing. */
  lemma {:induction false} PiecesJoin(s: string, i: nat)
    requires i <= |s|
    ensures JoinWords(Pieces(s, i)) == s[i..]
    decreases |s| - i
  {
    if i < |s| {
      PiecesJoin(s, i + 1);
      assert s[i..] == [s[i]] + s[i + 1..];
      if s[i] == ' ' {
        JoinCons("", Pieces(s, i + 1));
        assert "" + " " + s[i + 1..] == s[i..];
      } else {
        var words := Pieces(s, i + 1);
        assert words == [words[0]] + words[1..];
        JoinGrow(s[i], words[0], words[1..]);
      }
    }
  }

  /** No piece holds a space. */
  lemma {:induction false} PiecesHoldNoSpace(s: string, i: nat)
    requires i <= |s|
    ensures forall k :: 0 <= k < |Pieces(s, i)| ==> ' ' !in Pieces(s, i)[k]
    decreases |s| - i
  {
    if i < |s| {
      PiecesHoldNoSpace(s, i + 1);
    }
  }

  lemma SplitWordsJoins(s: string)
    ensures JoinWords(SplitWords(s)) == s && forall w :: w in SplitWords(s) ==> ' ' !in w
  {
    PiecesJoin(s, 0);
    PiecesHoldNoSpace(s, 0);
  }
}
