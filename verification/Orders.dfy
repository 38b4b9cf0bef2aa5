/** Comparison functions with values -1, 0 and 1, and the orders that the version comparators are built from. */
module Orders {

  function Cmp(x: int, y: int): int {
    if x < y then -1 else if x > y then 1 else 0
  }

  function Sign(x: int): int {
    Cmp(x, 0)
  }

  /** `cmp` is a total preorder: swapping the arguments negates the answer, and "at most" is transitive. */
  ghost predicate TotalPreorder<T(!new)>(cmp: (T, T) -> int) {
    && (forall x, y :: cmp(x, y) == -cmp(y, x))
    && (forall x, y, z :: cmp(x, y) <= 0 && cmp(y, z) <= 0 ==> cmp(x, z) <= 0)
  }

  datatype List<T> = Nil | Cons(head: T, tail: List<T>)

  function Append<T>(s: List<T>, t: List<T>): List<T> {
    match s
    case Nil => t
    case Cons(x, rest) => Cons(x, Append(rest, t))
  }

  ghost predicate Contains<T>(s: List<T>, x: T) {
    s.Cons? && (s.head == x || Contains(s.tail, x))
  }

  function Head<T>(s: List<T>, pad: T): T {
    if s.Nil? then pad else s.head
  }

  function Tail<T>(s: List<T>): List<T> {
    if s.Nil? then Nil else s.tail
  }

  /** The first difference of two lists decides; the shorter one is continued with `pad` for ever. */
  function Lex<T>(cmp: (T, T) -> int, pad: T, s: List<T>, t: List<T>): int
    decreases s, t
  {
    if s.Nil? && t.Nil? then 0
    else
      var c := cmp(Head(s, pad), Head(t, pad));
      if c != 0 then c else Lex(cmp, pad, Tail(s), Tail(t))
  }

  ghost predicate Reflexive<T(!new)>(cmp: (T, T) -> int) {
    forall x :: cmp(x, x) == 0
  }

  lemma {:induction false} LexReflexive<T(!new)>(cmp: (T, T) -> int, pad: T, s: List<T>)
    requires Reflexive(cmp)
    ensures Lex(cmp, pad, s, s) == 0
  {
    if s.Cons? {
      LexReflexive(cmp, pad, s.tail);
    }
  }

  lemma {:induction false} LexAntisymmetric<T(!new)>(cmp: (T, T) -> int, pad: T, s: List<T>, t: List<T>)
    requires TotalPreorder(cmp)
    ensures Lex(cmp, pad, s, t) == -Lex(cmp, pad, t, s)
    decreases s, t
  {
    if s.Cons? || t.Cons? {
      assert cmp(Head(s, pad), Head(t, pad)) == -cmp(Head(t, pad), Head(s, pad));
      LexAntisymmetric(cmp, pad, Tail(s), Tail(t));
    }
  }

  lemma {:induction false} LexTransitive<T(!new)>(cmp: (T, T) -> int, pad: T, s: List<T>, t: List<T>, u: List<T>)
    requires TotalPreorder(cmp)
    requires Lex(cmp, pad, s, t) <= 0 && Lex(cmp, pad, t, u) <= 0
    ensures Lex(cmp, pad, s, u) <= 0
    decreases s, t, u
  {
    if s.Cons? || t.Cons? || u.Cons? {
      var x, y, z := Head(s, pad), Head(t, pad), Head(u, pad);
      assert cmp(pad, pad) == -cmp(pad, pad);
      assert cmp(x, y) <= 0 && cmp(y, z) <= 0;
      assert cmp(x, z) <= 0;
      if cmp(x, z) == 0 {
        assert cmp(z, x) <= 0;
        assert cmp(z, y) <= 0 && cmp(y, x) <= 0;
        assert cmp(x, y) == -cmp(y, x) && cmp(y, z) == -cmp(z, y);
        LexTransitive(cmp, pad, Tail(s), Tail(t), Tail(u));
      }
    }
  }

  /** A common prefix of elements does not decide anything. */
  lemma {:induction false} LexPrefix<T(!new)>(cmp: (T, T) -> int, pad: T, p: List<T>, s: List<T>, t: List<T>)
    requires Reflexive(cmp)
    ensures Lex(cmp, pad, Append(p, s), Append(p, t)) == Lex(cmp, pad, s, t)
  {
    if p.Cons? {
      LexPrefix(cmp, pad, p.tail, s, t);
    }
  }

  /** Only the elements that occur matter. */
  lemma {:induction false} LexCongruence<T(!new)>(cmp: (T, T) -> int, cmp': (T, T) -> int, pad: T, s: List<T>,
                                                  t: List<T>)
    requires forall x, y | (Contains(s, x) || x == pad) && (Contains(t, y) || y == pad) :: cmp(x, y) == cmp'(x, y)
    ensures Lex(cmp, pad, s, t) == Lex(cmp', pad, s, t)
    decreases s, t
  {
    if s.Cons? || t.Cons? {
      LexCongruence(cmp, cmp', pad, Tail(s), Tail(t));
    }
  }

  lemma LexIsTotalPreorder<T(!new)>(cmp: (T, T) -> int, pad: T)
    requires TotalPreorder(cmp)
    ensures TotalPreorder((s: List<T>, t: List<T>) => Lex(cmp, pad, s, t))
  {
    var lex := (s: List<T>, t: List<T>) => Lex(cmp, pad, s, t);
    forall s, t ensures lex(s, t) == -lex(t, s) {
      LexAntisymmetric(cmp, pad, s, t);
    }
    forall s, t, u | lex(s, t) <= 0 && lex(t, u) <= 0 ensures lex(s, u) <= 0 {
      LexTransitive(cmp, pad, s, t, u);
    }
  }

  /** Comparing the images of a map under a total preorder is a total preorder. */
  lemma PullbackIsTotalPreorder<S(!new), T(!new)>(cmp: (T, T) -> int, image: S -> T, pulled: (S, S) -> int)
    requires TotalPreorder(cmp)
    requires forall x, y :: pulled(x, y) == cmp(image(x), image(y))
    ensures TotalPreorder(pulled)
  {
    forall x, y ensures pulled(x, y) == -pulled(y, x) {
      assert cmp(image(x), image(y)) == -cmp(image(y), image(x));
    }
    forall x, y, z | pulled(x, y) <= 0 && pulled(y, z) <= 0 ensures pulled(x, z) <= 0 {
      assert cmp(image(x), image(y)) <= 0 && cmp(image(y), image(z)) <= 0;
    }
  }

  /** Two total preorders, the first one deciding first, form a total preorder. */
  lemma ThenIsTotalPreorder<T(!new)>(first: (T, T) -> int, second: (T, T) -> int, both: (T, T) -> int)
    requires TotalPreorder(first) && TotalPreorder(second)
    requires forall x, y :: both(x, y) == if first(x, y) != 0 then first(x, y) else second(x, y)
    ensures TotalPreorder(both)
  {
    forall x, y ensures both(x, y) == -both(y, x) {
      assert first(x, y) == -first(y, x) && second(x, y) == -second(y, x);
    }
    forall x, y, z | both(x, y) <= 0 && both(y, z) <= 0 ensures both(x, z) <= 0 {
      assert first(x, y) <= 0 && first(y, z) <= 0;
      assert first(x, z) <= 0;
      if first(x, z) == 0 {
        assert first(z, x) <= 0;
        assert first(y, x) <= 0 && first(z, y) <= 0;
        assert first(x, y) == -first(y, x) && first(y, z) == -first(z, y);
        assert second(x, z) <= 0;
      }
    }
  }

  // Epoch, version and release, the last two under one string order.

  datatype Evr = Evr(epoch: int, version: string, release: string)

  function EvrOrder(cmp: (string, string) -> int, a: Evr, b: Evr): int {
    if a.epoch != b.epoch then Cmp(a.epoch, b.epoch)
    else if cmp(a.version, b.version) != 0 then cmp(a.version, b.version)
    else cmp(a.release, b.release)
  }

  lemma EvrOrderIsTotalPreorder(cmp: (string, string) -> int)
    requires TotalPreorder(cmp)
    ensures TotalPreorder((a: Evr, b: Evr) => EvrOrder(cmp, a, b))
  {
    var byEpoch := (a: Evr, b: Evr) => Cmp(a.epoch, b.epoch);
    var byVersion := (a: Evr, b: Evr) => cmp(a.version, b.version);
    var byRelease := (a: Evr, b: Evr) => cmp(a.release, b.release);
    PullbackIsTotalPreorder(cmp, (a: Evr) => a.version, byVersion);
    PullbackIsTotalPreorder(cmp, (a: Evr) => a.release, byRelease);
    var rest := (a: Evr, b: Evr) => if byVersion(a, b) != 0 then byVersion(a, b) else byRelease(a, b);
    ThenIsTotalPreorder(byVersion, byRelease, rest);
    ThenIsTotalPreorder(byEpoch, rest, (a: Evr, b: Evr) => EvrOrder(cmp, a, b));
  }

  // Strings compare by their characters, and a proper prefix is smaller.

  function StrCmp(s: string, t: string): int {
    if |s| == 0 then if |t| == 0 then 0 else -1
    else if |t| == 0 then 1
    else if s[0] != t[0] then Cmp(s[0] as int, t[0] as int)
    else StrCmp(s[1..], t[1..])
  }

  lemma {:induction false} StrCmpAntisymmetric(s: string, t: string)
    ensures StrCmp(s, t) == -StrCmp(t, s)
    ensures StrCmp(s, t) == 0 <==> s == t
    ensures -1 <= StrCmp(s, t) <= 1
  {
    if |s| > 0 && |t| > 0 && s[0] == t[0] {
      StrCmpAntisymmetric(s[1..], t[1..]);
      assert s == [s[0]] + s[1..] && t == [t[0]] + t[1..];
    }
  }

  lemma {:induction false} StrCmpTransitive(s: string, t: string, u: string)
    requires StrCmp(s, t) <= 0 && StrCmp(t, u) <= 0
    ensures StrCmp(s, u) <= 0
  {
    if |s| > 0 && |t| > 0 && |u| > 0 && s[0] == t[0] == u[0] {
      StrCmpTransitive(s[1..], t[1..], u[1..]);
    }
  }

  lemma StrCmpIsTotalPreorder()
    ensures TotalPreorder(StrCmp)
  {
    forall s, t ensures StrCmp(s, t) == -StrCmp(t, s) {
      StrCmpAntisymmetric(s, t);
    }
    forall s, t, u | StrCmp(s, t) <= 0 && StrCmp(t, u) <= 0 ensures StrCmp(s, u) <= 0 {
      StrCmpTransitive(s, t, u);
    }
  }

  /** `s` is a proper prefix of `t`, or has the smaller character where they first differ. */
  ghost predicate TextBefore(s: string, t: string) {
    s < t || exists k :: 0 <= k < |s| && k < |t| && s[..k] == t[..k] && s[k] < t[k]
  }

  /** Equal beginnings do not matter. */
  lemma {:induction false} StrCmpBehind(s: string, t: string, k: nat)
    requires k <= |s| && k <= |t| && s[..k] == t[..k]
    ensures StrCmp(s, t) == StrCmp(s[k..], t[k..])
  {
    if k == 0 {
      assert s[0..] == s && t[0..] == t;
    } else {
      assert s[0] == s[..k][0] == t[..k][0] == t[0];
      assert s[1..][..k - 1] == s[..k][1..] && t[1..][..k - 1] == t[..k][1..];
      StrCmpBehind(s[1..], t[1..], k - 1);
      assert s[1..][k - 1..] == s[k..] && t[1..][k - 1..] == t[k..];
    }
  }

  /** The length of the longest common prefix. */
  function Common(s: string, t: string): (k: nat)
    ensures k <= |s| && k <= |t| && s[..k] == t[..k]
    ensures k == |s| || k == |t| || s[k] != t[k]
  {
    if |s| == 0 || |t| == 0 || s[0] != t[0] then 0
    else
      var k := Common(s[1..], t[1..]);
      assert s[..k + 1] == [s[0]] + s[1..][..k] && t[..k + 1] == [t[0]] + t[1..][..k];
      k + 1
  }

  lemma TextBeforeCompares(s: string, t: string)
    requires TextBefore(s, t)
    ensures StrCmp(s, t) == -1
  {
    if s < t {
      StrCmpBehind(s, t, |s|);
    } else {
      var k :| 0 <= k < |s| && k < |t| && s[..k] == t[..k] && s[k] < t[k];
      StrCmpBehind(s, t, k);
    }
  }

  lemma StrCmpIsTextOrder(s: string, t: string)
    ensures StrCmp(s, t) == -1 <==> TextBefore(s, t)
    ensures StrCmp(s, t) == 1 <==> TextBefore(t, s)
  {
    hide StrCmp;
    StrCmpAntisymmetric(s, t);
    var k := Common(s, t);
    if TextBefore(s, t) {
      TextBeforeCompares(s, t);
    }
    if TextBefore(t, s) {
      TextBeforeCompares(t, s);
    }
    assert s == t || TextBefore(s, t) || TextBefore(t, s);
  }

  /** Of two strings of one length, the last characters decide only when everything before them agrees. */
  lemma {:induction false} StrCmpLast(s: string, t: string, x: char, y: char)
    requires |s| == |t|
    ensures StrCmp(s + [x], t + [y]) == if StrCmp(s, t) != 0 then StrCmp(s, t) else Cmp(x as int, y as int)
  {
    if |s| > 0 {
      assert (s + [x])[1..] == s[1..] + [x] && (t + [y])[1..] == t[1..] + [y];
      StrCmpLast(s[1..], t[1..], x, y);
    }
  }
}
