/** What nightly retention keeps over many nights: the newest versions of everything ever built. */
module RetentionNights {
  import opened Orders
  import opened Retention

  /** The versions that are newer than `v`. */
  ghost function Above<V>(cmp: (V, V) -> int, s: set<V>, v: V): set<V> {
    set w | w in s && cmp(w, v) > 0
  }

  ghost function Versions<G, V, P>(m: map<Key<G, V>, P>, g: G): set<V> {
    set x | x in m && x.group == g :: x.version
  }

  /** An entry stays when fewer than `k` versions of its group are newer. */
  ghost predicate Stays<G, V, P>(order: G -> ((V, V) -> int), k: nat, m: map<Key<G, V>, P>, x: Key<G, V>) {
    |Above(order(x.group), Versions(m, x.group), x.version)| < k
  }

  ghost function Keep<G, V, P>(order: G -> ((V, V) -> int), k: nat, m: map<Key<G, V>, P>): map<Key<G, V>, P> {
    map x | x in m && Stays(order, k, m, x) :: m[x]
  }

  lemma SubsetCount<V>(s: set<V>, t: set<V>)
    requires s <= t
    ensures |s| <= |t|
  {
    assert t == s + (t - s);
  }

  // In a finite set at least k elements have fewer than k others above them.

  lemma {:induction false} Greatest<V(!new)>(cmp: (V, V) -> int, s: set<V>) returns (m: V)
    requires TotalPreorder(cmp) && s != {}
    ensures m in s && Above(cmp, s, m) == {}
    decreases |s|
  {
    m :| m in s;
    assert cmp(m, m) == -cmp(m, m);
    if s != {m} {
      var rest := s - {m};
      var n := Greatest(cmp, rest);
      assert forall w :: w in rest ==> w !in Above(cmp, rest, n);
      if cmp(m, n) > 0 {
        forall w | w in rest ensures cmp(w, m) <= 0 {
          assert cmp(w, n) <= 0 && cmp(n, m) == -cmp(m, n);
        }
      } else {
        m := n;
      }
    }
  }

  ghost function Top<V>(cmp: (V, V) -> int, s: set<V>, k: nat): set<V> {
    set v | v in s && |Above(cmp, s, v)| < k
  }

  /** The greatest element is in the top, and so is the top of the others with one place less. */
  lemma TopStep<V(!new)>(cmp: (V, V) -> int, s: set<V>, m: V, k: nat)
    requires k > 0 && m in s && Above(cmp, s, m) == {}
    ensures Top(cmp, s - {m}, k - 1) + {m} <= Top(cmp, s, k)
  {
    forall v | v in Top(cmp, s - {m}, k - 1) ensures v in Top(cmp, s, k) {
      assert Above(cmp, s, v) <= Above(cmp, s - {m}, v) + {m};
      SubsetCount(Above(cmp, s, v), Above(cmp, s - {m}, v) + {m});
    }
  }

  lemma {:induction false} TopCount<V(!new)>(cmp: (V, V) -> int, s: set<V>, k: nat)
    requires TotalPreorder(cmp) && |s| >= k
    ensures |Top(cmp, s, k)| >= k
    decreases k
  {
    hide TotalPreorder, Above;
    if k > 0 {
      var m := Greatest(cmp, s);
      TopCount(cmp, s - {m}, k - 1);
      TopStep(cmp, s, m, k);
      assert m !in Top(cmp, s - {m}, k - 1);
      SubsetCount(Top(cmp, s - {m}, k - 1) + {m}, Top(cmp, s, k));
    }
  }

  // Retention composes.

  lemma AboveTransitive<V(!new)>(cmp: (V, V) -> int, u: V, v: V, w: V)
    requires TotalPreorder(cmp) && cmp(u, v) > 0 && cmp(v, w) > 0
    ensures cmp(u, w) > 0
  {
    assert cmp(u, v) == -cmp(v, u) && cmp(v, w) == -cmp(w, v) && cmp(u, w) == -cmp(w, u);
    assert cmp(u, w) <= 0 ==> cmp(v, w) <= 0;
  }

  /** When `y` was dropped, at least k versions newer than `y` stay. */
  lemma DroppedHasNewer<G(!new), V(!new), P>(order: G -> ((V, V) -> int), k: nat, m: map<Key<G, V>, P>, y: Key<G, V>)
    requires Ordered(order) && y in m && !Stays(order, k, m, y)
    ensures |Above(order(y.group), Versions(Keep(order, k, m), y.group), y.version)| >= k
  {
    var cmp, all := order(y.group), Versions(m, y.group);
    var s := Above(cmp, all, y.version);
    TopCount(cmp, s, k);
    var top := Top(cmp, s, k);
    var kept := Above(cmp, Versions(Keep(order, k, m), y.group), y.version);
    forall v | v in top ensures v in kept {
      forall w | w in Above(cmp, all, v) ensures w in s {
        AboveTransitive(cmp, w, v, y.version);
      }
      assert Above(cmp, all, v) == Above(cmp, s, v);
      var x := Key(y.group, v);
      assert x in m && Stays(order, k, m, x);
    }
    SubsetCount(top, kept);
  }

  lemma StaysOnlyIf<G(!new), V(!new), P>(order: G -> ((V, V) -> int), k: nat, m: map<Key<G, V>, P>,
                                         f: map<Key<G, V>, P>, x: Key<G, V>)
    requires Ordered(order) && x in m + f && Stays(order, k, m + f, x)
    ensures x in Keep(order, k, m) + f && Stays(order, k, Keep(order, k, m) + f, x)
  {
    var cmp := order(x.group);
    var a, b := Versions(m + f, x.group), Versions(Keep(order, k, m) + f, x.group);
    SubsetCount(Above(cmp, Versions(m, x.group), x.version), Above(cmp, a, x.version));
    assert b <= a;
    SubsetCount(Above(cmp, b, x.version), Above(cmp, a, x.version));
  }

  lemma StaysIf<G(!new), V(!new), P>(order: G -> ((V, V) -> int), k: nat, m: map<Key<G, V>, P>, f: map<Key<G, V>, P>,
                                     x: Key<G, V>)
    requires Ordered(order) && x in Keep(order, k, m) + f && Stays(order, k, Keep(order, k, m) + f, x)
    ensures x in m + f && Stays(order, k, m + f, x)
  {
    var cmp, kept := order(x.group), Keep(order, k, m);
    var a, b := Versions(m + f, x.group), Versions(kept + f, x.group);
    if Above(cmp, a, x.version) <= b {
      assert Above(cmp, a, x.version) <= Above(cmp, b, x.version);
      SubsetCount(Above(cmp, a, x.version), Above(cmp, b, x.version));
    } else {
      var v :| v in Above(cmp, a, x.version) && v !in b;
      var y := Key(x.group, v);
      assert y in m + f;
      assert y !in kept + f;
      assert y in m && !Stays(order, k, m, y);
      DroppedHasNewer(order, k, m, y);
      var newer := Above(cmp, Versions(kept, x.group), v);
      forall w | w in newer ensures w in Above(cmp, b, x.version) {
        assert Key(x.group, w) in kept;
        AboveTransitive(cmp, w, v, x.version);
      }
      SubsetCount(newer, Above(cmp, b, x.version));
    }
  }

  /** Keeping the newest of (what was kept, merged with a new batch) is keeping the newest of (everything, merged with
      the new batch). */
  lemma RetentionComposes<G(!new), V(!new), P(!new)>(order: G -> ((V, V) -> int), k: nat, m: map<Key<G, V>, P>,
                                                     f: map<Key<G, V>, P>)
    requires Ordered(order)
    ensures Keep(order, k, Keep(order, k, m) + f) == Keep(order, k, m + f)
  {
    var a, b := Keep(order, k, Keep(order, k, m) + f), Keep(order, k, m + f);
    forall x | x in b ensures x in a && a[x] == b[x] {
      StaysOnlyIf(order, k, m, f, x);
    }
    forall x | x in a ensures x in b {
      StaysIf(order, k, m, f, x);
    }
  }

  // Night after night.

  ghost function Nights<G, V, P>(order: G -> ((V, V) -> int), k: nat,
                                 batches: seq<map<Key<G, V>, P>>): map<Key<G, V>, P> {
    if |batches| == 0 then map[]
    else Keep(order, k, Nights(order, k, batches[..|batches| - 1]) + batches[|batches| - 1])
  }

  ghost function Everything<G, V, P>(batches: seq<map<Key<G, V>, P>>): map<Key<G, V>, P> {
    if |batches| == 0 then map[] else Everything(batches[..|batches| - 1]) + batches[|batches| - 1]
  }

  /** After any number of nights the channel holds what one retention over everything ever built would hold. */
  lemma {:induction false} NightsKeepTheNewest<G(!new), V(!new), P(!new)>(order: G -> ((V, V) -> int), k: nat,
      batches: seq<map<Key<G, V>, P>>)
    requires Ordered(order)
    ensures Nights(order, k, batches) == Keep(order, k, Everything(batches))
  {
    if |batches| > 0 {
      var earlier, last := batches[..|batches| - 1], batches[|batches| - 1];
      NightsKeepTheNewest(order, k, earlier);
      RetentionComposes(order, k, Everything(earlier), last);
    }
  }

  // The code keeps exactly these entries when distinct versions of a group never tie.

  ghost predicate NoTies<G(!new), V, P>(order: G -> ((V, V) -> int), s: seq<Entry<G, V, P>>) {
    forall e, f :: e in s && f in s && e.group == f.group && order(e.group)(e.version, f.version) == 0 ==>
      e.version == f.version
  }

  ghost function VersionsOf<G, V, P>(s: seq<Entry<G, V, P>>): set<V> {
    set e | e in s :: e.version
  }

  ghost predicate DistinctVersions<G, V, P>(s: seq<Entry<G, V, P>>) {
    forall i, j :: 0 <= i < j < |s| ==> s[i].version != s[j].version
  }

  lemma {:induction false} DistinctCount<G, V, P>(s: seq<Entry<G, V, P>>)
    requires DistinctVersions(s)
    ensures |VersionsOf(s)| == |s|
  {
    if |s| > 0 {
      var front, last := s[..|s| - 1], s[|s| - 1];
      DistinctCount(front);
      assert s == front + [last];
      assert VersionsOf(s) == VersionsOf(front) + {last.version};
      forall e | e in front ensures e.version != last.version {
        var i :| 0 <= i < |front| && front[i] == e;
        assert s[i] == e;
      }
    }
  }

  lemma {:induction false} VersionsAtMost<G, V, P>(s: seq<Entry<G, V, P>>)
    ensures |VersionsOf(s)| <= |s|
  {
    if |s| > 0 {
      var front, last := s[..|s| - 1], s[|s| - 1];
      VersionsAtMost(front);
      assert s == front + [last];
      assert VersionsOf(s) == VersionsOf(front) + {last.version};
    }
  }

  /** A split of entries with distinct versions has no version on both sides. */
  lemma SplitVersions<G, V, P>(s: seq<Entry<G, V, P>>, kept: seq<Entry<G, V, P>>, dropped: seq<Entry<G, V, P>>)
    requires DistinctVersions(s) && multiset(kept) + multiset(dropped) == multiset(s)
    ensures |VersionsOf(kept)| == |kept| && VersionsOf(kept) !! VersionsOf(dropped)
    ensures VersionsOf(s) == VersionsOf(kept) + VersionsOf(dropped)
    ensures forall e :: e in s <==> e in kept || e in dropped
    ensures |s| == |kept| + |dropped|
  {
    forall e ensures e in s <==> e in kept || e in dropped {
      assert e in s <==> e in multiset(s);
    }
    assert |multiset(s)| == |multiset(kept)| + |multiset(dropped)|;
    var k, d := VersionsOf(kept), VersionsOf(dropped);
    DistinctCount(s);
    VersionsAtMost(kept);
    VersionsAtMost(dropped);
    assert VersionsOf(s) == k + d;
    assert |k + d| == |k| + |d| - |k * d|;
    assert |k * d| == 0;
    assert forall v :: v in k && v in d ==> v in k * d;
  }

  ghost predicate NoTiesIn<G, V, P>(cmp: (V, V) -> int, s: seq<Entry<G, V, P>>) {
    forall x, y :: x in s && y in s && cmp(x.version, y.version) == 0 ==> x.version == y.version
  }

  lemma NewerThanKeptIsKept<G, V(!new), P>(cmp: (V, V) -> int, kept: seq<Entry<G, V, P>>, dropped: seq<Entry<G, V, P>>,
                                           e: Entry<G, V, P>, w: V)
    requires TotalPreorder(cmp) && e in kept && w in VersionsOf(kept) + VersionsOf(dropped) && cmp(w, e.version) > 0
    requires forall f :: f in dropped ==> cmp(e.version, f.version) >= 0
    ensures w in VersionsOf(kept) - {e.version}
  {
    assert cmp(w, e.version) == -cmp(e.version, w) && cmp(e.version, e.version) == -cmp(e.version, e.version);
    forall v | v in VersionsOf(dropped) ensures cmp(e.version, v) >= 0 {
      var f :| f in dropped && f.version == v;
    }
  }

  lemma KeptHasFewAbove<G, V(!new), P>(cmp: (V, V) -> int, k: nat, s: seq<Entry<G, V, P>>, kept: seq<Entry<G, V, P>>,
                                       dropped: seq<Entry<G, V, P>>, e: Entry<G, V, P>)
    requires TotalPreorder(cmp) && RetainedIn(cmp, k, s, kept, dropped) && DistinctVersions(s) && e in kept
    ensures |Above(cmp, VersionsOf(s), e.version)| < k
  {
    hide TotalPreorder, DistinctVersions;
    SplitVersions(s, kept, dropped);
    var above, versions := Above(cmp, VersionsOf(s), e.version), VersionsOf(kept);
    assert e.version in versions;
    forall w | w in above ensures w in versions - {e.version} {
      NewerThanKeptIsKept(cmp, kept, dropped, e, w);
    }
    SubsetCount(above, versions - {e.version});
    assert |versions - {e.version}| == |versions| - 1;
  }

  lemma DroppedHasManyAbove<G, V(!new), P>(cmp: (V, V) -> int, k: nat, s: seq<Entry<G, V, P>>,
                                           kept: seq<Entry<G, V, P>>, dropped: seq<Entry<G, V, P>>, e: Entry<G, V, P>)
    requires TotalPreorder(cmp) && RetainedIn(cmp, k, s, kept, dropped) && DistinctVersions(s) && NoTiesIn(cmp, s)
    requires e in dropped
    ensures |Above(cmp, VersionsOf(s), e.version)| >= k
  {
    SplitVersions(s, kept, dropped);
    var above := Above(cmp, VersionsOf(s), e.version);
    assert e.version in VersionsOf(dropped);
    forall w | w in VersionsOf(kept) ensures w in above {
      var f :| f in kept && f.version == w;
      assert cmp(f.version, e.version) >= 0;
    }
    SubsetCount(VersionsOf(kept), above);
  }

  /** In one group: an entry is kept exactly when fewer than k versions are newer. */
  lemma KeptInGroup<G, V(!new), P>(cmp: (V, V) -> int, k: nat, s: seq<Entry<G, V, P>>, kept: seq<Entry<G, V, P>>,
                                   dropped: seq<Entry<G, V, P>>, e: Entry<G, V, P>)
    requires TotalPreorder(cmp) && RetainedIn(cmp, k, s, kept, dropped) && DistinctVersions(s) && NoTiesIn(cmp, s)
    requires e in s
    ensures e in kept <==> |Above(cmp, VersionsOf(s), e.version)| < k
  {
    SplitVersions(s, kept, dropped);
    if e in kept {
      KeptHasFewAbove(cmp, k, s, kept, dropped, e);
    } else {
      DroppedHasManyAbove(cmp, k, s, kept, dropped, e);
    }
  }

  lemma {:induction false} GroupDistinct<G, V, P>(s: seq<Entry<G, V, P>>, g: G)
    requires Distinct(s)
    ensures DistinctVersions(OfGroup(s, g))
  {
    if |s| > 0 {
      var front, last := s[..|s| - 1], s[|s| - 1];
      GroupDistinct(front, g);
      var t := OfGroup(front, g);
      forall i | 0 <= i < |t| && last.group == g ensures t[i].version != last.version {
        OfGroupMembers(front, g, t[i]);
        var j :| 0 <= j < |front| && front[j] == t[i];
        assert s[j] == t[i];
        assert KeyOf(s[j]) != KeyOf(s[|s| - 1]);
      }
    }
  }

  lemma GroupVersions<G, V, P>(s: seq<Entry<G, V, P>>, g: G)
    ensures VersionsOf(OfGroup(s, g)) == Versions(MapOf(s), g)
  {
    MapOfKeys(s);
    forall v | v in VersionsOf(OfGroup(s, g)) ensures v in Versions(MapOf(s), g) {
      var e :| e in OfGroup(s, g) && e.version == v;
      OfGroupMembers(s, g, e);
      assert KeyOf(e) in MapOf(s);
    }
    forall v | v in Versions(MapOf(s), g) ensures v in VersionsOf(OfGroup(s, g)) {
      var x :| x in MapOf(s) && x.group == g && x.version == v;
      assert x in KeysOf(s);
      var e :| e in s && KeyOf(e) == x;
      OfGroupMembers(s, g, e);
    }
  }

  lemma KeptIffStays<G(!new), V(!new), P>(order: G -> ((V, V) -> int), k: nat, s: seq<Entry<G, V, P>>,
      kept: seq<Entry<G, V, P>>, dropped: seq<Entry<G, V, P>>, e: Entry<G, V, P>)
    requires Ordered(order) && Retained(order, k, s, kept, dropped) && Distinct(s) && NoTies(order, s) && e in s
    ensures e in kept <==> Stays(order, k, MapOf(s), KeyOf(e))
  {
    var g := e.group;
    var members := OfGroup(s, g);
    GroupDistinct(s, g);
    GroupVersions(s, g);
    OfGroupMembers(s, g, e);
    OfGroupMembers(kept, g, e);
    assert NoTiesIn(order(g), members) by {
      forall x, y | x in members && y in members && order(g)(x.version, y.version) == 0 ensures x.version == y.version {
        OfGroupMembers(s, g, x);
        OfGroupMembers(s, g, y);
      }
    }
    KeptInGroup(order(g), k, members, OfGroup(kept, g), OfGroup(dropped, g), e);
  }

  lemma KeptIsPart<G(!new), V(!new), P>(order: G -> ((V, V) -> int), k: nat, s: seq<Entry<G, V, P>>,
      kept: seq<Entry<G, V, P>>, dropped: seq<Entry<G, V, P>>, e: Entry<G, V, P>)
    requires Retained(order, k, s, kept, dropped) && e in kept
    ensures e in s
  {
    var g := e.group;
    OfGroupMembers(s, g, e);
    OfGroupMembers(kept, g, e);
    assert RetainedIn(order(g), k, OfGroup(s, g), OfGroup(kept, g), OfGroup(dropped, g));
    assert e in multiset(OfGroup(kept, g)) + multiset(OfGroup(dropped, g));
    assert e in multiset(OfGroup(s, g));
  }

  /** Kept and dropped together are the input. */
  lemma RetentionConserves<G(!new), V(!new), P(!new)>(order: G -> ((V, V) -> int), k: nat, s: seq<Entry<G, V, P>>,
      kept: seq<Entry<G, V, P>>, dropped: seq<Entry<G, V, P>>)
    requires Retained(order, k, s, kept, dropped)
    ensures multiset(kept) + multiset(dropped) == multiset(s)
  {
    forall e: Entry<G, V, P> ensures (multiset(kept) + multiset(dropped))[e] == multiset(s)[e] {
      var g := e.group;
      OfGroupMembers(s, g, e);
      OfGroupMembers(kept, g, e);
      OfGroupMembers(dropped, g, e);
      assert RetainedIn(order(g), k, OfGroup(s, g), OfGroup(kept, g), OfGroup(dropped, g));
      assert (multiset(OfGroup(kept, g)) + multiset(OfGroup(dropped, g)))[e] == multiset(OfGroup(s, g))[e];
    }
  }

  lemma {:induction false} MapOfSource<G, V, P>(s: seq<Entry<G, V, P>>, x: Key<G, V>) returns (e: Entry<G, V, P>)
    requires x in MapOf(s)
    ensures e in s && KeyOf(e) == x && e.package == MapOf(s)[x]
  {
    var front, last := s[..|s| - 1], s[|s| - 1];
    if KeyOf(last) == x {
      e := last;
    } else {
      e := MapOfSource(front, x);
      assert e in front;
    }
  }

  lemma SourceIsUnique<G, V, P>(s: seq<Entry<G, V, P>>, e: Entry<G, V, P>)
    requires Distinct(s) && e in s
    ensures KeyOf(e) in MapOf(s) && MapOf(s)[KeyOf(e)] == e.package
  {
    var i :| 0 <= i < |s| && s[i] == e;
    MapOfEntries(s, i);
  }

  lemma KeptOnlyIfStays<G(!new), V(!new), P(!new)>(order: G -> ((V, V) -> int), k: nat, s: seq<Entry<G, V, P>>,
      kept: seq<Entry<G, V, P>>, dropped: seq<Entry<G, V, P>>, x: Key<G, V>)
    requires Ordered(order) && Retained(order, k, s, kept, dropped) && Distinct(s) && NoTies(order, s)
      && x in MapOf(kept)
    ensures x in MapOf(s) && Stays(order, k, MapOf(s), x) && MapOf(kept)[x] == MapOf(s)[x]
  {
    var e := MapOfSource(kept, x);
    KeptIsPart(order, k, s, kept, dropped, e);
    SourceIsUnique(s, e);
    KeptIffStays(order, k, s, kept, dropped, e);
  }

  lemma KeptIfStays<G(!new), V(!new), P(!new)>(order: G -> ((V, V) -> int), k: nat, s: seq<Entry<G, V, P>>,
      kept: seq<Entry<G, V, P>>, dropped: seq<Entry<G, V, P>>, x: Key<G, V>)
    requires Ordered(order) && Retained(order, k, s, kept, dropped) && Distinct(s) && NoTies(order, s)
    requires x in MapOf(s) && Stays(order, k, MapOf(s), x)
    ensures x in MapOf(kept)
  {
    var e := MapOfSource(s, x);
    KeptIffStays(order, k, s, kept, dropped, e);
    MapOfKeys(kept);
    assert KeyOf(e) in KeysOf(kept);
  }

  /** What one night's retention keeps, as a map: the entries that fewer than k versions of their group are newer
      than. */
  lemma KeptIsKeep<G(!new), V(!new), P(!new)>(order: G -> ((V, V) -> int), k: nat, s: seq<Entry<G, V, P>>,
      kept: seq<Entry<G, V, P>>, dropped: seq<Entry<G, V, P>>)
    requires Ordered(order) && Retained(order, k, s, kept, dropped) && Distinct(s) && NoTies(order, s)
    ensures MapOf(kept) == Keep(order, k, MapOf(s))
  {
    forall x | x in MapOf(kept)
      ensures x in MapOf(s) && Stays(order, k, MapOf(s), x) && MapOf(kept)[x] == MapOf(s)[x]
    {
      KeptOnlyIfStays(order, k, s, kept, dropped, x);
    }
    forall x | x in MapOf(s) && Stays(order, k, MapOf(s), x) ensures x in MapOf(kept) {
      KeptIfStays(order, k, s, kept, dropped, x);
    }
  }

  /** The hypothesis is needed: of two entries that tie, the one that comes first is kept. */
  lemma TieDependsOnOrder<G, V(!new), P>(cmp: (V, V) -> int, e: Entry<G, V, P>, f: Entry<G, V, P>)
    requires TotalPreorder(cmp) && cmp(e.version, f.version) == 0 && e.version != f.version
    ensures NewestFirst(cmp, [e, f])[..1] == [e] && NewestFirst(cmp, [f, e])[..1] == [f]
  {
    assert cmp(f.version, e.version) == -cmp(e.version, f.version);
    assert [e, f][..1] == [e] && [f, e][..1] == [f] && [e][..0] == [] && [f][..0] == [];
    assert NewestFirst(cmp, [e]) == [e] && NewestFirst(cmp, [f]) == [f];
  }

  ghost predicate NeverTie<G(!new), V, P>(order: G -> ((V, V) -> int), m: map<Key<G, V>, P>) {
    forall x, y :: x in m && y in m && x.group == y.group && order(x.group)(x.version, y.version) == 0 ==> x == y
  }

  lemma NeverTieIsNoTies<G(!new), V(!new), P>(order: G -> ((V, V) -> int), s: seq<Entry<G, V, P>>)
    requires NeverTie(order, MapOf(s))
    ensures NoTies(order, s)
  {
    forall e, f | e in s && f in s && e.group == f.group && order(e.group)(e.version, f.version) == 0
      ensures e.version == f.version
    {
      MapOfKeys(s);
      assert KeyOf(e) in KeysOf(s) && KeyOf(f) in KeysOf(s);
    }
  }

  /** One night of the nightly channel: the merge and the retention behind it. */
  method Night<G(==,!new), V(==,!new), P(!new)>(order: G -> ((V, V) -> int), existing: seq<Entry<G, V, P>>,
                                                batch: seq<Entry<G, V, P>>, keep: nat)
      returns (kept: seq<Entry<G, V, P>>)
    requires Ordered(order) && keep >= 1
    ensures NeverTie(order, MapOf(existing) + MapOf(batch)) ==>
      MapOf(kept) == Keep(order, keep, MapOf(existing) + MapOf(batch))
  {
    var merged := Merge(existing, batch, false, false);
    var retained := ApplyRetention(order, merged.value, true, keep);
    kept := retained.value.0;
    if NeverTie(order, MapOf(existing) + MapOf(batch)) {
      NeverTieIsNoTies(order, merged.value);
      KeptIsKeep(order, keep, merged.value, kept, retained.value.1);
    }
  }
  // Night after night, by the code.

  /** The batches, each by its keys. */
  ghost function Maps<G, V, P>(batches: seq<seq<Entry<G, V, P>>>): (maps: seq<map<Key<G, V>, P>>)
    ensures |maps| == |batches| && forall i :: 0 <= i < |batches| ==> maps[i] == MapOf(batches[i])
  {
    seq(|batches|, i requires 0 <= i < |batches| => MapOf(batches[i]))
  }

  lemma {:induction false} EverythingGrows<G, V, P>(maps: seq<map<Key<G, V>, P>>, i: nat)
    requires i <= |maps|
    ensures Everything(maps[..i]).Keys <= Everything(maps).Keys
    decreases |maps| - i
  {
    if i == |maps| {
      assert maps[..i] == maps;
    } else {
      EverythingGrows(maps, i + 1);
      assert maps[..i + 1][..i] == maps[..i];
    }
  }

  lemma FewerNeverTie<G(!new), V(!new), P>(order: G -> ((V, V) -> int), m: map<Key<G, V>, P>, all: map<Key<G, V>, P>)
    requires m.Keys <= all.Keys && NeverTie(order, all)
    ensures NeverTie(order, m)
  {
    forall x, y | x in m && y in m && x.group == y.group && order(x.group)(x.version, y.version) == 0 ensures x == y {
      assert x in all && y in all;
    }
  }

  /** What the channel held before a night, and what is built in it, are part of everything that is ever built. */
  lemma NightNeverTies<G(!new), V(!new), P(!new)>(order: G -> ((V, V) -> int), k: nat, maps: seq<map<Key<G, V>, P>>,
                                                  i: nat)
    requires Ordered(order) && NeverTie(order, Everything(maps)) && i < |maps|
    ensures NeverTie(order, Nights(order, k, maps[..i]) + maps[i])
    ensures Nights(order, k, maps[..i + 1]) == Keep(order, k, Nights(order, k, maps[..i]) + maps[i])
  {
    assert maps[..i + 1][..i] == maps[..i];
    NightsKeepTheNewest(order, k, maps[..i]);
    EverythingGrows(maps, i + 1);
    FewerNeverTie(order, Nights(order, k, maps[..i]) + maps[i], Everything(maps));
  }

  /** The nightly channel after a night for each batch: what one retention over everything ever built keeps, when
      distinct versions of a group never tie. */
  method RunNights<G(==,!new), V(==,!new), P(!new)>(order: G -> ((V, V) -> int), batches: seq<seq<Entry<G, V, P>>>,
                                                    keep: nat)
      returns (channel: seq<Entry<G, V, P>>)
    requires Ordered(order) && keep >= 1 && NeverTie(order, Everything(Maps(batches)))
    ensures MapOf(channel) == Keep(order, keep, Everything(Maps(batches)))
  {
    ghost var maps := Maps(batches);
    channel := [];
    for i := 0 to |batches|
      invariant MapOf(channel) == Nights(order, keep, maps[..i])
    {
      NightNeverTies(order, keep, maps, i);
      channel := Night(order, channel, batches[i], keep);
    }
    assert maps[..|batches|] == maps;
    NightsKeepTheNewest(order, keep, maps);
  }
}
