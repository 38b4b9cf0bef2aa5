/** Merging a night's packages into the published ones and keeping the newest (scripts/pkgrepo/tree.py). */
module Retention {
  import opened Options
  import opened Orders

  /** One package file: packages of one group replace each other when their versions differ. */
  datatype Entry<G, V, P> = Entry(group: G, version: V, package: P)
  datatype Key<G, V> = Key(group: G, version: V)

  function KeyOf<G, V, P>(e: Entry<G, V, P>): Key<G, V> {
    Key(e.group, e.version)
  }

  /** The entries under their keys; of several with one key the last one counts. */
  function MapOf<G(==), V(==), P>(s: seq<Entry<G, V, P>>): map<Key<G, V>, P> {
    if |s| == 0 then map[] else MapOf(s[..|s| - 1])[KeyOf(s[|s| - 1]) := s[|s| - 1].package]
  }

  ghost predicate Distinct<G, V, P>(s: seq<Entry<G, V, P>>) {
    forall i, j :: 0 <= i < j < |s| ==> KeyOf(s[i]) != KeyOf(s[j])
  }

  ghost function KeysOf<G, V, P>(s: seq<Entry<G, V, P>>): set<Key<G, V>> {
    set e | e in s :: KeyOf(e)
  }

  lemma {:induction false} MapOfKeys<G, V, P>(s: seq<Entry<G, V, P>>)
    ensures MapOf(s).Keys == KeysOf(s)
  {
    if |s| > 0 {
      var front, last := s[..|s| - 1], s[|s| - 1];
      MapOfKeys(front);
      assert s == front + [last];
      assert KeysOf(s) == KeysOf(front) + {KeyOf(last)};
    }
  }

  lemma {:induction false} MapOfEntries<G, V, P>(s: seq<Entry<G, V, P>>, i: nat)
    requires i < |s| && Distinct(s)
    ensures KeyOf(s[i]) in MapOf(s) && MapOf(s)[KeyOf(s[i])] == s[i].package
  {
    var n := |s| - 1;
    if i < n {
      assert s[..n][i] == s[i];
      MapOfEntries(s[..n], i);
      assert KeyOf(s[i]) != KeyOf(s[n]);
    }
  }

  // The merge.

  /** A dictionary that remembers the order in which its keys were first inserted. */
  datatype Dict<!K, P> = Dict(order: seq<K>, entries: map<K, P>) {
    ghost predicate Valid() {
      && (forall i :: 0 <= i < |order| ==> order[i] in entries)
      && (forall k :: k in entries ==> k in order)
      && (forall i, j :: 0 <= i < j < |order| ==> order[i] != order[j])
    }

    method Put(key: K, p: P) returns (d: Dict<K, P>)
      requires Valid()
      ensures d.Valid() && d.entries == entries[key := p]
    {
      ghost var order' := order + [key];
      assert forall k :: k in order ==> k in order';
      assert order'[|order|] == key;
      d := Dict(if key in entries then order else order + [key], entries[key := p]);
    }
  }

  /** The published entries under their keys: the comprehension at the start of the merge. */
  method Published<G(==), V(==), P>(existing: seq<Entry<G, V, P>>) returns (d: Dict<Key<G, V>, P>)
    ensures d.Valid() && d.entries == MapOf(existing)
  {
    d := Dict([], map[]);
    for i := 0 to |existing|
      invariant d.Valid() && d.entries == MapOf(existing[..i])
    {
      MapOfNext(existing, i);
      d := d.Put(KeyOf(existing[i]), existing[i].package);
    }
    assert existing[..|existing|] == existing;
  }

  /** The loop over the new entries; it stops at the first one that may not replace a published entry. */
  method MergeLoop<G(==), V(==), P>(ghost existing: seq<Entry<G, V, P>>, start: Dict<Key<G, V>, P>,
                                    batch: seq<Entry<G, V, P>>, guarded: bool)
      returns (merged: Dict<Key<G, V>, P>, clash: Option<Key<G, V>>)
    requires start.Valid() && start.entries == MapOf(existing)
    ensures clash.Some? ==> guarded && clash.value in start.entries && exists e :: e in batch && KeyOf(e) == clash.value
    ensures clash.None? ==> merged.Valid() && merged.entries == MapOf(existing + batch)
    ensures clash.None? && guarded ==> forall e :: e in batch ==> KeyOf(e) !in start.entries
  {
    merged := start;
    ghost var all, n := existing + batch, |existing|;
    assert all[..n] == existing;
    for i := 0 to |batch|
      invariant merged.Valid() && merged.entries == MapOf(all[..n + i])
      invariant guarded ==> forall j :: 0 <= j < i ==> KeyOf(batch[j]) !in start.entries
    {
      var key := KeyOf(batch[i]);
      if key in start.entries && guarded {
        assert batch[i] in batch;
        return merged, Some(key);
      }
      MapOfNext(all, n + i);
      merged := merged.Put(key, batch[i].package);
    }
    assert all[..n + |batch|] == all;
    clash := None;
  }

  method Merge<G(==), V(==), P>(existing: seq<Entry<G, V, P>>, batch: seq<Entry<G, V, P>>, stable: bool,
                                replaceStable: bool)
      returns (r: Result<seq<Entry<G, V, P>>, Key<G, V>>)
    ensures r.Err? <==> stable && !replaceStable && exists e :: e in batch && KeyOf(e) in MapOf(existing)
    ensures r.Err? ==> r.error in MapOf(existing) && exists e :: e in batch && KeyOf(e) == r.error
    ensures r.Ok? ==> Distinct(r.value) && MapOf(r.value) == MapOf(existing) + MapOf(batch)
  {
    var published := Published(existing);
    var merged, clash := MergeLoop(existing, published, batch, stable && !replaceStable);
    if clash.Some? {
      return Err(clash.value);
    }
    MapOfConcat(existing, batch);
    r := Ok(Values(merged));
  }

  function Values<G(==), V(==), P>(d: Dict<Key<G, V>, P>): (s: seq<Entry<G, V, P>>)
    requires d.Valid()
    ensures Distinct(s) && MapOf(s) == d.entries
  {
    var s := seq(|d.order|, i requires 0 <= i < |d.order| && d.order[i] in d.entries =>
      Entry(d.order[i].group, d.order[i].version, d.entries[d.order[i]]));
    ValuesMap(d, s);
    s
  }

  lemma {:induction false} ValuesMap<G, V, P>(d: Dict<Key<G, V>, P>, s: seq<Entry<G, V, P>>)
    requires d.Valid() && |s| == |d.order|
    requires forall i :: 0 <= i < |s| ==> KeyOf(s[i]) == d.order[i] && s[i].package == d.entries[d.order[i]]
    ensures Distinct(s) && MapOf(s) == d.entries
  {
    MapOfKeys(s);
    forall k | k in d.entries ensures k in MapOf(s) && MapOf(s)[k] == d.entries[k] {
      var i :| 0 <= i < |d.order| && d.order[i] == k;
      MapOfEntries(s, i);
    }
    forall k | k in MapOf(s) ensures k in d.entries {
      var e :| e in s && KeyOf(e) == k;
    }
  }

  lemma MapOfNext<G, V, P>(s: seq<Entry<G, V, P>>, i: nat)
    requires i < |s|
    ensures MapOf(s[..i + 1]) == MapOf(s[..i])[KeyOf(s[i]) := s[i].package]
  {
    assert s[..i + 1][..i] == s[..i];
  }

  lemma {:induction false} MapOfConcat<G, V, P>(s: seq<Entry<G, V, P>>, t: seq<Entry<G, V, P>>)
    ensures MapOf(s + t) == MapOf(s) + MapOf(t)
  {
    if |t| == 0 {
      assert s + t == s;
    } else {
      assert (s + t)[..|s + t| - 1] == s + t[..|t| - 1];
      MapOfConcat(s, t[..|t| - 1]);
    }
  }

  // Sorting a group.

  function Insert<G, V, P>(cmp: (V, V) -> int, e: Entry<G, V, P>, s: seq<Entry<G, V, P>>): seq<Entry<G, V, P>> {
    if |s| == 0 || cmp(e.version, s[|s| - 1].version) <= 0 then s + [e]
    else Insert(cmp, e, s[..|s| - 1]) + [s[|s| - 1]]
  }

  /** Newest first; entries that compare equal keep their order. */
  function NewestFirst<G, V, P>(cmp: (V, V) -> int, s: seq<Entry<G, V, P>>): seq<Entry<G, V, P>> {
    if |s| == 0 then [] else Insert(cmp, s[|s| - 1], NewestFirst(cmp, s[..|s| - 1]))
  }

  ghost predicate Descending<G, V, P>(cmp: (V, V) -> int, s: seq<Entry<G, V, P>>) {
    forall i, j :: 0 <= i < j < |s| ==> cmp(s[i].version, s[j].version) >= 0
  }

  lemma AtLeastTransitive<V(!new)>(cmp: (V, V) -> int, x: V, y: V, z: V)
    requires TotalPreorder(cmp) && cmp(x, y) >= 0 && cmp(y, z) >= 0
    ensures cmp(x, z) >= 0
  {
    assert cmp(x, y) == -cmp(y, x) && cmp(y, z) == -cmp(z, y) && cmp(x, z) == -cmp(z, x);
  }

  lemma DescendingAppend<G, V(!new), P>(cmp: (V, V) -> int, s: seq<Entry<G, V, P>>, e: Entry<G, V, P>)
    requires Descending(cmp, s) && forall x :: x in s ==> cmp(x.version, e.version) >= 0
    ensures Descending(cmp, s + [e])
  {
    forall i, j | 0 <= i < j < |s + [e]| ensures cmp((s + [e])[i].version, (s + [e])[j].version) >= 0 {
      assert s[i] in s;
    }
  }

  lemma {:induction false} InsertMultiset<G, V, P>(cmp: (V, V) -> int, e: Entry<G, V, P>, s: seq<Entry<G, V, P>>)
    ensures multiset(Insert(cmp, e, s)) == multiset(s) + multiset{e}
  {
    if |s| > 0 && !(cmp(e.version, s[|s| - 1].version) <= 0) {
      InsertMultiset(cmp, e, s[..|s| - 1]);
      assert s == s[..|s| - 1] + [s[|s| - 1]];
    }
  }

  lemma {:induction false} InsertKeeps<G, V(!new), P>(cmp: (V, V) -> int, e: Entry<G, V, P>, s: seq<Entry<G, V, P>>)
    requires TotalPreorder(cmp) && Descending(cmp, s)
    ensures Descending(cmp, Insert(cmp, e, s))
  {
    if |s| > 0 {
      var last, front := s[|s| - 1], s[..|s| - 1];
      assert cmp(e.version, last.version) == -cmp(last.version, e.version);
      if cmp(e.version, last.version) <= 0 {
        InsertLast(cmp, s, e);
      } else {
        InsertKeeps(cmp, e, front);
        InsertMultiset(cmp, e, front);
        var t := Insert(cmp, e, front);
        forall x | x in t ensures cmp(x.version, last.version) >= 0 {
          assert x in multiset(t);
          assert x in multiset(front) || x == e;
        }
        DescendingAppend(cmp, t, last);
      }
    }
  }

  lemma InsertLast<G, V(!new), P>(cmp: (V, V) -> int, s: seq<Entry<G, V, P>>, e: Entry<G, V, P>)
    requires TotalPreorder(cmp) && Descending(cmp, s) && |s| > 0 && cmp(s[|s| - 1].version, e.version) >= 0
    ensures Descending(cmp, s + [e])
  {
    var last := s[|s| - 1];
    forall x | x in s ensures cmp(x.version, e.version) >= 0 {
      if x != last {
        assert x in s[..|s| - 1];
        AtLeastTransitive(cmp, x.version, last.version, e.version);
      }
    }
    DescendingAppend(cmp, s, e);
  }

  lemma {:induction false} NewestFirstSorts<G, V(!new), P>(cmp: (V, V) -> int, s: seq<Entry<G, V, P>>)
    requires TotalPreorder(cmp)
    ensures Descending(cmp, NewestFirst(cmp, s)) && multiset(NewestFirst(cmp, s)) == multiset(s)
  {
    if |s| > 0 {
      var n := |s| - 1;
      NewestFirstSorts(cmp, s[..n]);
      InsertKeeps(cmp, s[n], NewestFirst(cmp, s[..n]));
      InsertMultiset(cmp, s[n], NewestFirst(cmp, s[..n]));
      assert s == s[..n] + [s[n]];
    }
  }

  // Retention.

  function OfGroup<G(==), V, P>(s: seq<Entry<G, V, P>>, g: G): seq<Entry<G, V, P>> {
    if |s| == 0 then []
    else OfGroup(s[..|s| - 1], g) + if s[|s| - 1].group == g then [s[|s| - 1]] else []
  }

  function Min(x: int, y: int): int {
    if x < y then x else y
  }

  ghost predicate Ordered<G(!new), V(!new)>(order: G -> ((V, V) -> int)) {
    forall g :: TotalPreorder(order(g))
  }

  /** Group by group: the entries are split into kept and dropped ones, at most `k` are kept, fewer only when there are
      fewer, and no dropped one is newer than a kept one. */
  ghost predicate RetainedIn<G, V, P>(cmp: (V, V) -> int, k: nat, entries: seq<Entry<G, V, P>>,
                                      kept: seq<Entry<G, V, P>>, dropped: seq<Entry<G, V, P>>) {
    && multiset(kept) + multiset(dropped) == multiset(entries)
    && |kept| == Min(k, |entries|)
    && forall e, f :: e in kept && f in dropped ==> cmp(e.version, f.version) >= 0
  }

  ghost predicate Retained<G(!new), V, P>(order: G -> ((V, V) -> int), k: nat, entries: seq<Entry<G, V, P>>,
                                          kept: seq<Entry<G, V, P>>, dropped: seq<Entry<G, V, P>>) {
    forall g :: RetainedIn(order(g), k, OfGroup(entries, g), OfGroup(kept, g), OfGroup(dropped, g))
  }

  lemma {:induction false} OfGroupConcat<G, V, P>(s: seq<Entry<G, V, P>>, t: seq<Entry<G, V, P>>, g: G)
    ensures OfGroup(s + t, g) == OfGroup(s, g) + OfGroup(t, g)
  {
    if |t| == 0 {
      assert s + t == s;
    } else {
      assert (s + t)[..|s + t| - 1] == s + t[..|t| - 1];
      OfGroupConcat(s, t[..|t| - 1], g);
    }
  }

  lemma {:induction false} OfGroupUniform<G, V, P>(s: seq<Entry<G, V, P>>, g: G, h: G)
    requires forall e :: e in s ==> e.group == g
    ensures OfGroup(s, h) == if g == h then s else []
  {
    if |s| > 0 {
      OfGroupUniform(s[..|s| - 1], g, h);
      assert s[|s| - 1] in s;
    }
  }

  lemma {:induction false} OfGroupMembers<G, V, P>(s: seq<Entry<G, V, P>>, g: G, e: Entry<G, V, P>)
    ensures multiset(OfGroup(s, g))[e] == if e.group == g then multiset(s)[e] else 0
    ensures e in OfGroup(s, g) <==> e in s && e.group == g
  {
    if |s| > 0 {
      OfGroupMembers(s[..|s| - 1], g, e);
      assert s == s[..|s| - 1] + [s[|s| - 1]];
    }
    assert e in s <==> multiset(s)[e] > 0;
    assert e in OfGroup(s, g) <==> multiset(OfGroup(s, g))[e] > 0;
  }

  function Members<G, V, P>(groups: map<G, seq<Entry<G, V, P>>>, g: G): seq<Entry<G, V, P>> {
    if g in groups then groups[g] else []
  }

  lemma GroupedNext<G, V, P>(s: seq<Entry<G, V, P>>, i: nat, groups: map<G, seq<Entry<G, V, P>>>,
                             groups': map<G, seq<Entry<G, V, P>>>)
    requires i < |s| && forall g :: Members(groups, g) == OfGroup(s[..i], g)
    requires groups' == groups[s[i].group := Members(groups, s[i].group) + [s[i]]]
    ensures forall h :: Members(groups', h) == OfGroup(s[..i + 1], h)
  {
    assert s[..i + 1][..i] == s[..i];
  }

  /** Gathers the members of each group, in the order of the first member. */
  method Grouped<G(==), V, P>(entries: seq<Entry<G, V, P>>) returns (order: seq<G>, groups: map<G, seq<Entry<G, V, P>>>)
    ensures forall i, j :: 0 <= i < j < |order| ==> order[i] != order[j]
    ensures forall g :: g in order <==> g in groups
    ensures forall g :: Members(groups, g) == OfGroup(entries, g)
  {
    order, groups := [], map[];
    for i := 0 to |entries|
      invariant forall i, j :: 0 <= i < j < |order| ==> order[i] != order[j]
      invariant forall g :: g in order <==> g in groups
      invariant forall g :: Members(groups, g) == OfGroup(entries[..i], g)
    {
      var e := entries[i];
      GroupedNext(entries, i, groups, groups[e.group := Members(groups, e.group) + [e]]);
      if e.group !in groups {
        order := order + [e.group];
      }
      groups := groups[e.group := Members(groups, e.group) + [e]];
    }
    assert entries[..|entries|] == entries;
  }

  lemma SplitDescending<G, V(!new), P>(cmp: (V, V) -> int, s: seq<Entry<G, V, P>>, n: nat)
    requires Descending(cmp, s) && n <= |s|
    ensures forall e, f :: e in s[..n] && f in s[n..] ==> cmp(e.version, f.version) >= 0
  {
    forall e, f | e in s[..n] && f in s[n..] ensures cmp(e.version, f.version) >= 0 {
      var i :| 0 <= i < n && s[..n][i] == e;
      var j :| 0 <= j < |s| - n && s[n..][j] == f;
      assert s[i] == e && s[n + j] == f;
    }
  }

  /** Sorts the members of one group and splits them behind the newest `k`. */
  method KeepNewest<G(==), V(!new), P>(cmp: (V, V) -> int, members: seq<Entry<G, V, P>>, k: nat, ghost g: G)
      returns (kept: seq<Entry<G, V, P>>, dropped: seq<Entry<G, V, P>>)
    requires TotalPreorder(cmp) && forall e :: e in members ==> e.group == g
    ensures RetainedIn(cmp, k, members, kept, dropped)
    ensures forall e :: e in kept || e in dropped ==> e.group == g
  {
    var s := NewestFirst(cmp, members);
    NewestFirstSorts(cmp, members);
    assert |s| == |multiset(s)| == |multiset(members)| == |members|;
    var n := Min(k, |s|);
    assert s == s[..n] + s[n..];
    SplitDescending(cmp, s, n);
    kept, dropped := s[..n], s[n..];
    RetainedMembers(cmp, k, members, kept, dropped, g);
  }

  lemma RetainedMembers<G, V, P>(cmp: (V, V) -> int, k: nat, members: seq<Entry<G, V, P>>, kept: seq<Entry<G, V, P>>,
                                 dropped: seq<Entry<G, V, P>>, g: G)
    requires RetainedIn(cmp, k, members, kept, dropped)
    requires forall e :: e in members ==> e.group == g
    ensures forall e :: e in kept || e in dropped ==> e.group == g
  {
    forall e | e in kept || e in dropped ensures e.group == g {
      assert e in multiset(kept) + multiset(dropped);
      assert e in multiset(members);
    }
  }

  lemma GroupOf<G, V, P>(s: seq<Entry<G, V, P>>, g: G)
    ensures forall e :: e in OfGroup(s, g) ==> e.group == g
  {
    forall e | e in OfGroup(s, g) ensures e.group == g {
      OfGroupMembers(s, g, e);
    }
  }

  method ApplyRetention<G(==,!new), V(!new), P>(order: G -> ((V, V) -> int), entries: seq<Entry<G, V, P>>,
                                                nightly: bool, keep: int)
      returns (r: Result<(seq<Entry<G, V, P>>, seq<Entry<G, V, P>>), string>)
    requires Ordered(order)
    ensures !nightly ==> r == Ok((entries, []))
    ensures nightly ==> (r.Err? <==> keep < 1)
    ensures nightly && keep >= 1 ==> Retained(order, keep, entries, r.value.0, r.value.1)
  {
    if !nightly {
      return Ok((entries, []));
    }
    if keep < 1 {
      return Err("--keep-nightlies must be at least 1");
    }
    var names, groups := Grouped(entries);
    var kept, dropped := RetainGroups(order, entries, keep, names, groups);
    forall g ensures RetainedIn(order(g), keep, OfGroup(entries, g), OfGroup(kept, g), OfGroup(dropped, g)) {
      assert RetainedAt(order(g), keep, OfGroup(entries, g), OfGroup(kept, g), OfGroup(dropped, g),
        g in First(names, |names|));
      assert g in First(names, |names|) <==> g in names;
      assert Members(groups, g) == OfGroup(entries, g);
    }
    r := Ok((kept, dropped));
  }

  /** The loop over the groups. */
  method RetainGroups<G(==,!new), V(!new), P>(order: G -> ((V, V) -> int), ghost entries: seq<Entry<G, V, P>>,
                                              keep: nat, names: seq<G>, groups: map<G, seq<Entry<G, V, P>>>)
      returns (kept: seq<Entry<G, V, P>>, dropped: seq<Entry<G, V, P>>)
    requires Ordered(order)
    requires forall i, j :: 0 <= i < j < |names| ==> names[i] != names[j]
    requires forall g :: g in names ==> g in groups && groups[g] == OfGroup(entries, g)
    ensures RetainedFor(order, keep, entries, kept, dropped, First(names, |names|))
  {
    kept, dropped := [], [];
    for i := 0 to |names|
      invariant RetainedFor(order, keep, entries, kept, dropped, First(names, i))
    {
      var g := names[i];
      GroupOf(entries, g);
      var newest, rest := KeepNewest(order(g), groups[g], keep, g);
      FirstNext(names, i);
      RetainedNext(order, keep, entries, kept, dropped, First(names, i), g, newest, rest);
      kept, dropped := kept + newest, dropped + rest;
    }
  }

  ghost function First<G>(names: seq<G>, i: nat): set<G>
    requires i <= |names|
  {
    set j | 0 <= j < i :: names[j]
  }

  lemma FirstNext<G>(names: seq<G>, i: nat)
    requires i < |names| && forall j, k :: 0 <= j < k < |names| ==> names[j] != names[k]
    ensures First(names, i + 1) == First(names, i) + {names[i]} && names[i] !in First(names, i)
  {
  }

  ghost predicate RetainedAt<G, V, P>(cmp: (V, V) -> int, k: nat, entries: seq<Entry<G, V, P>>,
                                      kept: seq<Entry<G, V, P>>, dropped: seq<Entry<G, V, P>>, done: bool)
  {
    if done then RetainedIn(cmp, k, entries, kept, dropped) else kept == [] == dropped
  }

  /** The groups in `done` are dealt with, and no other group is touched. */
  ghost predicate RetainedFor<G(!new), V, P>(order: G -> ((V, V) -> int), k: nat, entries: seq<Entry<G, V, P>>,
      kept: seq<Entry<G, V, P>>, dropped: seq<Entry<G, V, P>>, done: set<G>)
  {
    forall g :: RetainedAt(order(g), k, OfGroup(entries, g), OfGroup(kept, g), OfGroup(dropped, g), g in done)
  }

  lemma RetainedNext<G(!new), V, P>(order: G -> ((V, V) -> int), k: nat, entries: seq<Entry<G, V, P>>,
      kept: seq<Entry<G, V, P>>, dropped: seq<Entry<G, V, P>>, done: set<G>, g: G,
      newest: seq<Entry<G, V, P>>, rest: seq<Entry<G, V, P>>)
    requires g !in done && RetainedFor(order, k, entries, kept, dropped, done)
    requires RetainedIn(order(g), k, OfGroup(entries, g), newest, rest)
    requires forall e :: e in newest || e in rest ==> e.group == g
    ensures RetainedFor(order, k, entries, kept + newest, dropped + rest, done + {g})
  {
    forall h ensures
      RetainedAt(order(h), k, OfGroup(entries, h), OfGroup(kept + newest, h), OfGroup(dropped + rest, h),
        h in done + {g})
    {
      assert RetainedAt(order(h), k, OfGroup(entries, h), OfGroup(kept, h), OfGroup(dropped, h), h in done);
      RetainedStep(order(h), k, OfGroup(entries, h), kept, dropped, newest, rest, g, h, h in done);
    }
  }

  lemma RetainedStep<G, V, P>(cmp: (V, V) -> int, k: nat, members: seq<Entry<G, V, P>>,
      kept: seq<Entry<G, V, P>>, dropped: seq<Entry<G, V, P>>, newest: seq<Entry<G, V, P>>, rest: seq<Entry<G, V, P>>,
      g: G, h: G, done: bool)
    requires RetainedAt(cmp, k, members, OfGroup(kept, h), OfGroup(dropped, h), done)
    requires forall e :: e in newest || e in rest ==> e.group == g
    requires g == h ==> !done && RetainedIn(cmp, k, members, newest, rest)
    ensures RetainedAt(cmp, k, members, OfGroup(kept + newest, h), OfGroup(dropped + rest, h), done || g == h)
  {
    hide RetainedIn, OfGroup;
    RetainGroup(kept, newest, g, h);
    RetainGroup(dropped, rest, g, h);
    assert g == h ==> OfGroup(kept + newest, h) == newest && OfGroup(dropped + rest, h) == rest;
  }

  lemma RetainGroup<G, V, P>(all: seq<Entry<G, V, P>>, more: seq<Entry<G, V, P>>, g: G, h: G)
    requires forall e :: e in more ==> e.group == g
    ensures OfGroup(all + more, h) == if h == g then OfGroup(all, h) + more else OfGroup(all, h)
  {
    OfGroupConcat(all, more, h);
    OfGroupUniform(more, g, h);
    assert OfGroup(all, h) + [] == OfGroup(all, h);
  }
}
