/** What the nightly channel holds, in terms of the builds of all nights (scripts/pkgrepo/tree.py). */
module RetentionLaws {
  import opened Orders
  import opened Retention
  import opened RetentionNights

  /** Some night built it. */
  ghost predicate Built<G, V, P>(batches: seq<seq<Entry<G, V, P>>>, group: G, version: V) {
    exists i, e :: 0 <= i < |batches| && e in batches[i] && e.group == group && e.version == version
  }

  lemma {:induction false} BuiltIffEverything<G, V, P>(batches: seq<seq<Entry<G, V, P>>>, x: Key<G, V>)
    ensures x in Everything(Maps(batches)) <==> Built(batches, x.group, x.version)
    decreases |batches|
  {
    if |batches| > 0 {
      var n := |batches| - 1;
      var front := batches[..n];
      assert Maps(batches)[..n] == Maps(front);
      BuiltIffEverything(front, x);
      MapOfKeys(batches[n]);
      var last := batches[n];
      assert x in MapOf(last) <==> exists e :: e in last && e.group == x.group && e.version == x.version by {
        forall e | e in last && e.group == x.group && e.version == x.version ensures KeyOf(e) in KeysOf(last) {
        }
      }
      assert Built(batches, x.group, x.version) <==> Built(front, x.group, x.version) || x in MapOf(last) by {
        forall i, e | 0 <= i < n && e in batches[i] ensures e in front[i] {
        }
        forall i | 0 <= i < |front| ensures front[i] == batches[i] {
        }
      }
    }
  }

  /** The newer versions of the group that any night built. */
  ghost function NewerBuilt<G(!new), V(!new), P>(order: G -> ((V, V) -> int), batches: seq<seq<Entry<G, V, P>>>,
                                                 group: G, version: V): set<V> {
    set i, e | 0 <= i < |batches| && e in batches[i] && e.group == group && order(group)(e.version, version) > 0 ::
      e.version
  }

  /** A build is what the nights keep if and only if fewer than `k` newer versions of its group were ever built. */
  lemma KeptIffFewNewer<G(!new), V(!new), P>(order: G -> ((V, V) -> int), k: nat, batches: seq<seq<Entry<G, V, P>>>,
                                             x: Key<G, V>)
    ensures x in Keep(order, k, Everything(Maps(batches))) <==>
      Built(batches, x.group, x.version) && |NewerBuilt(order, batches, x.group, x.version)| < k
  {
    hide Everything, Maps;
    var all := Everything(Maps(batches));
    BuiltIffEverything(batches, x);
    var above, newer := Above(order(x.group), Versions(all, x.group), x.version),
      NewerBuilt(order, batches, x.group, x.version);
    forall w ensures w in above <==> w in newer {
      BuiltIffEverything(batches, Key(x.group, w));
      assert w in Versions(all, x.group) <==> Key(x.group, w) in all;
    }
    assert above == newer;
  }
}
