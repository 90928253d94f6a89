/**
 * The clustering behind the placements heat map
 * (src/components/placements-map.tsx, `clusterByRegion`): items are grouped
 * under the key "city-state"; each cluster takes its position and place name
 * from the first item with its key, and clusters are listed in the order
 * their keys first appear.
 */
module PlacementsMap {
  import opened JsNumber
  import opened InsertionOrder
  import opened Placements

  datatype RegionCluster = RegionCluster(
    id: string,
    lat: real,
    lng: real,
    city: string,
    state: string,
    items: seq<Placement>)

  /** `${item.city}-${item.state}` */
  function ClusterKey(p: Placement): string
  {
    p.city + "-" + p.state
  }

  function KeysOf(data: seq<Placement>): (r: seq<string>)
    ensures |r| == |data|
  {
    seq(|data|, i requires 0 <= i < |data| => ClusterKey(data[i]))
  }

  /** The first item with the key, if any. */
  function FirstWith(data: seq<Placement>, key: string): Option<Placement>
  {
    if data == [] then None
    else
      var before := FirstWith(data[..|data| - 1], key);
      if before.Some? then before
      else if ClusterKey(data[|data| - 1]) == key then Some(data[|data| - 1])
      else None
  }

  /** The items with the key, in input order. */
  function ItemsWith(data: seq<Placement>, key: string): seq<Placement>
  {
    if data == [] then []
    else
      var last := data[|data| - 1];
      ItemsWith(data[..|data| - 1], key) + (if ClusterKey(last) == key then [last] else [])
  }

  lemma {:induction false} FirstWithFound(data: seq<Placement>, key: string)
    ensures FirstWith(data, key).Some? <==> key in KeysOf(data)
  {
    if data != [] {
      var init := data[..|data| - 1];
      FirstWithFound(init, key);
      assert KeysOf(data) == KeysOf(init) + [ClusterKey(data[|data| - 1])];
    }
  }

  /** The cluster of a key that occurs: placed at its first item, holding all its items. */
  function ClusterOf(data: seq<Placement>, key: string): RegionCluster
    requires FirstWith(data, key).Some?
  {
    var first := FirstWith(data, key).value;
    RegionCluster(key, first.lat, first.lng, first.city, first.state, ItemsWith(data, key))
  }

  /** The clusters of the given keys, in that order. */
  function ClustersFor(data: seq<Placement>, keys: seq<string>): (r: seq<RegionCluster>)
    requires forall k :: k in keys ==> k in KeysOf(data)
    ensures |r| == |keys|
    ensures forall i :: 0 <= i < |keys| ==> FirstWith(data, keys[i]).Some? && r[i] == ClusterOf(data, keys[i])
  {
    if keys == [] then []
    else
      assert keys[0] in keys;
      FirstWithFound(data, keys[0]);
      [ClusterOf(data, keys[0])] + ClustersFor(data, keys[1..])
  }

  /** clusterByRegion: Object.values of the record, keys in order of first appearance. */
  function Clusters(data: seq<Placement>): seq<RegionCluster>
  {
    FirstsDistinct(KeysOf(data));
    ClustersFor(data, Firsts(KeysOf(data)))
  }

  // ---------------------------------------------------------------------------
  // The loop

  /** What the loop keeps: the keys seen so far in order, and each key's cluster. */
  ghost predicate Grouped(data: seq<Placement>, i: int, keys: seq<string>, clusters: map<string, RegionCluster>)
    requires 0 <= i <= |data|
  {
    && keys == Firsts(KeysOf(data[..i]))
    && (forall k :: k in clusters <==> k in keys)
    && (forall k :: k in clusters ==> FirstWith(data[..i], k).Some? && clusters[k] == ClusterOf(data[..i], k))
  }

  lemma KeysStep(data: seq<Placement>, i: int)
    requires 0 <= i < |data|
    ensures Firsts(KeysOf(data[..i + 1])) ==
      if ClusterKey(data[i]) in KeysOf(data[..i]) then Firsts(KeysOf(data[..i]))
      else Firsts(KeysOf(data[..i])) + [ClusterKey(data[i])]
  {
    var seen := KeysOf(data[..i]);
    var next := KeysOf(data[..i + 1]);
    assert next == seen + [ClusterKey(data[i])];
    assert next[..|next| - 1] == seen;
  }

  /** One more item joins the cluster of its key, opening it when the key is new; other clusters stay. */
  lemma ClusterStep(data: seq<Placement>, i: int, k: string)
    requires 0 <= i < |data|
    requires FirstWith(data[..i + 1], k).Some?
    ensures k != ClusterKey(data[i]) ==>
      FirstWith(data[..i], k).Some? && ClusterOf(data[..i + 1], k) == ClusterOf(data[..i], k)
    ensures k == ClusterKey(data[i]) && FirstWith(data[..i], k).Some? ==>
      ClusterOf(data[..i + 1], k) == ClusterOf(data[..i], k).(items := ClusterOf(data[..i], k).items + [data[i]])
    ensures k == ClusterKey(data[i]) && FirstWith(data[..i], k).None? ==>
      ClusterOf(data[..i + 1], k) == RegionCluster(k, data[i].lat, data[i].lng, data[i].city, data[i].state, [data[i]])
  {
    assert data[..i + 1][..i] == data[..i];
    if FirstWith(data[..i], k).None? {
      ItemsWithAbsent(data[..i], k);
    }
  }

  lemma {:induction false} ItemsWithAbsent(data: seq<Placement>, key: string)
    requires FirstWith(data, key).None?
    ensures ItemsWith(data, key) == []
  {
    if data != [] {
      ItemsWithAbsent(data[..|data| - 1], key);
    }
  }

  /** The record holds a cluster for a key exactly when the key has occurred. */
  lemma GroupedKnows(data: seq<Placement>, i: int, keys: seq<string>, clusters: map<string, RegionCluster>)
    requires 0 <= i <= |data|
    requires Grouped(data, i, keys, clusters)
    ensures forall k :: k in clusters <==> k in KeysOf(data[..i])
    ensures forall k :: k in clusters <==> FirstWith(data[..i], k).Some?
  {
    FirstsDistinct(KeysOf(data[..i]));
    forall k
      ensures k in clusters <==> FirstWith(data[..i], k).Some?
    {
      FirstWithFound(data[..i], k);
    }
  }

  /** After one more item every cluster in the record is the cluster of its key. */
  lemma GroupEntries(data: seq<Placement>, i: int, keys: seq<string>, clusters: map<string, RegionCluster>,
                     clusters': map<string, RegionCluster>)
    requires 0 <= i < |data|
    requires Grouped(data, i, keys, clusters)
    requires var k := ClusterKey(data[i]);
      var c := if k in clusters then clusters[k]
               else RegionCluster(k, data[i].lat, data[i].lng, data[i].city, data[i].state, []);
      clusters' == clusters[k := c.(items := c.items + [data[i]])]
    ensures forall k :: k in clusters' ==> FirstWith(data[..i + 1], k).Some? && clusters'[k] == ClusterOf(data[..i + 1], k)
  {
    GroupedKnows(data, i, keys, clusters);
    forall k | k in clusters'
      ensures FirstWith(data[..i + 1], k).Some? && clusters'[k] == ClusterOf(data[..i + 1], k)
    {
      assert data[..i + 1][..i] == data[..i];
      ClusterStep(data, i, k);
    }
  }

  lemma GroupStep(data: seq<Placement>, i: int, keys: seq<string>, clusters: map<string, RegionCluster>,
                  keys': seq<string>, clusters': map<string, RegionCluster>)
    requires 0 <= i < |data|
    requires Grouped(data, i, keys, clusters)
    requires var k := ClusterKey(data[i]);
      var c := if k in clusters then clusters[k]
               else RegionCluster(k, data[i].lat, data[i].lng, data[i].city, data[i].state, []);
      && keys' == (if k in clusters then keys else keys + [k])
      && clusters' == clusters[k := c.(items := c.items + [data[i]])]
    ensures Grouped(data, i + 1, keys', clusters')
  {
    KeysStep(data, i);
    GroupedKnows(data, i, keys, clusters);
    GroupEntries(data, i, keys, clusters, clusters');
  }

  /** clusterByRegion with its loop over the items. */
  method ClusterByRegion(data: seq<Placement>) returns (result: seq<RegionCluster>)
    ensures result == Clusters(data)
  {
    var clusters: map<string, RegionCluster> := map[];
    var keys: seq<string> := [];
    var i := 0;
    while i < |data|
      invariant 0 <= i <= |data|
      invariant Grouped(data, i, keys, clusters)
    {
      var item := data[i];
      var key := item.city + "-" + item.state;
      ghost var keys0, clusters0 := keys, clusters;
      if key !in clusters {
        clusters := clusters[key := RegionCluster(key, item.lat, item.lng, item.city, item.state, [])];
        keys := keys + [key];
      }
      var c := clusters[key];
      clusters := clusters[key := c.(items := c.items + [item])];
      GroupStep(data, i, keys0, clusters0, keys, clusters);
      i := i + 1;
    }
    assert data[..i] == data;
    result := Values(data, keys, clusters);
  }

  /** Object.values of the record. */
  method Values(data: seq<Placement>, keys: seq<string>, clusters: map<string, RegionCluster>)
    returns (result: seq<RegionCluster>)
    requires Grouped(data, |data|, keys, clusters)
    ensures result == Clusters(data)
  {
    assert data[..|data|] == data;
    FirstsDistinct(KeysOf(data));
    result := seq(|keys|, j requires 0 <= j < |keys| => assert keys[j] in keys; clusters[keys[j]]);
    assert result == Clusters(data);
  }

  // ---------------------------------------------------------------------------
  // Properties

  /** There is one cluster per distinct key, its id is the key, in order of first appearance. */
  lemma ClustersByKey(data: seq<Placement>)
    ensures |Clusters(data)| == |Firsts(KeysOf(data))|
    ensures forall j :: 0 <= j < |Clusters(data)| ==> Clusters(data)[j].id == Firsts(KeysOf(data))[j]
    ensures Distinct(Firsts(KeysOf(data)))
    ensures forall k :: k in Firsts(KeysOf(data)) <==> exists i :: 0 <= i < |data| && ClusterKey(data[i]) == k
  {
    FirstsDistinct(KeysOf(data));
    forall k
      ensures k in KeysOf(data) <==> exists i :: 0 <= i < |data| && ClusterKey(data[i]) == k
    {
      if k in KeysOf(data) {
        var i :| 0 <= i < |data| && KeysOf(data)[i] == k;
      }
      if exists i :: 0 <= i < |data| && ClusterKey(data[i]) == k {
        var i :| 0 <= i < |data| && ClusterKey(data[i]) == k;
        assert KeysOf(data)[i] == k;
      }
    }
  }

  /** An item is in a cluster exactly when it has the cluster's key. */
  lemma {:induction false} ItemsWithMembers(data: seq<Placement>, key: string)
    ensures forall p :: p in ItemsWith(data, key) <==> p in data && ClusterKey(p) == key
  {
    if data != [] {
      var init := data[..|data| - 1];
      ItemsWithMembers(init, key);
      assert data == init + [data[|data| - 1]];
    }
  }

  /** Grouping keeps input order: the items of a concatenation are those of each part, in turn. */
  lemma {:induction false} ItemsWithAppend(a: seq<Placement>, b: seq<Placement>, key: string)
    ensures ItemsWith(a + b, key) == ItemsWith(a, key) + ItemsWith(b, key)
  {
    if b == [] {
      assert a + b == a;
    } else {
      var b0 := b[..|b| - 1];
      ItemsWithAppend(a, b0, key);
      assert (a + b)[..|a + b| - 1] == a + b0;
      assert (a + b)[|a + b| - 1] == b[|b| - 1];
    }
  }

  /**
   * A cluster's position and place name are those of the first item with its
   * key: the head of the key's items, which keep input order.
   */
  lemma {:induction false} FirstWithIsFirst(data: seq<Placement>, key: string)
    ensures FirstWith(data, key).Some? <==> ItemsWith(data, key) != []
    ensures FirstWith(data, key).Some? ==> FirstWith(data, key).value == ItemsWith(data, key)[0]
  {
    if data != [] {
      FirstWithIsFirst(data[..|data| - 1], key);
    }
  }

  /** The number of items with a key is its number of occurrences among the keys. */
  lemma {:induction false} ItemsWithCount(data: seq<Placement>, key: string)
    ensures |ItemsWith(data, key)| == multiset(KeysOf(data))[key]
  {
    if data != [] {
      var init := data[..|data| - 1];
      ItemsWithCount(init, key);
      assert KeysOf(data) == KeysOf(init) + [ClusterKey(data[|data| - 1])];
    }
  }

  /** The items of a list of clusters, counted. */
  function ItemTotal(cs: seq<RegionCluster>): nat
  {
    if cs == [] then 0 else |cs[0].items| + ItemTotal(cs[1..])
  }

  lemma {:induction false} ItemTotalClustersFor(data: seq<Placement>, keys: seq<string>)
    requires forall k :: k in keys ==> k in KeysOf(data)
    ensures ItemTotal(ClustersFor(data, keys)) == SumOver(keys, KeysOf(data))
  {
    if keys != [] {
      ItemTotalClustersFor(data, keys[1..]);
      ItemsWithCount(data, keys[0]);
      var r := ClustersFor(data, keys);
      assert |r[0].items| == |ItemsWith(data, keys[0])|;
      assert r[1..] == ClustersFor(data, keys[1..]);
    }
  }

  /** Every item lands in some cluster, and only once: the clusters hold as many items as the input. */
  lemma ClustersHoldEveryItem(data: seq<Placement>)
    ensures ItemTotal(Clusters(data)) == |data|
  {
    FirstsDistinct(KeysOf(data));
    ItemTotalClustersFor(data, Firsts(KeysOf(data)));
    FirstsCoverAll(KeysOf(data));
  }

  /**
   * The key joins city and state with a dash and nothing escapes it, so a
   * city with a dash in its name can share a key, and a cluster, with another
   * place.
   */
  lemma KeysCanCollide()
    ensures ClusterKey(Placement("1", Placed, "", "", "tech", 0.0, "A-B", "C", 0.0, 0.0, ""))
         == ClusterKey(Placement("2", Placed, "", "", "tech", 0.0, "A", "B-C", 0.0, 0.0, ""))
  {
  }
}
