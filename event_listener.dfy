/**
 * The event listener: a watch list from keys (a peer, a route, ...) to the ids of
 * the bundles waiting on them. A bundle may wait on several keys at once; when it
 * is deleted it is dropped from all of them.
 */
module EventListeners {
  import opened Bundles

  /** The bundles watched under a key; an absent key watches none. */
  function WatchedUnder<K>(m: map<K, set<BundleId>>, key: K): set<BundleId>
  {
    if key in m then m[key] else {}
  }

  /** computeIfAbsent(key, new HashSet).add(bid). */
  function Watched<K>(m: map<K, set<BundleId>>, key: K, bid: BundleId): (r: map<K, set<BundleId>>)
    ensures r.Keys == m.Keys + {key}
    ensures WatchedUnder(r, key) == WatchedUnder(m, key) + {bid}
    ensures forall k :: k in m && k != key ==> r[k] == m[k]
  {
    m[key := WatchedUnder(m, key) + {bid}]
  }

  /** The watch list with bid taken out of every set, keys left in place. */
  function Unwatched<K>(m: map<K, set<BundleId>>, bid: BundleId): (r: map<K, set<BundleId>>)
    ensures r.Keys == m.Keys
    ensures forall k :: k in r ==> bid !in r[k] && r[k] == m[k] - {bid}
  {
    map k | k in m :: m[k] - {bid}
  }

  class EventListener<K(==)> {
    var enabled: bool
    var watchList: map<K, set<BundleId>>

    constructor(enabled: bool)
      ensures this.enabled == enabled && watchList == map[]
    {
      this.enabled := enabled;
      watchList := map[];
    }

    /** watch(key, bid): true iff the bundle was not yet watched under that key. */
    method Watch(key: K, bid: BundleId) returns (added: bool)
      modifies this
      ensures enabled == old(enabled)
      ensures added <==> enabled && bid !in WatchedUnder(old(watchList), key)
      ensures watchList == if enabled then Watched(old(watchList), key, bid) else old(watchList)
    {
      if !enabled {
        return false;
      }
      var watched := WatchedUnder(watchList, key);
      added := bid !in watched;
      watchList := watchList[key := watched + {bid}];
    }

    /** unwatch(bid): one key at a time, the bundle leaves every set. */
    method UnwatchAll(bid: BundleId)
      modifies this
      ensures enabled == old(enabled)
      ensures watchList == if enabled then Unwatched(old(watchList), bid) else old(watchList)
    {
      if !enabled {
        return;
      }
      var keys := watchList.Keys;
      ghost var done: set<K> := {};
      while keys != {}
        invariant keys + done == old(watchList).Keys && keys !! done
        invariant enabled == old(enabled)
        invariant watchList.Keys == old(watchList).Keys
        invariant forall k :: k in done ==> watchList[k] == old(watchList)[k] - {bid}
        invariant forall k :: k in keys ==> watchList[k] == old(watchList)[k]
        decreases keys
      {
        var k :| k in keys;
        watchList := watchList[k := watchList[k] - {bid}];
        keys := keys - {k};
        done := done + {k};
      }
      assert watchList == Unwatched(old(watchList), bid);
    }

    /** unwatch(key, bid): false iff the key has no set; only that set changes. */
    method Unwatch(key: K, bid: BundleId) returns (found: bool)
      modifies this
      ensures enabled == old(enabled)
      ensures found <==> enabled && key in old(watchList)
      ensures watchList == if found then old(watchList)[key := old(watchList)[key] - {bid}] else old(watchList)
    {
      if !enabled || key !in watchList {
        return false;
      }
      watchList := watchList[key := watchList[key] - {bid}];
      return true;
    }

    /** getBundlesOfInterest(key): a copy of the key's set, empty when disabled or absent. */
    function GetBundlesOfInterest(key: K): (s: set<BundleId>)
      reads this
      ensures forall bid :: bid in s <==> enabled && key in watchList && bid in watchList[key]
    {
      if !enabled then {} else WatchedUnder(watchList, key)
    }

    /** componentDown: every set is cleared, then the list itself. */
    method ComponentDown()
      modifies this
      ensures enabled == old(enabled)
      ensures watchList == map[]
      ensures forall key :: GetBundlesOfInterest(key) == {}
    {
      var keys := watchList.Keys;
      while keys != {}
        invariant enabled == old(enabled)
        invariant watchList.Keys == old(watchList).Keys
        invariant keys <= watchList.Keys
        invariant forall k :: k in watchList && k !in keys ==> watchList[k] == {}
        decreases keys
      {
        var k :| k in keys;
        watchList := watchList[k := {}];
        keys := keys - {k};
      }
      watchList := map[];
    }
  }

  /** A bundle watched under a key is of interest for it until it is unwatched. */
  lemma WatchThenUnwatch<K>(m: map<K, set<BundleId>>, key: K, bid: BundleId, other: K)
    ensures bid in WatchedUnder(Watched(m, key, bid), key)
    ensures bid !in WatchedUnder(Unwatched(Watched(m, key, bid), bid), other)
    ensures other != key ==> WatchedUnder(Watched(m, key, bid), other) == WatchedUnder(m, other)
  {
  }

  /** Watching twice changes nothing the second time. */
  lemma WatchIdempotent<K>(m: map<K, set<BundleId>>, key: K, bid: BundleId)
    ensures Watched(Watched(m, key, bid), key, bid) == Watched(m, key, bid)
  {
  }

  /** Unwatching a bundle leaves every other bundle's interest as it was. */
  lemma UnwatchKeepsOthers<K>(m: map<K, set<BundleId>>, bid: BundleId, other: BundleId, key: K)
    requires other != bid
    ensures other in WatchedUnder(Unwatched(m, bid), key) <==> other in WatchedUnder(m, key)
  {
  }
}
