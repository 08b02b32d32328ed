/**
 * WorkboxService of src/services/workbox.service.ts: a keyed store of
 * requests made while offline, with its configuration and its copy in
 * localStorage. The clock, the id generator and the network are parameters;
 * localStorage's 'offline_requests' entry is the field `stored`, holding the
 * list that was serialised (the JSON text itself is not modelled).
 */
module WorkboxService {
  import opened Wrappers
  import opened ChatTypes

  // ---------------------------------------------------------------------------
  // Configuration
  // ---------------------------------------------------------------------------

  const SevenDaysInSeconds: int := 7 * 24 * 60 * 60

  /** The defaults the constructor starts from. */
  const DefaultConfig := WorkboxConfig("ecomstudy-offline-cache", 100, SevenDaysInSeconds,
                                       Strategies(NetworkFirst, AssetsCacheFirst))

  const NoOverrides := PartialWorkboxConfig(None, None, None, None)

  /** `{...base, ...partial}`: every supplied field overrides, every other field is kept. */
  function Merge(base: WorkboxConfig, partial: PartialWorkboxConfig): (r: WorkboxConfig)
  {
    WorkboxConfig(partial.cacheName.GetOr(base.cacheName), partial.maxEntries.GetOr(base.maxEntries),
                  partial.maxAgeSeconds.GetOr(base.maxAgeSeconds), partial.strategies.GetOr(base.strategies))
  }

  /** `{...p, ...q}` of two partial configurations. */
  function Combine(p: PartialWorkboxConfig, q: PartialWorkboxConfig): PartialWorkboxConfig {
    PartialWorkboxConfig(
      if q.cacheName.Some? then q.cacheName else p.cacheName,
      if q.maxEntries.Some? then q.maxEntries else p.maxEntries,
      if q.maxAgeSeconds.Some? then q.maxAgeSeconds else p.maxAgeSeconds,
      if q.strategies.Some? then q.strategies else p.strategies)
  }

  /** Merging nothing changes nothing; merging the same update twice is merging it once. */
  lemma MergeNeutralAndIdempotent(base: WorkboxConfig, p: PartialWorkboxConfig)
    ensures Merge(base, NoOverrides) == base
    ensures Merge(Merge(base, p), p) == Merge(base, p)
  {
  }

  /** Two updates in a row are one update with the later fields winning. */
  lemma MergeTwice(base: WorkboxConfig, p: PartialWorkboxConfig, q: PartialWorkboxConfig)
    ensures Merge(Merge(base, p), q) == Merge(base, Combine(p, q))
  {
  }

  // ---------------------------------------------------------------------------
  // Listings and the localStorage round trip
  // ---------------------------------------------------------------------------

  /** Every record is filed under its own id. */
  predicate Keyed(m: map<string, OfflineRequest>) {
    forall id :: id in m ==> m[id].id == id
  }

  /** Deleting a present key leaves one key fewer. */
  lemma RemoveKeyCount(m: map<string, OfflineRequest>, id: string)
    requires id in m
    ensures (m - {id}).Keys == m.Keys - {id}
    ensures |(m - {id}).Keys| == |m.Keys| - 1
  {
    assert (m - {id}).Keys == m.Keys - {id};
  }

  /** After `i` attempts over the listed records, a record is still held exactly when it is untried or failed. */
  predicate RetryLeft(requests: seq<OfflineRequest>, m: map<string, OfflineRequest>, i: nat, attempt: OfflineRequest -> bool) {
    forall k :: 0 <= k < |requests| ==> (requests[k].id in m <==> k >= i || !attempt(requests[k]))
  }

  /** One more attempt: a success drops record `i`, a failure keeps it, and no other record is touched. */
  lemma RetryLeftStep(requests: seq<OfflineRequest>, before: map<string, OfflineRequest>,
                      after: map<string, OfflineRequest>, i: nat, attempt: OfflineRequest -> bool)
    requires i < |requests| && RetryLeft(requests, before, i, attempt)
    requires forall a, b :: 0 <= a < b < |requests| ==> requests[a].id != requests[b].id
    requires attempt(requests[i]) ==> after.Keys == before.Keys - {requests[i].id}
    requires !attempt(requests[i]) ==> after == before
    ensures RetryLeft(requests, after, i + 1, attempt)
  {
    forall k | 0 <= k < |requests|
      ensures requests[k].id in after <==> k >= i + 1 || !attempt(requests[k])
    {
      if k != i && attempt(requests[i]) {
        assert requests[k].id != requests[i].id by {
          if k < i { assert requests[k].id != requests[i].id; } else { assert requests[i].id != requests[k].id; }
        }
      }
    }
  }

  /** `Array.from(map.values())`: each record of the map once, in some order. */
  predicate Listing(xs: seq<OfflineRequest>, m: map<string, OfflineRequest>) {
    && |xs| == |m.Keys|
    && (forall i :: 0 <= i < |xs| ==> xs[i].id in m && m[xs[i].id] == xs[i])
    && (forall id :: id in m ==> m[id] in xs)
    && (forall i, j :: 0 <= i < j < |xs| ==> xs[i].id != xs[j].id)
  }

  /** `requests.forEach(r => map.set(r.id, r))` on an empty map: a later record with the same id wins. */
  function FromList(xs: seq<OfflineRequest>): (m: map<string, OfflineRequest>)
    ensures Keyed(m)
    ensures forall id :: id in m <==> exists i :: 0 <= i < |xs| && xs[i].id == id
  {
    if xs == [] then map[]
    else
      var init := xs[..|xs| - 1];
      var m := FromList(init)[xs[|xs| - 1].id := xs[|xs| - 1]];
      assert forall i :: 0 <= i < |init| ==> init[i] == xs[i];
      m
  }

  lemma {:induction false} FromListFindsEach(xs: seq<OfflineRequest>)
    requires forall i, j :: 0 <= i < j < |xs| ==> xs[i].id != xs[j].id
    ensures forall i :: 0 <= i < |xs| ==> FromList(xs)[xs[i].id] == xs[i]
  {
    if xs != [] {
      var init := xs[..|xs| - 1];
      FromListFindsEach(init);
      forall i | 0 <= i < |xs| ensures FromList(xs)[xs[i].id] == xs[i] {
        if i < |init| {
          assert init[i] == xs[i];
        }
      }
    }
  }

  /** Loading what was persisted gives back the same id-to-record map. */
  lemma LoadAfterPersist(xs: seq<OfflineRequest>, m: map<string, OfflineRequest>)
    requires Keyed(m) && Listing(xs, m)
    ensures FromList(xs) == m
  {
    FromListFindsEach(xs);
    forall id | id in m ensures id in FromList(xs) && FromList(xs)[id] == m[id] {
      var i :| 0 <= i < |xs| && xs[i] == m[id];
    }
  }

  // ---------------------------------------------------------------------------
  // Statistics
  // ---------------------------------------------------------------------------

  datatype Stats = Stats(totalRequests: nat, pendingRequests: nat, oldestRequest: Option<int>, newestRequest: Option<int>)

  function Timestamps(xs: seq<OfflineRequest>): (ts: seq<int>)
    ensures |ts| == |xs| && forall i :: 0 <= i < |xs| ==> ts[i] == xs[i].timestamp
  {
    if xs == [] then [] else [xs[0].timestamp] + Timestamps(xs[1..])
  }

  /** `Math.min(...ts)` */
  function Min(ts: seq<int>): (r: int)
    requires ts != []
    ensures r in ts && forall t :: t in ts ==> r <= t
  {
    if |ts| == 1 then ts[0]
    else
      var rest := Min(ts[1..]);
      assert forall t :: t in ts ==> t == ts[0] || t in ts[1..];
      if ts[0] <= rest then ts[0] else rest
  }

  /** `Math.max(...ts)` */
  function Max(ts: seq<int>): (r: int)
    requires ts != []
    ensures r in ts && forall t :: t in ts ==> t <= r
  {
    if |ts| == 1 then ts[0]
    else
      var rest := Max(ts[1..]);
      assert forall t :: t in ts ==> t == ts[0] || t in ts[1..];
      if ts[0] >= rest then ts[0] else rest
  }

  /** getStats over the listed records: their number, and the oldest and newest timestamps when there are any. */
  function StatsOf(xs: seq<OfflineRequest>): (s: Stats)
    ensures s.totalRequests == |xs| && s.pendingRequests == |xs|
    ensures s.oldestRequest.None? <==> xs == []
    ensures s.newestRequest.None? <==> xs == []
    ensures s.oldestRequest.Some? ==>
      (exists i :: 0 <= i < |xs| && xs[i].timestamp == s.oldestRequest.value)
      && forall i :: 0 <= i < |xs| ==> s.oldestRequest.value <= xs[i].timestamp
    ensures s.newestRequest.Some? ==>
      (exists i :: 0 <= i < |xs| && xs[i].timestamp == s.newestRequest.value)
      && forall i :: 0 <= i < |xs| ==> xs[i].timestamp <= s.newestRequest.value
  {
    var ts := Timestamps(xs);
    if ts == [] then Stats(|xs|, |xs|, None, None)
    else
      assert forall i :: 0 <= i < |xs| ==> ts[i] in ts;
      Stats(|xs|, |xs|, Some(Min(ts)), Some(Max(ts)))
  }

  /** Whether a record is older than the retention period at `now`. */
  predicate Expired(r: OfflineRequest, now: int, maxAgeSeconds: int) {
    now - r.timestamp > maxAgeSeconds * 1000
  }

  // ---------------------------------------------------------------------------
  // The service
  // ---------------------------------------------------------------------------

  class OfflineStore {
    var offlineRequests: map<string, OfflineRequest>
    var config: WorkboxConfig
    /** localStorage's 'offline_requests' entry, when there is one. */
    var stored: Option<seq<OfflineRequest>>
    /** `typeof window !== 'undefined'`: localStorage is reachable. */
    const hasWindow: bool

    ghost predicate Valid()
      reads this
    {
      Keyed(offlineRequests)
    }

    /** What persisting leaves in localStorage: the current listing, or nothing new without a window. */
    ghost predicate Persisted(before: Option<seq<OfflineRequest>>)
      reads this
    {
      if hasWindow then stored.Some? && Listing(stored.value, offlineRequests) else stored == before
    }

    /** The constructor: defaults overridden by the supplied fields; `saved` is what localStorage already holds. */
    constructor (partial: PartialWorkboxConfig, window: bool, saved: Option<seq<OfflineRequest>>)
      ensures Valid()
      ensures config == Merge(DefaultConfig, partial)
      ensures offlineRequests == map[] && stored == saved && hasWindow == window
    {
      config := Merge(DefaultConfig, partial);
      offlineRequests := map[];
      stored := saved;
      hasWindow := window;
    }

    /** getOfflineRequests: every record once. */
    method Snapshot() returns (xs: seq<OfflineRequest>)
      requires Valid()
      ensures Listing(xs, offlineRequests)
    {
      xs := [];
      var todo := offlineRequests.Keys;
      while todo != {}
        invariant todo <= offlineRequests.Keys
        invariant |xs| + |todo| == |offlineRequests.Keys|
        invariant forall i :: 0 <= i < |xs| ==> xs[i].id in offlineRequests && xs[i].id !in todo
                                                 && offlineRequests[xs[i].id] == xs[i]
        invariant forall id :: id in offlineRequests && id !in todo ==> offlineRequests[id] in xs
        invariant forall i, j :: 0 <= i < j < |xs| ==> xs[i].id != xs[j].id
        decreases |todo|
      {
        var id :| id in todo;
        xs := xs + [offlineRequests[id]];
        todo := todo - {id};
      }
    }

    /** persistOfflineRequests: write the listing when there is a window; storage failures are not modelled. */
    method Persist()
      requires Valid()
      modifies this
      ensures Valid() && offlineRequests == old(offlineRequests) && config == old(config)
      ensures Persisted(old(stored))
    {
      if hasWindow {
        var xs := Snapshot();
        stored := Some(xs);
      }
    }

    /** storeOfflineRequest: file a new record with retry count 0 under the generated id and persist. */
    method StoreOfflineRequest(input: OfflineRequestInput, id: string, now: int) returns (r: string)
      requires Valid()
      modifies this
      ensures Valid() && config == old(config) && r == id
      ensures offlineRequests == old(offlineRequests)[id := OfflineRequest(id, input.httpMethod, input.url, input.data,
                                                                           input.headers, now, 0)]
      ensures id !in old(offlineRequests) ==> |offlineRequests.Keys| == |old(offlineRequests).Keys| + 1
      ensures Persisted(old(stored))
    {
      offlineRequests := offlineRequests[id := OfflineRequest(id, input.httpMethod, input.url, input.data,
                                                              input.headers, now, 0)];
      Persist();
      r := id;
    }

    /** getOfflineRequest */
    function GetOfflineRequest(id: string): (r: Option<OfflineRequest>)
      reads this
      requires Valid()
      ensures r.Some? <==> id in offlineRequests
      ensures r.Some? ==> r.value.id == id && r.value == offlineRequests[id]
    {
      if id in offlineRequests then Some(offlineRequests[id]) else None
    }

    /** removeOfflineRequest: true exactly when the id was filed; persists only then. */
    method RemoveOfflineRequest(id: string) returns (removed: bool)
      requires Valid()
      modifies this
      ensures Valid() && config == old(config)
      ensures removed <==> id in old(offlineRequests)
      ensures offlineRequests == old(offlineRequests) - {id}
      ensures removed ==> Persisted(old(stored))
      ensures !removed ==> stored == old(stored)
    {
      removed := id in offlineRequests;
      offlineRequests := offlineRequests - {id};
      if removed {
        Persist();
      }
    }

    /** updateRetryCount: one more retry on the filed record, false when there is none. */
    method UpdateRetryCount(id: string) returns (found: bool)
      requires Valid()
      modifies this
      ensures Valid() && config == old(config)
      ensures found <==> id in old(offlineRequests)
      ensures found ==> offlineRequests == old(offlineRequests)[id := old(offlineRequests)[id].(retryCount := old(offlineRequests)[id].retryCount + 1)]
      ensures found ==> Persisted(old(stored))
      ensures !found ==> offlineRequests == old(offlineRequests) && stored == old(stored)
    {
      if id in offlineRequests {
        var request := offlineRequests[id];
        offlineRequests := offlineRequests[id := request.(retryCount := request.retryCount + 1)];
        Persist();
        return true;
      }
      return false;
    }

    /** clearOldRequests: drop every record past the retention period at `now`; the count dropped. */
    method ClearOldRequests(now: int) returns (cleared: nat)
      requires Valid()
      modifies this
      ensures Valid() && config == old(config)
      ensures forall id :: id in offlineRequests <==>
        id in old(offlineRequests) && !Expired(old(offlineRequests)[id], now, config.maxAgeSeconds)
      ensures forall id :: id in offlineRequests ==> offlineRequests[id] == old(offlineRequests)[id]
      ensures cleared == |old(offlineRequests).Keys| - |offlineRequests.Keys|
      ensures cleared > 0 ==> Persisted(old(stored))
      ensures cleared == 0 ==> stored == old(stored)
    {
      var maxAge := config.maxAgeSeconds;
      ghost var start := offlineRequests;
      cleared := 0;
      var todo := offlineRequests.Keys;
      while todo != {}
        invariant todo <= start.Keys && stored == old(stored) && config == old(config)
        invariant offlineRequests.Keys <= start.Keys && todo <= offlineRequests.Keys
        invariant forall id :: id in offlineRequests <==> id in start && (id in todo || !Expired(start[id], now, maxAge))
        invariant forall id :: id in offlineRequests ==> offlineRequests[id] == start[id]
        invariant cleared == |start.Keys| - |offlineRequests.Keys|
        decreases |todo|
      {
        var id :| id in todo;
        if now - offlineRequests[id].timestamp > maxAge * 1000 {
          offlineRequests := offlineRequests - {id};
          cleared := cleared + 1;
        }
        todo := todo - {id};
      }
      if cleared > 0 {
        Persist();
      }
    }

    /**
     * retryOfflineRequests: try each record present at the start once; a
     * success removes it, a failure leaves it as it was. `attempt` stands for
     * the network reply (retryRequest), a thrown error being a failure.
     */
    method RetryOfflineRequests(attempt: OfflineRequest -> bool) returns (success: nat, failed: nat)
      requires Valid()
      modifies this
      ensures Valid() && config == old(config)
      ensures success + failed == |old(offlineRequests).Keys|
      ensures forall id :: id in offlineRequests <==> id in old(offlineRequests) && !attempt(old(offlineRequests)[id])
      ensures forall id :: id in offlineRequests ==> offlineRequests[id] == old(offlineRequests)[id]
      ensures success == |old(offlineRequests).Keys| - |offlineRequests.Keys|
      ensures success > 0 ==> Persisted(old(stored))
      ensures success == 0 ==> stored == old(stored)
    {
      ghost var start := offlineRequests;
      var requests := Snapshot();
      success, failed := 0, 0;
      var i := 0;
      while i < |requests|
        invariant 0 <= i <= |requests| && Valid() && config == old(config)
        invariant success + failed == i
        invariant offlineRequests.Keys <= start.Keys
        invariant RetryLeft(requests, offlineRequests, i, attempt)
        invariant forall id :: id in offlineRequests ==> offlineRequests[id] == start[id]
        invariant success == |start.Keys| - |offlineRequests.Keys|
        invariant success > 0 ==> Persisted(old(stored))
        invariant success == 0 ==> stored == old(stored)
      {
        var request := requests[i];
        if attempt(request) {
          assert request.id in offlineRequests;
          ghost var before := offlineRequests;
          var _ := RemoveOfflineRequest(request.id);
          RemoveKeyCount(before, request.id);
          RetryLeftStep(requests, before, offlineRequests, i, attempt);
          success := success + 1;
        } else {
          RetryLeftStep(requests, offlineRequests, offlineRequests, i, attempt);
          failed := failed + 1;
        }
        i := i + 1;
      }
      forall id | id in start ensures id in offlineRequests <==> !attempt(start[id]) {
        var k :| 0 <= k < |requests| && requests[k] == start[id];
        assert requests[k].id in offlineRequests <==> !attempt(requests[k]);
      }
    }

    /** loadOfflineRequests: replace the records with the stored list, when there is a window and an entry. */
    method LoadOfflineRequests()
      requires Valid()
      modifies this
      ensures Valid() && config == old(config) && stored == old(stored)
      ensures hasWindow && stored.Some? ==> offlineRequests == FromList(stored.value)
      ensures !(hasWindow && stored.Some?) ==> offlineRequests == old(offlineRequests)
    {
      if hasWindow && stored.Some? {
        var requests := stored.value;
        offlineRequests := map[];
        var i := 0;
        while i < |requests|
          invariant 0 <= i <= |requests| && stored == old(stored) && config == old(config)
          invariant offlineRequests == FromList(requests[..i])
        {
          assert requests[..i + 1][..i] == requests[..i];
          offlineRequests := offlineRequests[requests[i].id := requests[i]];
          i := i + 1;
        }
        assert requests[..i] == requests;
      }
    }

    /** updateConfig */
    method UpdateConfig(partial: PartialWorkboxConfig)
      modifies this
      ensures config == Merge(old(config), partial)
      ensures offlineRequests == old(offlineRequests) && stored == old(stored)
    {
      config := Merge(config, partial);
    }

    /** getStats: the number of records, and the oldest and newest timestamps when there are any. */
    method GetStats() returns (s: Stats)
      requires Valid()
      ensures s.totalRequests == |offlineRequests.Keys| && s.pendingRequests == |offlineRequests.Keys|
      ensures s.oldestRequest.None? <==> offlineRequests == map[]
      ensures s.newestRequest.None? <==> offlineRequests == map[]
      ensures s.oldestRequest.Some? ==>
        (exists id :: id in offlineRequests && offlineRequests[id].timestamp == s.oldestRequest.value)
        && forall id :: id in offlineRequests ==> s.oldestRequest.value <= offlineRequests[id].timestamp
      ensures s.newestRequest.Some? ==>
        (exists id :: id in offlineRequests && offlineRequests[id].timestamp == s.newestRequest.value)
        && forall id :: id in offlineRequests ==> offlineRequests[id].timestamp <= s.newestRequest.value
    {
      var xs := Snapshot();
      s := StatsOf(xs);
      forall id | id in offlineRequests ensures exists i :: 0 <= i < |xs| && xs[i] == offlineRequests[id] {
        var i :| 0 <= i < |xs| && xs[i] == offlineRequests[id];
      }
      assert offlineRequests != map[] ==> xs != [] by {
        if offlineRequests != map[] {
          var id :| id in offlineRequests;
          assert offlineRequests[id] in xs;
        }
      }
    }
  }

  /**
   * A new store with only `maxAgeSeconds` supplied: that field is in force,
   * and the others are the defaults (cache 'ecomstudy-offline-cache', 100
   * entries, networkFirst for the API and cacheFirst for assets); without it
   * the window is seven days.
   */
  method NewStore(maxAgeSeconds: Option<int>) returns (store: OfflineStore)
    ensures store.config.cacheName == "ecomstudy-offline-cache" && store.config.maxEntries == 100
    ensures store.config.strategies == Strategies(NetworkFirst, AssetsCacheFirst)
    ensures maxAgeSeconds.Some? ==> store.config.maxAgeSeconds == maxAgeSeconds.value
    ensures maxAgeSeconds.None? ==> store.config.maxAgeSeconds == 604800
    ensures store.offlineRequests == map[]
  {
    store := new OfflineStore(PartialWorkboxConfig(None, None, maxAgeSeconds, None), false, None);
  }
}
