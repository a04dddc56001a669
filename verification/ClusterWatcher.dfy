/**
 Rollout detection on one cluster: the template-hash cache, the events it produces, and its agreement with the
 HashStore that the handlers feed. Hashes are non-empty strings; a deployment key is namespace/name.
 */
module ClusterWatcher {
  import opened Wrappers
  import HS = HashStoreModel
  import HashStoreCode

  /** An informer event. `allowed` is what the namespace filter answered when the handler asked it. */
  datatype Ev =
    | Add(key: string, hash: string, allowed: bool)
    | Update(key: string, hash: string, allowed: bool)
    | Delete(key: string)

  datatype Rollout = Rollout(key: string, oldHash: string, newHash: string)

  /** Events that a handler acts on: the delete handler does not ask the filter. */
  predicate Handled(e: Ev) {
    e.Delete? || e.allowed
  }

  /** The cache entry of key k after one event. */
  function Cached(before: Option<string>, e: Ev, k: string): Option<string> {
    if e.key != k || !Handled(e) then before
    else if e.Delete? then None
    else Some(e.hash)
  }

  /** The rollout that an event produces, given the cache entry of its key. */
  function Detected(before: Option<string>, e: Ev): Option<Rollout> {
    if e.Update? && e.allowed && before.Some? && before.value != e.hash
    then Some(Rollout(e.key, before.value, e.hash)) else None
  }

  function CacheAfter(seed: Option<string>, h: seq<Ev>, k: string): Option<string> {
    if h == [] then seed else Cached(CacheAfter(seed, h[..|h| - 1], k), h[|h| - 1], k)
  }

  function DetectedAt(seeds: map<string, string>, h: seq<Ev>, i: int): Option<Rollout>
    requires 0 <= i < |h|
  {
    Detected(CacheAfter(Get(seeds, h[i].key), h[..i], h[i].key), h[i])
  }

  // ---------- The code ----------

  function FullKey(clusterID: string, deployKey: string): string {
    clusterID + "/" + deployKey
  }

  lemma FullKeyInjective(c: string, k: string, j: string)
    requires FullKey(c, k) == FullKey(c, j)
    ensures k == j
  {
    assert FullKey(c, k)[|c| + 1..] == k && FullKey(c, j)[|c| + 1..] == j;
  }

  class ClusterWatcher {
    const clusterID: string
    var templateCache: map<string, string>
    const store: HashStoreCode.HashStore

    constructor (clusterID: string, store: HashStoreCode.HashStore)
      ensures this.clusterID == clusterID && this.store == store && templateCache == map[]
    {
      this.clusterID := clusterID;
      this.store := store;
      templateCache := map[];
    }

    function Entry(k: string): Option<string>
      reads this
    {
      Get(templateCache, FullKey(clusterID, k))
    }

    /** Puts persisted hashes in the cache before the informer starts. */
    method SeedHashes(hashes: map<string, string>)
      modifies this
      ensures forall k :: Entry(k) == if k in hashes then Some(hashes[k]) else old(Entry(k))
    {
      var todo := hashes.Keys;
      while todo != {}
        invariant todo <= hashes.Keys
        invariant forall k :: Entry(k) == if k in hashes && k !in todo then Some(hashes[k]) else old(Entry(k))
        decreases todo
      {
        var k :| k in todo;
        ghost var was := templateCache;
        templateCache := templateCache[FullKey(clusterID, k) := hashes[k]];
        forall j ensures Entry(j) == if j == k then Some(hashes[k]) else Get(was, FullKey(clusterID, j)) {
          if FullKey(clusterID, j) == FullKey(clusterID, k) { FullKeyInjective(clusterID, j, k); }
        }
        todo := todo - {k};
      }
    }

    /** The initial list and later creations: overwrites the entry without comparing. */
    method OnAdd(key: string, hash: string, allowed: bool)
      modifies this, store
      ensures forall k :: Entry(k) == Cached(old(Entry(k)), Add(key, hash, allowed), k)
      ensures store.State() == Observed(old(store.State()), clusterID, Add(key, hash, allowed))
    {
      if !allowed { return; }
      SetEntry(key, hash);
      store.BufferHash(clusterID, key, hash);
    }

    /** Compares with the cached hash, remembers the new one, and produces an event if both differ. */
    method OnUpdate(key: string, newHash: string, allowed: bool) returns (submitted: Option<Rollout>)
      modifies this, store
      ensures submitted == Detected(old(Entry(key)), Update(key, newHash, allowed))
      ensures submitted == if allowed && old(Entry(key)).Some? && old(Entry(key)).value != newHash
                           then Some(Rollout(key, old(Entry(key)).value, newHash)) else None
      ensures Entry(key) == if allowed then Some(newHash) else old(Entry(key))
      ensures forall k :: Entry(k) == Cached(old(Entry(k)), Update(key, newHash, allowed), k)
      ensures store.State() == Observed(old(store.State()), clusterID, Update(key, newHash, allowed))
    {
      if !allowed { return None; }
      var fullKey := FullKey(clusterID, key);
      var exists_ := fullKey in templateCache;
      var oldHash := if exists_ then templateCache[fullKey] else "";
      SetEntry(key, newHash);
      store.BufferHash(clusterID, key, newHash);
      if !exists_ { return None; }
      if newHash == oldHash { return None; }
      return Some(Rollout(key, oldHash, newHash));
    }

    method OnDelete(key: string)
      modifies this, store
      ensures forall k :: Entry(k) == Cached(old(Entry(k)), Delete(key), k)
      ensures store.State() == Observed(old(store.State()), clusterID, Delete(key))
    {
      ghost var was := templateCache;
      templateCache := templateCache - {FullKey(clusterID, key)};
      forall j ensures Entry(j) == if j == key then None else Get(was, FullKey(clusterID, j)) {
        if FullKey(clusterID, j) == FullKey(clusterID, key) { FullKeyInjective(clusterID, j, key); }
      }
      store.RemoveHash(clusterID, key);
    }

    method SetEntry(key: string, hash: string)
      modifies this
      ensures forall k :: Entry(k) == if k == key then Some(hash) else old(Entry(k))
    {
      ghost var was := templateCache;
      templateCache := templateCache[FullKey(clusterID, key) := hash];
      forall j ensures Entry(j) == if j == key then Some(hash) else Get(was, FullKey(clusterID, j)) {
        if FullKey(clusterID, j) == FullKey(clusterID, key) { FullKeyInjective(clusterID, j, key); }
      }
    }
  }

  // ---------- What is detected ----------

  /** Event j is the last one before i that a handler of key k acted on. */
  ghost predicate LastHandled(h: seq<Ev>, j: int, i: int, k: string) {
    0 <= j < i <= |h| && h[j].key == k && Handled(h[j])
    && forall m | j < m < i :: h[m].key == k ==> !Handled(h[m])
  }

  /** The cache holds what the last handled event of the key left, or the seed when there was none. */
  lemma {:induction false} CacheExact(seed: Option<string>, h: seq<Ev>, k: string)
    ensures (exists j :: LastHandled(h, j, |h|, k)
                         && CacheAfter(seed, h, k) == if h[j].Delete? then None else Some(h[j].hash))
            || ((forall m | 0 <= m < |h| :: h[m].key == k ==> !Handled(h[m])) && CacheAfter(seed, h, k) == seed)
    decreases |h|
  {
    if h != [] {
      var n := |h| - 1;
      var g := h[..n];
      assert forall m | 0 <= m < n :: g[m] == h[m];
      CacheExact(seed, g, k);
      if h[n].key == k && Handled(h[n]) {
        assert LastHandled(h, n, |h|, k);
      } else if j :| LastHandled(g, j, n, k)
                     && CacheAfter(seed, g, k) == if g[j].Delete? then None else Some(g[j].hash) {
        assert LastHandled(h, j, |h|, k);
      }
    }
  }

  /** A rollout is detected exactly on an allowed update whose key's last handled event left a different hash, or,
      before any handled event of the key, whose seed differs. */
  lemma DetectedExactly(seeds: map<string, string>, h: seq<Ev>, i: int)
    requires 0 <= i < |h|
    ensures DetectedAt(seeds, h, i).Some? <==>
            && h[i].Update? && h[i].allowed
            && ((exists j :: LastHandled(h, j, i, h[i].key) && !h[j].Delete? && h[j].hash != h[i].hash)
                || ((forall m | 0 <= m < i :: h[m].key == h[i].key ==> !Handled(h[m]))
                    && h[i].key in seeds && seeds[h[i].key] != h[i].hash))
    ensures DetectedAt(seeds, h, i).Some? ==>
              && DetectedAt(seeds, h, i).value.key == h[i].key && DetectedAt(seeds, h, i).value.newHash == h[i].hash
              && ((exists j :: LastHandled(h, j, i, h[i].key) && DetectedAt(seeds, h, i).value.oldHash == h[j].hash)
                  || (h[i].key in seeds && DetectedAt(seeds, h, i).value.oldHash == seeds[h[i].key]))
  {
    var k, g := h[i].key, h[..i];
    assert forall m | 0 <= m < i :: g[m] == h[m];
    CacheExact(Get(seeds, k), g, k);
    if j :| LastHandled(g, j, i, k) {
      assert LastHandled(h, j, i, k);
      forall j' | LastHandled(h, j', i, k) ensures j' == j {
        assert LastHandled(g, j', i, k);
        SameLast(g, j, j', k);
      }
    } else {
      assert forall j | LastHandled(h, j, i, k) :: LastHandled(g, j, i, k);
    }
  }

  lemma SameLast(h: seq<Ev>, j: int, j': int, k: string)
    requires LastHandled(h, j, |h|, k) && LastHandled(h, j', |h|, k)
    ensures j == j'
  {
  }

  /** Nothing but updates of key k with its cached hash, or events of other keys or outside the filter. */
  ghost predicate Uneventful(seeds: map<string, string>, h: seq<Ev>, i: int, j: int, k: string) {
    forall m | i < m < j <= |h| && 0 <= m && h[m].key == k && Handled(h[m]) ::
      h[m].Update? && DetectedAt(seeds, h, m) == None
  }

  lemma {:induction false} CacheSteady(seeds: map<string, string>, h: seq<Ev>, i: int, j: int, k: string)
    requires 0 <= i < j <= |h| && h[i].key == k && DetectedAt(seeds, h, i).Some?
    requires Uneventful(seeds, h, i, j, k)
    ensures CacheAfter(Get(seeds, k), h[..j], k) == Some(h[i].hash)
    decreases j
  {
    assert h[..j][..j - 1] == h[..j - 1];
    if j > i + 1 {
      CacheSteady(seeds, h, i, j - 1, k);
    }
  }

  /** Detections chain: between two successive rollouts of a key, with no handled add or delete of it, the later
      one starts from the hash the earlier one ended with. */
  lemma RolloutsChain(seeds: map<string, string>, h: seq<Ev>, i: int, j: int)
    requires 0 <= i < j < |h| && h[i].key == h[j].key
    requires DetectedAt(seeds, h, i).Some? && DetectedAt(seeds, h, j).Some?
    requires Uneventful(seeds, h, i, j, h[i].key)
    ensures DetectedAt(seeds, h, j).value.oldHash == DetectedAt(seeds, h, i).value.newHash
  {
    CacheSteady(seeds, h, i, j, h[i].key);
  }

  /** The documented gap detection: whatever hash was persisted, the first handled event of a seeded key reports
      the change exactly when it is an update; the add of the initial list reports nothing and drops the seed. */
  lemma GapDetectedIff(seeds: map<string, string>, h: seq<Ev>, i: int, otherSeed: Option<string>)
    requires 0 <= i < |h| && h[i].key in seeds && Handled(h[i]) && !h[i].Delete?
    requires forall m | 0 <= m < i :: h[m].key == h[i].key ==> !Handled(h[m])
    requires seeds[h[i].key] != h[i].hash
    ensures DetectedAt(seeds, h, i).Some? <==> h[i].Update?
    ensures CacheAfter(otherSeed, h[..i + 1], h[i].key) == Some(h[i].hash)
  {
    var k := h[i].key;
    CacheExact(Get(seeds, k), h[..i], k);
    assert h[..i + 1][..i] == h[..i];
  }

  // ---------- Agreement with the HashStore ----------

  /** What a handler tells the store. */
  function Observed(s: HS.Store, c: string, e: Ev): HS.Store {
    if !Handled(e) then s
    else HS.Step(s, HS.Do(if e.Delete? then HS.Remove(c, e.key) else HS.Put(c, e.key, e.hash)))
  }

  /** A handler of the cluster's watcher, or a step of the store on its own or for another cluster. */
  datatype Joint = Handle(ev: Ev) | Background(act: HS.Action)

  function Events(js: seq<Joint>): seq<Ev> {
    if js == [] then []
    else
      var rest := Events(js[..|js| - 1]);
      var j := js[|js| - 1];
      if j.Handle? then rest + [j.ev] else rest
  }

  function StoreAfter(s: HS.Store, c: string, js: seq<Joint>): HS.Store {
    if js == [] then s
    else
      var rest := StoreAfter(s, c, js[..|js| - 1]);
      var j := js[|js| - 1];
      if j.Handle? then Observed(rest, c, j.ev) else HS.Step(rest, j.act)
  }

  predicate Sound(j: Joint, c: string, used: set<string>) {
    match j
    case Handle(e) => !e.Delete? ==> e.hash != ""
    case Background(a) => HS.UsesOnly(a, used) && (a.Do? ==> a.op.cluster != c)
  }

  ghost predicate Touched(h: seq<Ev>, k: string) {
    exists m :: 0 <= m < |h| && h[m].key == k && Handled(h[m])
  }

  /** In every interleaving of the handlers with flush steps and other clusters' updates, the store's logical
      content for a key is what the handled events made of its content at the start. */
  lemma {:induction false} StoreFollows(s: HS.Store, c: string, js: seq<Joint>, used: set<string>, k: string)
    requires HS.NamesApart(used) && HS.Within(s, used) && c in used
    requires forall j | j in js :: Sound(j, c, used)
    ensures HS.Within(StoreAfter(s, c, js), used)
    ensures HS.View(StoreAfter(s, c, js), c, k) == CacheAfter(HS.View(s, c, k), Events(js), k)
    decreases |js|
  {
    if js != [] {
      var n := |js| - 1;
      var init, j := js[..n], js[n];
      assert j in js && forall i | i in init :: i in js;
      StoreFollows(s, c, init, used, k);
      var mid := StoreAfter(s, c, init);
      match j {
        case Handle(e) =>
          assert (Events(init) + [e])[..|Events(init)|] == Events(init);
          if Handled(e) {
            var op := if e.Delete? then HS.Remove(c, e.key) else HS.Put(c, e.key, e.hash);
            HS.StepRefines(mid, HS.Do(op), used, c, k);
            assert [op][..0] == [];
          }
        case Background(a) =>
          HS.StepRefines(mid, a, used, c, k);
          if a.Do? { assert [a.op][..0] == []; }
      }
    }
  }

  /** At every point of every such interleaving the cache and the store agree on a key exactly when a handler has
      acted on it since the watcher started, or the seed agreed with the store's content at the start. */
  lemma CacheAgreesIff(s: HS.Store, c: string, seeds: map<string, string>, js: seq<Joint>, used: set<string>, k: string)
    requires HS.NamesApart(used) && HS.Within(s, used) && c in used
    requires forall j | j in js :: Sound(j, c, used)
    ensures CacheAfter(Get(seeds, k), Events(js), k) == HS.View(StoreAfter(s, c, js), c, k)
            <==> Touched(Events(js), k) || Get(seeds, k) == HS.View(s, c, k)
  {
    StoreFollows(s, c, js, used, k);
    CacheForgetsIff(Get(seeds, k), HS.View(s, c, k), Events(js), k);
  }

  /** Between a handler's write to the cache and its call to the store, with any flush steps and other clusters'
      updates in between: they agree on the handler's key exactly when the event changes nothing there, and on every
      other key exactly as before. */
  lemma MidHandlerIff(s: HS.Store, c: string, seeds: map<string, string>, js: seq<Joint>, e: Ev, used: set<string>, k: string)
    requires HS.NamesApart(used) && HS.Within(s, used) && c in used
    requires Handled(e) && forall j | j in js :: Sound(j, c, used)
    ensures CacheAfter(Get(seeds, k), Events(js) + [e], k) == HS.View(StoreAfter(s, c, js), c, k)
            <==> if e.key == k then Cached(None, e, k) == CacheAfter(HS.View(s, c, k), Events(js), k)
                 else Touched(Events(js), k) || Get(seeds, k) == HS.View(s, c, k)
  {
    StoreFollows(s, c, js, used, k);
    CacheAgreesIff(s, c, seeds, js, used, k);
    assert (Events(js) + [e])[..|Events(js)|] == Events(js);
  }

  lemma {:induction false} CacheForgetsIff(a: Option<string>, b: Option<string>, h: seq<Ev>, k: string)
    ensures CacheAfter(a, h, k) == CacheAfter(b, h, k) <==> Touched(h, k) || a == b
    decreases |h|
  {
    if h != [] {
      var n := |h| - 1;
      var g := h[..n];
      CacheForgetsIff(a, b, g, k);
      TouchedGrows(g, h[n], k);
      assert g + [h[n]] == h;
    }
  }

  lemma TouchedGrows(g: seq<Ev>, e: Ev, k: string)
    ensures Touched(g + [e], k) <==> Touched(g, k) || (e.key == k && Handled(e))
  {
    var h := g + [e];
    assert forall m | 0 <= m < |g| :: g[m] == h[m];
    assert h[|g|] == e;
  }
}
