/**
 The watch manager's code: its three maps, the four phases of a reconcile pass, and startup.

 The lock is held through every phase, and only the reconcile loop and startup change the maps, so nothing
 interleaves. What a directory load returns, how a start goes, and what a health check says are parameters.
 */
module Manager {
  import opened Wrappers
  import opened ManagerModel

  /** A kubeconfig file of the directory; two files may have the same cluster id, as a.yaml and a.yml do. */
  datatype ClusterFile = ClusterFile(id: string, config: string, hash: string)

  /** The first file of a cluster, which retries and the watchlist use. */
  function FirstConfig(files: seq<ClusterFile>, id: string): (r: Option<string>)
    ensures r.Some? <==> exists f :: f in files && f.id == id
  {
    if files == [] then None
    else if files[0].id == id then assert files[0] in files; Some(files[0].config)
    else FirstConfig(files[1..], id)
  }

  /** The last file of a cluster, which a rescan uses. */
  function LastFile(files: seq<ClusterFile>, id: string): Option<File> {
    if files == [] then None
    else
      var f := files[|files| - 1];
      if f.id == id then Some(File(f.hash, f.config)) else LastFile(files[..|files| - 1], id)
  }

  /** A rescan and a retry read the same configuration when the ids of the directory are distinct. */
  lemma {:induction false} FirstIsLast(files: seq<ClusterFile>, id: string)
    requires forall i, j :: 0 <= i < j < |files| ==> files[i].id != files[j].id
    ensures FirstConfig(files, id) == if LastFile(files, id).Some? then Some(LastFile(files, id).value.config) else None
  {
    if k :| 0 <= k < |files| && files[k].id == id {
      FirstAt(files, id, k);
      LastAt(files, id, k);
    } else {
      NoLast(files, id);
    }
  }

  lemma {:induction false} FirstAt(files: seq<ClusterFile>, id: string, k: nat)
    requires k < |files| && files[k].id == id && forall j :: 0 <= j < k ==> files[j].id != id
    ensures FirstConfig(files, id) == Some(files[k].config)
  {
    if k > 0 {
      assert files[0].id != id;
      FirstAt(files[1..], id, k - 1);
    }
  }

  lemma {:induction false} LastAt(files: seq<ClusterFile>, id: string, k: nat)
    requires k < |files| && files[k].id == id && forall j :: k < j < |files| ==> files[j].id != id
    ensures LastFile(files, id) == Some(File(files[k].hash, files[k].config))
    decreases |files|
  {
    if k < |files| - 1 {
      assert files[|files| - 1].id != id;
      LastAt(files[..|files| - 1], id, k);
    }
  }

  lemma {:induction false} NoLast(files: seq<ClusterFile>, id: string)
    requires forall j :: 0 <= j < |files| ==> files[j].id != id
    ensures LastFile(files, id).None?
    decreases |files|
  {
    if files != [] {
      NoLast(files[..|files| - 1], id);
    }
  }

  // A directory load that may fail.
  type Load = Option<seq<ClusterFile>>

  function Found(load: Load, id: string): Option<string> {
    if load.None? then None else FirstConfig(load.value, id)
  }

  /** Everything one pass meets; starts, loads and clock readings may differ from cluster to cluster. */
  datatype Surroundings = Surroundings(
    desired: set<string>, ensureLoad: string -> Load, ensureTry: string -> Try,
    since: int, rescanLoad: Load, rescanTry: string -> Try, rescanned: int,
    unhealthy: set<string>, queuedAt: string -> int,
    now: int, retryLoad: string -> Load, retryResult: string -> Result)

  class Manager {
    const kubeconfigDir: string
    const rescanInterval: int
    const watchlistEnabled: bool
    var watchers: map<string, string>       // cluster id -> configuration of its watcher
    var fileHashes: map<string, string>
    var pendingRetry: map<string, Retry>
    ghost var leaked: map<string, nat>      // live watchers that are in no map

    constructor (kubeconfigDir: string, rescanInterval: int, watchlistEnabled: bool)
      ensures this.kubeconfigDir == kubeconfigDir && this.rescanInterval == rescanInterval
      ensures this.watchlistEnabled == watchlistEnabled
      ensures forall id :: Cluster(id) == Nothing
    {
      this.kubeconfigDir := kubeconfigDir;
      this.rescanInterval := rescanInterval;
      this.watchlistEnabled := watchlistEnabled;
      watchers, fileHashes, pendingRetry, leaked := map[], map[], map[], map[];
    }

    ghost function Leaked(id: string): nat
      reads this`leaked
    {
      if id in leaked then leaked[id] else 0
    }

    ghost function Cluster(id: string): Local
      reads this
    {
      Local(Get(watchers, id), Leaked(id), Get(fileHashes, id), Get(pendingRetry, id))
    }

    // ---------- Startup ----------

    /** Starts or queues the clusters in turn. If the context ends in the pause after one of the starts, startup gives
        up there, before any hash is recorded. */
    method Begin(clusters: seq<ClusterFile>, tries: seq<Try>, load: Load, endsAt: Option<nat>)
      returns (ok: bool, handled: nat)
      requires |tries| == |clusters|
      modifies this
      ensures handled == if Interrupted(clusters, tries, endsAt) then endsAt.value + 1 else |clusters|
      ensures forall id ::
          Cluster(id) == var l := StartedAll(old(Cluster(id)), id, clusters[..handled], tries[..handled]);
                         if handled < |clusters| then l else Loaded(l, load, kubeconfigDir, id)
      ensures ok <==> handled == |clusters| && exists id :: Known(Cluster(id))
    {
      handled := 0;
      while handled < |clusters|
        invariant handled <= |clusters|
        invariant Interrupted(clusters, tries, endsAt) ==> handled <= endsAt.value
        invariant forall id :: Cluster(id) == StartedAll(old(Cluster(id)), id, clusters[..handled], tries[..handled])
      {
        var i := handled;
        assert clusters[..i + 1][..i] == clusters[..i] && tries[..i + 1][..i] == tries[..i];
        var started := StartListed(clusters[i], tries[i]);
        handled := i + 1;
        if started && i < |clusters| - 1 && endsAt == Some(i) {
          return false, handled;
        }
      }
      assert clusters[..handled] == clusters && tries[..handled] == tries;
      if kubeconfigDir != "" && load.Some? {
        var hashes, _ := ReadSnapshot(load.value);
        fileHashes := hashes;
      }
      ok := watchers != map[] || pendingRetry != map[];
      if ok {
        var id :| id in watchers || id in pendingRetry;
        assert Known(Cluster(id));
      }
    }

    method StartListed(c: ClusterFile, try: Try) returns (started: bool)
      modifies this`watchers, this`leaked, this`pendingRetry
      ensures started <==> try.result == Started
      ensures forall id ::
          Cluster(id) == if id == c.id then StartOrQueue(old(Cluster(id)), c.config, try) else old(Cluster(id))
    {
      started := StartWatcher(c.id, c.config, try.result);
      if !started {
        QueueRetry(c.id, Some(c.config), try.at);
      }
    }

    /** Both maps a rescan works from: what the loop of the loader and the loop of the rescan leave for each id. */
    method ReadSnapshot(files: seq<ClusterFile>) returns (hashes: map<string, string>, configs: map<string, string>)
      ensures hashes.Keys == configs.Keys
      ensures forall id :: SnapshotFile(hashes, configs, id) == LastFile(files, id)
    {
      hashes, configs := map[], map[];
      for i := 0 to |files|
        invariant hashes.Keys == configs.Keys
        invariant forall id :: SnapshotFile(hashes, configs, id) == LastFile(files[..i], id)
      {
        assert files[..i + 1][..i] == files[..i];
        hashes := hashes[files[i].id := files[i].hash];
        configs := configs[files[i].id := files[i].config];
      }
      assert files[..|files|] == files;
    }

    /** A watcher that starts goes over whatever is in the map. One whose informer runs but does not sync in time is
        given up without being stopped. */
    method StartWatcher(id: string, config: string, r: Result) returns (started: bool)
      modifies this`watchers, this`leaked
      ensures started <==> r == Started
      ensures watchers == if started then old(watchers)[id := config] else old(watchers)
      ensures leaked == if StartLeaks(old(Cluster(id)), r) == 0 then old(leaked)
                        else old(leaked)[id := old(Leaked(id)) + 1]
    {
      if r == Failed { return false; }
      if r == TimedOut {
        leaked := leaked[id := Leaked(id) + 1];
        return false;
      }
      if id in watchers {
        leaked := leaked[id := Leaked(id) + 1];
      }
      watchers := watchers[id := config];
      return true;
    }

    method QueueRetry(id: string, config: Option<string>, now: int)
      modifies this`pendingRetry
      ensures pendingRetry == old(pendingRetry)[id := Retry(config, 0, now + Backoff(0))]
    {
      var backoff := RetryBackoff(0);
      pendingRetry := pendingRetry[id := Retry(config, 0, now + backoff)];
    }

    // ---------- A pass ----------

    ghost function InputOf(e: Surroundings, due: bool, id: string): Input
      reads this
    {
      Input(watchlistEnabled && id in e.desired,
            if kubeconfigDir == "" then None else Found(e.ensureLoad(id), id), e.ensureTry(id),
            if due && e.rescanLoad.Some? then Some(Scan(LastFile(e.rescanLoad.value, id), e.rescanTry(id))) else None,
            id !in e.unhealthy, e.queuedAt(id),
            if kubeconfigDir == "" then None else Found(e.retryLoad(id), id), e.retryResult(id), e.now)
    }

    /** One tick: every cluster goes through the four phases on its own part of the surroundings. */
    method Reconcile(e: Surroundings, lastRescan: int) returns (lastRescan': int)
      modifies this
      ensures var due := kubeconfigDir != "" && rescanInterval > 0 && e.since - lastRescan >= rescanInterval;
              && (forall id :: Cluster(id) == Pass(old(Cluster(id)), InputOf(e, due, id)))
              && lastRescan' == if due then e.rescanned else lastRescan
    {
      lastRescan' := lastRescan;
      if watchlistEnabled {
        EnsureWatchlistClusters(e.desired, e.ensureLoad, e.ensureTry);
      }
      if kubeconfigDir != "" && rescanInterval > 0 && e.since - lastRescan >= rescanInterval {
        RescanDirectory(e.rescanLoad, e.rescanTry);
        lastRescan' := e.rescanned;
      }
      HealthCheck(e.unhealthy, e.queuedAt);
      RetryPending(e.now, e.retryLoad, e.retryResult);
    }

    method EnsureWatchlistClusters(desired: set<string>, load: string -> Load, try: string -> Try)
      modifies this`watchers, this`leaked, this`pendingRetry
      ensures forall id :: Cluster(id) == Ensure(old(Cluster(id)), id in desired,
                if kubeconfigDir == "" then None else Found(load(id), id), try(id))
    {
      var todo := desired;
      while todo != {}
        invariant todo <= desired
        invariant forall id :: Cluster(id) == Ensure(old(Cluster(id)), id in desired - todo,
                    if kubeconfigDir == "" then None else Found(load(id), id), try(id))
        decreases todo
      {
        var id :| id in todo;
        EnsureCluster(id, load(id), try(id));
        todo := todo - {id};
      }
    }

    method EnsureCluster(id: string, load: Load, try: Try)
      modifies this`watchers, this`leaked, this`pendingRetry
      ensures forall j :: Cluster(j) == Ensure(old(Cluster(j)), j == id,
                if kubeconfigDir == "" then None else Found(load, id), try)
    {
      if id in watchers || id in pendingRetry { return; }
      var config := LoadClusterFromDir(load, id);
      if config.None? { return; }
      var started := StartWatcher(id, config.value, try.result);
      if !started {
        QueueRetry(id, config, try.at);
      }
    }

    method LoadClusterFromDir(load: Load, id: string) returns (config: Option<string>)
      ensures config == if kubeconfigDir == "" then None else Found(load, id)
    {
      if kubeconfigDir == "" || load.None? {
        return None;
      }
      config := FindConfig(load.value, id);
    }

    method FindConfig(files: seq<ClusterFile>, id: string) returns (config: Option<string>)
      ensures config == FirstConfig(files, id)
    {
      for i := 0 to |files|
        invariant FirstConfig(files[i..], id) == FirstConfig(files, id)
      {
        if files[i].id == id {
          return Some(files[i].config);
        }
      }
      return None;
    }

    method RescanDirectory(load: Load, try: string -> Try)
      modifies this
      ensures forall id ::
          Cluster(id) == if load.None? then old(Cluster(id)) else Rescan(old(Cluster(id)), LastFile(load.value, id), try(id))
      ensures load.Some? ==> forall id :: Settled(old(Cluster(id)), LastFile(load.value, id), Cluster(id))
    {
      if load.None? {
        return;
      }
      var hashes, configs := ReadSnapshot(load.value);
      StopRemovedClusters(hashes);
      CancelRemovedRetries(hashes);
      StartNewClusters(hashes, configs, try);
      forall id ensures Settled(old(Cluster(id)), LastFile(load.value, id), Cluster(id)) {
        RescanSettles(old(Cluster(id)), LastFile(load.value, id), try(id));
      }
    }

    method StopRemovedClusters(hashes: map<string, string>)
      modifies this`watchers, this`fileHashes, this`pendingRetry
      ensures forall id :: Cluster(id) == if id in hashes then old(Cluster(id)) else StopRemoved(old(Cluster(id)), None)
    {
      var todo := watchers.Keys;
      ghost var gone: set<string> := {};
      while todo != {}
        invariant gone == old(watchers).Keys - todo - hashes.Keys
        invariant watchers == old(watchers) - gone
        invariant fileHashes == old(fileHashes) - gone
        invariant pendingRetry == old(pendingRetry) - gone
        decreases todo
      {
        var id :| id in todo;
        if id !in hashes {
          watchers := watchers - {id};
          fileHashes := fileHashes - {id};
          pendingRetry := pendingRetry - {id};
          gone := gone + {id};
        }
        todo := todo - {id};
      }
    }

    method CancelRemovedRetries(hashes: map<string, string>)
      modifies this`pendingRetry
      ensures forall id :: Cluster(id) == if id in hashes then old(Cluster(id)) else CancelRemoved(old(Cluster(id)), None)
    {
      var todo := pendingRetry.Keys;
      while todo != {}
        invariant todo <= pendingRetry.Keys
        invariant forall id ::
          Cluster(id) == if id in hashes || id in todo then old(Cluster(id)) else CancelRemoved(old(Cluster(id)), None)
        decreases todo
      {
        var id :| id in todo;
        if id !in hashes {
          pendingRetry := pendingRetry - {id};
        }
        todo := todo - {id};
      }
    }

    method StartNewClusters(hashes: map<string, string>, configs: map<string, string>, try: string -> Try)
      requires hashes.Keys == configs.Keys
      modifies this
      ensures forall id :: Cluster(id) == StartNew(old(Cluster(id)), SnapshotFile(hashes, configs, id), try(id))
    {
      var todo := hashes.Keys;
      while todo != {}
        invariant todo <= hashes.Keys
        invariant forall id :: Cluster(id) == if id in todo then old(Cluster(id))
                    else StartNew(old(Cluster(id)), SnapshotFile(hashes, configs, id), try(id))
        decreases todo
      {
        var id :| id in todo;
        StartNewCluster(id, hashes[id], configs[id], try(id));
        todo := todo - {id};
      }
    }

    method StartNewCluster(id: string, newHash: string, config: string, try: Try)
      modifies this
      ensures forall j ::
          Cluster(j) == if j == id then StartNew(old(Cluster(id)), Some(File(newHash, config)), try) else old(Cluster(j))
    {
      if id !in fileHashes {
        if id in pendingRetry {
          pendingRetry := pendingRetry[id := pendingRetry[id].(config := Some(config))];
          fileHashes := fileHashes[id := newHash];
        } else {
          var started := StartWatcher(id, config, try.result);
          if !started {
            QueueRetry(id, Some(config), try.at);
            return;
          }
          fileHashes := fileHashes[id := newHash];
        }
      } else if newHash != fileHashes[id] {
        watchers := watchers - {id};
        pendingRetry := pendingRetry - {id};
        var started := StartWatcher(id, config, try.result);
        if !started {
          fileHashes := fileHashes - {id};
          QueueRetry(id, Some(config), try.at);
          return;
        }
        fileHashes := fileHashes[id := newHash];
      }
    }

    method HealthCheck(unhealthy: set<string>, queuedAt: string -> int)
      modifies this`watchers, this`pendingRetry
      ensures forall id :: Cluster(id) == Health(old(Cluster(id)), id !in unhealthy, queuedAt(id))
    {
      var todo := watchers.Keys;
      while todo != {}
        invariant todo <= watchers.Keys
        invariant forall id ::
          Cluster(id) == if id in todo then old(Cluster(id)) else Health(old(Cluster(id)), id !in unhealthy, queuedAt(id))
        decreases todo
      {
        var id :| id in todo;
        if id in unhealthy {
          watchers := watchers - {id};
          if id !in pendingRetry {
            QueueRetry(id, None, queuedAt(id));
          }
        }
        todo := todo - {id};
      }
    }

    method RetryPending(now: int, load: string -> Load, result: string -> Result)
      modifies this`watchers, this`leaked, this`pendingRetry
      ensures forall id :: Cluster(id) == RetryDue(old(Cluster(id)),
                if kubeconfigDir == "" then None else Found(load(id), id), result(id), now)
      ensures forall id | id in old(pendingRetry) && old(pendingRetry[id].nextRetry) <= now ::
                var found := if kubeconfigDir == "" || load(id).None? then None else FirstConfig(load(id).value, id);
                var config := if found.Some? then found else old(pendingRetry[id].config);
                if config.Some? && result(id) == Started
                then id in watchers && watchers[id] == config.value && id !in pendingRetry
                else && id in pendingRetry && pendingRetry[id].attempt == old(pendingRetry[id].attempt) + 1
                     && pendingRetry[id].config == old(pendingRetry[id].config)
                     && (id in watchers <==> id in old(watchers))
      ensures forall id | id !in old(pendingRetry) || now < old(pendingRetry[id].nextRetry) ::
                Get(watchers, id) == Get(old(watchers), id) && Get(pendingRetry, id) == Get(old(pendingRetry), id)
    {
      ghost var queue := pendingRetry;
      RetryEach(now, load, result);
      assert forall id :: Cluster(id).running == Get(watchers, id) && Cluster(id).retry == Get(pendingRetry, id);
      assert forall id :: old(Cluster(id)).running == Get(old(watchers), id) && old(Cluster(id)).retry == Get(queue, id);
      forall id | id in queue && queue[id].nextRetry <= now
        ensures var found := if kubeconfigDir == "" || load(id).None? then None else FirstConfig(load(id).value, id);
                var config := if found.Some? then found else queue[id].config;
                if config.Some? && result(id) == Started
                then id in watchers && watchers[id] == config.value && id !in pendingRetry
                else && id in pendingRetry && pendingRetry[id].attempt == queue[id].attempt + 1
                     && pendingRetry[id].config == queue[id].config
                     && (id in watchers <==> id in old(watchers))
      {
        assert old(Cluster(id)).retry == Some(queue[id]);
        RetryDueLaw(old(Cluster(id)), if kubeconfigDir == "" then None else Found(load(id), id), result(id), now);
      }
    }

    method RetryEach(now: int, load: string -> Load, result: string -> Result)
      modifies this`watchers, this`leaked, this`pendingRetry
      ensures forall id :: Cluster(id) == RetryDue(old(Cluster(id)),
                if kubeconfigDir == "" then None else Found(load(id), id), result(id), now)
    {
      var todo := pendingRetry.Keys;
      while todo != {}
        invariant todo <= pendingRetry.Keys
        invariant forall id :: Cluster(id) == if id in todo then old(Cluster(id)) else RetryDue(old(Cluster(id)),
                    if kubeconfigDir == "" then None else Found(load(id), id), result(id), now)
        decreases todo
      {
        var id :| id in todo;
        if now >= pendingRetry[id].nextRetry {
          var found := LoadClusterFromDir(load(id), id);
          RetryOne(id, if found.Some? then found else pendingRetry[id].config, result(id), now);
        }
        todo := todo - {id};
      }
    }

    method RetryOne(id: string, config: Option<string>, r: Result, now: int)
      requires id in pendingRetry
      modifies this`watchers, this`leaked, this`pendingRetry
      ensures pendingRetry.Keys <= old(pendingRetry.Keys) && old(pendingRetry.Keys) - {id} <= pendingRetry.Keys
      ensures forall j :: j != id ==> Cluster(j) == old(Cluster(j))
      ensures Cluster(id) == var l := old(Cluster(id));
                if config.None? then l.(retry := Some(Postpone(l.retry.value, now)))
                else Attempt(l, config.value, r).(
                       retry := if r == Started then None else Some(Postpone(l.retry.value, now)))
    {
      if config.Some? {
        var started := StartWatcher(id, config.value, r);
        if started {
          pendingRetry := pendingRetry - {id};
          return;
        }
      }
      var entry := pendingRetry[id];
      var backoff := RetryBackoff(entry.attempt + 1);
      pendingRetry := pendingRetry[id := Retry(entry.config, entry.attempt + 1, now + backoff)];
    }

    // ---------- Whole runs ----------

    /** Many ticks. Each cluster goes through one pass per tick, so that a listed cluster is conserved and, from an
        empty manager, never abandoned; an unlisted one is gone after the rescan that misses it. */
    method ReconcileLoop(ticks: seq<Surroundings>, start: int, ghost watched: string) returns (ghost inputs: seq<Input>)
      modifies this
      ensures |inputs| == |ticks|
      ensures Cluster(watched) == Passes(old(Cluster(watched)), inputs)
      ensures AlwaysLists(ticks, watched) ==> AlwaysListed(inputs)
      ensures AlwaysLists(ticks, watched) && old(Known(Cluster(watched))) ==> Known(Cluster(watched))
    {
      var lastRescan := start;
      inputs := [];
      for i := 0 to |ticks|
        invariant |inputs| == i
        invariant Cluster(watched) == Passes(old(Cluster(watched)), inputs)
        invariant AlwaysLists(ticks[..i], watched) ==> AlwaysListed(inputs)
      {
        ghost var due := kubeconfigDir != "" && rescanInterval > 0 && ticks[i].since - lastRescan >= rescanInterval;
        ghost var seen := InputOf(ticks[i], due, watched);
        lastRescan := Reconcile(ticks[i], lastRescan);
        assert (inputs + [seen])[..i] == inputs;
        assert ticks[..i + 1] == ticks[..i] + [ticks[i]];
        inputs := inputs + [seen];
      }
      assert ticks[..|ticks|] == ticks;
      if AlwaysLists(ticks, watched) && old(Known(Cluster(watched))) {
        ClusterConserved(old(Cluster(watched)), inputs);
      }
    }
  }

  /** The cluster's file is in every snapshot that is loaded. */
  ghost predicate AlwaysLists(ticks: seq<Surroundings>, id: string) {
    forall e | e in ticks && e.rescanLoad.Some? :: LastFile(e.rescanLoad.value, id).Some?
  }

  function SnapshotFile(hashes: map<string, string>, configs: map<string, string>, id: string): Option<File>
    requires hashes.Keys == configs.Keys
  {
    if id in hashes then Some(File(hashes[id], configs[id])) else None
  }

  // ---------- Startup, cluster by cluster ----------

  /** The clusters of the list, started or queued in turn. */
  function StartedAll(l: Local, id: string, clusters: seq<ClusterFile>, tries: seq<Try>): Local
    requires |tries| == |clusters|
    decreases |clusters|
  {
    if clusters == [] then l
    else
      var n := |clusters| - 1;
      var before := StartedAll(l, id, clusters[..n], tries[..n]);
      if clusters[n].id == id then StartOrQueue(before, clusters[n].config, tries[n]) else before
  }

  /** The hashes on record afterwards are those of the directory, whatever was started. */
  function Loaded(l: Local, load: Load, kubeconfigDir: string, id: string): Local {
    if kubeconfigDir == "" || load.None? then l
    else
      var file := LastFile(load.value, id);
      l.(hash := if file.Some? then Some(file.value.hash) else None)
  }

  lemma {:induction false} StartedExactly(l: Local, id: string, clusters: seq<ClusterFile>, tries: seq<Try>)
    requires |tries| == |clusters|
    ensures Known(StartedAll(l, id, clusters, tries)) <==> Known(l) || exists c :: c in clusters && c.id == id
    decreases |clusters|
  {
    if clusters != [] {
      var n := |clusters| - 1;
      assert forall c :: c in clusters <==> c in clusters[..n] || c == clusters[n];
      StartedExactly(l, id, clusters[..n], tries[..n]);
    }
  }

  /** A file that appears between the listing that startup works from and the snapshot it takes its hashes from is
      neither started nor queued, and by AbandonedForever stays so until it changes. */
  lemma StartupAbandonsIff(id: string, clusters: seq<ClusterFile>, tries: seq<Try>, files: seq<ClusterFile>, f: File)
    requires |tries| == |clusters| && LastFile(files, id) == Some(f)
    ensures Abandoned(Loaded(StartedAll(Nothing, id, clusters, tries), Some(files), "dir", id), f)
            <==> !(exists c :: c in clusters && c.id == id)
  {
    StartedExactly(Nothing, id, clusters, tries);
  }

  // ---------- Live watchers outside the map, from startup on ----------

  predicate Interrupted(clusters: seq<ClusterFile>, tries: seq<Try>, endsAt: Option<nat>)
    requires |tries| == |clusters|
  {
    endsAt.Some? && endsAt.value < |clusters| - 1 && tries[endsAt.value].result == Started
  }

  predicate GoesAs(clusters: seq<ClusterFile>, tries: seq<Try>, id: string, i: int, r: Result)
    requires |tries| == |clusters|
  {
    0 <= i < |clusters| && clusters[i].id == id && tries[i].result == r
  }

  ghost predicate GoesOnce(clusters: seq<ClusterFile>, tries: seq<Try>, id: string, r: Result)
    requires |tries| == |clusters|
  {
    exists i :: GoesAs(clusters, tries, id, i, r)
  }

  ghost predicate StartedTwice(clusters: seq<ClusterFile>, tries: seq<Try>, id: string)
    requires |tries| == |clusters|
  {
    exists i, j :: i < j && GoesAs(clusters, tries, id, i, Started) && GoesAs(clusters, tries, id, j, Started)
  }

  /** Startup leaks a live watcher of a cluster exactly when one of its starts times out or when it is started twice,
      as a directory with a.yaml and a.yml makes it. */
  lemma {:induction false} StartupLeaksIff(id: string, clusters: seq<ClusterFile>, tries: seq<Try>)
    requires |tries| == |clusters|
    ensures var l := StartedAll(Nothing, id, clusters, tries);
            && (l.running.Some? <==> GoesOnce(clusters, tries, id, Started))
            && (l.leaked > 0 <==> GoesOnce(clusters, tries, id, TimedOut) || StartedTwice(clusters, tries, id))
    decreases |clusters|
  {
    if clusters != [] {
      var n := |clusters| - 1;
      StartupLeaksIff(id, clusters[..n], tries[..n]);
      OnceMore(id, clusters, tries, Started);
      OnceMore(id, clusters, tries, TimedOut);
      TwiceMore(id, clusters, tries);
    }
  }

  lemma OnceMore(id: string, clusters: seq<ClusterFile>, tries: seq<Try>, r: Result)
    requires |tries| == |clusters| && clusters != []
    ensures var n := |clusters| - 1;
            GoesOnce(clusters, tries, id, r)
            <==> GoesOnce(clusters[..n], tries[..n], id, r) || GoesAs(clusters, tries, id, n, r)
  {
    var n := |clusters| - 1;
    if i :| GoesAs(clusters, tries, id, i, r) && i < n {
      assert GoesAs(clusters[..n], tries[..n], id, i, r);
    }
    if i :| GoesAs(clusters[..n], tries[..n], id, i, r) {
      assert GoesAs(clusters, tries, id, i, r);
    }
  }

  lemma TwiceMore(id: string, clusters: seq<ClusterFile>, tries: seq<Try>)
    requires |tries| == |clusters| && clusters != []
    ensures var n := |clusters| - 1;
            StartedTwice(clusters, tries, id)
            <==> StartedTwice(clusters[..n], tries[..n], id)
                 || (GoesOnce(clusters[..n], tries[..n], id, Started) && GoesAs(clusters, tries, id, n, Started))
  {
    var n := |clusters| - 1;
    var init, before := clusters[..n], tries[..n];
    if i, j :| i < j && GoesAs(clusters, tries, id, i, Started) && GoesAs(clusters, tries, id, j, Started) {
      assert GoesAs(init, before, id, i, Started);
      assert j < n ==> GoesAs(init, before, id, j, Started);
    }
    if i, j :| i < j && GoesAs(init, before, id, i, Started) && GoesAs(init, before, id, j, Started) {
      assert GoesAs(clusters, tries, id, i, Started) && GoesAs(clusters, tries, id, j, Started);
    }
    if i :| GoesAs(init, before, id, i, Started) {
      assert GoesAs(clusters, tries, id, i, Started);
    }
  }

  // ---------- Runs that begin with startup ----------

  /** What startup leaves of a cluster in directory mode. */
  function AfterStartup(id: string, clusters: seq<ClusterFile>, tries: seq<Try>, load: Load): Local
    requires |tries| == |clusters|
  {
    Loaded(StartedAll(Nothing, id, clusters, tries), load, "dir", id)
  }

  ghost predicate InList(clusters: seq<ClusterFile>, id: string) {
    exists c :: c in clusters && c.id == id
  }

  predicate InSnapshot(load: Load, id: string) {
    load.Some? && LastFile(load.value, id).Some?
  }

  lemma {:induction false} StartupQueuesIff(id: string, clusters: seq<ClusterFile>, tries: seq<Try>)
    requires |tries| == |clusters|
    ensures var l := StartedAll(Nothing, id, clusters, tries);
            && l.hash.None?
            && (l.retry.Some? <==> GoesOnce(clusters, tries, id, Failed) || GoesOnce(clusters, tries, id, TimedOut))
            && (l.retry.Some? ==> l.retry.value.config.Some?)
    decreases |clusters|
  {
    if clusters != [] {
      var n := |clusters| - 1;
      StartupQueuesIff(id, clusters[..n], tries[..n]);
      OnceMore(id, clusters, tries, Failed);
      OnceMore(id, clusters, tries, TimedOut);
    }
  }

  lemma StartupState(id: string, clusters: seq<ClusterFile>, tries: seq<Try>, load: Load)
    requires |tries| == |clusters|
    ensures var l := AfterStartup(id, clusters, tries, load);
            && (l.running.Some? <==> GoesOnce(clusters, tries, id, Started))
            && (l.retry.Some? <==> GoesOnce(clusters, tries, id, Failed) || GoesOnce(clusters, tries, id, TimedOut))
            && (l.leaked > 0 <==> GoesOnce(clusters, tries, id, TimedOut) || StartedTwice(clusters, tries, id))
            && (Known(l) <==> InList(clusters, id))
            && l.hash == if InSnapshot(load, id) then Some(LastFile(load.value, id).value.hash) else None
  {
    StartupLeaksIff(id, clusters, tries);
    StartupQueuesIff(id, clusters, tries);
    StartedExactly(Nothing, id, clusters, tries);
  }

  /** Runs of a manager with a kubeconfig directory, startup included: no run leaks a live watcher of a cluster exactly
      when startup timed out on none of its files and started at most one, no later start times out, and, where later
      starts can succeed, none of them fails, the watchlist wants nothing, startup did not start it and queue it as well,
      and its file, if startup listed it, is in a startup snapshot that loaded. */
  lemma LeaksNeverIff(id: string, clusters: seq<ClusterFile>, tries: seq<Try>, load: Load,
                      results: set<Result>, mayWant: bool)
    requires |tries| == |clusters|
    ensures LeaksNever(AfterStartup(id, clusters, tries, load), results, mayWant)
            <==> && !GoesOnce(clusters, tries, id, TimedOut) && !StartedTwice(clusters, tries, id)
                 && TimedOut !in results
                 && (Started in results ==>
                       && Failed !in results && !mayWant
                       && !(GoesOnce(clusters, tries, id, Started) && GoesOnce(clusters, tries, id, Failed))
                       && (InList(clusters, id) ==> InSnapshot(load, id)))
  {
    StartupState(id, clusters, tries, load);
    LeaksNeverFromIff(AfterStartup(id, clusters, tries, load), results, mayWant);
  }

  /** The same over all ways in which the starts of startup can go, where these are the ways of all starts. */
  lemma LeaksNeverAtAllIff(id: string, clusters: seq<ClusterFile>, load: Load, results: set<Result>, mayWant: bool)
    requires results != {}
    ensures (forall tries | GoOnlyAs(tries, |clusters|, results) ::
               LeaksNever(AfterStartup(id, clusters, tries, load), results, mayWant))
            <==> && TimedOut !in results
                 && (Started in results ==>
                       && Failed !in results && !mayWant
                       && !ListedTwice(clusters, id)
                       && (InList(clusters, id) ==> InSnapshot(load, id)))
  {
    var r := if Started in results then Started else var r :| r in results; r;
    var same := seq(|clusters|, i => Try(r, 0));
    assert GoOnlyAs(same, |clusters|, results);
    LeaksNeverIff(id, clusters, same, load, results, mayWant);
    if ListedTwice(clusters, id) && Started in results {
      var i, j :| 0 <= i < j < |clusters| && clusters[i].id == clusters[j].id == id;
      assert GoesAs(clusters, same, id, i, Started) && GoesAs(clusters, same, id, j, Started);
    }
    if && TimedOut !in results
       && (Started in results ==>
             && Failed !in results && !mayWant && !ListedTwice(clusters, id)
             && (InList(clusters, id) ==> InSnapshot(load, id)))
    {
      forall tries | GoOnlyAs(tries, |clusters|, results)
        ensures LeaksNever(AfterStartup(id, clusters, tries, load), results, mayWant)
      {
        LeaksNeverIff(id, clusters, tries, load, results, mayWant);
      }
    }
  }

  ghost predicate GoOnlyAs(tries: seq<Try>, n: nat, results: set<Result>) {
    |tries| == n && forall i | 0 <= i < n :: tries[i].result in results
  }

  ghost predicate ListedTwice(clusters: seq<ClusterFile>, id: string) {
    exists i, j :: 0 <= i < j < |clusters| && clusters[i].id == clusters[j].id == id
  }

  /** Without a directory only what startup queued can leak, and only if starts can time out or it runs as well. */
  lemma LeaksNeverWithoutDirectoryIff(id: string, clusters: seq<ClusterFile>, tries: seq<Try>, results: set<Result>)
    requires |tries| == |clusters|
    ensures var l := Loaded(StartedAll(Nothing, id, clusters, tries), None, "", id);
            (forall inputs | NoDirectory(inputs, results) :: Passes(l, inputs).leaked == 0)
            <==> && !GoesOnce(clusters, tries, id, TimedOut) && !StartedTwice(clusters, tries, id)
                 && (GoesOnce(clusters, tries, id, Failed) ==>
                       && TimedOut !in results
                       && !(Started in results && GoesOnce(clusters, tries, id, Started)))
  {
    var l := Loaded(StartedAll(Nothing, id, clusters, tries), None, "", id);
    StartupLeaksIff(id, clusters, tries);
    StartupQueuesIff(id, clusters, tries);
    WithoutDirectoryIff(l, results);
  }

  /** Startup starts the one file that it lists, its snapshot fails to load, and the first rescan starts the file again
      over the live watcher, although every start succeeds and the watchlist wants nothing. */
  lemma SnapshotFailsThenLeaks(id: string, f: File, now: int)
    ensures var l := AfterStartup(id, [ClusterFile(id, f.config, f.hash)], [Try(Started, now)], None);
            l.leaked == 0 && Passes(l, [Rescanned(Some(f), Started, now)]).leaked == 1
  {
    OneStarted(id, f.config, f.hash, now, None);
    var l := AfterStartup(id, [ClusterFile(id, f.config, f.hash)], [Try(Started, now)], None);
    var last := Rescanned(Some(f), Started, now);
    assert [last][..0] == [];
    assert Passes(l, [last]) == Pass(Passes(l, [last][..0]), last);
  }

  lemma OneStarted(id: string, config: string, hash: string, now: int, load: Load)
    ensures AfterStartup(id, [ClusterFile(id, config, hash)], [Try(Started, now)], load)
            == Local(Some(config), 0, if InSnapshot(load, id) then Some(LastFile(load.value, id).value.hash) else None, None)
  {
    var clusters, tries := [ClusterFile(id, config, hash)], [Try(Started, now)];
    assert clusters[..0] == [] && tries[..0] == [];
    assert StartedAll(Nothing, id, clusters[..0], tries[..0]) == Nothing;
  }

  /** No run has a cluster running and queued at once exactly when startup did not both start and queue it, and later
      starts always succeed, or never do and a cluster that startup started is in the snapshot. */
  lemma BothNeverIff(id: string, clusters: seq<ClusterFile>, tries: seq<Try>, load: Load,
                     results: set<Result>, mayWant: bool)
    requires |tries| == |clusters|
    ensures BothNever(AfterStartup(id, clusters, tries, load), results, mayWant)
            <==> && !(GoesOnce(clusters, tries, id, Started)
                      && (GoesOnce(clusters, tries, id, Failed) || GoesOnce(clusters, tries, id, TimedOut)))
                 && (if Started in results then results == {Started}
                     else results == {} || !GoesOnce(clusters, tries, id, Started) || InSnapshot(load, id))
  {
    StartupState(id, clusters, tries, load);
    BothNeverFromIff(AfterStartup(id, clusters, tries, load), results, mayWant);
  }

  // ---------- What runs, from startup on ----------

  /** However the starts go and whatever the snapshot holds: while all rescans see the same file, a cluster always runs on
      what that file says exactly when every file that startup listed for it says so and no load in between can find
      anything else. */
  lemma RunsListedIff(id: string, clusters: seq<ClusterFile>, load: Load, f: File, found: set<string>)
    ensures (forall tries | |tries| == |clusters| :: RunsListed(AfterStartup(id, clusters, tries, load), f, found))
            <==> (forall c | c in clusters && c.id == id :: c.config == f.config) && found <= {f.config}
  {
    if c :| c in clusters && c.id == id && c.config != f.config {
      var i :| 0 <= i < |clusters| && clusters[i] == c;
      var tries := seq(|clusters|, j => Try(if j == i then Started else Failed, 0));
      LastStarted(id, clusters, tries, i);
      RunsListedFromIff(AfterStartup(id, clusters, tries, load), f, found);
    } else if !(found <= {f.config}) {
      var tries := seq(|clusters|, j => Try(Started, 0));
      RunsListedFromIff(AfterStartup(id, clusters, tries, load), f, found);
    } else {
      forall tries | |tries| == |clusters| ensures RunsListed(AfterStartup(id, clusters, tries, load), f, found) {
        StartedOn(id, clusters, tries, f.config);
        RunsListedFromIff(AfterStartup(id, clusters, tries, load), f, found);
      }
    }
  }

  lemma {:induction false} LastStarted(id: string, clusters: seq<ClusterFile>, tries: seq<Try>, i: nat)
    requires |tries| == |clusters| && GoesAs(clusters, tries, id, i, Started)
    requires forall j | i < j < |tries| :: tries[j].result == Failed
    ensures StartedAll(Nothing, id, clusters, tries).running == Some(clusters[i].config)
    decreases |clusters|
  {
    var n := |clusters| - 1;
    if i < n {
      LastStarted(id, clusters[..n], tries[..n], i);
    }
  }

  lemma {:induction false} StartedOn(id: string, clusters: seq<ClusterFile>, tries: seq<Try>, config: string)
    requires |tries| == |clusters| && forall c | c in clusters && c.id == id :: c.config == config
    ensures On(StartedAll(Nothing, id, clusters, tries), config)
    decreases |clusters|
  {
    if clusters != [] {
      var n := |clusters| - 1;
      assert clusters[n] in clusters && forall c | c in clusters[..n] :: c in clusters;
      StartedOn(id, clusters[..n], tries[..n], config);
    }
  }

  /** A file that is edited between the list startup works from and its snapshot: the watcher runs on the old
      configuration, with the new hash on record, for as long as it is healthy. */
  lemma {:induction false} StartupEditStays(id: string, before: string, hash: string, f: File, files: seq<ClusterFile>, now: int,
                                            later: seq<Input>)
    requires LastFile(files, id) == Some(f)
    requires forall i | i in later :: i.healthy && (i.scan.Some? ==> i.scan.value.file == Some(f))
    ensures Passes(AfterStartup(id, [ClusterFile(id, before, hash)], [Try(Started, now)], Some(files)), later)
            == Local(Some(before), 0, Some(f.hash), None)
    decreases |later|
  {
    OneStarted(id, before, hash, now, Some(files));
    if later != [] {
      var n := |later| - 1;
      assert later[n] in later && forall i | i in later[..n] :: i in later;
      StartupEditStays(id, before, hash, f, files, now, later[..n]);
    }
  }

  /** The first rescan repairs a start on an old configuration exactly when startup's snapshot did not record the hash of
      the file that the rescan sees. */
  lemma StartupRepairedIff(id: string, before: string, hash: string, f: File, load: Load, now: int, t: Try)
    requires before != f.config && t.result == Started
    ensures var l := AfterStartup(id, [ClusterFile(id, before, hash)], [Try(Started, now)], load);
            Rescan(l, Some(f), t).running == Some(f.config)
            <==> !(InSnapshot(load, id) && LastFile(load.value, id).value.hash == f.hash)
  {
    OneStarted(id, before, hash, now, load);
    OtherConfigIff(AfterStartup(id, [ClusterFile(id, before, hash)], [Try(Started, now)], load), f, t);
  }

  // ---------- What is lost, from startup on ----------

  /** Over any run from startup on, a cluster ends up neither running nor queued with a hash on record exactly when it was
      lost by a pass and not brought back since, or when startup's snapshot held a file that was not in its list and that
      neither the watchlist asked for nor any rescan saw with another hash. */
  lemma LostFromStartupIff(id: string, clusters: seq<ClusterFile>, tries: seq<Try>, load: Load, inputs: seq<Input>)
    requires |tries| == |clusters|
    ensures var l := AfterStartup(id, clusters, tries, load);
            Lost(Passes(l, inputs))
            <==> (exists j :: j > 0 && LostSince(l, inputs, j))
                 || (!InList(clusters, id) && InSnapshot(load, id)
                     && forall i | i in inputs :: Leaves(i, LastFile(load.value, id).value.hash))
  {
    var l := AfterStartup(id, clusters, tries, load);
    StartupState(id, clusters, tries, load);
    LostIff(l, inputs);
    assert inputs[..0] == [];
    assert LostSince(l, inputs, 0)
           <==> Lost(l) && forall k | 0 <= k < |inputs| :: Leaves(inputs[k], l.hash.value);
  }

  /** While every loaded snapshot lists it, a cluster is lost only by startup. */
  lemma LostOnlyByStartup(id: string, clusters: seq<ClusterFile>, tries: seq<Try>, load: Load, inputs: seq<Input>)
    requires |tries| == |clusters| && AlwaysListed(inputs)
    ensures var l := AfterStartup(id, clusters, tries, load);
            Lost(Passes(l, inputs))
            <==> !InList(clusters, id) && InSnapshot(load, id)
                 && forall i | i in inputs :: Leaves(i, LastFile(load.value, id).value.hash)
  {
    var l := AfterStartup(id, clusters, tries, load);
    LostFromStartupIff(id, clusters, tries, load, inputs);
    forall j | j > 0 ensures !LostSince(l, inputs, j) {
      if j <= |inputs| { assert inputs[j - 1] in inputs; }
    }
  }
}
