/** The watchlist store's code. Put checks for conflicts and updates under two separate locks; it is modelled as
    sequential, and so is Delete. */
module Watchlist {
  import opened Wrappers
  import opened Names
  import opened WatchlistModel
  import opened WatchlistLaws

  datatype Conflict = Conflict(cluster: string, namespace: string, owner: string)

  datatype PutResult =
    | Stored(created: bool, accepted: map<string, seq<string>>, rejected: set<string>)
    | Conflicting(conflicts: set<Conflict>)
    | NotPersisted

  class Store {
    var index: map<string, WatchEntry>
    var apps: map<string, Spec>
    var crs: map<string, Spec>  // the API server's AppWatchConfigs

    constructor (crs: map<string, Spec>)
      ensures State() == WatchlistModel.State(map[], map[], crs)
    {
      index, apps := map[], map[];
      this.crs := crs;
    }

    function State(): State
      reads this
    {
      WatchlistModel.State(index, apps, crs)
    }

    /** Rebuilds the registrations and the index from the resources, in the order they are listed. */
    method LoadAll(items: seq<(string, Spec)>, fails: bool) returns (failed: bool)
      modifies this`index, this`apps
      ensures failed == fails
      ensures State() == if fails then old(State()) else Loaded(items, crs)
    {
      if fails { return true; }
      index, apps := map[], map[];
      for i := 0 to |items|
        invariant State() == Loaded(items[..i], crs)
      {
        assert items[..i + 1][..i] == items[..i];
        var (name, spec) := items[i];
        apps := apps[name := spec];
        AddToIndex(name, spec);
      }
      assert items[..|items|] == items;
      return false;
    }

    method Lookup(clusterID: string, namespace: string) returns (entry: Option<WatchEntry>)
      ensures entry == WatchlistModel.Lookup(State(), clusterID, namespace)
    {
      var key := clusterID + "/" + namespace;
      return if key in index then Some(index[key]) else None;
    }

    /** Registers an app with the clusters that are known, unless another app owns one of the pairs. */
    method Put(app: string, spec: Spec, known: set<string>, outcome: Outcome) returns (result: PutResult)
      modifies this
      ensures State() == Step(old(State()), WatchlistModel.Put(app, spec, known, outcome))
      ensures result.Conflicting? <==> Conflicts(old(index), app, Accepted(spec, known))
      ensures result.Conflicting? ==>
                forall x :: x in result.conflicts <==>
                  Lists(Accepted(spec, known), x.cluster, x.namespace) && IsConflict(old(index), app, x)
      ensures result.Stored? <==> outcome == Acked && !Conflicts(old(index), app, Accepted(spec, known))
      ensures result.Stored? ==> result == Stored(SanitizeName(app) !in old(crs), Accepted(spec, known).clusters,
                                                  spec.clusters.Keys - known)
      ensures result.Stored? ==>
                && app in apps && Registered(apps[app], spec, known) && OthersKept(old(apps), apps, app)
                && SanitizeName(app) in crs && crs == old(crs)[SanitizeName(app) := crs[SanitizeName(app)]]
                && Registered(crs[SanitizeName(app)], spec, known)
                && (forall c :: c in result.accepted <==> c in spec.clusters && c in known)
                && (forall c :: c in result.rejected <==> c in spec.clusters && c !in known)
      ensures !result.Stored? ==> apps == old(apps) && index == old(index)
      ensures result.Conflicting? ==>
                forall x :: x in result.conflicts <==>
                  && x.cluster in spec.clusters && x.cluster in known && x.namespace in spec.clusters[x.cluster]
                  && x.cluster + "/" + x.namespace in old(index)
                  && old(index)[x.cluster + "/" + x.namespace].app == x.owner && x.owner != app
      ensures result.Stored? && Inv(old(State())) && (forall c | c in known :: SlashFree(c)) ==>
                AnswersFor(old(State()), State(), app, spec, known)
    {
      ghost var before := State();
      result := PutSequentially(app, spec, known, outcome);
      if result.Stored? && Inv(before) && forall c | c in known :: SlashFree(c) {
        PutIsLookedUpEverywhere(before, app, spec, known);
      }
    }

    method PutSequentially(app: string, spec: Spec, known: set<string>, outcome: Outcome) returns (result: PutResult)
      modifies this
      ensures State() == Step(old(State()), WatchlistModel.Put(app, spec, known, outcome))
      ensures result.Conflicting? <==> Conflicts(old(index), app, Accepted(spec, known))
      ensures result.Conflicting? ==>
                forall x :: x in result.conflicts <==>
                  Lists(Accepted(spec, known), x.cluster, x.namespace) && IsConflict(old(index), app, x)
      ensures result.Stored? <==> outcome == Acked && !Conflicts(old(index), app, Accepted(spec, known))
      ensures result.Stored? ==> result == Stored(SanitizeName(app) !in old(crs), Accepted(spec, known).clusters,
                                                  spec.clusters.Keys - known)
    {
      var accepted, rejected := SplitKnown(spec.clusters, known);
      var stored := Spec(spec.channel, accepted);
      assert stored == Accepted(spec, known);
      var conflicts := FindConflicts(app, stored);
      if conflicts != {} {
        return Conflicting(conflicts);
      }
      var failed, created := UpsertCRD(app, stored, outcome);
      if failed {
        return NotPersisted;
      }
      RemoveFromIndex(app);
      apps := apps[app := stored];
      AddToIndex(app, stored);
      return Stored(created, accepted, rejected);
    }

    /** The clusters that have a kubeconfig, and those that have none. */
    method SplitKnown(clusters: map<string, seq<string>>, known: set<string>)
      returns (accepted: map<string, seq<string>>, rejected: set<string>)
      ensures rejected == clusters.Keys - known && accepted == clusters - rejected
    {
      accepted, rejected := map[], {};
      var todo := clusters.Keys;
      while todo != {}
        invariant todo <= clusters.Keys
        invariant rejected == clusters.Keys - todo - known
        invariant accepted == clusters - todo - rejected
        decreases todo
      {
        var clusterID :| clusterID in todo;
        if clusterID !in known {
          rejected := rejected + {clusterID};
        } else {
          accepted := accepted[clusterID := clusters[clusterID]];
        }
        todo := todo - {clusterID};
      }
    }

    /** The collisions with other apps' entries. */
    method FindConflicts(app: string, stored: Spec) returns (conflicts: set<Conflict>)
      ensures forall x :: x in conflicts <==> Lists(stored, x.cluster, x.namespace) && IsConflict(index, app, x)
      ensures conflicts != {} <==> Conflicts(index, app, stored)
    {
      conflicts := {};
      var todo := stored.clusters.Keys;
      while todo != {}
        invariant todo <= stored.clusters.Keys
        invariant forall x :: x in conflicts <==>
                    x.cluster !in todo && Lists(stored, x.cluster, x.namespace) && IsConflict(index, app, x)
        decreases todo
      {
        var clusterID :| clusterID in todo;
        var namespaces := stored.clusters[clusterID];
        ghost var before := conflicts;
        for i := 0 to |namespaces|
          invariant forall x :: x in conflicts <==>
                      x in before || (x.cluster == clusterID && x.namespace in namespaces[..i] && IsConflict(index, app, x))
        {
          var key := clusterID + "/" + namespaces[i];
          assert Key(clusterID, namespaces[i]) == key;
          if key in index && index[key].app != app {
            conflicts := conflicts + {Conflict(clusterID, namespaces[i], index[key].app)};
          }
        }
        assert namespaces[..|namespaces|] == namespaces;
        todo := todo - {clusterID};
      }
      if x :| x in conflicts {
        assert Key(x.cluster, x.namespace) in Keys(stored);
      } else {
        forall k | k in Keys(stored) && k in index ensures index[k].app == app {
          var c, ns :| c in stored.clusters && ns in stored.clusters[c] && Key(c, ns) == k;
          assert Conflict(c, ns, index[k].app) !in conflicts;
        }
      }
    }

    method UpsertCRD(app: string, spec: Spec, outcome: Outcome) returns (failed: bool, created: bool)
      modifies this`crs
      ensures crs == if Reaches(outcome) then old(crs)[SanitizeName(app) := spec] else old(crs)
      ensures failed <==> outcome != Acked
      ensures !failed ==> (created <==> SanitizeName(app) !in old(crs))
    {
      if outcome == GetFailed { return true, false; }
      var name := SanitizeName(app);
      created := name !in crs;
      if outcome != Refused { crs := crs[name := spec]; }
      failed := outcome != Acked;
    }

    method Delete(app: string, outcome: Outcome) returns (failed: bool)
      modifies this
      ensures State() == Step(old(State()), WatchlistModel.Delete(app, outcome))
      ensures failed <==> app !in old(apps) || outcome != Acked
      ensures if failed then apps == old(apps) && index == old(index) else app !in apps && OthersKept(old(apps), apps, app)
      ensures !failed && Inv(old(State())) ==>
                SilentOn(old(State()), State(), app)
    {
      ghost var before := State();
      if app !in apps { return true; }
      if Reaches(outcome) { crs := crs - {SanitizeName(app)}; }
      if outcome != Acked { return true; }
      RemoveFromIndex(app);
      apps := apps - {app};
      if Inv(before) { DeleteIsSilent(before, app); }
      return false;
    }

    /** The union of the clusters of all registrations. */
    method DesiredClusters() returns (result: set<string>)
      ensures result == Desired(apps)
      ensures forall c :: c in result <==> exists a :: a in apps && c in apps[a].clusters
    {
      result := {};
      var todo := apps.Keys;
      while todo != {}
        invariant todo <= apps.Keys
        invariant forall c :: c in result <==> exists a :: a in apps && a !in todo && c in apps[a].clusters
        decreases todo
      {
        var app :| app in todo;
        result := result + apps[app].clusters.Keys;
        todo := todo - {app};
      }
    }

    method AddToIndex(app: string, spec: Spec)
      modifies this`index
      ensures index == WithEntries(old(index), app, spec)
    {
      ghost var was := index;
      var todo := spec.clusters.Keys;
      var entry := WatchEntry(app, spec.channel);
      ghost var added: set<string> := {};
      while todo != {}
        invariant todo <= spec.clusters.Keys
        invariant index == WithKeys(was, added, entry)
        invariant added == KeysOutside(spec, todo)
        decreases todo
      {
        var clusterID :| clusterID in todo;
        AddNamespaces(clusterID, spec.clusters[clusterID], entry);
        KeysOfOneMore(spec, todo, clusterID);
        ghost var more := NamespaceKeys(clusterID, spec.clusters[clusterID]);
        WithMoreKeys(was, added, more, entry);
        added := added + more;
        todo := todo - {clusterID};
      }
      assert added == Keys(spec);
    }

    method AddNamespaces(clusterID: string, namespaces: seq<string>, entry: WatchEntry)
      modifies this`index
      ensures index == WithKeys(old(index), NamespaceKeys(clusterID, namespaces), entry)
    {
      ghost var added: set<string> := {};
      for i := 0 to |namespaces|
        invariant added == NamespaceKeys(clusterID, namespaces[..i])
        invariant index == WithKeys(old(index), added, entry)
      {
        index := index[clusterID + "/" + namespaces[i] := entry];
        ghost var key := Key(clusterID, namespaces[i]);
        WithMoreKeys(old(index), added, {key}, entry);
        WithOneKey(WithKeys(old(index), added, entry), key, entry);
        added := added + {key};
        assert namespaces[..i + 1] == namespaces[..i] + [namespaces[i]];
      }
      assert namespaces[..|namespaces|] == namespaces;
    }

    method RemoveFromIndex(app: string)
      modifies this`index
      ensures index == WithoutApp(old(index), app)
    {
      ghost var was := index;
      var todo := index.Keys;
      while todo != {}
        invariant todo <= was.Keys
        invariant index == was - set k | k in was && k !in todo && was[k].app == app
        decreases todo
      {
        var key :| key in todo;
        if index[key].app == app {
          index := index - {key};
        }
        todo := todo - {key};
      }
    }
  }

  predicate IsConflict(index: map<string, WatchEntry>, app: string, x: Conflict) {
    var k := Key(x.cluster, x.namespace);
    k in index && index[k].app != app && index[k].app == x.owner
  }

  lemma WithOneKey(index: map<string, WatchEntry>, k: string, entry: WatchEntry)
    ensures WithKeys(index, {k}, entry) == index[k := entry]
  {
  }

  lemma WithMoreKeys(index: map<string, WatchEntry>, a: set<string>, b: set<string>, entry: WatchEntry)
    ensures WithKeys(WithKeys(index, a, entry), b, entry) == WithKeys(index, a + b, entry)
  {
  }

  function NamespaceKeys(clusterID: string, namespaces: seq<string>): set<string> {
    set ns | ns in namespaces :: Key(clusterID, ns)
  }

  function KeysOutside(spec: Spec, todo: set<string>): set<string> {
    set c, ns | c in spec.clusters && c !in todo && ns in spec.clusters[c] :: Key(c, ns)
  }

  lemma KeysOfOneMore(spec: Spec, todo: set<string>, clusterID: string)
    requires clusterID in todo && clusterID in spec.clusters
    ensures KeysOutside(spec, todo - {clusterID})
            == KeysOutside(spec, todo) + NamespaceKeys(clusterID, spec.clusters[clusterID])
  {
  }
}
