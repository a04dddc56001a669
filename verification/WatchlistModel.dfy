/**
 The watchlist: app registrations, the denormalised index used for lookups, and the AppWatchConfig resources that
 they are rebuilt from after a restart.
 */
module WatchlistModel {
  import opened Wrappers
  import opened Names

  datatype Spec = Spec(channel: string, clusters: map<string, seq<string>>)

  datatype WatchEntry = WatchEntry(app: string, channel: string)

  datatype State = State(index: map<string, WatchEntry>, apps: map<string, Spec>, crs: map<string, Spec>)

  // A write whose caller is told it failed may or may not have been applied.
  datatype Outcome = GetFailed | Refused | LostReply | Acked

  datatype Op =
    | Put(app: string, spec: Spec, known: set<string>, outcome: Outcome)
    | Delete(app: string, outcome: Outcome)

  // ---------- Keys ----------

  function Key(c: string, ns: string): string {
    c + "/" + ns
  }

  predicate SlashFree(s: string) {
    '/' !in s
  }

  predicate Lists(spec: Spec, c: string, ns: string) {
    c in spec.clusters && ns in spec.clusters[c]
  }

  function Keys(spec: Spec): set<string> {
    set c, ns | c in spec.clusters && ns in spec.clusters[c] :: Key(c, ns)
  }

  /** Before the first slash stands the cluster: pairs with slash-free clusters have different keys. */
  lemma KeyInjective(c: string, ns: string, c': string, ns': string)
    requires SlashFree(c) && SlashFree(c') && Key(c, ns) == Key(c', ns')
    ensures c == c' && ns == ns'
  {
    NoShorterCluster(c, ns, c', ns');
    NoShorterCluster(c', ns', c, ns);
    var k := Key(c, ns);
    assert c == k[..|c|] && c' == k[..|c'|] && ns == k[|c| + 1..] && ns' == k[|c'| + 1..];
  }

  lemma NoShorterCluster(c: string, ns: string, c': string, ns': string)
    requires SlashFree(c') && Key(c, ns) == Key(c', ns')
    ensures |c'| <= |c|
  {
    assert Key(c, ns)[|c|] == '/';
    forall i | 0 <= i < |c'| ensures Key(c', ns')[i] != '/' {
      assert Key(c', ns')[i] == c'[i];
    }
  }

  // ---------- The steps ----------

  function Accepted(spec: Spec, known: set<string>): Spec {
    Spec(spec.channel, spec.clusters - (spec.clusters.Keys - known))
  }

  function WithKeys(index: map<string, WatchEntry>, ks: set<string>, entry: WatchEntry): map<string, WatchEntry> {
    if ks == {} then index else index + map k | k in ks :: entry
  }

  function WithEntries(index: map<string, WatchEntry>, app: string, spec: Spec): map<string, WatchEntry> {
    WithKeys(index, Keys(spec), WatchEntry(app, spec.channel))
  }

  function WithoutApp(index: map<string, WatchEntry>, app: string): map<string, WatchEntry> {
    index - set k | k in index && index[k].app == app
  }

  predicate Conflicts(index: map<string, WatchEntry>, app: string, spec: Spec) {
    exists k | k in Keys(spec) :: k in index && index[k].app != app
  }

  predicate Reaches(outcome: Outcome) {
    outcome == LostReply || outcome == Acked
  }

  function Step(s: State, op: Op): State {
    match op
    case Put(app, spec, known, outcome) =>
      var stored := Accepted(spec, known);
      if Conflicts(s.index, app, stored) then s
      else
        var crs := if Reaches(outcome) then s.crs[SanitizeName(app) := stored] else s.crs;
        if outcome == Acked
        then State(WithEntries(WithoutApp(s.index, app), app, stored), s.apps[app := stored], crs)
        else s.(crs := crs)
    case Delete(app, outcome) =>
      if app !in s.apps then s
      else
        var crs := if Reaches(outcome) then s.crs - {SanitizeName(app)} else s.crs;
        if outcome == Acked then State(WithoutApp(s.index, app), s.apps - {app}, crs) else s.(crs := crs)
  }

  function Exec(s: State, ops: seq<Op>): State
    decreases |ops|
  {
    if ops == [] then s else Step(Exec(s, ops[..|ops| - 1]), ops[|ops| - 1])
  }

  function Lookup(s: State, c: string, ns: string): Option<WatchEntry> {
    Get(s.index, Key(c, ns))
  }

  function Desired(apps: map<string, Spec>): set<string> {
    set a, c | a in apps && c in apps[a].clusters :: c
  }

  // ---------- The index agrees with the registrations ----------

  ghost predicate OwnsKey(apps: map<string, Spec>, app: string, k: string) {
    app in apps && k in Keys(apps[app])
  }

  ghost predicate IndexAgrees(index: map<string, WatchEntry>, apps: map<string, Spec>) {
    && (forall k | k in index ::
          OwnsKey(apps, index[k].app, k) && index[k].channel == apps[index[k].app].channel)
    && (forall app, k | OwnsKey(apps, app, k) :: k in index && index[k] == WatchEntry(app, apps[app].channel))
  }

  ghost predicate ClustersSlashFree(apps: map<string, Spec>) {
    forall a, c | a in apps && c in apps[a].clusters :: SlashFree(c)
  }

  ghost predicate Inv(s: State) {
    IndexAgrees(s.index, s.apps) && ClustersSlashFree(s.apps)
  }

  /** Known clusters are file name stems, which hold no slash. */
  ghost predicate KnownSlashFree(op: Op) {
    op.Put? ==> forall c | c in op.known :: SlashFree(c)
  }

  lemma PutKeepsIndex(index: map<string, WatchEntry>, apps: map<string, Spec>, app: string, stored: Spec)
    requires IndexAgrees(index, apps) && !Conflicts(index, app, stored)
    ensures IndexAgrees(WithEntries(WithoutApp(index, app), app, stored), apps[app := stored])
  {
    var index' := WithEntries(WithoutApp(index, app), app, stored);
    var apps' := apps[app := stored];
    forall a, k | OwnsKey(apps', a, k)
      ensures k in index' && index'[k] == WatchEntry(a, apps'[a].channel)
    {
      if a != app { assert OwnsKey(apps, a, k); }
    }
    forall k | k in index'
      ensures OwnsKey(apps', index'[k].app, k) && index'[k].channel == apps'[index'[k].app].channel
    {
      if k !in Keys(stored) { assert OwnsKey(apps, index[k].app, k); }
    }
  }

  lemma DeleteKeepsIndex(index: map<string, WatchEntry>, apps: map<string, Spec>, app: string)
    requires IndexAgrees(index, apps)
    ensures IndexAgrees(WithoutApp(index, app), apps - {app})
  {
    forall a, k | OwnsKey(apps - {app}, a, k)
      ensures k in WithoutApp(index, app) && index[k] == WatchEntry(a, apps[a].channel)
    {
      assert OwnsKey(apps, a, k);
    }
  }

  lemma StepKeepsInv(s: State, op: Op)
    requires Inv(s) && KnownSlashFree(op)
    ensures Inv(Step(s, op))
  {
    match op {
      case Put(app, spec, known, outcome) => PutKeepsInv(s, app, spec, known, outcome);
      case Delete(app, outcome) => DeleteKeepsIndex(s.index, s.apps, app);
    }
  }

  lemma PutKeepsInv(s: State, app: string, spec: Spec, known: set<string>, outcome: Outcome)
    requires Inv(s) && forall c | c in known :: SlashFree(c)
    ensures Inv(Step(s, Put(app, spec, known, outcome)))
  {
    var stored := Accepted(spec, known);
    if !Conflicts(s.index, app, stored) { PutKeepsIndex(s.index, s.apps, app, stored); }
  }

  lemma {:induction false} ExecKeepsInv(s: State, ops: seq<Op>)
    requires Inv(s) && forall op | op in ops :: KnownSlashFree(op)
    ensures Inv(Exec(s, ops))
    decreases |ops|
  {
    if ops != [] {
      var n := |ops| - 1;
      assert ops[n] in ops && forall op | op in ops[..n] :: op in ops;
      ExecKeepsInv(s, ops[..n]);
      LastKeepsInv(s, ops);
    }
  }

  lemma LastKeepsInv(s: State, ops: seq<Op>)
    requires ops != [] && Inv(Exec(s, ops[..|ops| - 1])) && KnownSlashFree(ops[|ops| - 1])
    ensures Inv(Exec(s, ops))
  {
    StepKeepsInv(Exec(s, ops[..|ops| - 1]), ops[|ops| - 1]);
  }

  /** A lookup answers (app, channel) exactly when that app's stored registration lists the pair with that channel. */
  lemma LookupIff(s: State, ops: seq<Op>, c: string, ns: string, app: string, channel: string)
    requires Inv(s) && forall op | op in ops :: KnownSlashFree(op)
    requires SlashFree(c)
    ensures var s' := Exec(s, ops);
            Lookup(s', c, ns) == Some(WatchEntry(app, channel))
            <==> app in s'.apps && Lists(s'.apps[app], c, ns) && s'.apps[app].channel == channel
  {
    ExecKeepsInv(s, ops);
    LookupInState(Exec(s, ops), c, ns, app, channel);
  }

  lemma LookupInState(s: State, c: string, ns: string, app: string, channel: string)
    requires Inv(s) && SlashFree(c)
    ensures Lookup(s, c, ns) == Some(WatchEntry(app, channel))
            <==> app in s.apps && Lists(s.apps[app], c, ns) && s.apps[app].channel == channel
  {
    var k := Key(c, ns);
    if app in s.apps && Lists(s.apps[app], c, ns) {
      assert OwnsKey(s.apps, app, k);
    }
    if k in s.index && s.index[k].app == app {
      assert OwnsKey(s.apps, app, k);
      var c', ns' :| c' in s.apps[app].clusters && ns' in s.apps[app].clusters[c'] && Key(c', ns') == k;
      KeyInjective(c, ns, c', ns');
    }
  }

  /** No pair has two owners. */
  lemma OneOwner(s: State, c: string, ns: string, a: string, b: string)
    requires Inv(s) && a in s.apps && b in s.apps && Lists(s.apps[a], c, ns) && Lists(s.apps[b], c, ns)
    ensures a == b
  {
    assert OwnsKey(s.apps, a, Key(c, ns)) && OwnsKey(s.apps, b, Key(c, ns));
  }

  /** A Put is rejected exactly when another app already lists one of the accepted pairs. */
  lemma ConflictIff(s: State, app: string, spec: Spec, known: set<string>)
    requires Inv(s) && forall c | c in known :: SlashFree(c)
    ensures Conflicts(s.index, app, Accepted(spec, known)) <==>
            exists other, c, ns :: && other in s.apps && other != app
                                   && Lists(s.apps[other], c, ns) && Lists(spec, c, ns) && c in known
  {
    var stored := Accepted(spec, known);
    if k :| k in Keys(stored) && k in s.index && s.index[k].app != app {
      var c, ns :| c in stored.clusters && ns in stored.clusters[c] && Key(c, ns) == k;
      LookupInState(s, c, ns, s.index[k].app, s.index[k].channel);
      assert Lists(spec, c, ns) && c in known;
    }
    if other, c, ns :| other in s.apps && other != app && Lists(s.apps[other], c, ns) && Lists(spec, c, ns) && c in known {
      assert OwnsKey(s.apps, other, Key(c, ns));
      assert Key(c, ns) in Keys(stored);
    }
  }

  /** A conflicting Put and any operation that reports an error leave the index and the registrations alone. */
  lemma FailureChangesNothing(s: State, op: Op)
    requires op.outcome != Acked || (op.Put? && Conflicts(s.index, op.app, Accepted(op.spec, op.known)))
    ensures Step(s, op).index == s.index && Step(s, op).apps == s.apps
  {
  }

  // ---------- Restart ----------

  /** The index determined by the registrations is the only one that agrees with them. */
  lemma IndexUnique(i: map<string, WatchEntry>, j: map<string, WatchEntry>, apps: map<string, Spec>)
    requires IndexAgrees(i, apps) && IndexAgrees(j, apps)
    ensures i == j
  {
    forall k | k in i ensures k in j && i[k] == j[k] {
      assert OwnsKey(apps, i[k].app, k);
    }
    forall k | k in j ensures k in i {
      assert OwnsKey(apps, j[k].app, k);
    }
  }

  /** The resources mirror the registrations, for app names that sanitizing leaves unchanged. */
  ghost predicate Mirrored(s: State) {
    s.crs == s.apps && forall a | a in s.apps :: SanitizeName(a) == a
  }

  /** An operation keeps the mirror exactly when it is not a lost reply that changed the resources. */
  lemma MirrorKeptIff(s: State, op: Op)
    requires Mirrored(s) && SanitizeName(op.app) == op.app
    ensures Mirrored(Step(s, op)) <==>
            op.outcome != LostReply || (if op.Delete? then op.app !in s.apps else
              Conflicts(s.index, op.app, Accepted(op.spec, op.known))
              || (op.app in s.apps && s.apps[op.app] == Accepted(op.spec, op.known)))
  {
    var s' := Step(s, op);
    if op.outcome == LostReply {
      match op {
        case Put(app, spec, known, outcome) =>
          var stored := Accepted(spec, known);
          if !Conflicts(s.index, app, stored) {
            assert s'.crs[app] == stored && s'.apps == s.apps;
            if app in s.apps && s.apps[app] == stored { assert s.apps[app := stored] == s.apps; }
          }
        case Delete(app, outcome) =>
          if app in s.apps { assert app !in s'.crs && app in s'.apps; }
      }
    }
  }

  lemma {:induction false} MirrorKept(s: State, ops: seq<Op>)
    requires Mirrored(s)
    requires forall op | op in ops :: op.outcome != LostReply && SanitizeName(op.app) == op.app
    ensures Mirrored(Exec(s, ops))
    decreases |ops|
  {
    if ops != [] {
      var n := |ops| - 1;
      assert ops[n] in ops && forall op | op in ops[..n] :: op in ops;
      MirrorKept(s, ops[..n]);
      MirrorKeptIff(Exec(s, ops[..n]), ops[n]);
    }
  }

  /** The state that LoadAll builds from a listing of the resources. */
  function Loaded(items: seq<(string, Spec)>, crs: map<string, Spec>): State {
    if items == [] then State(map[], map[], crs)
    else
      var (name, spec) := items[|items| - 1];
      var s := Loaded(items[..|items| - 1], crs);
      State(WithEntries(s.index, name, spec), s.apps[name := spec], crs)
  }

  function NamesOf(items: seq<(string, Spec)>): set<string> {
    set i | 0 <= i < |items| :: items[i].0
  }

  ghost predicate Distinct(items: seq<(string, Spec)>) {
    forall i, j | 0 <= i < j < |items| :: items[i].0 != items[j].0
  }

  ghost predicate TakenFrom(items: seq<(string, Spec)>, crs: map<string, Spec>) {
    forall i | 0 <= i < |items| :: items[i].0 in crs && crs[items[i].0] == items[i].1
  }

  /** A listing of the resources: each exactly once, in any order. */
  ghost predicate IsListing(items: seq<(string, Spec)>, crs: map<string, Spec>) {
    Distinct(items) && TakenFrom(items, crs) && NamesOf(items) == crs.Keys
  }

  /** No two resources list the same key. */
  ghost predicate Disjoint(crs: map<string, Spec>) {
    forall a, b, k | OwnsKey(crs, a, k) && OwnsKey(crs, b, k) :: a == b
  }

  lemma {:induction false} LoadedAgrees(items: seq<(string, Spec)>, crs: map<string, Spec>)
    requires Disjoint(crs) && Distinct(items) && TakenFrom(items, crs)
    ensures var s := Loaded(items, crs);
            IndexAgrees(s.index, s.apps) && s.apps.Keys == NamesOf(items) && forall n | n in s.apps :: n in crs && s.apps[n] == crs[n]
    decreases |items|
  {
    if items != [] {
      var n := |items| - 1;
      var init := items[..n];
      LoadedAgrees(init, crs);
      var (name, spec) := items[n];
      var s := Loaded(init, crs);
      NamesGrow(items);
      AddFresh(s.index, s.apps, name, spec, crs);
    }
  }

  lemma NamesGrow(items: seq<(string, Spec)>)
    requires items != []
    ensures var n := |items| - 1;
            && NamesOf(items) == NamesOf(items[..n]) + {items[n].0}
            && (Distinct(items) ==> items[n].0 !in NamesOf(items[..n]))
  {
    var n := |items| - 1;
    forall m | m in NamesOf(items) ensures m in NamesOf(items[..n]) + {items[n].0} {
      var i :| 0 <= i < |items| && items[i].0 == m;
      if i < n { assert items[..n][i].0 == m; }
    }
    forall m | m in NamesOf(items[..n]) ensures m in NamesOf(items) && (Distinct(items) ==> m != items[n].0) {
      var i :| 0 <= i < n && items[..n][i].0 == m;
      assert items[i].0 == m;
    }
  }

  lemma AddFresh(index: map<string, WatchEntry>, apps: map<string, Spec>, name: string, spec: Spec, crs: map<string, Spec>)
    requires IndexAgrees(index, apps) && name !in apps && Disjoint(crs)
    requires name in crs && crs[name] == spec && forall n | n in apps :: n in crs && apps[n] == crs[n]
    ensures IndexAgrees(WithEntries(index, name, spec), apps[name := spec])
  {
    assert WithoutApp(index, name) == index by {
      forall k | k in index ensures index[k].app != name { assert OwnsKey(apps, index[k].app, k); }
    }
    forall k | k in Keys(spec) ensures k !in index {
      if k in index {
        assert OwnsKey(apps, index[k].app, k);
        assert OwnsKey(crs, index[k].app, k) && OwnsKey(crs, name, k);
      }
    }
    PutKeepsIndex(index, apps, name, spec);
  }

  lemma AppsDisjoint(s: State)
    requires Inv(s)
    ensures Disjoint(s.apps)
  {
  }

  /** Whatever the order of the listing, a restart after any sequence of operations with no lost reply rebuilds
      the same registrations, index and desired clusters. */
  lemma RestartRoundTrip(s: State, ops: seq<Op>, items: seq<(string, Spec)>)
    requires Inv(s) && Mirrored(s)
    requires forall op | op in ops :: KnownSlashFree(op) && op.outcome != LostReply && SanitizeName(op.app) == op.app
    requires IsListing(items, Exec(s, ops).crs)
    ensures Loaded(items, Exec(s, ops).crs) == Exec(s, ops)
    ensures Desired(Loaded(items, Exec(s, ops).crs).apps) == Desired(Exec(s, ops).apps)
  {
    var s' := Exec(s, ops);
    ExecKeepsInv(s, ops);
    MirrorKept(s, ops);
    AppsDisjoint(s');
    LoadedAgrees(items, s'.crs);
    var l := Loaded(items, s'.crs);
    assert l.apps == s'.crs;
    IndexUnique(l.index, s'.index, s'.apps);
    LoadedKeepsCrs(items, s'.crs);
  }

  lemma LoadedKeepsCrs(items: seq<(string, Spec)>, crs: map<string, Spec>)
    ensures Loaded(items, crs).crs == crs
  {
  }

  // ---------- Which app names survive a restart ----------

  /** Operations on apps of U, with slash-free clusters, none of them applied and reported as failed. */
  ghost predicate RunOver(U: set<string>, ops: seq<Op>) {
    forall op | op in ops :: op.app in U && op.outcome != LostReply && KnownSlashFree(op)
  }

  /** A restart rebuilds the state, in whatever order the resources are listed. */
  ghost predicate Survives(s: State) {
    forall items | IsListing(items, s.crs) :: Loaded(items, s.crs) == s
  }

  /** For any set of app names: every run over them from a mirrored state survives a restart at its end exactly when
      sanitizing leaves each of the names unchanged; and just then the resources always hold the registrations. */
  lemma RestartKeepsAppsIff(U: set<string>)
    ensures (forall s, ops | Inv(s) && Mirrored(s) && RunOver(U, ops) :: Exec(s, ops).crs == Exec(s, ops).apps)
            <==> forall a | a in U :: SanitizeName(a) == a
    ensures (forall s, ops | Inv(s) && Mirrored(s) && RunOver(U, ops) :: Survives(Exec(s, ops)))
            <==> forall a | a in U :: SanitizeName(a) == a
  {
    if forall a | a in U :: SanitizeName(a) == a {
      forall s, ops | Inv(s) && Mirrored(s) && RunOver(U, ops)
        ensures Exec(s, ops).crs == Exec(s, ops).apps && Survives(Exec(s, ops))
      {
        MirrorKept(s, ops);
        forall items | IsListing(items, Exec(s, ops).crs) ensures Loaded(items, Exec(s, ops).crs) == Exec(s, ops) {
          RestartRoundTrip(s, ops, items);
        }
      }
    } else {
      var a :| a in U && SanitizeName(a) != a;
      var ops := [Put(a, Spec("", map[]), {}, Acked)];
      RenamedOnPut(a);
      assert RunOver(U, ops) && Inv(Fresh()) && Mirrored(Fresh());
      assert Exec(Fresh(), ops).crs != Exec(Fresh(), ops).apps && !Survives(Exec(Fresh(), ops));
    }
  }

  function Fresh(): State {
    State(map[], map[], map[])
  }

  lemma RenamedOnPut(a: string)
    requires SanitizeName(a) != a
    ensures var s := Exec(Fresh(), [Put(a, Spec("", map[]), {}, Acked)]); s.crs != s.apps && !Survives(s)
  {
    var stored := Spec("", map[]);
    var op := Put(a, stored, {}, Acked);
    assert [op][..0] == [];
    assert Exec(Fresh(), [op][..0]) == Fresh();
    assert Exec(Fresh(), [op]) == Step(Fresh(), op);
    assert Accepted(stored, {}) == stored;
    var s := Step(Fresh(), op);
    var items := [(SanitizeName(a), stored)];
    assert a in s.apps && a !in s.crs;
    assert s.crs == map[SanitizeName(a) := stored];
    assert items[0].0 in NamesOf(items);
    assert IsListing(items, s.crs);
    assert SanitizeName(a) in Loaded(items, s.crs).apps;
  }

  /** Two apps whose names collide, the first of them deleted: the registration that is left has lost its resource,
      although its own name is one that sanitizing leaves unchanged. */
  lemma CollidingNamesLose(spec: Spec, other: Spec, known: set<string>)
    requires spec.clusters == other.clusters == map[]
    ensures var s := Exec(Fresh(), [Put("a.b", spec, known, Acked), Put("a-b", other, known, Acked), Delete("a.b", Acked)]);
            s.apps.Keys == {"a-b"} && SanitizeName("a-b") == "a-b" && s.crs == map[] && !Survives(s)
  {
    var p, q, d := Put("a.b", spec, known, Acked), Put("a-b", other, known, Acked), Delete("a.b", Acked);
    SameResource();
    var s1 := Step(Fresh(), p);
    var s2 := Step(s1, q);
    var s3 := Step(s2, d);
    ExecThree(Fresh(), p, q, d);
    assert s3.apps == map["a-b" := Accepted(other, known)] && s3.crs == map[];
    NothingListed(s3);
  }

  lemma ExecThree(s: State, a: Op, b: Op, c: Op)
    ensures Exec(s, [a, b, c]) == Step(Step(Step(s, a), b), c)
  {
    assert [a, b, c][..2] == [a, b] && [a, b][..1] == [a];
    assert [a][..0] == [];
    assert Exec(s, [a]) == Step(Exec(s, [a][..0]), a);
    assert Exec(s, [a, b]) == Step(Exec(s, [a]), b);
  }

  lemma NothingListed(s: State)
    requires s.crs == map[] && s.apps != map[]
    ensures !Survives(s)
  {
    assert IsListing([], s.crs);
    assert Loaded([], s.crs).apps == map[];
  }

  lemma SameResource()
    ensures SanitizeName("a.b") == SanitizeName("a-b") == "a-b"
  {
    FixedIff("a-b");
    assert Core("a-b") == "a-b" && Core("a.b") == "a.b";
    ShortNamesCollideIff("a.b", "a-b");
  }
}
