/**
 What the watchlist's operations mean, for the registrations and for lookups, and what a lookup answers after a run in
 terms of the operations alone.
 */
module WatchlistLaws {
  import opened Wrappers
  import opened WatchlistModel

  /** Another app lists one of the pairs that this registration would add. */
  ghost predicate Rejected(s: State, app: string, spec: Spec, known: set<string>) {
    exists other, c, ns ::
      && other in s.apps && other != app && c in s.apps[other].clusters && ns in s.apps[other].clusters[c]
      && c in known && c in spec.clusters && ns in spec.clusters[c]
  }

  /** The channel of a spec, and its namespaces on the clusters that are known. */
  ghost predicate Registered(r: Spec, spec: Spec, known: set<string>) {
    && r.channel == spec.channel
    && (forall c :: c in r.clusters <==> c in spec.clusters && c in known)
    && (forall c | c in r.clusters :: r.clusters[c] == spec.clusters[c])
  }

  /** The registrations of all other apps are the same. */
  ghost predicate OthersKept(apps: map<string, Spec>, apps': map<string, Spec>, app: string) {
    forall a | a != app :: Get(apps', a) == Get(apps, a)
  }

  lemma RejectedIff(s: State, app: string, spec: Spec, known: set<string>)
    requires Inv(s) && forall c | c in known :: SlashFree(c)
    ensures Rejected(s, app, spec, known) <==> Conflicts(s.index, app, Accepted(spec, known))
  {
    ConflictIff(s, app, spec, known);
    if Rejected(s, app, spec, known) {
      var other, c, ns :| && other in s.apps && other != app && c in s.apps[other].clusters && ns in s.apps[other].clusters[c]
                          && c in known && c in spec.clusters && ns in spec.clusters[c];
      assert Lists(s.apps[other], c, ns) && Lists(spec, c, ns);
    }
    if other, c, ns :| other in s.apps && other != app && Lists(s.apps[other], c, ns) && Lists(spec, c, ns) && c in known {
      assert Rejected(s, app, spec, known);
    }
  }

  /** A Put that is acknowledged and not rejected registers the app, and nothing else. */
  lemma PutRegisters(s: State, app: string, spec: Spec, known: set<string>)
    requires Inv(s) && (forall c | c in known :: SlashFree(c)) && !Rejected(s, app, spec, known)
    ensures var s' := Step(s, Put(app, spec, known, Acked));
            app in s'.apps && Registered(s'.apps[app], spec, known) && OthersKept(s.apps, s'.apps, app)
  {
    RejectedIff(s, app, spec, known);
  }

  /** Then lookups answer with the app and its channel for exactly those pairs, and for other apps as before. */
  lemma PutIsLookedUp(s: State, app: string, spec: Spec, known: set<string>, c: string, ns: string, e: WatchEntry)
    requires Inv(s) && (forall d | d in known :: SlashFree(d)) && !Rejected(s, app, spec, known) && SlashFree(c)
    ensures var s' := Step(s, Put(app, spec, known, Acked));
            Lookup(s', c, ns) == Some(e)
            <==> if e.app == app
                 then e.channel == spec.channel && c in known && c in spec.clusters && ns in spec.clusters[c]
                 else Lookup(s, c, ns) == Some(e)
  {
    var op := Put(app, spec, known, Acked);
    PutRegisters(s, app, spec, known);
    StepKeepsInv(s, op);
    LookupInState(Step(s, op), c, ns, e.app, e.channel);
    LookupInState(s, c, ns, e.app, e.channel);
    if e.app != app { assert Get(Step(s, op).apps, e.app) == Get(s.apps, e.app); }
  }

  /** Lookups answer with the app for exactly the pairs of the spec on known clusters, and for other apps as before. */
  ghost predicate AnswersFor(s: State, s': State, app: string, spec: Spec, known: set<string>) {
    forall c, ns, e | SlashFree(c) ::
      Lookup(s', c, ns) == Some(e)
      <==> if e.app == app then e.channel == spec.channel && c in known && c in spec.clusters && ns in spec.clusters[c]
           else Lookup(s, c, ns) == Some(e)
  }

  /** Lookups never answer with the app, and for other apps as before. */
  ghost predicate SilentOn(s: State, s': State, app: string) {
    forall c, ns, e | SlashFree(c) :: Lookup(s', c, ns) == Some(e) <==> e.app != app && Lookup(s, c, ns) == Some(e)
  }

  lemma PutIsLookedUpEverywhere(s: State, app: string, spec: Spec, known: set<string>)
    requires Inv(s) && (forall d | d in known :: SlashFree(d)) && !Conflicts(s.index, app, Accepted(spec, known))
    ensures AnswersFor(s, Step(s, Put(app, spec, known, Acked)), app, spec, known)
  {
    RejectedIff(s, app, spec, known);
    forall c, ns, e | SlashFree(c)
      ensures Lookup(Step(s, Put(app, spec, known, Acked)), c, ns) == Some(e)
              <==> if e.app == app
                   then e.channel == spec.channel && c in known && c in spec.clusters && ns in spec.clusters[c]
                   else Lookup(s, c, ns) == Some(e)
    {
      PutIsLookedUp(s, app, spec, known, c, ns, e);
    }
  }

  lemma DeleteIsSilent(s: State, app: string)
    requires Inv(s)
    ensures SilentOn(s, Step(s, Delete(app, Acked)), app)
  {
    forall c, ns, e | SlashFree(c)
      ensures Lookup(Step(s, Delete(app, Acked)), c, ns) == Some(e) <==> e.app != app && Lookup(s, c, ns) == Some(e)
    {
      DeleteUnregisters(s, app, c, ns, e);
    }
  }

  /** An acknowledged Delete removes the app from the registrations and from every lookup, and nothing else. */
  lemma DeleteUnregisters(s: State, app: string, c: string, ns: string, e: WatchEntry)
    requires Inv(s) && SlashFree(c)
    ensures var s' := Step(s, Delete(app, Acked));
            && app !in s'.apps && OthersKept(s.apps, s'.apps, app)
            && (Lookup(s', c, ns) == Some(e) <==> e.app != app && Lookup(s, c, ns) == Some(e))
  {
    var op := Delete(app, Acked);
    StepKeepsInv(s, op);
    LookupInState(Step(s, op), c, ns, e.app, e.channel);
    LookupInState(s, c, ns, e.app, e.channel);
  }

  // ---------- Over a run ----------

  /** Operation i registers the app. */
  ghost predicate Registers(s: State, ops: seq<Op>, i: int, app: string) {
    && 0 <= i < |ops| && ops[i].Put? && ops[i].app == app && ops[i].outcome == Acked
    && !Rejected(Exec(s, ops[..i]), app, ops[i].spec, ops[i].known)
  }

  /** Operation i unregisters it, if it is registered. */
  ghost predicate Unregisters(ops: seq<Op>, i: int, app: string) {
    0 <= i < |ops| && ops[i].Delete? && ops[i].app == app && ops[i].outcome == Acked
  }

  ghost predicate Untouched(s: State, ops: seq<Op>, i: int, app: string) {
    forall j | i <= j < |ops| :: !Registers(s, ops, j, app) && !Unregisters(ops, j, app)
  }

  ghost predicate LastRegisters(s: State, ops: seq<Op>, i: int, app: string) {
    Registers(s, ops, i, app) && Untouched(s, ops, i + 1, app)
  }

  lemma StepOfOther(s: State, op: Op, app: string)
    requires Inv(s) && KnownSlashFree(op)
    requires !(op.app == app && op.outcome == Acked && (op.Put? ==> !Rejected(s, app, op.spec, op.known)))
    ensures Get(Step(s, op).apps, app) == Get(s.apps, app)
  {
    if op.Put? && op.app == app { RejectedIff(s, app, op.spec, op.known); }
  }

  lemma OneMore(s: State, ops: seq<Op>, i: int, app: string)
    requires ops != [] && 0 <= i < |ops| - 1
    ensures Registers(s, ops, i, app) <==> Registers(s, ops[..|ops| - 1], i, app)
    ensures Unregisters(ops, i, app) <==> Unregisters(ops[..|ops| - 1], i, app)
  {
    assert ops[..|ops| - 1][..i] == ops[..i];
  }

  lemma UntouchedMore(s: State, ops: seq<Op>, i: int, app: string)
    requires ops != [] && 0 <= i < |ops|
    ensures var n := |ops| - 1;
            Untouched(s, ops, i, app)
            <==> Untouched(s, ops[..n], i, app) && !Registers(s, ops, n, app) && !Unregisters(ops, n, app)
  {
    var n := |ops| - 1;
    forall j | i <= j < n
      ensures Registers(s, ops, j, app) <==> Registers(s, ops[..n], j, app)
      ensures Unregisters(ops, j, app) <==> Unregisters(ops[..n], j, app)
    {
      OneMore(s, ops, j, app);
    }
  }

  /** What is registered after a run: what the last operation that registered the app gave it, if nothing unregistered it
      since; or what was registered before, if nothing touched it. */
  ghost predicate Shown(s: State, ops: seq<Op>, app: string) {
    var r := Get(Exec(s, ops).apps, app);
    || (exists i :: LastRegisters(s, ops, i, app) && r.Some? && Registered(r.value, ops[i].spec, ops[i].known))
    || (Untouched(s, ops, 0, app) && r == Get(s.apps, app))
    || ((exists i :: Unregisters(ops, i, app) && Untouched(s, ops, i + 1, app)) && r.None?)
  }

  lemma {:induction false} RegisteredOverRun(s: State, ops: seq<Op>, app: string)
    requires Inv(s) && forall op | op in ops :: KnownSlashFree(op)
    ensures Shown(s, ops, app)
    decreases |ops|
  {
    if ops == [] {
      assert Untouched(s, ops, 0, app);
    } else {
      var n := |ops| - 1;
      var init, op := ops[..n], ops[n];
      var mid := Exec(s, init);
      assert op in ops && forall o | o in init :: o in ops;
      ExecKeepsInv(s, init);
      if Registers(s, ops, n, app) {
        PutRegisters(mid, app, op.spec, op.known);
        assert LastRegisters(s, ops, n, app);
      } else if Unregisters(ops, n, app) {
        assert Untouched(s, ops, n + 1, app);
      } else {
        RegisteredOverRun(s, init, app);
        StepOfOther(mid, op, app);
        ShownStays(s, ops, app);
      }
    }
  }

  lemma ShownStays(s: State, ops: seq<Op>, app: string)
    requires ops != [] && Shown(s, ops[..|ops| - 1], app)
    requires !Registers(s, ops, |ops| - 1, app) && !Unregisters(ops, |ops| - 1, app)
    requires Get(Exec(s, ops).apps, app) == Get(Exec(s, ops[..|ops| - 1]).apps, app)
    ensures Shown(s, ops, app)
  {
    var n := |ops| - 1;
    var init := ops[..n];
    var r := Get(Exec(s, init).apps, app);
    if i :| LastRegisters(s, init, i, app) && r.Some? && Registered(r.value, init[i].spec, init[i].known) {
      OneMore(s, ops, i, app);
      UntouchedMore(s, ops, i + 1, app);
      assert LastRegisters(s, ops, i, app) && init[i] == ops[i];
    } else if Untouched(s, init, 0, app) && r == Get(s.apps, app) {
      UntouchedMore(s, ops, 0, app);
    } else {
      var i :| Unregisters(init, i, app) && Untouched(s, init, i + 1, app);
      OneMore(s, ops, i, app);
      UntouchedMore(s, ops, i + 1, app);
    }
  }

  /** After any run, a lookup answers with an app and a channel exactly when the last acknowledged and unrejected Put of the
      app, with no acknowledged Delete of it since, had that channel and listed the pair on a known cluster; or when
      nothing has registered or unregistered the app and the lookup answered so at the start. */
  lemma LookupOverRun(s: State, ops: seq<Op>, c: string, ns: string, e: WatchEntry)
    requires Inv(s) && (forall op | op in ops :: KnownSlashFree(op)) && SlashFree(c)
    ensures Lookup(Exec(s, ops), c, ns) == Some(e)
            <==> || (exists i :: LastRegisters(s, ops, i, e.app) && e.channel == ops[i].spec.channel && c in ops[i].known
                                 && c in ops[i].spec.clusters && ns in ops[i].spec.clusters[c])
                 || (Untouched(s, ops, 0, e.app) && Lookup(s, c, ns) == Some(e))
  {
    ExecKeepsInv(s, ops);
    RegisteredOverRun(s, ops, e.app);
    LookupInState(Exec(s, ops), c, ns, e.app, e.channel);
    LookupInState(s, c, ns, e.app, e.channel);
    forall i, j | LastRegisters(s, ops, i, e.app) && (Registers(s, ops, j, e.app) || Unregisters(ops, j, e.app))
      ensures j <= i
    {
    }
  }

  /** The clusters that the watchlist asks the manager for. */
  lemma DesiredIff(apps: map<string, Spec>, c: string)
    ensures c in Desired(apps) <==> exists a :: a in apps && c in apps[a].clusters
  {
  }
}
