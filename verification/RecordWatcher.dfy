/**
 The API server and the split-mode RecordWatcher, which drives the claim protocol.

 Every method is proved to be an interleaving of protocol steps: what RolloutTheorems proves of every run holds of
 every execution of this code, with any other replicas running between any two of its API calls.
 */
module RecordWatcher {
  import opened Wrappers
  import opened RolloutProtocol
  import opened RolloutTheorems
  import Dispatcher

  /** The world with further handler threads in it. */
  function With(w: World, mine: multiset<Handler>): World {
    w.(pool := w.pool + mine)
  }

  lemma StepAmong(w: World, a: Action, mine: multiset<Handler>)
    requires Enabled(w, a)
    ensures Enabled(With(w, mine), a) && Step(With(w, mine), a) == With(Step(w, a), mine)
  {
    EnabledAmong(w, a, mine);
    PoolShift(w.pool, mine, Ended(a), Started(w.db, a));
  }

  lemma PoolShift(pool: multiset<Handler>, mine: multiset<Handler>, ended: multiset<Handler>, started: multiset<Handler>)
    requires ended <= pool
    ensures pool + mine - ended + started == pool - ended + started + mine
  {
  }

  lemma EnabledAmong(w: World, a: Action, mine: multiset<Handler>)
    requires Enabled(w, a)
    ensures Enabled(With(w, mine), a) && Ended(a) <= w.pool
  {
  }

  /** What other threads do among themselves, they may also do while this one is suspended. */
  lemma {:induction false} OthersLead(w: World, acts: seq<Action>, mine: multiset<Handler>)
    ensures Leads(With(w, mine), With(Exec(w, acts), mine))
    decreases |acts|
  {
    if acts == [] {
      assert With(w, mine) == Exec(With(w, mine), []);
    } else {
      var w1 := Step(w, acts[0]);
      OthersLead(w1, acts[1..], mine);
      if Enabled(w, acts[0]) {
        StepAmong(w, acts[0], mine);
        StepLeads(With(w, mine), acts[0]);
        LeadsOn(With(w, mine), With(w1, mine), With(Exec(w, acts), mine));
      }
    }
  }

  lemma {:induction false} ClockGrows(w: World, acts: seq<Action>)
    ensures w.clock <= Exec(w, acts).clock && w.ttl == Exec(w, acts).ttl
    decreases |acts|
  {
    if acts != [] {
      ClockGrows(Step(w, acts[0]), acts[1..]);
    }
  }

  lemma LeadsKeepsInv(w: World, w': World)
    requires Inv(w) && Leads(w, w')
    ensures Inv(w')
  {
    var acts: seq<Action> :| w' == Exec(w, acts);
    ExecKeepsInv(w, acts);
  }

  /** What an update of record n to r leaves. */
  function Updated(w: World, n: string, r: Record, reply: Reply, note: multiset<Event>): World {
    if Applies(w.db, n, r, reply) then w.(db := Put(w.db, n, r), log := w.log + note) else w
  }

  /** Record n holds what r holds, under a new version if that is a change, and all other records are as before. */
  ghost predicate Stores(w: World, w': World, n: string, r: Record) {
    && n in w'.db.store && w'.db.store[n] == r.(version := w'.db.store[n].version)
    && (w'.db.store[n].version == w.db.nextVersion || w'.db.store == w.db.store)
    && w'.db.store - {n} == w.db.store - {n}
    && w'.clock == w.clock && w'.reports == w.reports && w'.pool == w.pool
  }

  /** What a deletion of record n leaves. */
  function Deleted(w: World, n: string, reply: Reply): World {
    if reply == Refused || n !in w.db.store then w
    else w.(db := w.db.(store := w.db.store - {n}),
            log := w.log + multiset{Removed(n, w.db.store[n].phase, w.clock - w.db.store[n].created)})
  }

  /** What recording an outcome leaves: the final status on the record as it was read, if it is still that. */
  function Recorded(w: World, name: string, rep: Report, local: bool, got: Option<Record>, reply: Reply,
                    env: seq<Action>): World {
    if got.None? || (name, got.value) !in w.db.seen then w
    else
      var w' := Exec(w, env);
      Updated(w', name, Finished(got.value, rep, local, w'.clock), reply, multiset{})
  }

  /** What a run of DispatchEvent leaves. */
  function DispatchRun(w: World, name: string, rep: Report): World {
    w.(log := w.log + multiset{Ran(name)}, reports := w.reports + {(name, rep)})
  }

  /** The API server, and the history that the protocol keeps beside it. `world.pool` holds the handler threads
      other than the one whose method is running. */
  class ApiServer {
    var world: World

    constructor (clock: int, ttl: int)
      ensures world == Initial(clock, ttl)
    {
      world := Initial(clock, ttl);
    }

    /** The update of a status with compare-and-swap on the version the object carries. */
    method UpdateStatus(n: string, r: Record, reply: Reply, note: multiset<Event>) returns (failed: bool)
      modifies this
      ensures world == Updated(old(world), n, r, reply, note)
      ensures if reply != Refused && n in old(world.db.store) && old(world.db.store[n].version) == r.version
              then Stores(old(world), world, n, r) else world == old(world)
      ensures failed <==> !(Applies(old(world).db, n, r, reply) && reply == Acked)
    {
      failed := true;
      if Applies(world.db, n, r, reply) {
        world := world.(db := Put(world.db, n, r), log := world.log + note);
        failed := reply != Acked;
      }
    }

    /** The unconditional delete by name. */
    method Delete(n: string, reply: Reply) returns (failed: bool)
      modifies this
      ensures world == Deleted(old(world), n, reply)
      ensures failed <==> !(reply == Acked && n in old(world).db.store)
    {
      failed := true;
      if reply != Refused && n in world.db.store {
        var r := world.db.store[n];
        world := world.(db := world.db.(store := world.db.store - {n}),
                        log := world.log + multiset{Removed(n, r.phase, world.clock - r.created)});
        failed := reply != Acked;
      }
    }

    /** Any number of steps of other threads, while the running method's own thread `mine` is suspended. */
    method Others(acts: seq<Action>, ghost mine: multiset<Handler>)
      modifies this
      ensures world == Exec(old(world), acts)
      ensures Leads(With(old(world), mine), With(world, mine))
      ensures old(world).db.seen <= world.db.seen && old(world).clock <= world.clock && world.ttl == old(world).ttl
    {
      OthersLead(world, acts, mine);
      SeenGrows(world, acts);
      ClockGrows(world, acts);
      world := Exec(world, acts);
    }
  }

  datatype Handling = Skipped | NotClaimed | Done(rep: Report)

  class RecordWatcher {
    const server: ApiServer
    const stuckTimeout: int

    constructor (server: ApiServer)
      ensures this.server == server && stuckTimeout == STUCK_TIMEOUT
    {
      this.server := server;
      stuckTimeout := STUCK_TIMEOUT;
    }

    /** A claim is one compare-and-swap; only an acknowledged one makes this thread the record's handler. */
    method ClaimRecord(name: string, u: Record, reply: Reply) returns (claimed: bool)
      requires (name, u) in server.world.db.seen && u.phase == Detected
      modifies server
      ensures With(server.world, if claimed then multiset{ToDispatch(name)} else multiset{})
              == Step(old(server.world), Claim(name, u, reply))
      ensures server.world == Updated(old(server.world), name, u.(phase := Processing), reply, multiset{Claimed(name)})
      ensures claimed <==> reply == Acked && Applies(old(server.world).db, name, u, reply)
      ensures claimed ==> Stores(old(server.world), server.world, name, u.(phase := Processing))
    {
      var claim := u.(phase := Processing);
      var failed := server.UpdateStatus(name, claim, reply, multiset{Claimed(name)});
      claimed := !failed;
      ghost var w := old(server.world);
      assert w.log + multiset{} == w.log && w.pool - multiset{} == w.pool;
    }

    /** Reads the record back, sets the final status on what it read and writes that: the handler ends. */
    method UpdateRecordStatus(name: string, rep: Report, got: Option<Record>, reply: Reply, env: seq<Action>)
      modifies server
      ensures server.world == Recorded(old(server.world), name, rep, false, got, reply, env)
      ensures Leads(With(old(server.world), multiset{ToFetch(name, rep, false)}), server.world)
      ensures got.Some? && (name, got.value) in old(server.world.db.seen) ==>
                var w, r := Exec(old(server.world), env), got.value;
                if reply != Refused && name in w.db.store && w.db.store[name].version == r.version
                then Stores(w, server.world, name,
                            if rep.error != ""
                            then r.(phase := Failed, error := rep.error, targets := rep.targets, dispatchedAt := Some(w.clock))
                            else r.(phase := Dispatched, targets := rep.targets, dispatchedAt := Some(w.clock)))
                else server.world == w
    {
      RecordedLeads(server.world, name, rep, false, got, reply, env);
      if got.None? || (name, got.value) !in server.world.db.seen { return; }
      server.Others(env, multiset{});
      var snap := got.value;
      var status := snap.(targets := rep.targets, dispatchedAt := Some(server.world.clock));
      if rep.error != "" {
        status := status.(phase := Failed, error := rep.error);
      } else {
        status := status.(phase := Dispatched);
      }
      var failed := server.UpdateStatus(name, status, reply, multiset{});
    }

    /** Claims a Detected record, dispatches its event once, and records the outcome. */
    method HandleRecord(name: string, u: Record, claimReply: Reply, attempts: seq<Dispatcher.Attempt>,
                        got: Option<Record>, finishReply: Reply, env: seq<seq<Action>>) returns (result: Handling)
      requires (name, u) in server.world.db.seen
      requires |env| == 3
      modifies server
      ensures Leads(old(server.world), server.world)
      ensures result == Skipped <==> u.phase != Detected
      ensures result == Skipped ==> server.world == old(server.world)
      ensures result.Done? <==>
                u.phase == Detected && claimReply == Acked && Applies(old(server.world).db, name, u, claimReply)
      ensures var claimed := Updated(old(server.world), name, u.(phase := Processing), claimReply,
                                     multiset{Claimed(name)});
              && (result == NotClaimed ==> server.world == claimed)
              && (result.Done? ==>
                    && result.rep == Report(Dispatcher.Succeeded(attempts), Dispatcher.FinalError(attempts))
                    && server.world == Recorded(Exec(DispatchRun(Exec(claimed, env[0]), name, result.rep), env[1]),
                                                name, result.rep, false, got, finishReply, env[2]))
      ensures result.Done? ==>
                && (name, result.rep) in server.world.reports
                && server.world.log[Ran(name)] > old(server.world.log)[Ran(name)]
                && server.world.log[Claimed(name)] > old(server.world.log)[Claimed(name)]
      ensures var w := old(server.world);
              && env == [[], [], []] && claimReply == finishReply == Acked && name in w.db.store && u == w.db.store[name]
              && u.phase == Detected && got == Some(u.(phase := Processing, version := w.db.nextVersion))
              ==>
              && result.Done?
              && Finishes(w, server.world, name, u, Dispatcher.Succeeded(attempts), Dispatcher.FinalError(attempts))
    {
      ghost var w := server.world;
      if u.phase != Detected {
        assert w == Exec(w, []);
        return Skipped;
      }
      result := HandleDetected(name, u, claimReply, attempts, got, finishReply, env);
      if result.Done? {
        HandledGrows(Updated(w, name, u.(phase := Processing), claimReply, multiset{Claimed(name)}),
                     name, result.rep, got, finishReply, env);
        if env == [[], [], []] && finishReply == Acked && u == w.db.store[name]
           && got == Some(u.(phase := Processing, version := w.db.nextVersion))
        {
          HandledAlone(w, name, u, result.rep);
        }
      }
    }

    method HandleDetected(name: string, u: Record, claimReply: Reply, attempts: seq<Dispatcher.Attempt>,
                          got: Option<Record>, finishReply: Reply, env: seq<seq<Action>>) returns (result: Handling)
      requires (name, u) in server.world.db.seen && u.phase == Detected
      requires |env| == 3
      modifies server
      ensures Leads(old(server.world), server.world)
      ensures !result.Skipped?
      ensures result.Done? <==> claimReply == Acked && Applies(old(server.world).db, name, u, claimReply)
      ensures var claimed := Updated(old(server.world), name, u.(phase := Processing), claimReply,
                                     multiset{Claimed(name)});
              && (result == NotClaimed ==> server.world == claimed)
              && (result.Done? ==>
                    && result.rep == Report(Dispatcher.Succeeded(attempts), Dispatcher.FinalError(attempts))
                    && server.world == Recorded(Exec(DispatchRun(Exec(claimed, env[0]), name, result.rep), env[1]),
                                                name, result.rep, false, got, finishReply, env[2]))
    {
      ghost var w := server.world;
      var claimed := ClaimRecord(name, u, claimReply);
      StepLeads(w, Claim(name, u, claimReply));
      ghost var w1 := server.world;
      if !claimed {
        assert With(w1, multiset{}) == w1;
        return NotClaimed;
      }
      var rep := DispatchClaimed(name, attempts, got, finishReply, env);
      LeadsOn(w, With(w1, multiset{ToDispatch(name)}), server.world);
      return Done(rep);
    }

    /** What the holder of a claim does: one run of DispatchEvent, and its outcome recorded. */
    method DispatchClaimed(name: string, attempts: seq<Dispatcher.Attempt>, got: Option<Record>, reply: Reply,
                           env: seq<seq<Action>>) returns (rep: Report)
      requires |env| == 3
      modifies server
      ensures Leads(With(old(server.world), multiset{ToDispatch(name)}), server.world)
      ensures rep == Report(Dispatcher.Succeeded(attempts), Dispatcher.FinalError(attempts))
      ensures server.world == Recorded(Exec(DispatchRun(Exec(old(server.world), env[0]), name, rep), env[1]),
                                       name, rep, false, got, reply, env[2])
    {
      ghost var me := multiset{ToDispatch(name)};
      ghost var w := With(server.world, me);
      server.Others(env[0], me);
      ghost var w2 := server.world;
      var targetNames, dispatchErr := Dispatcher.DispatchEvent(attempts);
      rep := Report(targetNames, dispatchErr);
      server.world := DispatchRun(server.world, name, rep);
      ghost var w3 := server.world;
      ghost var fetching := multiset{ToFetch(name, rep, false)};
      DispatchLeads(w2, name, rep);
      LeadsOn(w, With(w2, me), With(w3, fetching));
      server.Others(env[1], fetching);
      ghost var w4 := server.world;
      LeadsOn(w, With(w3, fetching), With(w4, fetching));
      UpdateRecordStatus(name, rep, got, reply, env[2]);
      LeadsOn(w, With(w4, fetching), server.world);
    }

    /** Scans a List for Processing records older than the timeout and puts each back to Detected. */
    method DoRecoverStuck(items: seq<(string, Record)>, replies: seq<Reply>, env: seq<seq<Action>>)
      returns (attempted: seq<string>)
      requires stuckTimeout == STUCK_TIMEOUT
      requires forall item | item in items :: item in server.world.db.seen
      requires |replies| == |env| == |items|
      modifies server
      ensures Leads(old(server.world), server.world)
      ensures attempted == StuckNames(items, old(server.world.clock))
      ensures server.world == Recovered(old(server.world), items, replies, env, old(server.world.clock))
      ensures FreshList(old(server.world), items) && Undisturbed(replies, env) ==>
                forall i | 0 <= i < |items| :: PutBack(server.world, items[i], old(server.world.clock))
    {
      ghost var w := server.world;
      assert w == Exec(w, []);
      var now := server.world.clock;
      attempted := [];
      for i := 0 to |items|
        invariant Leads(w, server.world)
        invariant w.db.seen <= server.world.db.seen && now <= server.world.clock
        invariant attempted == StuckNames(items[..i], now)
        invariant server.world == Recovered(w, items[..i], replies[..i], env[..i], now)
      {
        RecoveredNext(w, items, replies, env, now, i);
        var (name, item) := items[i];
        assert items[i] in w.db.seen;
        if item.phase != Processing { continue; }
        if now - item.created < stuckTimeout { continue; }
        attempted := attempted + [name];
        ghost var before := server.world;
        var failed := server.UpdateStatus(name, item.(phase := Detected), replies[i], multiset{WasReset(name)});
        ResetLeads(before, name, item, replies[i]);
        ghost var mid := server.world;
        LeadsOn(w, before, mid);
        server.Others(env[i], multiset{});
        assert With(mid, multiset{}) == mid && With(server.world, multiset{}) == server.world;
        LeadsOn(w, mid, server.world);
      }
      assert items[..|items|] == items && replies[..|items|] == replies && env[..|items|] == env;
      if FreshList(w, items) && Undisturbed(replies, env) {
        RecoveredAlone(w, items, replies, env, now);
      }
    }
  }

  lemma {:induction false} HistoryGrows(w: World, acts: seq<Action>)
    ensures w.log <= Exec(w, acts).log && w.reports <= Exec(w, acts).reports
    decreases |acts|
  {
    if acts != [] {
      HistoryGrowsOnce(w, acts[0]);
      HistoryGrows(Step(w, acts[0]), acts[1..]);
    }
  }

  lemma HistoryGrowsOnce(w: World, a: Action)
    ensures w.log <= Step(w, a).log && w.reports <= Step(w, a).reports
  {
  }

  lemma RecordedGrows(w: World, name: string, rep: Report, got: Option<Record>, reply: Reply, env: seq<Action>)
    ensures var w' := Recorded(w, name, rep, false, got, reply, env); w.log <= w'.log && w.reports <= w'.reports
  {
    HistoryGrows(w, env);
  }

  lemma HandledGrows(claimed: World, name: string, rep: Report, got: Option<Record>, reply: Reply, env: seq<seq<Action>>)
    requires |env| == 3
    ensures var w' := Recorded(Exec(DispatchRun(Exec(claimed, env[0]), name, rep), env[1]), name, rep, false, got, reply, env[2]);
            && claimed.log <= w'.log && (name, rep) in w'.reports && w'.log[Ran(name)] > claimed.log[Ran(name)]
  {
    var before := Exec(claimed, env[0]);
    var ran := DispatchRun(before, name, rep);
    HistoryGrows(claimed, env[0]);
    HistoryGrows(ran, env[1]);
    RecordedGrows(Exec(ran, env[1]), name, rep, got, reply, env[2]);
    assert ran.log[Ran(name)] == before.log[Ran(name)] + 1;
  }

  /** Record n, which held u, now shows the outcome of the one run of DispatchEvent since. */
  ghost predicate Finishes(w: World, w': World, n: string, u: Record, targets: seq<string>, error: string) {
    && n in w'.db.store
    && w'.db.store[n].phase == (if error == "" then Dispatched else Failed)
    && w'.db.store[n].error == (if error == "" then u.error else error)
    && w'.db.store[n].targets == targets && w'.db.store[n].dispatchedAt == Some(w.clock)
    && w'.db.store[n].created == u.created
    && w'.log[Ran(n)] == w.log[Ran(n)] + 1
  }

  /** A claimed record, dispatched and finished with nothing in between. */
  lemma HandledAlone(w: World, name: string, u: Record, rep: Report)
    requires name in w.db.store && u == w.db.store[name] && u.phase == Detected
    ensures var claimed := Updated(w, name, u.(phase := Processing), Acked, multiset{Claimed(name)});
            var read := u.(phase := Processing, version := w.db.nextVersion);
            var w' := Recorded(Exec(DispatchRun(Exec(claimed, []), name, rep), []), name, rep, false, Some(read), Acked, []);
            Finishes(w, w', name, u, rep.targets, rep.error)
  {
    var read := u.(phase := Processing, version := w.db.nextVersion);
    var claimed := Updated(w, name, u.(phase := Processing), Acked, multiset{Claimed(name)});
    assert claimed.db.store[name] == read && (name, read) in claimed.db.seen;
    var ran := DispatchRun(claimed, name, rep);
    assert Exec(claimed, []) == claimed && Exec(ran, []) == ran;
    assert ran.log[Ran(name)] == w.log[Ran(name)] + 1;
    assert Exec(ran, []).db == claimed.db;
  }

  // ---------- Recovery, without naming how it goes ----------

  /** A list that shows the records as they are stored, each once. */
  ghost predicate FreshList(w: World, items: seq<(string, Record)>) {
    && (forall i | 0 <= i < |items| :: items[i].0 in w.db.store && w.db.store[items[i].0] == items[i].1)
    && (forall i, j | 0 <= i < j < |items| :: items[i].0 != items[j].0)
  }

  ghost predicate Undisturbed(replies: seq<Reply>, env: seq<seq<Action>>) {
    (forall r | r in replies :: r == Acked) && (forall acts | acts in env :: acts == [])
  }

  lemma FreshInit(w: World, items: seq<(string, Record)>, replies: seq<Reply>, env: seq<seq<Action>>)
    requires items != [] && |replies| == |env| == |items| && FreshList(w, items) && Undisturbed(replies, env)
    ensures var k := |items| - 1;
            && FreshList(w, items[..k]) && Undisturbed(replies[..k], env[..k]) && replies[k] == Acked && env[k] == []
            && forall i | 0 <= i < k :: items[..k][i] == items[i] && items[..k][i].0 != items[k].0
  {
    var k := |items| - 1;
    assert forall r | r in replies[..k] :: r in replies;
    assert forall acts | acts in env[..k] :: acts in env;
    assert replies[k] in replies && env[k] in env;
  }

  /** A name is attempted exactly when the list shows a record of it in Processing for which ten minutes have passed since
      its creation. */
  lemma {:induction false} StuckNamesIff(items: seq<(string, Record)>, now: int, n: string)
    ensures n in StuckNames(items, now) <==>
            exists i :: 0 <= i < |items| && items[i].0 == n && items[i].1.phase == Processing
                        && now - items[i].1.created >= 600
    decreases |items|
  {
    if items != [] {
      var k := |items| - 1;
      var init := items[..k];
      StuckNamesIff(init, now, n);
      if i :| 0 <= i < |items| && items[i].0 == n && items[i].1.phase == Processing && now - items[i].1.created >= 600 && i < k {
        assert init[i] == items[i];
      }
      if i :| 0 <= i < |init| && init[i].0 == n && init[i].1.phase == Processing && now - init[i].1.created >= 600 {
        assert items[i] == init[i];
      }
      assert n in StuckNames(items, now) <==> n in StuckNames(init, now) || (items[k].0 == n && IsStuck(items[k].1, now));
    }
  }

  /** A scan of a fresh list that nothing disturbs puts exactly the stuck records back to Detected. */
  lemma {:induction false} RecoveredAlone(w: World, items: seq<(string, Record)>, replies: seq<Reply>,
                                          env: seq<seq<Action>>, now: int)
    requires |replies| == |env| == |items| && FreshList(w, items) && Undisturbed(replies, env)
    ensures var w' := Recovered(w, items, replies, env, now);
            && w'.db.store.Keys == w.db.store.Keys
            && (forall i | 0 <= i < |items| :: PutBack(w', items[i], now))
            && (forall n | n in w.db.store && (forall i | 0 <= i < |items| :: items[i].0 != n) ::
                  w'.db.store[n] == w.db.store[n])
    decreases |items|
  {
    if items != [] {
      var k := |items| - 1;
      FreshInit(w, items, replies, env);
      RecoveredAlone(w, items[..k], replies[..k], env[..k], now);
      var before := Recovered(w, items[..k], replies[..k], env[..k], now);
      assert before.db.store[items[k].0] == items[k].1;
      TurnAlone(before, items[k], now);
      OneMoreTurn(w, before, Recovered(w, items, replies, env, now), items[..k], items[k], items, now);
    }
  }

  lemma OneMoreTurn(w: World, before: World, w': World, init: seq<(string, Record)>, last: (string, Record),
                    items: seq<(string, Record)>, now: int)
    requires items == init + [last] && before.db.store.Keys == w.db.store.Keys == w'.db.store.Keys
    requires forall i | 0 <= i < |init| :: init[i].0 != last.0 && PutBack(before, init[i], now)
    requires forall n | n in w.db.store && (forall i | 0 <= i < |init| :: init[i].0 != n) ::
               before.db.store[n] == w.db.store[n]
    requires PutBack(w', last, now)
    requires forall n | n in before.db.store && n != last.0 :: w'.db.store[n] == before.db.store[n]
    ensures forall i | 0 <= i < |items| :: PutBack(w', items[i], now)
    ensures forall n | n in w.db.store && (forall i | 0 <= i < |items| :: items[i].0 != n) ::
              w'.db.store[n] == w.db.store[n]
  {
    forall n | n in w.db.store && (forall i | 0 <= i < |items| :: items[i].0 != n)
      ensures w'.db.store[n] == w.db.store[n]
    {
      assert items[|init|].0 != n && forall i | 0 <= i < |init| :: items[i] == init[i];
    }
  }

  ghost predicate PutBack(w: World, item: (string, Record), now: int) {
    && item.0 in w.db.store
    && w.db.store[item.0]
       == if item.1.phase == Processing && now - item.1.created >= 600
          then item.1.(phase := Detected, version := w.db.store[item.0].version) else item.1
  }

  lemma TurnAlone(w: World, item: (string, Record), now: int)
    requires item.0 in w.db.store && w.db.store[item.0] == item.1
    ensures var w' := RecoveredOne(w, item, Acked, [], now);
            && w'.db.store.Keys == w.db.store.Keys
            && PutBack(w', item, now)
            && forall n | n in w.db.store && n != item.0 :: w'.db.store[n] == w.db.store[n]
  {
    assert Exec(Updated(w, item.0, item.1.(phase := Detected), Acked, multiset{WasReset(item.0)}), [])
           == Updated(w, item.0, item.1.(phase := Detected), Acked, multiset{WasReset(item.0)});
  }

  /** What a recovery scan leaves: each stuck record of the list reset if it is still as listed, and what others do
      after each reset. */
  function Recovered(w: World, items: seq<(string, Record)>, replies: seq<Reply>, env: seq<seq<Action>>,
                     now: int): World
    requires |replies| == |env| == |items|
    decreases |items|
  {
    if items == [] then w
    else
      var n := |items| - 1;
      RecoveredOne(Recovered(w, items[..n], replies[..n], env[..n], now), items[n], replies[n], env[n], now)
  }

  lemma RecoveredNext(w: World, items: seq<(string, Record)>, replies: seq<Reply>, env: seq<seq<Action>>,
                      now: int, i: nat)
    requires |replies| == |env| == |items| && i < |items|
    ensures var before := Recovered(w, items[..i], replies[..i], env[..i], now);
            Recovered(w, items[..i + 1], replies[..i + 1], env[..i + 1], now)
            == RecoveredOne(before, items[i], replies[i], env[i], now)
    ensures StuckNames(items[..i + 1], now)
            == StuckNames(items[..i], now) + if IsStuck(items[i].1, now) then [items[i].0] else []
  {
    assert items[..i + 1][..i] == items[..i];
    assert replies[..i + 1][..i] == replies[..i] && env[..i + 1][..i] == env[..i];
  }

  predicate IsStuck(r: Record, now: int) {
    r.phase == Processing && now - r.created >= STUCK_TIMEOUT
  }

  function RecoveredOne(w: World, item: (string, Record), reply: Reply, env: seq<Action>, now: int): World {
    var (name, r) := item;
    if IsStuck(r, now) then Exec(Updated(w, name, r.(phase := Detected), reply, multiset{WasReset(name)}), env)
    else w
  }

  function StuckNames(items: seq<(string, Record)>, now: int): seq<string> {
    if items == [] then []
    else
      var (name, r) := items[|items| - 1];
      var rest := StuckNames(items[..|items| - 1], now);
      if IsStuck(r, now) then rest + [name] else rest
  }

  lemma FetchLeads(w: World, name: string, rep: Report, local: bool, snap: Record)
    requires (name, snap) in w.db.seen
    ensures Leads(With(w, multiset{ToFetch(name, rep, local)}), With(w, multiset{ToWrite(name, rep, local, snap)}))
  {
    FetchIsStep(w, name, rep, local, snap);
    StepLeads(With(w, multiset{ToFetch(name, rep, local)}), Fetch(name, rep, local, snap));
  }

  lemma FetchIsStep(w: World, name: string, rep: Report, local: bool, snap: Record)
    requires (name, snap) in w.db.seen
    ensures Step(With(w, multiset{ToFetch(name, rep, local)}), Fetch(name, rep, local, snap))
            == With(w, multiset{ToWrite(name, rep, local, snap)})
  {
    assert w.pool + multiset{ToFetch(name, rep, local)} - multiset{ToFetch(name, rep, local)} == w.pool;
    assert w.log + multiset{} == w.log;
  }

  /** A handler that reads the record back and writes the outcome, or gives up, goes through steps of the protocol. */
  lemma RecordedLeads(w: World, name: string, rep: Report, local: bool, got: Option<Record>, reply: Reply,
                      env: seq<Action>)
    ensures Leads(With(w, multiset{ToFetch(name, rep, local)}), Recorded(w, name, rep, local, got, reply, env))
  {
    var me := multiset{ToFetch(name, rep, local)};
    if got.None? || (name, got.value) !in w.db.seen {
      CrashLeads(w, ToFetch(name, rep, local));
    } else {
      var writing := multiset{ToWrite(name, rep, local, got.value)};
      var w1 := Exec(w, env);
      FetchLeads(w, name, rep, local, got.value);
      OthersLead(w, env, writing);
      LeadsOn(With(w, me), With(w, writing), With(w1, writing));
      WriteLeads(w1, name, rep, local, got.value, reply);
      assert w1.log + multiset{} == w1.log;
      LeadsOn(With(w, me), With(w1, writing), Recorded(w, name, rep, local, got, reply, env));
    }
  }

  lemma CrashLeads(w: World, h: Handler)
    ensures Leads(With(w, multiset{h}), w)
  {
    assert w.log + multiset{} == w.log && w.pool + multiset{h} - multiset{h} + multiset{} == w.pool;
    StepLeads(With(w, multiset{h}), Crash(h));
  }

  lemma DispatchLeads(w: World, name: string, rep: Report)
    ensures Leads(With(w, multiset{ToDispatch(name)}),
                  With(w.(log := w.log + multiset{Ran(name)}, reports := w.reports + {(name, rep)}),
                       multiset{ToFetch(name, rep, false)}))
  {
    var v := With(w, multiset{ToDispatch(name)});
    StepLeads(v, Dispatch(name, rep));
    assert v.pool - multiset{ToDispatch(name)} == w.pool;
  }

  lemma WriteLeads(w: World, name: string, rep: Report, local: bool, snap: Record, reply: Reply)
    ensures Leads(With(w, multiset{ToWrite(name, rep, local, snap)}),
                  if Applies(w.db, name, snap, reply)
                  then w.(db := Put(w.db, name, Finished(snap, rep, local, w.clock))) else w)
  {
    var v := With(w, multiset{ToWrite(name, rep, local, snap)});
    StepLeads(v, Finish(name, rep, local, snap, reply));
    assert v.pool - multiset{ToWrite(name, rep, local, snap)} + multiset{} == w.pool;
    assert w.log + multiset{} == w.log;
  }

  lemma ResetLeads(w: World, name: string, item: Record, reply: Reply)
    requires (name, item) in w.db.seen && item.phase == Processing && w.clock - item.created >= STUCK_TIMEOUT
    ensures Leads(w, if Applies(w.db, name, item, reply)
                     then w.(db := Put(w.db, name, item.(phase := Detected)), log := w.log + multiset{WasReset(name)})
                     else w)
  {
    StepLeads(w, ResetStuck(name, item, reply));
    assert w.pool - multiset{} + multiset{} == w.pool && w.log + multiset{} == w.log;
  }
}
