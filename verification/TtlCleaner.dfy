/** The TTL cleaner: deletes by name, with no precondition, what an earlier List showed terminal and old. */
module TtlCleaner {
  import opened RolloutProtocol
  import opened RolloutTheorems
  import opened RecordWatcher

  function ExpiredNames(items: seq<(string, Record)>, now: int, ttl: int): seq<string> {
    if items == [] then []
    else
      var (name, r) := items[|items| - 1];
      var rest := ExpiredNames(items[..|items| - 1], now, ttl);
      if Terminal(r.phase) && now - r.created >= ttl then rest + [name] else rest
  }

  /** What one listed item leads to: its deletion if it has expired, and what others do after that. */
  function CleanedOne(before: (World, nat), item: (string, Record), reply: Reply, env: seq<Action>,
                      now: int, ttl: int): (World, nat)
  {
    var (w, count) := before;
    var (name, r) := item;
    if Terminal(r.phase) && now - r.created >= ttl
    then (Exec(Deleted(w, name, reply), env), if reply == Acked && name in w.db.store then count + 1 else count)
    else before
  }

  /** What a cleanup leaves and counts. */
  function Cleaned(w: World, items: seq<(string, Record)>, replies: seq<Reply>, env: seq<seq<Action>>,
                   now: int, ttl: int): (World, nat)
    requires |replies| == |env| == |items|
    decreases |items|
  {
    if items == [] then (w, 0)
    else
      var n := |items| - 1;
      CleanedOne(Cleaned(w, items[..n], replies[..n], env[..n], now, ttl), items[n], replies[n], env[n], now, ttl)
  }

  lemma CleanedNext(w: World, items: seq<(string, Record)>, replies: seq<Reply>, env: seq<seq<Action>>,
                    now: int, ttl: int, i: nat)
    requires |replies| == |env| == |items| && i < |items|
    ensures Cleaned(w, items[..i + 1], replies[..i + 1], env[..i + 1], now, ttl)
            == CleanedOne(Cleaned(w, items[..i], replies[..i], env[..i], now, ttl), items[i], replies[i], env[i], now, ttl)
  {
    assert items[..i + 1][..i] == items[..i];
    assert replies[..i + 1][..i] == replies[..i] && env[..i + 1][..i] == env[..i];
  }

  lemma {:induction false} CountedAtMost(w: World, items: seq<(string, Record)>, replies: seq<Reply>,
                                         env: seq<seq<Action>>, now: int, ttl: int)
    requires |replies| == |env| == |items|
    ensures Cleaned(w, items, replies, env, now, ttl).1 <= |ExpiredNames(items, now, ttl)|
    decreases |items|
  {
    if items != [] {
      var n := |items| - 1;
      CountedAtMost(w, items[..n], replies[..n], env[..n], now, ttl);
    }
  }

  // ---------- Without naming how a cleanup goes ----------

  lemma {:induction false} ExpiredNamesIff(items: seq<(string, Record)>, now: int, ttl: int, n: string)
    ensures n in ExpiredNames(items, now, ttl) <==>
            exists i :: 0 <= i < |items| && items[i].0 == n && (items[i].1.phase == Dispatched || items[i].1.phase == Failed)
                        && now - items[i].1.created >= ttl
    decreases |items|
  {
    if items != [] {
      var k := |items| - 1;
      var init := items[..k];
      ExpiredNamesIff(init, now, ttl, n);
      if i :| 0 <= i < k && items[i].0 == n && IsExpired(items[i].1, now, ttl) {
        assert init[i] == items[i];
      }
      if i :| 0 <= i < |init| && init[i].0 == n && IsExpired(init[i].1, now, ttl) {
        assert items[i] == init[i];
      }
      assert n in ExpiredNames(items, now, ttl)
             <==> n in ExpiredNames(init, now, ttl) || (items[k].0 == n && IsExpired(items[k].1, now, ttl));
    }
  }

  predicate IsExpired(r: Record, now: int, ttl: int) {
    (r.phase == Dispatched || r.phase == Failed) && now - r.created >= ttl
  }

  /** A cleanup of a fresh list that nothing disturbs removes exactly the expired records, and counts them. */
  lemma {:induction false} CleanedAlone(w: World, items: seq<(string, Record)>, replies: seq<Reply>,
                                        env: seq<seq<Action>>, now: int, ttl: int)
    requires |replies| == |env| == |items| && FreshList(w, items) && Undisturbed(replies, env)
    ensures var (w', count) := Cleaned(w, items, replies, env, now, ttl);
            && w'.db.store == w.db.store - Names(items, now, ttl)
            && count == |ExpiredNames(items, now, ttl)|
    decreases |items|
  {
    if items != [] {
      var k := |items| - 1;
      FreshInit(w, items, replies, env);
      CleanedAlone(w, items[..k], replies[..k], env[..k], now, ttl);
      var (before, _) := Cleaned(w, items[..k], replies[..k], env[..k], now, ttl);
      NamesOnce(items, now, ttl);
      assert items[k].0 in before.db.store;
      assert Exec(Deleted(before, items[k].0, Acked), []) == Deleted(before, items[k].0, Acked);
    }
  }

  /** In a list that shows each name once, a name is among the expired ones exactly when its record has expired. */
  lemma NamesExactly(items: seq<(string, Record)>, now: int, ttl: int, i: int)
    requires 0 <= i < |items| && forall j, k | 0 <= j < k < |items| :: items[j].0 != items[k].0
    ensures items[i].0 in Names(items, now, ttl) <==> IsExpired(items[i].1, now, ttl)
  {
  }

  function Names(items: seq<(string, Record)>, now: int, ttl: int): set<string> {
    set i | 0 <= i < |items| && IsExpired(items[i].1, now, ttl) :: items[i].0
  }

  lemma NamesOnce(items: seq<(string, Record)>, now: int, ttl: int)
    requires items != [] && forall i, j | 0 <= i < j < |items| :: items[i].0 != items[j].0
    ensures var k := |items| - 1;
            && Names(items, now, ttl)
               == Names(items[..k], now, ttl) + (if IsExpired(items[k].1, now, ttl) then {items[k].0} else {})
            && items[k].0 !in Names(items[..k], now, ttl)
  {
    var k := |items| - 1;
    forall i | 0 <= i < k && IsExpired(items[i].1, now, ttl) ensures items[i].0 in Names(items[..k], now, ttl) {
      assert items[..k][i] == items[i];
    }
    forall n | n in Names(items[..k], now, ttl) ensures n in Names(items, now, ttl) && n != items[k].0 {
      var i :| 0 <= i < k && IsExpired(items[..k][i].1, now, ttl) && items[..k][i].0 == n;
      assert items[i] == items[..k][i];
    }
    if IsExpired(items[k].1, now, ttl) { assert items[k].0 in Names(items, now, ttl); }
  }

  class TtlCleaner {
    const server: ApiServer
    const ttl: int

    constructor (server: ApiServer, ttl: int)
      ensures this.server == server && this.ttl == ttl
    {
      this.server := server;
      this.ttl := ttl;
    }

    /** Whatever happened since the List, each removal is of a record that is terminal when it is removed, and
        the count reported is at most the number of expired records listed. */
    method Cleanup(items: seq<(string, Record)>, replies: seq<Reply>, env: seq<seq<Action>>) returns (deleted: nat)
      requires server.world.ttl == ttl && Inv(server.world)
      requires forall item | item in items :: item in server.world.db.seen
      requires |replies| == |env| == |items|
      modifies server
      ensures Leads(old(server.world), server.world) && Inv(server.world)
      ensures (server.world, deleted) == Cleaned(old(server.world), items, replies, env, old(server.world.clock), ttl)
      ensures deleted <= |ExpiredNames(items, old(server.world.clock), ttl)|
      ensures forall e | e in server.world.log && e.Removed? :: Terminal(e.phase) && e.age >= ttl
      ensures FreshList(old(server.world), items) && Undisturbed(replies, env) ==>
                && (forall i | 0 <= i < |items| ::
                      items[i].0 in server.world.db.store <==>
                      !((items[i].1.phase == Dispatched || items[i].1.phase == Failed)
                        && old(server.world.clock) - items[i].1.created >= ttl))
                && deleted == |ExpiredNames(items, old(server.world.clock), ttl)|
    {
      ghost var w := server.world;
      deleted := DeleteExpired(items, replies, env);
      LeadsKeepsInv(w, server.world);
      CountedAtMost(w, items, replies, env, w.clock, ttl);
      if FreshList(w, items) && Undisturbed(replies, env) {
        CleanedAlone(w, items, replies, env, w.clock, ttl);
        forall i | 0 <= i < |items|
          ensures items[i].0 in server.world.db.store <==> !IsExpired(items[i].1, w.clock, ttl)
        {
          NamesExactly(items, w.clock, ttl, i);
        }
      }
    }

    method DeleteExpired(items: seq<(string, Record)>, replies: seq<Reply>, env: seq<seq<Action>>) returns (deleted: nat)
      requires server.world.ttl == ttl
      requires forall item | item in items :: item in server.world.db.seen
      requires |replies| == |env| == |items|
      modifies server
      ensures Leads(old(server.world), server.world) && server.world.ttl == ttl
      ensures (server.world, deleted) == Cleaned(old(server.world), items, replies, env, old(server.world.clock), ttl)
    {
      ghost var w := server.world;
      assert w == Exec(w, []);
      var now := server.world.clock;
      deleted := 0;
      for i := 0 to |items|
        invariant Leads(w, server.world)
        invariant w.db.seen <= server.world.db.seen && now <= server.world.clock && server.world.ttl == ttl
        invariant (server.world, deleted) == Cleaned(w, items[..i], replies[..i], env[..i], now, ttl)
      {
        CleanedNext(w, items, replies, env, now, ttl, i);
        assert items[i] in w.db.seen;
        ghost var before := server.world;
        deleted := CleanItem(items[i], replies[i], env[i], now, deleted);
        LeadsOn(w, before, server.world);
      }
      assert items[..|items|] == items && replies[..|items|] == replies && env[..|items|] == env;
    }

    /** One listed item: skipped unless it is terminal and old enough. */
    method CleanItem(listed: (string, Record), reply: Reply, env: seq<Action>, now: int, count: nat)
      returns (deleted: nat)
      requires server.world.ttl == ttl && listed in server.world.db.seen && now <= server.world.clock
      modifies server
      ensures Leads(old(server.world), server.world)
      ensures old(server.world.db.seen) <= server.world.db.seen && old(server.world.clock) <= server.world.clock
      ensures server.world.ttl == ttl
      ensures (server.world, deleted) == CleanedOne((old(server.world), count), listed, reply, env, now, ttl)
    {
      var (name, item) := listed;
      deleted := count;
      if (item.phase != Dispatched && item.phase != Failed) || now - item.created < ttl {
        assert server.world == Exec(server.world, []);
        return;
      }
      var failed := DeleteOne(name, item, reply, env);
      if !failed { deleted := count + 1; }
    }

    method DeleteOne(name: string, ghost item: Record, reply: Reply, env: seq<Action>) returns (failed: bool)
      requires (name, item) in server.world.db.seen && Terminal(item.phase)
      requires server.world.clock - item.created >= server.world.ttl
      modifies server
      ensures Leads(old(server.world), server.world)
      ensures old(server.world.db.seen) <= server.world.db.seen && old(server.world.clock) <= server.world.clock
      ensures server.world.ttl == old(server.world.ttl)
      ensures server.world == Exec(Deleted(old(server.world), name, reply), env)
      ensures failed <==> !(reply == Acked && name in old(server.world.db.store))
    {
      ghost var before := server.world;
      failed := server.Delete(name, reply);
      DeleteLeads(before, name, item, reply);
      ghost var mid := server.world;
      server.Others(env, multiset{});
      assert With(mid, multiset{}) == mid && With(server.world, multiset{}) == server.world;
      LeadsOn(before, mid, server.world);
    }
  }

  lemma DeleteLeads(w: World, name: string, item: Record, reply: Reply)
    requires (name, item) in w.db.seen && Terminal(item.phase) && w.clock - item.created >= w.ttl
    ensures Leads(w, Deleted(w, name, reply))
  {
    DeleteIsStep(w, name, item, reply);
    StepLeads(w, Delete(name, item, reply));
  }

  lemma DeleteIsStep(w: World, name: string, item: Record, reply: Reply)
    requires (name, item) in w.db.seen && Terminal(item.phase) && w.clock - item.created >= w.ttl
    ensures Step(w, Delete(name, item, reply)) == Deleted(w, name, reply)
  {
    var a := Delete(name, item, reply);
    DeleteInDb(w, name, item, reply);
    assert Ended(a) == multiset{} && Started(w.db, a) == multiset{};
    assert w.pool - multiset{} + multiset{} == w.pool;
    assert Step(w, a) == Effect(w, a);
  }

  lemma DeleteInDb(w: World, name: string, item: Record, reply: Reply)
    ensures DbEffect(w.db, w.clock, Delete(name, item, reply)) == Deleted(w, name, reply).db
    ensures w.log + Logged(w.db, w.clock, Delete(name, item, reply)) == Deleted(w, name, reply).log
  {
    if name !in w.db.store {
      assert w.db.store - {name} == w.db.store;
    }
  }
}
