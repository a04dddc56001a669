/** The HashStore object: its buffer, its flush, and the operations other goroutines run between its critical sections. */
module HashStoreCode {
  import opened Wrappers
  import opened Names
  import opened HashStoreModel

  class HashStore {
    var pendingHashes: Buffer
    var crds: map<string, Hashes>  // the API server's ClusterRolloutStates
    ghost var inflight: Buffer

    constructor (crds: map<string, Hashes>)
      ensures State() == Store(map[], map[], crds)
    {
      this.crds := crds;
      pendingHashes := map[];
      inflight := map[];
    }

    ghost function State(): Store
      reads this
    {
      Store(pendingHashes, inflight, crds)
    }

    /** Reads what is persisted only, not what is buffered. */
    method LoadHashes(clusterID: string, fails: bool) returns (hashes: Option<Hashes>)
      ensures fails ==> hashes == None
      ensures !fails ==> hashes == Get(crds, SanitizeName(clusterID))
      ensures forall k | hashes.Some? :: Get(hashes.value, k) == Persisted(crds, clusterID, k)
    {
      var name := SanitizeName(clusterID);
      if fails || name !in crds { return None; }
      return Some(crds[name]);
    }

    method BufferHash(clusterID: string, deployKey: string, hash: string)
      modifies this
      ensures State() == Step(old(State()), Do(Op.Put(clusterID, deployKey, hash)))
    {
      if clusterID !in pendingHashes {
        pendingHashes := pendingHashes[clusterID := map[]];
      }
      pendingHashes := pendingHashes[clusterID := pendingHashes[clusterID][deployKey := hash]];
    }

    method RemoveHash(clusterID: string, deployKey: string)
      modifies this
      ensures State() == Step(old(State()), Do(Op.Remove(clusterID, deployKey)))
    {
      if clusterID !in pendingHashes {
        pendingHashes := pendingHashes[clusterID := map[]];
      }
      pendingHashes := pendingHashes[clusterID := pendingHashes[clusterID][deployKey := ""]];
    }

    /** Operations of other goroutines, between two critical sections of this one. */
    method Others(ops: seq<Op>, ghost start: Store, ghost done: seq<Op>) returns (ghost done': seq<Op>)
      requires Leads(start, done, State())
      modifies this
      ensures done' == done + ops && Leads(start, done', State())
      ensures inflight == old(inflight)
      ensures ops == [] ==> State() == old(State())
    {
      done' := done;
      for i := 0 to |ops|
        invariant done' == done + ops[..i] && Leads(start, done', State())
        invariant inflight == old(inflight)
        invariant i == 0 ==> State() == old(State())
      {
        StepLeads(start, done', State(), Do(ops[i]));
        match ops[i] {
          case Put(c, k, h) => BufferHash(c, k, h);
          case Remove(c, k) => RemoveHash(c, k);
        }
        done' := done' + [ops[i]];
        assert ops[..i + 1] == ops[..i] + [ops[i]];
      }
      assert ops[..|ops|] == ops;
    }

    /** Creates or updates the cluster's resource; the status written afterwards does not affect the result. */
    method UpsertClusterState(clusterID: string, updates: Hashes, outcome: Outcome) returns (failed: bool)
      requires clusterID in inflight && inflight[clusterID] == updates
      modifies this`crds
      ensures crds == if Applied(outcome) then Upserted(old(crds), clusterID, updates) else old(crds)
      ensures failed <==> outcome != Acked
    {
      var name := SanitizeName(clusterID);
      if outcome == GetFailed { return true; }
      var state: Hashes := map[];
      if name in crds { state := crds[name]; }
      state := ApplyUpdates(state, updates);
      if outcome == Refused { return true; }
      crds := crds[name := state];
      return outcome == LostReply;
    }

    /** Swaps the buffer out, writes each cluster, and puts back what failed without overwriting newer values.
        `others(i)` runs at the i-th point where the lock is free. The flush is one interleaving of the model; when
        nothing runs beside it, just the clusters whose write failed are pending again, with what they had; and when
        no write failed either, everything that was buffered is persisted. */
    method Flush(outcome: string -> Outcome, others: nat -> seq<Op>) returns (ghost ops: seq<Op>)
      requires inflight == map[]
      modifies this
      ensures inflight == map[]
      ensures Leads(old(State()), ops, State())
      ensures (forall i: nat :: others(i) == []) ==> ops == [] && pendingHashes == Unwritten(old(pendingHashes), {}, outcome)
      ensures (forall i: nat :: others(i) == []) && (forall c :: outcome(c) == Acked) ==>
                pendingHashes == map[] && Persists(old(State()), State())
    {
      ghost var start := State();
      ops := WritePending(outcome, others);
      if (forall i: nat :: others(i) == []) && (forall c :: outcome(c) == Acked) {
        FlushPersists(start, State());
      }
    }

    method WritePending(outcome: string -> Outcome, others: nat -> seq<Op>) returns (ghost ops: seq<Op>)
      requires inflight == map[]
      modifies this
      ensures inflight == map[]
      ensures Leads(old(State()), ops, State())
      ensures (forall i: nat :: others(i) == []) ==> ops == [] && pendingHashes == Unwritten(old(pendingHashes), {}, outcome)
    {
      ghost var start := State();
      assert start == Exec(start, []) && OpsOf([]) == [];
      ghost var quiet := forall i: nat :: others(i) == [];
      var pending := pendingHashes;
      pendingHashes := map[];
      inflight := pending;
      StepLeads(start, [], start, Drain);
      ops := Others(others(0), start, []);
      var turn: nat := 1;
      var todo := pending.Keys;
      ghost var done: set<string> := {};
      while todo != {}
        invariant todo == pending.Keys - done
        invariant inflight == pending - done
        invariant Leads(start, ops, State())
        invariant quiet ==> ops == [] && pendingHashes == Unwritten(pending, todo, outcome)
        decreases todo
      {
        var clusterID :| clusterID in todo;
        UnwrittenOne(pending, todo, clusterID, outcome);
        ops := FlushCluster(clusterID, pending[clusterID], outcome(clusterID), others(turn), others(turn + 1), start, ops);
        todo := todo - {clusterID};
        done := done + {clusterID};
        turn := turn + 2;
      }
    }

    /** One cluster of a flush: the write, and the re-queue if it failed, with other goroutines running before the
        re-queue and afterwards. */
    method FlushCluster(clusterID: string, hashes: Hashes, outcome: Outcome, before: seq<Op>, after: seq<Op>,
                        ghost start: Store, ghost done: seq<Op>) returns (ghost ops: seq<Op>)
      requires clusterID in inflight && inflight[clusterID] == hashes
      requires Leads(start, done, State())
      modifies this
      ensures inflight == old(inflight) - {clusterID}
      ensures Leads(start, ops, State())
      ensures before == after == [] ==>
                && ops == done
                && pendingHashes == if outcome == Acked then old(pendingHashes)
                                    else Requeued(old(pendingHashes), clusterID, hashes)
    {
      ops := done;
      StepLeads(start, ops, State(), Write(clusterID, outcome));
      var failed := UpsertClusterState(clusterID, hashes, outcome);
      if failed {
        ops := Others(before, start, ops);
        StepLeads(start, ops, State(), Requeue(clusterID));
        RequeueFailed(clusterID, hashes);
      }
      inflight := inflight - {clusterID};
      ops := Others(after, start, ops);
    }

    method RequeueFailed(clusterID: string, hashes: Hashes)
      modifies this`pendingHashes
      ensures pendingHashes == Requeued(old(pendingHashes), clusterID, hashes)
    {
      ghost var b := pendingHashes;
      var todo := hashes.Keys;
      while todo != {}
        invariant todo <= hashes.Keys
        invariant pendingHashes == Requeued(b, clusterID, hashes - todo)
        decreases todo
      {
        var k :| k in todo;
        ghost var part := hashes - todo;
        RequeueOne(b, clusterID, part, k, hashes[k]);
        if clusterID !in pendingHashes {
          pendingHashes := pendingHashes[clusterID := map[]];
        }
        if k !in pendingHashes[clusterID] {
          pendingHashes := pendingHashes[clusterID := pendingHashes[clusterID][k := hashes[k]]];
        }
        todo := todo - {k};
        assert hashes - todo == part[k := hashes[k]];
      }
      assert hashes == hashes - todo;
    }
  }

  /** What a flush with no company leaves pending, apart from the clusters still to be written. */
  function Unwritten(b: Buffer, todo: set<string>, outcome: string -> Outcome): Buffer {
    b - set c | c in b && (c in todo || outcome(c) == Acked || b[c] == map[])
  }

  lemma UnwrittenOne(b: Buffer, todo: set<string>, c: string, outcome: string -> Outcome)
    requires c in todo && c in b
    ensures Unwritten(b, todo - {c}, outcome)
            == if outcome(c) == Acked then Unwritten(b, todo, outcome)
               else Requeued(Unwritten(b, todo, outcome), c, b[c])
  {
    assert b[c] + map[] == b[c];
  }

  /** Putting one more failed update back, unless something newer is there. */
  lemma RequeueOne(b: Buffer, c: string, part: Hashes, k: string, h: string)
    requires k !in part
    ensures var q := Requeued(b, c, part);
            var q' := if c in q then q else q[c := map[]];
            Requeued(b, c, part[k := h]) == if k in q'[c] then q' else q'[c := q'[c][k := h]]
  {
    var old' := if c in b then b[c] else map[];
    assert part[k := h] + old' == if k in old' then part + old' else (part + old')[k := h];
    if part == map[] { assert part + old' == old'; }
    if c in b { assert b[c := b[c]] == b; }
  }

  method ApplyUpdates(state: Hashes, updates: Hashes) returns (merged: Hashes)
    ensures merged == Merged(state, updates)
  {
    merged := state;
    var todo := updates.Keys;
    while todo != {}
      invariant todo <= updates.Keys
      invariant merged == Merged(state, updates - todo)
      decreases todo
    {
      var k :| k in todo;
      ghost var part := updates - todo;
      MergeOne(state, part, k, updates[k]);
      if updates[k] == "" {
        merged := merged - {k};
      } else {
        merged := merged[k := updates[k]];
      }
      todo := todo - {k};
      assert updates - todo == part[k := updates[k]];
    }
    assert updates == updates - todo;
  }

  lemma MergeOne(m: Hashes, part: Hashes, k: string, h: string)
    ensures Merged(m, part[k := h]) == if h == "" then Merged(m, part) - {k} else Merged(m, part)[k := h]
  {
  }
}
