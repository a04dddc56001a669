/**
 What every run of the claim protocol keeps, and two promises of the documentation that it does not keep.
 */
module RolloutTheorems {
  import opened RolloutProtocol

  lemma StepKeepsInv(w: World, a: Action)
    requires Inv(w)
    ensures Inv(Step(w, a))
  {
    if Enabled(w, a) {
      StepKeepsDb(w, a);
      StepKeepsHandlers(w, a);
      forall n: string ensures CountedFor(Effect(w, a), n) {
        assert CountedFor(w, n);
        StepKeepsRuns(w, a, n);
        StepKeepsClaims(w, a, n);
      }
      StepKeepsAges(w, a);
      StepKeepsRemovals(w, a);
    }
  }

  lemma {:induction false} ExecKeepsInv(w: World, acts: seq<Action>)
    requires Inv(w)
    ensures Inv(Exec(w, acts))
    decreases |acts|
  {
    if acts != [] {
      StepKeepsInv(w, acts[0]);
      ExecKeepsInv(Step(w, acts[0]), acts[1..]);
    }
  }

  lemma {:induction false} ExecAppend(w: World, a: seq<Action>, b: seq<Action>)
    ensures Exec(w, a + b) == Exec(Exec(w, a), b)
    decreases |a|
  {
    if a == [] {
      assert a + b == b;
    } else {
      assert (a + b)[0] == a[0] && (a + b)[1..] == a[1..] + b;
      ExecAppend(Step(w, a[0]), a[1..], b);
    }
  }

  /** Some interleaving of any number of replicas, readers and clock ticks leads from one world to the other. */
  ghost predicate Leads(w: World, w': World) {
    exists acts: seq<Action> :: w' == Exec(w, acts)
  }

  ghost predicate Reachable(w: World) {
    exists clock: int, ttl: int :: Leads(Initial(clock, ttl), w)
  }

  lemma StepLeads(w: World, a: Action)
    ensures Leads(w, Step(w, a))
  {
    assert Exec(w, [a]) == Exec(Step(w, a), []);
  }

  lemma LeadsOn(w: World, mid: World, w': World)
    requires Leads(w, mid) && Leads(mid, w')
    ensures Leads(w, w')
  {
    var a: seq<Action> :| mid == Exec(w, a);
    var b: seq<Action> :| w' == Exec(mid, b);
    ExecAppend(w, a, b);
  }

  lemma ReachableInv(w: World)
    requires Reachable(w)
    ensures Inv(w)
  {
    var clock: int, ttl: int :| Leads(Initial(clock, ttl), w);
    var acts: seq<Action> :| w == Exec(Initial(clock, ttl), acts);
    ExecKeepsInv(Initial(clock, ttl), acts);
  }

  /** Claims applied to a record number at most its resets, plus one once the record has left Detected; and
      DispatchEvent runs for it at most once per applied claim. */
  lemma ClaimsBounded(w: World, n: string)
    requires Reachable(w)
    ensures w.log[Claimed(n)] <= w.log[WasReset(n)] + 1
    ensures n in w.db.store && w.db.store[n].phase == Detected ==> w.log[Claimed(n)] <= w.log[WasReset(n)]
    ensures w.log[Ran(n)] + w.pool[ToDispatch(n)] <= w.log[Claimed(n)]
  {
    ReachableInv(w);
    assert CountedFor(w, n);
  }

  /** Until a record is old enough to be reset, its event is dispatched at most once, whatever the replicas do. */
  lemma YoungRecordDispatchedOnce(w: World, n: string)
    requires Reachable(w) && n in w.db.store
    requires w.clock - w.db.store[n].created < STUCK_TIMEOUT
    ensures w.log[Ran(n)] <= 1
    ensures w.log[Ran(n)] == 1 ==> w.pool[ToDispatch(n)] == 0 && w.db.store[n].phase != Detected
  {
    ReachableInv(w);
    assert CountedFor(w, n);
  }

  /** A terminal phase is never left: not by a stale claim, a stale reset or a late finish. */
  lemma TerminalAbsorbs(w: World, acts: seq<Action>, n: string)
    requires Inv(w) && n in w.db.store && Terminal(w.db.store[n].phase)
    ensures n in Exec(w, acts).db.store ==> Terminal(Exec(w, acts).db.store[n].phase)
  {
    var r := w.db.store[n];
    ExecKeepsInv(w, acts);
    SeenGrows(w, acts);
    assert (n, r) in Exec(w, acts).db.seen;
    assert (n, r).1.phase == r.phase;
  }

  lemma {:induction false} SeenGrows(w: World, acts: seq<Action>)
    ensures w.db.seen <= Exec(w, acts).db.seen
    decreases |acts|
  {
    if acts != [] {
      SeenGrowsOnce(w, acts[0]);
      SeenGrows(Step(w, acts[0]), acts[1..]);
    }
  }

  lemma SeenGrowsOnce(w: World, a: Action)
    ensures w.db.seen <= Step(w, a).db.seen
  {
  }

  /** Every deletion, although decided from an older List and sent without a version, removed a record that
      was terminal and past its time to live at the instant it was removed. */
  lemma DeletedWasTerminal(w: World, n: string, p: Phase, age: int)
    requires Reachable(w) && Removed(n, p, age) in w.log
    ensures Terminal(p) && age >= w.ttl
  {
    ReachableInv(w);
    var e := Removed(n, p, age);
    assert e in w.log && e.Removed?;
  }

  /** A terminal status was returned by a run of DispatchEvent for that record: nothing is ever marked
      Dispatched that no run dispatched without error, and a Failed record names an error of a run. */
  lemma TerminalWasReported(w: World, n: string)
    requires Reachable(w) && n in w.db.store
    ensures w.db.store[n].phase == Dispatched ==> (n, Report(w.db.store[n].targets, "")) in w.reports
    ensures w.db.store[n].phase == Failed ==>
              w.db.store[n].error != "" && (n, Report(w.db.store[n].targets, w.db.store[n].error)) in w.reports
  {
    ReachableInv(w);
    var s := (n, w.db.store[n]);
    assert s in w.db.seen && StatusReported(w.reports, s.0, s.1);
  }

  // ---------- No record is lost ----------

  /** A record whose current content a fresh read returns. */
  predicate Live(w: World, n: string) {
    n in w.db.store && (n, w.db.store[n]) in w.db.seen
  }

  lemma ClaimFresh(w: World, n: string) returns (w': World)
    requires Live(w, n) && w.db.store[n].phase == Detected
    ensures Leads(w, w')
    ensures Live(w', n) && w'.db.store[n].phase == Processing && w'.db.store[n].error == w.db.store[n].error
    ensures w'.db.store[n].created == w.db.store[n].created
    ensures w'.pool == w.pool + multiset{ToDispatch(n)}
    ensures w'.log[Ran(n)] == w.log[Ran(n)] && w'.clock == w.clock
    ensures w' == Step(w, Claim(n, w.db.store[n], Acked))
  {
    var a := Claim(n, w.db.store[n], Acked);
    w' := Step(w, a);
    StepLeads(w, a);
  }

  lemma ResetFresh(w: World, n: string) returns (w': World)
    requires Live(w, n) && w.db.store[n].phase == Processing
    requires w.clock - w.db.store[n].created >= STUCK_TIMEOUT
    ensures Leads(w, w')
    ensures Live(w', n) && w'.db.store[n].phase == Detected
    ensures w'.pool == w.pool
    ensures w'.log[Ran(n)] == w.log[Ran(n)] && w'.clock == w.clock
    ensures w'.log[WasReset(n)] == w.log[WasReset(n)] + 1
  {
    var a := ResetStuck(n, w.db.store[n], Acked);
    w' := Step(w, a);
    StepLeads(w, a);
  }

  lemma DispatchFresh(w: World, n: string, rep: Report) returns (w': World)
    requires ToDispatch(n) in w.pool
    ensures Leads(w, w')
    ensures w'.db == w.db && w'.clock == w.clock && w'.log[Ran(n)] == w.log[Ran(n)] + 1
    ensures w'.pool == w.pool - multiset{ToDispatch(n)} + multiset{ToFetch(n, rep, false)}
  {
    var a := Dispatch(n, rep);
    w' := Step(w, a);
    StepLeads(w, a);
  }

  lemma FetchFresh(w: World, n: string, rep: Report) returns (w': World)
    requires Live(w, n) && ToFetch(n, rep, false) in w.pool
    ensures Leads(w, w')
    ensures w'.db == w.db && w'.clock == w.clock && w'.log == w.log
    ensures w'.pool == w.pool - multiset{ToFetch(n, rep, false)} + multiset{ToWrite(n, rep, false, w.db.store[n])}
  {
    var a := Fetch(n, rep, false, w.db.store[n]);
    w' := Step(w, a);
    StepLeads(w, a);
    assert w.log + multiset{} == w.log;
  }

  lemma WriteFresh(w: World, n: string, rep: Report) returns (w': World)
    requires Live(w, n) && ToWrite(n, rep, false, w.db.store[n]) in w.pool
    ensures Leads(w, w')
    ensures Live(w', n) && w'.clock == w.clock && w'.log == w.log
    ensures w'.db.store[n].phase == (if rep.error == "" then Dispatched else Failed)
    ensures w'.db.store[n].error == (if rep.error == "" then w.db.store[n].error else rep.error)
    ensures w'.pool == w.pool - multiset{ToWrite(n, rep, false, w.db.store[n])}
  {
    var a := Finish(n, rep, false, w.db.store[n], Acked);
    w' := Step(w, a);
    StepLeads(w, a);
    assert w.log + multiset{} == w.log;
  }

  /** A handler that holds a claim dispatches, reads the record back and writes the final status. */
  lemma FinishFresh(w: World, n: string, rep: Report) returns (w': World)
    requires Live(w, n) && ToDispatch(n) in w.pool
    ensures Leads(w, w')
    ensures Live(w', n) && w'.clock == w.clock && w'.log[Ran(n)] == w.log[Ran(n)] + 1
    ensures w'.db.store[n].phase == (if rep.error == "" then Dispatched else Failed)
    ensures w'.db.store[n].error == (if rep.error == "" then w.db.store[n].error else rep.error)
    ensures w'.pool == w.pool - multiset{ToDispatch(n)}
  {
    var w1 := DispatchFresh(w, n, rep);
    var w2 := FetchFresh(w1, n, rep);
    LeadsOn(w, w1, w2);
    w' := WriteFresh(w2, n, rep);
    LeadsOn(w, w2, w');
  }

  lemma Wait(w: World, d: nat) returns (w': World)
    ensures Leads(w, w') && w' == w.(clock := w.clock + d)
  {
    w' := Step(w, Tick(d));
    StepLeads(w, Tick(d));
    assert w.log + multiset{} == w.log && w.pool - multiset{} + multiset{} == w.pool;
  }

  /** From every reachable world, whatever crashed, every Detected or Processing record can still be driven to
      the terminal phase of any given dispatch result. */
  lemma NoRecordIsLost(w: World, n: string, rep: Report) returns (w': World)
    requires Reachable(w) && n in w.db.store
    requires w.db.store[n].phase == Detected || w.db.store[n].phase == Processing
    ensures Leads(w, w') && n in w'.db.store
    ensures w'.db.store[n].phase == (if rep.error == "" then Dispatched else Failed)
    ensures w'.log[Ran(n)] == w.log[Ran(n)] + 1
  {
    ReachableInv(w);
    assert Live(w, n);
    var w2 := w;
    if w.db.store[n].phase == Processing {
      var age := w.clock - w.db.store[n].created;
      var w1 := Wait(w, if age >= STUCK_TIMEOUT then 0 else STUCK_TIMEOUT - age);
      w2 := ResetFresh(w1, n);
      LeadsOn(w, w1, w2);
    } else {
      assert w == Exec(w, []);
    }
    var w3 := ClaimFresh(w2, n);
    LeadsOn(w, w2, w3);
    w' := FinishFresh(w3, n, rep);
    LeadsOn(w, w3, w');
  }

  // ---------- A record created without its status ----------

  ghost predicate NeverPhased(db: Db, n: string) {
    forall s | s in db.seen && s.0 == n :: s.1.phase == NoPhase
  }

  /** Neither a reader nor a handler has ever had a phase of this record to act on. */
  ghost predicate Bare(w: World, n: string) {
    && NeverPhased(w.db, n)
    && (forall h | h in w.pool :: h.name != n)
    && w.log[Ran(n)] == 0 && w.log[Claimed(n)] == 0
  }

  /** A step that works on the bare record itself can only create it, delete it or be disabled. */
  lemma BareStepElsewhere(w: World, a: Action, n: string)
    requires Bare(w, n) && Enabled(w, a)
    requires a != Create(n, true) && !(a.LocalDispatch? && a.name == n)
    ensures a.Create? || a.Delete? || a.Tick? || (if a.Crash? then a.handler.name else a.name) != n
  {
    match a {
      case Claim(m, snap, _) => assert (m, snap).1.phase == Detected;
      case ResetStuck(m, snap, _) => assert (m, snap).1.phase == Processing;
      case Dispatch(m, _) => assert ToDispatch(m) in w.pool;
      case Fetch(m, rep, local, _) => assert ToFetch(m, rep, local) in w.pool;
      case Finish(m, rep, local, snap, _) => assert ToWrite(m, rep, local, snap) in w.pool;
      case _ =>
    }
  }

  lemma StepKeepsBare(w: World, a: Action, n: string)
    requires Bare(w, n) && Enabled(w, a)
    requires a != Create(n, true) && !(a.LocalDispatch? && a.name == n)
    ensures Bare(Effect(w, a), n)
  {
    BareStepElsewhere(w, a, n);
    StepElsewhere(w, a, n);
    var started := Started(w.db, a);
    forall h | h in Effect(w, a).pool ensures h.name != n {
      assert h in w.pool || h in started;
    }
  }

  lemma StepElsewhere(w: World, a: Action, n: string)
    requires NeverPhased(w.db, n) && a != Create(n, true)
    requires a.Create? || a.Delete? || a.Tick? || (if a.Crash? then a.handler.name else a.name) != n
    ensures NeverPhased(DbEffect(w.db, w.clock, a), n)
    ensures forall h | h in Started(w.db, a) :: h.name != n
    ensures Logged(w.db, w.clock, a)[Ran(n)] == 0 && Logged(w.db, w.clock, a)[Claimed(n)] == 0
  {
    StartsElsewhere(w, a, n);
  }

  lemma StartsElsewhere(w: World, a: Action, n: string)
    requires a.Create? || a.Delete? || a.Tick? || (if a.Crash? then a.handler.name else a.name) != n
    ensures forall h | h in Started(w.db, a) :: h.name != n
    ensures Logged(w.db, w.clock, a)[Ran(n)] == 0 && Logged(w.db, w.clock, a)[Claimed(n)] == 0
  {
  }

  /** When the server drops the status on Create, the record is never claimed and its event never dispatched. */
  lemma DroppedStatusNeverDispatched(clock: int, ttl: int, acts: seq<Action>, n: string)
    requires forall a | a in acts :: a != Create(n, true) && !(a.LocalDispatch? && a.name == n)
    ensures var w := Exec(Initial(clock, ttl), acts);
            && w.log[Claimed(n)] == 0 && w.log[Ran(n)] == 0
            && (n in w.db.store ==> w.db.store[n].phase == NoPhase)
  {
    BareForever(Initial(clock, ttl), acts, n);
    var w := Exec(Initial(clock, ttl), acts);
    ExecKeepsInv(Initial(clock, ttl), acts);
    if n in w.db.store {
      assert (n, w.db.store[n]) in w.db.seen && (n, w.db.store[n]).0 == n;
    }
  }

  lemma {:induction false} BareForever(w: World, acts: seq<Action>, n: string)
    requires Bare(w, n)
    requires forall a | a in acts :: a != Create(n, true) && !(a.LocalDispatch? && a.name == n)
    ensures Bare(Exec(w, acts), n)
    decreases |acts|
  {
    if acts != [] {
      assert acts[0] in acts;
      if Enabled(w, acts[0]) { StepKeepsBare(w, acts[0], n); }
      BareForever(Step(w, acts[0]), acts[1..], n);
    }
  }

  /** No reader has ever seen a phase of this record that can be claimed or reset, and none is in a handler's hands. */
  ghost predicate Unclaimable(w: World, n: string) {
    && n in w.db.names
    && (forall s | s in w.db.seen && s.0 == n :: s.1.phase != Detected && s.1.phase != Processing)
    && w.pool[ToDispatch(n)] == 0 && w.log[Claimed(n)] == 0 && w.log[Ran(n)] == 0
  }

  lemma StepKeepsUnclaimable(w: World, a: Action, n: string)
    requires Unclaimable(w, n) && Enabled(w, a)
    ensures Unclaimable(Effect(w, a), n)
  {
    NothingOpens(w, a, n);
    NothingStarts(w, a, n);
    assert (w.pool - Ended(a))[ToDispatch(n)] == 0;
  }

  lemma NothingOpens(w: World, a: Action, n: string)
    requires Unclaimable(w, n) && Enabled(w, a)
    ensures n in DbEffect(w.db, w.clock, a).names
    ensures forall s | s in DbEffect(w.db, w.clock, a).seen && s.0 == n :: s.1.phase != Detected && s.1.phase != Processing
  {
    match a {
      case Claim(m, snap, _) => assert (m, snap).0 == m && (m, snap).1 == snap;
      case ResetStuck(m, snap, _) => assert (m, snap).0 == m && (m, snap).1 == snap;
      case Finish(m, rep, local, snap, _) => assert Terminal(Finished(snap, rep, local, w.clock).phase);
      case _ =>
    }
  }

  lemma NothingStarts(w: World, a: Action, n: string)
    requires Unclaimable(w, n) && Enabled(w, a)
    ensures Started(w.db, a)[ToDispatch(n)] == 0
    ensures Logged(w.db, w.clock, a)[Claimed(n)] == 0 && Logged(w.db, w.clock, a)[Ran(n)] == 0
  {
    match a {
      case Claim(m, snap, _) => assert (m, snap).0 == m && (m, snap).1 == snap;
      case Dispatch(m, _) => assert w.pool[ToDispatch(m)] > 0;
      case _ =>
    }
  }

  lemma {:induction false} UnclaimableForever(w: World, acts: seq<Action>, n: string)
    requires Unclaimable(w, n)
    ensures Unclaimable(Exec(w, acts), n)
    decreases |acts|
  {
    if acts != [] {
      if Enabled(w, acts[0]) { StepKeepsUnclaimable(w, acts[0], n); }
      UnclaimableForever(Step(w, acts[0]), acts[1..], n);
    }
  }

  /** A new record can come to be claimed and its event dispatched, by some continuation, exactly when the server
      keeps the status that is sent with its creation. */
  lemma CreateDecidesIff(w: World, n: string, keep: bool)
    requires Reachable(w) && n !in w.db.names
    ensures (exists w' :: Leads(Step(w, Create(n, keep)), w') && (w'.log[Claimed(n)] > 0 || w'.log[Ran(n)] > 0)) <==> keep
  {
    ReachableInv(w);
    var w1 := Step(w, Create(n, keep));
    assert CountedFor(w, n);
    assert n !in w.db.store && forall s | s in w.db.seen :: s.0 in w.db.names;
    if keep {
      StepLeads(w, Create(n, keep));
      ReachesOn(w, w1);
      var w2 := NoRecordIsLost(w1, n, Report([], ""));
      assert w2.log[Ran(n)] > 0;
    } else {
      forall w' | Leads(w1, w') ensures w'.log[Claimed(n)] == 0 && w'.log[Ran(n)] == 0 {
        var acts: seq<Action> :| w' == Exec(w1, acts);
        UnclaimableForever(w1, acts, n);
      }
    }
  }

  lemma ReachesOn(w: World, w': World)
    requires Reachable(w) && Leads(w, w')
    ensures Reachable(w')
  {
    var clock: int, ttl: int :| Leads(Initial(clock, ttl), w);
    LeadsOn(Initial(clock, ttl), w, w');
  }

  // ---------- How long a record may stay in Processing ----------

  /** A Processing record can be reset d seconds from now exactly when it will be STUCK_TIMEOUT old: its age
      counts from creation, not from the claim. */
  lemma ResetAllowedAfter(w: World, n: string, d: nat, reply: Reply)
    requires Inv(w) && n in w.db.store && w.db.store[n].phase == Processing
    ensures Enabled(Step(w, Tick(d)), ResetStuck(n, w.db.store[n], reply)) <==>
            d >= STUCK_TIMEOUT - (w.clock - w.db.store[n].created)
  {
    assert (n, w.db.store[n]) in w.db.seen;
  }

  /** This stay in Processing, begun in w with an acknowledged claim, is ended by a reset before ten minutes are over. */
  ghost predicate CutShort(w: World, n: string, w2: World)
    requires n in w.db.store
  {
    var w1 := Step(w, Claim(n, w.db.store[n], Acked));
    && Leads(w1, w2) && n in w2.db.store
    && w2.clock - w.clock < STUCK_TIMEOUT
    && w2.log[WasReset(n)] > w1.log[WasReset(n)]
  }

  /** The documented promise, that a record is reset only after more than ten minutes in Processing, is kept for a claim
      exactly when the record was created in the very second of the claim. */
  lemma ResetPromiseIff(w: World, n: string)
    requires Reachable(w) && n in w.db.store && w.db.store[n].phase == Detected
    ensures (forall w2 :: !CutShort(w, n, w2)) <==> w.clock <= w.db.store[n].created
  {
    if w.clock > w.db.store[n].created {
      var w2 := EarlyReset(w, n);
      assert CutShort(w, n, w2);
    } else {
      forall w2 ensures !CutShort(w, n, w2) {
        if CutShort(w, n, w2) {
          OnlyOldIsReset(w, n, w2);
        }
      }
    }
  }

  lemma OnlyOldIsReset(w: World, n: string, w2: World)
    requires Reachable(w) && n in w.db.store && w.db.store[n].phase == Detected && CutShort(w, n, w2)
    ensures w.clock > w.db.store[n].created
  {
    var r := w.db.store[n];
    var w1 := Step(w, Claim(n, r, Acked));
    StepLeads(w, Claim(n, r, Acked));
    LeadsOn(w, w1, w2);
    ReachesOn(w, w2);
    ReachableInv(w);
    ReachableInv(w2);
    var acts: seq<Action> :| w2 == Exec(w, acts);
    SeenGrows(w, acts);
    assert (n, r) in w2.db.seen && (n, r).1.created == w2.db.store[n].created;
    assert w2.log[WasReset(n)] > 0;
  }

  lemma EarlyReset(w: World, n: string) returns (w2: World)
    requires Reachable(w) && n in w.db.store && w.db.store[n].phase == Detected
    requires w.clock > w.db.store[n].created
    ensures CutShort(w, n, w2)
  {
    ReachableInv(w);
    var age := w.clock - w.db.store[n].created;
    var w1 := ClaimFresh(w, n);
    var waited := Wait(w1, if age >= STUCK_TIMEOUT then 0 else STUCK_TIMEOUT - age);
    w2 := ResetFresh(waited, n);
    LeadsOn(w1, waited, w2);
  }

  /** A ten-minute-old record is claimed, reset in the same second and claimed again: both handlers dispatch,
      and the second to finish turns Failed into Dispatched while keeping the error message. */
  lemma EarlyResetDispatchesTwice(n: string, created: int)
    ensures exists w ::
              && Reachable(w) && n in w.db.store
              && w.clock == created + STUCK_TIMEOUT
              && w.log[Ran(n)] == 2
              && w.db.store[n].phase == Dispatched && w.db.store[n].error == "timeout"
  {
    var w0 := Initial(created, 0);
    var w1 := ClaimedTwice(n, created);
    var w2 := FinishFresh(w1, n, Report([], "timeout"));
    LeadsOn(w0, w1, w2);
    var w3 := FinishFresh(w2, n, Report(["log"], ""));
    LeadsOn(w0, w2, w3);
  }

  lemma ClaimedTwice(n: string, created: int) returns (w: World)
    ensures Leads(Initial(created, 0), w) && Live(w, n)
    ensures w.clock == created + STUCK_TIMEOUT && w.log[Ran(n)] == 0 && w.pool[ToDispatch(n)] == 2
  {
    var w0 := Initial(created, 0);
    var w1 := CreateFresh(w0, n);
    var w2 := Wait(w1, STUCK_TIMEOUT);
    LeadsOn(w0, w1, w2);
    var w3 := ClaimFresh(w2, n);
    LeadsOn(w0, w2, w3);
    var w4 := ResetFresh(w3, n);
    LeadsOn(w0, w3, w4);
    w := ClaimFresh(w4, n);
    LeadsOn(w0, w4, w);
  }

  lemma CreateFresh(w: World, n: string) returns (w': World)
    requires n !in w.db.names && n !in w.db.store
    ensures Leads(w, w')
    ensures Live(w', n) && w'.db.store[n].phase == Detected
    ensures w'.db.store[n].created == w.clock && w'.db.store[n].error == ""
    ensures w'.pool == w.pool && w'.log[Ran(n)] == w.log[Ran(n)] && w'.clock == w.clock
  {
    var a := Create(n, true);
    w' := Step(w, a);
    StepLeads(w, a);
  }
}
