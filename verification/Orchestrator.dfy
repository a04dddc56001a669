/** What the orchestrator keeps of "one investigation per deployment", what shutdown waits for, and its code. */
module Orchestrator {
  import opened Wrappers
  import opened OrchestratorModel

  // ---------- Supersede ----------

  /** The investigations that were not superseded are just those in the active map: a new rollout will cancel them. */
  ghost predicate Tracked(s: State) {
    forall id | id in s.calls && Live(s, id) :: Get(s.active, s.calls[id].key) == Some(id)
  }

  /** The cleanup of one investigation removes the entry of another; or a second one registers over the first. */
  predicate LosesTrack(s: State, a: Action) {
    && Enabled(s, a)
    && (a.Cleanup? || a.Register?)
    && var k := s.calls[a.id].key;
       k in s.active && s.active[k] != a.id
  }

  /** These two steps, and no others, leave an investigation, not superseded yet, that no later rollout will cancel. */
  lemma TrackedKeptIff(max: nat, s: State, a: Action)
    requires Reachable(max, s) && Tracked(s)
    ensures Tracked(Step(max, s, a)) <==> !LosesTrack(s, a)
  {
    ReachableInv(max, s);
    if LosesTrack(s, a) {
      TrackLost(max, s, a);
    } else {
      TrackKept(max, s, a);
    }
  }

  lemma TrackLost(max: nat, s: State, a: Action)
    requires ActiveSound(s) && LosesTrack(s, a)
    ensures !Tracked(Step(max, s, a))
  {
    var s' := Step(max, s, a);
    var other := s.active[s.calls[a.id].key];
    assert Live(s, other) && s.calls[other].key == s.calls[a.id].key;
    assert Live(s', other);
    assert Get(s'.active, s'.calls[other].key) != Some(other);
  }

  lemma TrackKept(max: nat, s: State, a: Action)
    requires ActiveSound(s) && Tracked(s) && !LosesTrack(s, a)
    ensures Tracked(Step(max, s, a))
  {
    var s' := Step(max, s, a);
    forall id | id in s'.calls && Live(s', id) ensures Get(s'.active, s'.calls[id].key) == Some(id) {
      LiveBefore(max, s, a, id);
      if id in s.calls && Live(s, id) {
        EntryStays(max, s, a, id);
      }
    }
  }

  lemma LiveBefore(max: nat, s: State, a: Action, id: nat)
    requires id in Step(max, s, a).calls && Live(Step(max, s, a), id)
    ensures if id in s.calls && Live(s, id) then Step(max, s, a).calls[id].key == s.calls[id].key
            else a == Register(id) && Get(Step(max, s, a).active, Step(max, s, a).calls[id].key) == Some(id)
  {
  }

  lemma EntryStays(max: nat, s: State, a: Action, id: nat)
    requires id in s.calls && Live(s, id) && Get(s.active, s.calls[id].key) == Some(id) && !LosesTrack(s, a)
    requires id in Step(max, s, a).calls && Live(Step(max, s, a), id)
    ensures Get(Step(max, s, a).active, s.calls[id].key) == Some(id)
  {
  }

  ghost predicate OnePerKey(s: State) {
    forall i, j | i in s.calls && j in s.calls && Live(s, i) && Live(s, j) && s.calls[i].key == s.calls[j].key
      :: i == j
  }

  /** One more investigation registers while another of its deployment goes on without having been superseded. */
  ghost predicate Doubles(s: State, a: Action) {
    && Enabled(s, a) && a.Register?
    && exists j | j in s.calls :: j != a.id && Live(s, j) && s.calls[j].key == s.calls[a.id].key
  }

  /** A section ends "one investigation per deployment" exactly when it is such a registration. */
  lemma OnePerKeyKeptIff(max: nat, s: State, a: Action)
    requires OnePerKey(s)
    ensures OnePerKey(Step(max, s, a)) <==> !Doubles(s, a)
  {
    var s' := Step(max, s, a);
    if Doubles(s, a) {
      var j :| j in s.calls && j != a.id && Live(s, j) && s.calls[j].key == s.calls[a.id].key;
      assert Live(s', j) && Live(s', a.id);
    } else {
      forall i, j | i in s'.calls && j in s'.calls && Live(s', i) && Live(s', j) && s'.calls[i].key == s'.calls[j].key
        ensures i == j
      {
        StaysLive(max, s, a, i);
        StaysLive(max, s, a, j);
      }
    }
  }

  /** Only its own registration makes an investigation live. */
  lemma StaysLive(max: nat, s: State, a: Action, i: nat)
    requires i in Step(max, s, a).calls && Live(Step(max, s, a), i)
    ensures (i in s.calls && Live(s, i) && s.calls[i].key == Step(max, s, a).calls[i].key)
            || (a == Register(i) && Enabled(s, a) && s.calls[i].key == Step(max, s, a).calls[i].key)
  {
  }

  ghost predicate NeverDoubles(max: nat, s: State, acts: seq<Action>) {
    forall n :: 0 <= n < |acts| ==> !Doubles(Exec(max, s, acts[..n]), acts[n])
  }

  ghost predicate AlwaysOnePerKey(max: nat, s: State, acts: seq<Action>) {
    forall n :: 0 <= n <= |acts| ==> OnePerKey(Exec(max, s, acts[..n]))
  }

  /** A run has one investigation per deployment throughout exactly when it has no such registration. */
  lemma {:induction false} AlwaysOneIff(max: nat, acts: seq<Action>)
    ensures AlwaysOnePerKey(max, Initial(), acts) <==> NeverDoubles(max, Initial(), acts)
    decreases |acts|
  {
    if acts == [] {
      assert acts[..0] == [];
    } else {
      var n := |acts| - 1;
      var init := acts[..n];
      AlwaysOneIff(max, init);
      AlwaysOneMore(max, acts);
      NeverDoublesMore(max, acts);
      assert init[..n] == init;
      if OnePerKey(Exec(max, Initial(), init)) {
        OnePerKeyKeptIff(max, Exec(max, Initial(), init), acts[n]);
      }
    }
  }

  lemma AlwaysOneMore(max: nat, acts: seq<Action>)
    requires acts != []
    ensures var init := acts[..|acts| - 1];
            AlwaysOnePerKey(max, Initial(), acts)
            <==> AlwaysOnePerKey(max, Initial(), init) && OnePerKey(Exec(max, Initial(), acts))
  {
    var n := |acts| - 1;
    assert acts[..n + 1] == acts;
    forall k | 0 <= k <= n ensures acts[..n][..k] == acts[..k] {
    }
  }

  lemma NeverDoublesMore(max: nat, acts: seq<Action>)
    requires acts != []
    ensures var n := |acts| - 1;
            NeverDoubles(max, Initial(), acts)
            <==> NeverDoubles(max, Initial(), acts[..n]) && !Doubles(Exec(max, Initial(), acts[..n]), acts[n])
  {
    var n := |acts| - 1;
    forall k | 0 <= k < n ensures acts[..n][..k] == acts[..k] && acts[..n][k] == acts[k] {
    }
  }

  ghost predicate NeverLosesTrack(max: nat, s: State, acts: seq<Action>) {
    forall n :: 0 <= n < |acts| ==> !LosesTrack(Exec(max, s, acts[..n]), acts[n])
  }

  /** Runs without those two steps have at most one investigation per deployment that was not superseded, throughout. */
  lemma {:induction false} OneInvestigationPerKey(max: nat, acts: seq<Action>)
    requires NeverLosesTrack(max, Initial(), acts)
    ensures Tracked(Exec(max, Initial(), acts)) && OnePerKey(Exec(max, Initial(), acts))
    decreases |acts|
  {
    if acts != [] {
      var n := |acts| - 1;
      forall k | 0 <= k < n ensures !LosesTrack(Exec(max, Initial(), acts[..n][..k]), acts[..n][k]) {
        assert acts[..n][..k] == acts[..k];
      }
      OneInvestigationPerKey(max, acts[..n]);
      var s := Exec(max, Initial(), acts[..n]);
      assert Reachable(max, s);
      TrackedKeptIff(max, s, acts[n]);
    }
  }

  /** A supersede leaves a live investigation of its key exactly when that one is not in the map. */
  lemma SupersedeSparesIff(max: nat, s: State, id: nat, key: string, other: nat)
    requires Reachable(max, s) && id !in s.calls && other in s.calls && s.calls[other].key == key && Live(s, other)
    ensures Live(Step(max, s, Supersede(id, key)), other) <==> Get(s.active, key) != Some(other)
  {
    ReachableInv(max, s);
  }

  /** Three rollouts of one deployment, the first superseded one finishing late: two investigations stay live. */
  function LateCleanup(k: string): seq<Action> {
    [Supersede(1, k), Admit(1), Acquire(1), Register(1), Spawn(1),
     Supersede(2, k), Admit(2), Acquire(2), Register(2), Spawn(2),
     Cleanup(1),
     Supersede(3, k), Admit(3), Acquire(3), Register(3), Spawn(3)]
  }

  lemma LateCleanupLeavesTwo(max: nat, k: string)
    requires max >= 3
    ensures var s := Exec(max, Initial(), LateCleanup(k));
            Live(s, 2) && Live(s, 3) && s.calls[2].key == s.calls[3].key == k && !OnePerKey(s)
  {
    TwoRollouts(max, k);
    ThirdRollout(max, k);
    var until := StartUp(1, k) + StartUp(2, k) + [Cleanup(1)];
    ExecOne(max, Initial(), StartUp(1, k) + StartUp(2, k), Cleanup(1));
    ExecAppend(max, Initial(), until, StartUp(3, k));
    assert LateCleanup(k) == until + StartUp(3, k);
  }

  function Superseded(k: string): State {
    State(map[1 := Call(k, Running, true), 2 := Call(k, Running, false)], map[k := 2], 2, 2, false)
  }

  lemma TwoRollouts(max: nat, k: string)
    requires max >= 3
    ensures Exec(max, Initial(), StartUp(1, k) + StartUp(2, k)) == Superseded(k)
  {
    var first := StartedUp(Initial(), 1, k);
    RunsUp(max, Initial(), 1, k);
    RunsUp(max, first, 2, k);
    ExecAppend(max, Initial(), StartUp(1, k), StartUp(2, k));
  }

  lemma ThirdRollout(max: nat, k: string)
    requires max >= 3
    ensures var s := Exec(max, Step(max, Superseded(k), Cleanup(1)), StartUp(3, k));
            Live(s, 2) && Live(s, 3) && s.calls[2].key == s.calls[3].key == k && !OnePerKey(s)
  {
    var cleaned := Step(max, Superseded(k), Cleanup(1));
    assert cleaned
           == State(map[1 := Call(k, Cleaned, true), 2 := Call(k, Running, false)], map[], 2, 2, false);
    RunsUp(max, cleaned, 3, k);
    var s := StartedUp(cleaned, 3, k);
    assert Live(s, 2) && Live(s, 3) && s.calls[2].key == s.calls[3].key;
  }

  function StartUp(id: nat, k: string): seq<Action> {
    [Supersede(id, k), Admit(id), Acquire(id), Register(id), Spawn(id)]
  }

  /** What an accepted call leaves when nothing interferes. */
  function StartedUp(s: State, id: nat, k: string): State {
    var calls := if k in s.active then Cancel(s.calls, s.active[k]) else s.calls;
    State(calls[id := Call(k, Running, false)], s.active[k := id], s.tokens + 1, s.wg + 1, s.stopped)
  }

  lemma RunsUp(max: nat, s: State, id: nat, k: string)
    requires id !in s.calls && !s.stopped && s.tokens < max
    ensures Exec(max, s, StartUp(id, k)) == StartedUp(s, id, k)
  {
    var s3 := GetsToken(max, s, id, k);
    var s4 := Step(max, s3, Register(id));
    var s5 := Step(max, s4, Spawn(id));
    ExecOne(max, s, [Supersede(id, k), Admit(id), Acquire(id)], Register(id));
    ExecOne(max, s, [Supersede(id, k), Admit(id), Acquire(id), Register(id)], Spawn(id));
    assert StartUp(id, k) == [Supersede(id, k), Admit(id), Acquire(id), Register(id)] + [Spawn(id)];
    assert [Supersede(id, k), Admit(id), Acquire(id), Register(id)]
           == [Supersede(id, k), Admit(id), Acquire(id)] + [Register(id)];
    assert s5.active == s.active[k := id];
    assert s5.calls == StartedUp(s, id, k).calls;
  }

  lemma GetsToken(max: nat, s: State, id: nat, k: string) returns (s': State)
    requires id !in s.calls && !s.stopped && s.tokens < max
    ensures s' == Exec(max, s, [Supersede(id, k), Admit(id), Acquire(id)])
    ensures s' == Step(max, s, Supersede(id, k)).(
                    calls := Step(max, s, Supersede(id, k)).calls[id := Call(k, Holding, false)],
                    tokens := s.tokens + 1)
  {
    var s1 := Step(max, s, Supersede(id, k));
    var s2 := Step(max, s1, Admit(id));
    s' := Step(max, s2, Acquire(id));
    ExecThree(max, s, Supersede(id, k), Admit(id), Acquire(id));
    assert s'.calls == s1.calls[id := Call(k, Holding, false)];
  }

  lemma ExecThree(max: nat, s: State, a: Action, b: Action, c: Action)
    ensures Exec(max, s, [a, b, c]) == Step(max, Step(max, Step(max, s, a), b), c)
  {
    ExecOne(max, s, [], a);
    ExecOne(max, s, [a], b);
    ExecOne(max, s, [a, b], c);
    assert [] + [a] == [a] && [a] + [b] == [a, b] && [a, b] + [c] == [a, b, c];
  }

  // ---------- Shutdown ----------

  /** A call that saw no shutdown but has not counted its goroutine yet. */
  ghost predicate InBetween(c: Call) {
    c.stage in {Admitted, Holding, Registered}
  }

  /** No run from here ever starts a goroutine, takes a token or registers an investigation. */
  ghost predicate QuietForever(max: nat, s: State) {
    forall acts: seq<Action> :: Drained(Exec(max, s, acts))
  }

  /** Stop returns when the wait group is at zero. Everything is over for good then exactly when no call is between
      its shutdown check and the start of its goroutine. */
  lemma StopIsFinalIff(max: nat, s: State)
    requires Reachable(max, s) && s.stopped && s.wg == 0 && max > 0
    ensures QuietForever(max, s) <==> forall id | id in s.calls :: !InBetween(s.calls[id])
  {
    ReachableInv(max, s);
    if forall id | id in s.calls :: !InBetween(s.calls[id]) {
      forall acts: seq<Action> ensures Drained(Exec(max, s, acts)) {
        NothingCounted(max, s);
        StaysQuiet(max, s, acts);
        DrainReached(max, s, acts);
      }
    } else {
      var id :| id in s.calls && InBetween(s.calls[id]);
      StillStarts(max, s, id);
    }
  }

  /** A call that passed its check just before the shutdown: Stop returns, and then its investigation begins. */
  lemma StopMissesOne(max: nat, k: string)
    requires max > 0
    ensures var s := Exec(max, Initial(), [Supersede(1, k), Admit(1), Shutdown]);
            && Reachable(max, s) && s.stopped && s.wg == 0 && !QuietForever(max, s)
            && At(Exec(max, s, [Acquire(1), Register(1), Spawn(1)]), 1, Running)
  {
    ExecThree(max, Initial(), Supersede(1, k), Admit(1), Shutdown);
    var s := State(map[1 := Call(k, Admitted, false)], map[], 0, 0, true);
    assert Exec(max, Initial(), [Supersede(1, k), Admit(1), Shutdown]) == s;
    assert InBetween(s.calls[1]);
    StopIsFinalIff(max, s);
    LateStart(max, s, 1);
  }

  lemma LateStart(max: nat, s: State, id: nat)
    requires At(s, id, Admitted) && s.tokens < max
    ensures At(Exec(max, s, [Acquire(id), Register(id), Spawn(id)]), id, Running)
  {
    ExecThree(max, s, Acquire(id), Register(id), Spawn(id));
  }

  ghost predicate Idle(s: State) {
    s.stopped && forall id | id in s.calls :: s.calls[id].stage in {Arrived, Ended}
  }

  lemma NothingCounted(max: nat, s: State)
    requires Accounted(max, s) && s.stopped && s.wg == 0
    requires forall id | id in s.calls :: !InBetween(s.calls[id])
    ensures Idle(s)
  {
    assert Those(s.calls, COUNTED) == {};
    forall id | id in s.calls ensures s.calls[id].stage in {Arrived, Ended} {
      assert id !in Those(s.calls, COUNTED) && !InBetween(s.calls[id]);
      var stage := s.calls[id].stage;
      assert stage !in COUNTED && stage !in {Admitted, Holding, Registered};
      assert stage.Arrived? || stage.Ended?;
    }
  }

  lemma {:induction false} StaysQuiet(max: nat, s: State, acts: seq<Action>)
    requires Idle(s)
    ensures Idle(Exec(max, s, acts))
    decreases |acts|
  {
    if acts != [] {
      var n := |acts| - 1;
      StaysQuiet(max, s, acts[..n]);
      IdleStep(max, Exec(max, s, acts[..n]), acts[n]);
    }
  }

  lemma IdleStep(max: nat, s: State, a: Action)
    requires Idle(s)
    ensures Idle(Step(max, s, a))
  {
  }

  lemma DrainReached(max: nat, s: State, acts: seq<Action>)
    requires Reachable(max, s) && Idle(Exec(max, s, acts))
    ensures Drained(Exec(max, s, acts))
  {
    var past: seq<Action> :| s == Exec(max, Initial(), past);
    ExecAppend(max, Initial(), past, acts);
    DrainedIff(max, Exec(max, s, acts));
  }

  lemma StillStarts(max: nat, s: State, id: nat)
    requires Inv(max, s) && s.wg == 0 && max > 0 && id in s.calls && InBetween(s.calls[id])
    ensures !QuietForever(max, s)
  {
    if s.calls[id].stage != Admitted {
      assert id in Those(s.calls, HOLDERS);
      assert !Drained(Exec(max, s, []));
    } else if s.tokens > 0 {
      assert !Drained(Exec(max, s, []));
    } else {
      ExecOne(max, s, [], Acquire(id));
      assert !Drained(Exec(max, s, [] + [Acquire(id)]));
    }
  }

  // ---------- The code ----------

  class Orchestrator {
    const maxConcurrent: nat
    var active: map<string, nat>  // deployment key -> whose cancel function
    var semaphore: nat
    var wg: nat
    var stopped: bool             // the orchestrator's own context is cancelled
    var calls: map<nat, Call>     // the goroutines and their contexts

    constructor (maxConcurrent: nat)
      ensures this.maxConcurrent == maxConcurrent && State() == Initial()
    {
      this.maxConcurrent := maxConcurrent;
      active, semaphore, wg, stopped, calls := map[], 0, 0, false, map[];
    }

    function State(): OrchestratorModel.State
      reads this
    {
      OrchestratorModel.State(calls, active, semaphore, wg, stopped)
    }

    /** Cancels and forgets whatever is active for the key, whoever is calling. */
    method CancelActive(id: nat, key: string)
      requires id !in calls
      modifies this`calls, this`active
      ensures State() == Step(maxConcurrent, old(State()), Supersede(id, key))
    {
      if key in active {
        calls := Cancel(calls, active[key]);
        active := active - {key};
      }
      calls := calls[id := Call(key, Arrived, false)];
      assert active == old(active) - {key};
    }

    method CheckShutdown(id: nat) returns (rejected: bool)
      requires At(State(), id, Arrived)
      modifies this`calls
      ensures State() == Step(maxConcurrent, old(State()), Admit(id)) && rejected == stopped
    {
      rejected := stopped;
      calls := calls[id := calls[id].(stage := if stopped then Ended else Admitted)];
    }

    method TryAcquire(id: nat) returns (acquired: bool)
      requires At(State(), id, Admitted)
      modifies this`calls, this`semaphore
      ensures State() == Step(maxConcurrent, old(State()), Acquire(id)) && acquired == (old(semaphore) < maxConcurrent)
    {
      acquired := semaphore < maxConcurrent;
      if acquired {
        semaphore := semaphore + 1;
        calls := calls[id := calls[id].(stage := Holding)];
      } else {
        calls := calls[id := calls[id].(stage := Ended)];
      }
    }

    method RegisterCancel(id: nat)
      requires At(State(), id, Holding)
      modifies this`calls, this`active
      ensures State() == Step(maxConcurrent, old(State()), Register(id))
    {
      active := active[calls[id].key := id];
      calls := calls[id := Call(calls[id].key, Registered, false)];
    }

    method Go(id: nat)
      requires At(State(), id, Registered)
      modifies this`calls, this`wg
      ensures State() == Step(maxConcurrent, old(State()), Spawn(id))
    {
      wg := wg + 1;
      calls := calls[id := calls[id].(stage := Running)];
    }

    /** Both deletes of the source: the first never applies, as no entry is nil; the second asks for no owner. */
    method CleanUp(id: nat)
      requires At(State(), id, Running)
      modifies this`calls, this`active
      ensures State() == Step(maxConcurrent, old(State()), Cleanup(id))
    {
      var key := calls[id].key;
      if key in active {
        active := active - {key};
      }
      calls := calls[id := Call(key, Cleaned, true)];
      assert active == old(active) - {key};
    }

    method ReleaseToken(id: nat)
      requires At(State(), id, Cleaned) && semaphore > 0
      modifies this`calls, this`semaphore
      ensures State() == Step(maxConcurrent, old(State()), Release(id))
    {
      semaphore := semaphore - 1;
      calls := calls[id := calls[id].(stage := Released)];
    }

    method MarkDone(id: nat)
      requires At(State(), id, Released) && wg > 0
      modifies this`calls, this`wg
      ensures State() == Step(maxConcurrent, old(State()), Finish(id))
    {
      wg := wg - 1;
      calls := calls[id := calls[id].(stage := Ended)];
    }

    /** A whole call, other goroutines and calls running between its sections. A call whose own check finds the
        orchestrator stopped, or that finds no token, changes nothing but has superseded what was active. */
    method Investigate(id: nat, key: string, others: Gaps) returns (outcome: Outcome, ghost trace: seq<Action>)
      requires id !in calls && GapsApart(others, id)
      modifies this
      ensures State() == Exec(maxConcurrent, old(State()), trace)
      ensures trace == TraceOf(id, key, others, outcome)
      ensures outcome == Rejected <==> Exec(maxConcurrent, old(State()), [Supersede(id, key)] + others.a).stopped
      ensures outcome != Rejected ==>
                (outcome == Started <==>
                 Exec(maxConcurrent, old(State()), TraceOf(id, key, others, Rejected) + others.b).tokens < maxConcurrent)
      ensures At(State(), id, if outcome == Started then Running else Ended)
    {
      ghost var s := State();
      var ok;
      ok, trace := Enter(id, key, others.a);
      if !ok { return Rejected, trace; }
      ok, trace := TakeToken(id, others.b, s, trace);
      if !ok { return Dropped, trace; }
      trace := Enroll(id, others.c, others.d, s, trace);
      outcome := Started;
    }

    method Enter(id: nat, key: string, gap: seq<Action>) returns (ok: bool, ghost trace: seq<Action>)
      requires id !in calls && Apart(gap, id)
      modifies this
      ensures trace == [Supersede(id, key)] + gap + [Admit(id)] && State() == Exec(maxConcurrent, old(State()), trace)
      ensures ok <==> !Exec(maxConcurrent, old(State()), [Supersede(id, key)] + gap).stopped
      ensures At(State(), id, if ok then Admitted else Ended)
    {
      ghost var s := State();
      CancelActive(id, key);
      trace := Then(maxConcurrent, s, [], Supersede(id, key));
      trace := Others(gap, s, trace, id);
      var rejected := CheckShutdown(id);
      trace := Then(maxConcurrent, s, trace, Admit(id));
      ok := !rejected;
    }

    method TakeToken(id: nat, gap: seq<Action>, ghost s: OrchestratorModel.State, ghost past: seq<Action>)
      returns (ok: bool, ghost trace: seq<Action>)
      requires At(State(), id, Admitted) && Apart(gap, id) && State() == Exec(maxConcurrent, s, past)
      modifies this
      ensures trace == past + gap + [Acquire(id)] && State() == Exec(maxConcurrent, s, trace)
      ensures ok <==> Exec(maxConcurrent, s, past + gap).tokens < maxConcurrent
      ensures At(State(), id, if ok then Holding else Ended)
    {
      trace := Others(gap, s, past, id);
      ok := TryAcquire(id);
      trace := Then(maxConcurrent, s, trace, Acquire(id));
    }

    method Enroll(id: nat, before: seq<Action>, after: seq<Action>,
                  ghost s: OrchestratorModel.State, ghost past: seq<Action>) returns (ghost trace: seq<Action>)
      requires At(State(), id, Holding) && Apart(before, id) && Apart(after, id)
      requires State() == Exec(maxConcurrent, s, past)
      modifies this
      ensures trace == past + before + [Register(id)] + after + [Spawn(id)] && State() == Exec(maxConcurrent, s, trace)
      ensures At(State(), id, Running)
    {
      trace := Others(before, s, past, id);
      RegisterCancel(id);
      trace := Then(maxConcurrent, s, trace, Register(id));
      trace := Others(after, s, trace, id);
      Go(id);
      trace := Then(maxConcurrent, s, trace, Spawn(id));
    }

    /** The end of an investigation, however it went: its deferred functions, last one first. */
    method Conclude(id: nat, others: Gaps) returns (ghost trace: seq<Action>)
      requires At(State(), id, Running) && Inv(maxConcurrent, State()) && GapsApart(others, id)
      modifies this
      ensures trace == [Cleanup(id)] + others.a + [Release(id)] + others.b + [Finish(id)]
      ensures State() == Exec(maxConcurrent, old(State()), trace) && Inv(maxConcurrent, State())
      ensures At(State(), id, Ended)
    {
      ghost var s := State();
      CleanUp(id);
      trace := Then(maxConcurrent, s, [], Cleanup(id));
      trace := CleanedUp(id, others.a, s, trace);
      trace := GivenBack(id, others.b, s, trace);
      ExecKeepsInv(maxConcurrent, s, trace);
    }

    method CleanedUp(id: nat, gap: seq<Action>, ghost s: OrchestratorModel.State, ghost past: seq<Action>)
      returns (ghost trace: seq<Action>)
      requires At(State(), id, Cleaned) && Apart(gap, id)
      requires Inv(maxConcurrent, s) && State() == Exec(maxConcurrent, s, past)
      modifies this
      ensures trace == past + gap + [Release(id)] && State() == Exec(maxConcurrent, s, trace)
      ensures At(State(), id, Released)
    {
      trace := Others(gap, s, past, id);
      ExecKeepsInv(maxConcurrent, s, trace);
      assert id in Those(calls, HOLDERS);
      ReleaseToken(id);
      trace := Then(maxConcurrent, s, trace, Release(id));
    }

    method GivenBack(id: nat, gap: seq<Action>, ghost s: OrchestratorModel.State, ghost past: seq<Action>)
      returns (ghost trace: seq<Action>)
      requires At(State(), id, Released) && Apart(gap, id)
      requires Inv(maxConcurrent, s) && State() == Exec(maxConcurrent, s, past)
      modifies this
      ensures trace == past + gap + [Finish(id)] && State() == Exec(maxConcurrent, s, trace)
      ensures At(State(), id, Ended)
    {
      trace := Others(gap, s, past, id);
      ExecKeepsInv(maxConcurrent, s, trace);
      assert id in Those(calls, COUNTED);
      MarkDone(id);
      trace := Then(maxConcurrent, s, trace, Finish(id));
    }

    /** Cancels every context, then waits until the count is at zero while the others go on. Having returned, it has
        put an end to everything exactly when no call was between its shutdown check and its goroutine. */
    method Stop(others: seq<Action>) returns (returned: bool, n: nat)
      requires Reachable(maxConcurrent, State())
      modifies this
      ensures n <= |others| && State() == Exec(maxConcurrent, old(State()), [Shutdown] + others[..n])
      ensures if returned then wg == 0 else wg > 0 && n == |others|
      ensures returned && maxConcurrent > 0 ==>
                (QuietForever(maxConcurrent, State()) <==> forall id | id in calls :: !InBetween(calls[id]))
    {
      ghost var s := State();
      stopped := true;
      ghost var trace := Then(maxConcurrent, s, [], Shutdown);
      n := 0;
      while wg > 0 && n < |others|
        decreases |others| - n
        invariant n <= |others| && trace == [Shutdown] + others[..n]
        invariant State() == Exec(maxConcurrent, s, trace)
      {
        ghost var past := trace;
        OtherStep(others[n]);
        trace := Then(maxConcurrent, s, past, others[n]);
        assert others[..n + 1] == others[..n] + [others[n]];
        n := n + 1;
      }
      returned := wg == 0;
      if returned && maxConcurrent > 0 {
        StopReturns(maxConcurrent, s, others[..n]);
      }
    }

    /** Other goroutines and calls, while this one is between two sections. */
    method Others(acts: seq<Action>, ghost start: OrchestratorModel.State, ghost past: seq<Action>, ghost mine: nat)
      returns (ghost trace: seq<Action>)
      requires State() == Exec(maxConcurrent, start, past) && Apart(acts, mine) && mine in calls
      modifies this
      ensures trace == past + acts && State() == Exec(maxConcurrent, start, trace)
      ensures SamePlace(old(calls), calls, mine)
    {
      trace := past;
      for n := 0 to |acts|
        invariant trace == past + acts[..n] && State() == Exec(maxConcurrent, start, trace)
      {
        OtherStep(acts[n]);
        trace := Then(maxConcurrent, start, trace, acts[n]);
        assert acts[..n + 1] == acts[..n] + [acts[n]];
      }
      assert acts[..|acts|] == acts;
      ExecAppend(maxConcurrent, start, past, acts);
      ExecApart(maxConcurrent, old(State()), acts, mine);
    }

    method OtherStep(a: Action)
      modifies this
      ensures State() == Step(maxConcurrent, old(State()), a)
    {
      if Enabled(State(), a) {
        match a {
          case Supersede(id, key) => CancelActive(id, key);
          case Admit(id) => var rejected := CheckShutdown(id);
          case Acquire(id) => var acquired := TryAcquire(id);
          case Register(id) => RegisterCancel(id);
          case Spawn(id) => Go(id);
          case Cleanup(id) => CleanUp(id);
          case Release(id) => ReleaseToken(id);
          case Finish(id) => MarkDone(id);
          case Shutdown => stopped := true;
        }
      }
    }
  }

  /** What others do between the sections of one call or goroutine. */
  datatype Gaps = Gaps(a: seq<Action>, b: seq<Action>, c: seq<Action>, d: seq<Action>)

  datatype Outcome = Rejected | Dropped | Started

  predicate Apart(acts: seq<Action>, id: nat) {
    forall x | x in acts :: x.Shutdown? || x.id != id
  }

  predicate GapsApart(g: Gaps, id: nat) {
    Apart(g.a, id) && Apart(g.b, id) && Apart(g.c, id) && Apart(g.d, id)
  }

  predicate SamePlace(before: map<nat, Call>, after: map<nat, Call>, id: nat)
    requires id in before
  {
    id in after && after[id].stage == before[id].stage && after[id].key == before[id].key
  }

  function TraceOf(id: nat, key: string, g: Gaps, outcome: Outcome): seq<Action> {
    var arrived := [Supersede(id, key)] + g.a + [Admit(id)];
    match outcome
    case Rejected => arrived
    case Dropped => arrived + g.b + [Acquire(id)]
    case Started => arrived + g.b + [Acquire(id)] + g.c + [Register(id)] + g.d + [Spawn(id)]
  }

  lemma Then(max: nat, s: State, past: seq<Action>, a: Action) returns (trace: seq<Action>)
    ensures trace == past + [a] && (past == [] ==> trace == [a])
    ensures Exec(max, s, trace) == Step(max, Exec(max, s, past), a)
  {
    ExecOne(max, s, past, a);
    trace := past + [a];
  }

  lemma StepApart(max: nat, s: State, a: Action, mine: nat)
    requires mine in s.calls && (a.Shutdown? || a.id != mine)
    ensures SamePlace(s.calls, Step(max, s, a).calls, mine)
  {
  }

  lemma {:induction false} ExecApart(max: nat, s: State, acts: seq<Action>, mine: nat)
    requires mine in s.calls && Apart(acts, mine)
    ensures SamePlace(s.calls, Exec(max, s, acts).calls, mine)
    decreases |acts|
  {
    if acts != [] {
      var n := |acts| - 1;
      assert acts[n] in acts && forall x | x in acts[..n] :: x in acts;
      ExecApart(max, s, acts[..n], mine);
      StepApart(max, Exec(max, s, acts[..n]), acts[n], mine);
    }
  }

  /** What is final once the count is at zero after a shutdown. */
  lemma StopReturns(max: nat, s: State, others: seq<Action>)
    requires Reachable(max, s) && max > 0 && Exec(max, s, [Shutdown] + others).wg == 0
    ensures var s' := Exec(max, s, [Shutdown] + others);
            QuietForever(max, s') <==> forall id | id in s'.calls :: !InBetween(s'.calls[id])
  {
    ExecAppend(max, s, [Shutdown], others);
    ExecOne(max, s, [], Shutdown);
    assert [] + [Shutdown] == [Shutdown];
    StaysStopped(max, Step(max, s, Shutdown), others);
    ReachesOn(max, s, [Shutdown] + others);
    StopIsFinalIff(max, Exec(max, s, [Shutdown] + others));
  }

  lemma {:induction false} StaysStopped(max: nat, s: State, acts: seq<Action>)
    requires s.stopped
    ensures Exec(max, s, acts).stopped
    decreases |acts|
  {
    if acts != [] {
      StaysStopped(max, s, acts[..|acts| - 1]);
    }
  }

  lemma ReachesOn(max: nat, s: State, acts: seq<Action>)
    requires Reachable(max, s)
    ensures Reachable(max, Exec(max, s, acts))
  {
    var past: seq<Action> :| s == Exec(max, Initial(), past);
    ExecAppend(max, Initial(), past, acts);
  }
}
