/**
 Investigations under a bounded semaphore: calls and goroutines that interleave between the sections they run under
 the lock, a map from deployment key to the cancel function of the latest registered one, and a shutdown flag.
 */
module OrchestratorModel {
  /** How far a call of Investigate has come, and then the goroutine it started. */
  datatype Stage =
    | Arrived     // has superseded what was active
    | Admitted    // has seen that the orchestrator is not shutting down
    | Holding     // has a token
    | Registered  // is in the active map
    | Running     // the goroutine is counted and runs
    | Cleaned     // its first deferred function has run
    | Released    // has given the token back
    | Ended

  // Cancelled by its own cancel function; a shutdown cancels the contexts of all at once.
  datatype Call = Call(key: string, stage: Stage, cancelled: bool)

  datatype State = State(calls: map<nat, Call>, active: map<string, nat>, tokens: nat, wg: nat, stopped: bool)

  datatype Action =
    | Supersede(id: nat, key: string)
    | Admit(id: nat)
    | Acquire(id: nat)
    | Register(id: nat)
    | Spawn(id: nat)
    | Cleanup(id: nat)
    | Release(id: nat)
    | Finish(id: nat)
    | Shutdown

  function Initial(): State {
    State(map[], map[], 0, 0, false)
  }

  predicate At(s: State, id: nat, stage: Stage) {
    id in s.calls && s.calls[id].stage == stage
  }

  predicate Enabled(s: State, a: Action) {
    match a
    case Supersede(id, _) => id !in s.calls
    case Admit(id) => At(s, id, Arrived)
    case Acquire(id) => At(s, id, Admitted)
    case Register(id) => At(s, id, Holding)
    case Spawn(id) => At(s, id, Registered)
    case Cleanup(id) => At(s, id, Running)
    case Release(id) => At(s, id, Cleaned) && s.tokens > 0
    case Finish(id) => At(s, id, Released) && s.wg > 0
    case Shutdown => true
  }

  function Cancel(calls: map<nat, Call>, id: nat): map<nat, Call> {
    if id in calls then calls[id := calls[id].(cancelled := true)] else calls
  }

  function Move(s: State, id: nat, stage: Stage): State
    requires id in s.calls
  {
    s.(calls := s.calls[id := s.calls[id].(stage := stage)])
  }

  /** One section of one goroutine; the cleanup removes whatever entry its key has. */
  function Step(max: nat, s: State, a: Action): State {
    if !Enabled(s, a) then s
    else
      match a
      case Supersede(id, key) =>
        var calls := if key in s.active then Cancel(s.calls, s.active[key]) else s.calls;
        s.(calls := calls[id := Call(key, Arrived, false)], active := s.active - {key})
      case Admit(id) => Move(s, id, if s.stopped then Ended else Admitted)
      case Acquire(id) =>
        if s.tokens < max then Move(s, id, Holding).(tokens := s.tokens + 1) else Move(s, id, Ended)
      case Register(id) =>
        s.(calls := s.calls[id := Call(s.calls[id].key, Registered, false)], active := s.active[s.calls[id].key := id])
      case Spawn(id) => Move(s, id, Running).(wg := s.wg + 1)
      case Cleanup(id) =>
        State(s.calls[id := Call(s.calls[id].key, Cleaned, true)], s.active - {s.calls[id].key},
              s.tokens, s.wg, s.stopped)
      case Release(id) => Move(s, id, Released).(tokens := s.tokens - 1)
      case Finish(id) => Move(s, id, Ended).(wg := s.wg - 1)
      case Shutdown => s.(stopped := true)
  }

  function Exec(max: nat, s: State, acts: seq<Action>): State
    decreases |acts|
  {
    if acts == [] then s else Step(max, Exec(max, s, acts[..|acts| - 1]), acts[|acts| - 1])
  }

  lemma ExecOne(max: nat, s: State, past: seq<Action>, a: Action)
    ensures Exec(max, s, past + [a]) == Step(max, Exec(max, s, past), a)
  {
    assert (past + [a])[..|past|] == past;
  }

  lemma {:induction false} ExecAppend(max: nat, s: State, a: seq<Action>, b: seq<Action>)
    ensures Exec(max, s, a + b) == Exec(max, Exec(max, s, a), b)
    decreases |b|
  {
    if b == [] {
      assert a + b == a;
    } else {
      var n := |b| - 1;
      ExecAppend(max, s, a, b[..n]);
      ExecOne(max, s, a + b[..n], b[n]);
      assert a + b[..n] + [b[n]] == a + b;
    }
  }

  // ---------- Invariants ----------

  const HOLDERS := {Holding, Registered, Running, Cleaned}
  const COUNTED := {Running, Cleaned, Released}

  function Those(calls: map<nat, Call>, stages: set<Stage>): set<nat> {
    set id | id in calls && calls[id].stage in stages
  }

  /** The semaphore holds one token, and the wait group one count, for each goroutine between taking and giving. */
  ghost predicate Accounted(max: nat, s: State) {
    && s.tokens == |Those(s.calls, HOLDERS)| <= max
    && s.wg == |Those(s.calls, COUNTED)|
  }

  /** Every entry belongs to an investigation of its key that has not run its cleanup and was not superseded. */
  ghost predicate ActiveSound(s: State) {
    forall k | k in s.active :: Live(s, s.active[k]) && s.calls[s.active[k]].key == k
  }

  ghost predicate Live(s: State, id: nat) {
    (At(s, id, Registered) || At(s, id, Running)) && !s.calls[id].cancelled
  }

  /** What the investigation sees of both. */
  predicate ContextDone(s: State, id: nat)
    requires id in s.calls
  {
    s.calls[id].cancelled || s.stopped
  }

  ghost predicate Inv(max: nat, s: State) {
    Accounted(max, s) && ActiveSound(s)
  }

  lemma WithOne(rest: set<nat>, all: set<nat>, id: nat)
    requires rest == all - {id}
    ensures |all| == |rest| + if id in all then 1 else 0
  {
    assert all == rest + if id in all then {id} else {};
  }

  lemma OthersStay(calls: map<nat, Call>, id: nat, c: Call, stages: set<Stage>)
    ensures Those(calls[id := c], stages) - {id} == Those(calls, stages) - {id}
  {
  }

  lemma MoveCounts(calls: map<nat, Call>, id: nat, c: Call, stages: set<Stage>)
    ensures |Those(calls[id := c], stages)|
            == |Those(calls, stages)| - (if id in Those(calls, stages) then 1 else 0)
               + (if c.stage in stages then 1 else 0)
  {
    var rest := Those(calls, stages) - {id};
    OthersStay(calls, id, c, stages);
    WithOne(rest, Those(calls, stages), id);
    WithOne(rest, Those(calls[id := c], stages), id);
  }

  lemma CancelCounts(calls: map<nat, Call>, id: nat, stages: set<Stage>)
    ensures Those(Cancel(calls, id), stages) == Those(calls, stages)
  {
  }

  lemma StepKeepsAccounts(max: nat, s: State, a: Action)
    requires Accounted(max, s)
    ensures Accounted(max, Step(max, s, a))
  {
    var s' := Step(max, s, a);
    if Enabled(s, a) && !a.Shutdown? {
      var calls := if a.Supersede? && a.key in s.active then Cancel(s.calls, s.active[a.key]) else s.calls;
      forall stages | stages in {HOLDERS, COUNTED} ensures Those(calls, stages) == Those(s.calls, stages) {
        if a.Supersede? && a.key in s.active {
          CancelCounts(s.calls, s.active[a.key], stages);
        }
      }
      MoveCounts(calls, a.id, s'.calls[a.id], HOLDERS);
      MoveCounts(calls, a.id, s'.calls[a.id], COUNTED);
      assert s'.calls == calls[a.id := s'.calls[a.id]];
    }
  }

  lemma StepKeepsActive(max: nat, s: State, a: Action)
    requires ActiveSound(s)
    ensures ActiveSound(Step(max, s, a))
  {
    var s' := Step(max, s, a);
    forall k | k in s'.active ensures Live(s', s'.active[k]) && s'.calls[s'.active[k]].key == k {
      if k in s.active && s'.active[k] == s.active[k] {
        assert Live(s, s.active[k]) && s.calls[s.active[k]].key == k;
        if a.Supersede? && a.key in s.active {
          assert s.calls[s.active[a.key]].key == a.key;
        }
      }
    }
  }

  lemma {:induction false} ExecKeepsInv(max: nat, s: State, acts: seq<Action>)
    requires Inv(max, s)
    ensures Inv(max, Exec(max, s, acts))
    decreases |acts|
  {
    if acts != [] {
      var n := |acts| - 1;
      ExecKeepsInv(max, s, acts[..n]);
      StepKeepsAccounts(max, Exec(max, s, acts[..n]), acts[n]);
      StepKeepsActive(max, Exec(max, s, acts[..n]), acts[n]);
    }
  }

  /** The states that some interleaving of calls, goroutines and shutdown produces. */
  ghost predicate Reachable(max: nat, s: State) {
    exists acts: seq<Action> :: s == Exec(max, Initial(), acts)
  }

  lemma ReachableInv(max: nat, s: State)
    requires Reachable(max, s)
    ensures Inv(max, s)
  {
    var acts: seq<Action> :| s == Exec(max, Initial(), acts);
    assert Those(Initial().calls, HOLDERS) == {} && Those(Initial().calls, COUNTED) == {};
    ExecKeepsInv(max, Initial(), acts);
  }

  // ---------- Bounded concurrency ----------

  lemma {:induction false} DistinctValues(active: map<string, nat>, ids: set<nat>)
    requires forall k | k in active :: active[k] in ids
    requires forall j, k | j in active && k in active :: active[j] == active[k] ==> j == k
    ensures |active| <= |ids|
    decreases active
  {
    if k :| k in active {
      DistinctValues(active - {k}, ids - {active[k]});
      assert |active - {k}| == |active| - 1;
    }
  }

  /** There are never more active entries than tokens out, nor more tokens out than the bound; and every entry
      belongs to a goroutine of that key that has yet to clean up. */
  lemma BoundedConcurrency(max: nat, s: State)
    requires Reachable(max, s)
    ensures |s.active| <= s.tokens <= max
    ensures forall k | k in s.active ::
              Live(s, s.active[k]) && s.calls[s.active[k]].key == k && (ContextDone(s, s.active[k]) <==> s.stopped)
    ensures |Those(s.calls, {Running})| <= s.tokens
  {
    ReachableInv(max, s);
    DistinctValues(s.active, Those(s.calls, HOLDERS));
    var running := Those(s.calls, {Running});
    assert running <= Those(s.calls, HOLDERS);
    SubsetSize(running, Those(s.calls, HOLDERS));
  }

  lemma {:induction false} SubsetSize<T>(a: set<T>, b: set<T>)
    requires a <= b
    ensures |a| <= |b|
  {
    if x :| x in a {
      SubsetSize(a - {x}, b - {x});
    }
  }

  /** Giving a token back never blocks, and the wait group never goes below zero. */
  lemma ReleaseNeverBlocks(max: nat, s: State, id: nat)
    requires Reachable(max, s)
    ensures At(s, id, Cleaned) ==> s.tokens > 0
    ensures At(s, id, Released) ==> s.wg > 0
  {
    ReachableInv(max, s);
    assert At(s, id, Cleaned) ==> id in Those(s.calls, HOLDERS);
    assert At(s, id, Released) ==> id in Those(s.calls, COUNTED);
  }

  // ---------- Draining ----------

  ghost predicate Drained(s: State) {
    s.active == map[] && s.tokens == 0 && s.wg == 0
  }

  /** The map and the semaphore are empty exactly when no call is between taking a token and giving it back. */
  lemma DrainedIff(max: nat, s: State)
    requires Reachable(max, s)
    ensures Drained(s) <==> forall id | id in s.calls :: s.calls[id].stage !in HOLDERS + COUNTED
  {
    ReachableInv(max, s);
    if forall id | id in s.calls :: s.calls[id].stage !in HOLDERS + COUNTED {
      assert Those(s.calls, HOLDERS) == {} && Those(s.calls, COUNTED) == {};
    } else {
      var id :| id in s.calls && s.calls[id].stage in HOLDERS + COUNTED;
      assert id in Those(s.calls, HOLDERS) || id in Those(s.calls, COUNTED);
    }
  }

  function Next(stage: Stage, id: nat): Action {
    match stage
    case Arrived => Admit(id)
    case Admitted => Acquire(id)
    case Holding => Register(id)
    case Registered => Spawn(id)
    case Running => Cleanup(id)
    case Cleaned => Release(id)
    case _ => Finish(id)
  }

  function Left(stage: Stage): nat {
    match stage
    case Arrived => 7 case Admitted => 6 case Holding => 5 case Registered => 4
    case Running => 3 case Cleaned => 2 case Released => 1 case Ended => 0
  }

  /** Every call can go on by itself, whatever the others do: nothing ever waits for a token or a count. */
  lemma CallAdvances(max: nat, s: State, id: nat)
    requires Inv(max, s) && id in s.calls && s.calls[id].stage != Ended
    ensures var s' := Step(max, s, Next(s.calls[id].stage, id));
            && s'.calls.Keys == s.calls.Keys
            && Left(s'.calls[id].stage) < Left(s.calls[id].stage)
            && forall j | j in s.calls && j != id :: s'.calls[j] == s.calls[j]
  {
    assert s.calls[id].stage == Cleaned ==> id in Those(s.calls, HOLDERS);
    assert s.calls[id].stage == Released ==> id in Those(s.calls, COUNTED);
  }

  lemma {:induction false} CallCanEnd(max: nat, s: State, id: nat) returns (acts: seq<Action>)
    requires Inv(max, s) && id in s.calls
    ensures var s' := Exec(max, s, acts);
            && s'.calls.Keys == s.calls.Keys && s'.calls[id].stage == Ended
            && (forall j | j in s.calls && j != id :: s'.calls[j] == s.calls[j])
            && forall a | a in acts :: !a.Supersede? && !a.Shutdown?
    decreases Left(s.calls[id].stage)
  {
    acts := [];
    if s.calls[id].stage != Ended {
      var first := Next(s.calls[id].stage, id);
      CallAdvances(max, s, id);
      ExecOne(max, s, [], first);
      ExecKeepsInv(max, s, [first]);
      assert [] + [first] == [first];
      var more := CallCanEnd(max, Step(max, s, first), id);
      ExecAppend(max, s, [first], more);
      acts := [first] + more;
    }
  }

  /** From any reachable state, without new calls, the goroutines can all finish, and then nothing is left over. */
  lemma CanDrain(max: nat, s: State) returns (acts: seq<Action>)
    requires Reachable(max, s)
    ensures forall a | a in acts :: !a.Supersede? && !a.Shutdown?
    ensures Drained(Exec(max, s, acts))
  {
    ReachableInv(max, s);
    acts := AllEnd(max, s, s.calls.Keys);
    var past: seq<Action> :| s == Exec(max, Initial(), past);
    ExecAppend(max, Initial(), past, acts);
    DrainedIff(max, Exec(max, s, acts));
  }

  lemma {:induction false} AllEnd(max: nat, s: State, todo: set<nat>) returns (acts: seq<Action>)
    requires Inv(max, s) && todo <= s.calls.Keys
    requires forall id | id in s.calls && id !in todo :: s.calls[id].stage == Ended
    ensures forall a | a in acts :: !a.Supersede? && !a.Shutdown?
    ensures forall id | id in Exec(max, s, acts).calls :: Exec(max, s, acts).calls[id].stage == Ended
    decreases todo
  {
    acts := [];
    if id :| id in todo {
      var first := CallCanEnd(max, s, id);
      ExecKeepsInv(max, s, first);
      var more := AllEnd(max, Exec(max, s, first), todo - {id});
      ExecAppend(max, s, first, more);
      acts := first + more;
    }
  }
}
