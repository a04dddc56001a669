/** The debouncer's guarantees over every interleaving, the window it does not always keep, and its code. */
module Debouncer {
  import opened Wrappers
  import opened DebouncerModel
  import opened DebouncerLaws

  lemma {:induction false} ExecKeepsInv(cfg: Config, s: State, acts: seq<Action>)
    requires Inv(s)
    ensures Inv(Exec(cfg, s, acts))
    decreases |acts|
  {
    if acts != [] {
      var n := |acts| - 1;
      ExecKeepsInv(cfg, s, acts[..n]);
      var mid := Exec(cfg, s, acts[..n]);
      StepKeepsKeys(cfg, mid, acts[n]);
      StepKeepsTimers(cfg, mid, acts[n]);
      StepKeepsWillEmit(cfg, mid, acts[n]);
      StepKeepsLatest(cfg, mid, acts[n]);
      StepConserves(cfg, mid, acts[n]);
    }
  }

  /** The states that some interleaving of callers, callbacks, timers and the reader produces. */
  ghost predicate Reachable(cfg: Config, s: State) {
    exists clock: int, acts: seq<Action> :: s == Exec(cfg, Initial(clock), acts)
  }

  lemma ReachableInv(cfg: Config, s: State)
    requires Reachable(cfg, s)
    ensures Inv(s)
  {
    var clock: int, acts: seq<Action> :| s == Exec(cfg, Initial(clock), acts);
    ExecKeepsInv(cfg, Initial(clock), acts);
  }

  /** Every submitted event has exactly one fate: pending, taken but not sent yet, replaced by a later Submit,
      sent, dropped on a full queue, or discarded by Stop; and nothing else has any. */
  lemma OneFate(cfg: Config, s: State, x: Item)
    requires Reachable(cfg, s)
    ensures Fates(s, x) == if x in s.hist.submitted then 1 else 0
  {
    ReachableInv(cfg, s);
    assert Conserved(s);
  }

  /** Pending events and timers always have the same keys, and a pending event always has a timer that will emit
      it or a callback already waiting to. */
  lemma PendingWillBeEmitted(cfg: Config, s: State, k: string)
    requires Reachable(cfg, s)
    ensures k in s.pending <==> k in s.timers
    ensures k in s.pending ==> s.timers[k] in s.rt.armed || k in s.rt.firing
  {
    ReachableInv(cfg, s);
  }

  /** An emit takes the latest event submitted under its key, even when a stale or re-armed timer started it. */
  lemma TakesLatest(cfg: Config, s: State, k: string)
    requires Reachable(cfg, s) && k in s.pending && k in s.rt.firing
    ensures TakesLatestOf(cfg, s, k)
  {
    ReachableInv(cfg, s);
    TakesLatestNow(cfg, s, k);
  }

  ghost predicate TakesLatestOf(cfg: Config, s: State, k: string)
    requires k in s.pending
  {
    var x := s.pending[k];
    && x in s.hist.submitted && x.key == k
    && (forall y | y in s.hist.submitted && y.key == k :: y.number <= x.number)
    && Step(cfg, s, Take(k)).hist.taken == s.hist.taken + multiset{x}
  }

  lemma TakesLatestNow(cfg: Config, s: State, k: string)
    requires LatestPending(s) && k in s.pending && k in s.rt.firing
    ensures TakesLatestOf(cfg, s, k)
  {
  }

  // ---------- The quiet window ----------

  /** Nothing can take the pending event of k before its window is over. */
  ghost predicate Quiet(cfg: Config, s: State, k: string) {
    k in s.pending ==>
      && (forall t | t in s.rt.armed && t in s.rt.owner && s.rt.owner[t] == k ::
            s.rt.armed[t] >= s.pending[k].at + cfg.window)
      && (k in s.rt.firing ==> s.rt.clock >= s.pending[k].at + cfg.window)
  }

  ghost predicate NoSubmit(acts: seq<Action>, k: string) {
    forall a | a in acts && a.Submit? :: a.key != k
  }

  lemma StepKeepsQuiet(cfg: Config, s: State, a: Action, k: string)
    requires Quiet(cfg, s, k) && TimersSound(s) && !(a.Submit? && a.key == k)
    ensures Quiet(cfg, Step(cfg, s, a), k)
    ensures var s' := Step(cfg, s, a); k in s'.pending ==> k in s.pending && s'.pending[k] == s.pending[k]
  {
    if k in Step(cfg, s, a).pending { PendingBefore(cfg, s, a, k); }
    if Enabled(s, a) {
      match a {
        case Submit(j, e) => SubmitKeepsQuiet(cfg, s, j, e, k);
        case Fire(t) => FireKeepsQuiet(cfg, s, t, k);
        case Take(j) => TakeKeepsQuiet(cfg, s, j, k);
        case Stop => StopKeepsQuiet(cfg, s, k);
        case _ =>
      }
    }
  }

  lemma FireKeepsQuiet(cfg: Config, s: State, t: nat, k: string)
    requires Quiet(cfg, s, k) && t in s.rt.owner && t in s.rt.armed && s.rt.armed[t] <= s.rt.clock
    ensures Quiet(cfg, FireStep(s, t), k)
  {
  }

  lemma TakeKeepsQuiet(cfg: Config, s: State, j: string, k: string)
    requires Quiet(cfg, s, k)
    ensures Quiet(cfg, TakeStep(s, j), k)
  {
  }

  lemma StopKeepsQuiet(cfg: Config, s: State, k: string)
    requires Quiet(cfg, s, k)
    ensures Quiet(cfg, StopStep(s), k)
  {
  }

  lemma SubmitKeepsQuiet(cfg: Config, s: State, j: string, e: string, k: string)
    requires Quiet(cfg, s, k) && TimersSound(s) && j != k
    ensures Quiet(cfg, SubmitStep(cfg, s, j, e), k)
  {
  }

  lemma {:induction false} ExecKeepsQuiet(cfg: Config, s: State, acts: seq<Action>, k: string)
    requires Quiet(cfg, s, k) && TimersSound(s) && NoSubmit(acts, k)
    ensures TimersSound(Exec(cfg, s, acts))
    ensures Quiet(cfg, Exec(cfg, s, acts), k)
    ensures var s' := Exec(cfg, s, acts); k in s'.pending ==> k in s.pending && s'.pending[k] == s.pending[k]
    decreases |acts|
  {
    if acts != [] {
      var n := |acts| - 1;
      assert acts[n] in acts && forall a | a in acts[..n] :: a in acts;
      ExecKeepsQuiet(cfg, s, acts[..n], k);
      StepKeepsTimers(cfg, Exec(cfg, s, acts[..n]), acts[n]);
      StepKeepsQuiet(cfg, Exec(cfg, s, acts[..n]), acts[n], k);
    }
  }

  /** Another armed timer of the same key, left over from an emit that ran after the timer was re-armed. */
  ghost predicate Leftover(cfg: Config, s: State, k: string, t: nat) {
    && t in s.rt.armed && t in s.rt.owner && s.rt.owner[t] == k
    && (k in s.timers ==> t != s.timers[k])
    && s.rt.armed[t] < s.rt.clock + cfg.window
  }

  /** In every continuation without another Submit of k, an emit finds the event only after its window. */
  ghost predicate WaitsForWindow(cfg: Config, s: State, k: string) {
    forall acts | NoSubmit(acts, k) && k in Exec(cfg, s, acts).pending && k in Exec(cfg, s, acts).rt.firing ::
      k in s.pending && Exec(cfg, s, acts).rt.clock >= s.pending[k].at + cfg.window
  }

  /** An event waits out its window of inactivity exactly when, as it is submitted, no callback of its key is
      already waiting for the lock and no leftover timer of its key runs out sooner. */
  lemma WindowKeptIff(cfg: Config, s: State, k: string, e: string)
    requires TimersSound(s) && cfg.window > 0
    ensures WaitsForWindow(cfg, Step(cfg, s, Submit(k, e)), k)
            <==> k !in s.rt.firing && !exists t :: Leftover(cfg, s, k, t)
  {
    var s' := Step(cfg, s, Submit(k, e));
    StepKeepsTimers(cfg, s, Submit(k, e));
    if k in s.rt.firing {
      assert Exec(cfg, s', []) == s' && NoSubmit([], k);
    } else if t :| Leftover(cfg, s, k, t) {
      LeftoverFires(cfg, s, k, e, t);
    } else {
      QuietFromStart(cfg, s, k, e);
      forall acts | NoSubmit(acts, k) && k in Exec(cfg, s', acts).pending && k in Exec(cfg, s', acts).rt.firing
        ensures Exec(cfg, s', acts).rt.clock >= s'.pending[k].at + cfg.window
      {
        ExecKeepsQuiet(cfg, s', acts, k);
      }
    }
  }

  lemma QuietFromStart(cfg: Config, s: State, k: string, e: string)
    requires TimersSound(s) && k !in s.rt.firing && !exists t :: Leftover(cfg, s, k, t)
    ensures Quiet(cfg, Step(cfg, s, Submit(k, e)), k)
  {
    var s' := Step(cfg, s, Submit(k, e));
    forall t | t in s'.rt.armed && t in s'.rt.owner && s'.rt.owner[t] == k
      ensures s'.rt.armed[t] >= s'.pending[k].at + cfg.window
    {
      if t != s'.timers[k] {
        assert !Leftover(cfg, s, k, t);
      }
    }
  }

  lemma LeftoverFires(cfg: Config, s: State, k: string, e: string, t: nat)
    requires TimersSound(s) && cfg.window > 0 && Leftover(cfg, s, k, t)
    ensures !WaitsForWindow(cfg, Step(cfg, s, Submit(k, e)), k)
  {
    var s' := Step(cfg, s, Submit(k, e));
    assert t < Fresh(s.rt) && s'.timers[k] != t;
    FiresEarly(cfg, s', k, t);
  }

  lemma FiresEarly(cfg: Config, s: State, k: string, t: nat)
    requires k in s.pending && t in s.rt.armed && t in s.rt.owner && s.rt.owner[t] == k
    requires s.rt.armed[t] < s.pending[k].at + cfg.window && s.rt.clock < s.pending[k].at + cfg.window
    ensures !WaitsForWindow(cfg, s, k)
  {
    var d: nat := if s.rt.armed[t] > s.rt.clock then s.rt.armed[t] - s.rt.clock else 0;
    var acts := [Tick(d), Fire(t)];
    ExecTwo(cfg, s, Tick(d), Fire(t));
    assert NoSubmit(acts, k);
    assert k in Exec(cfg, s, acts).pending && k in Exec(cfg, s, acts).rt.firing;
  }

  lemma ExecTwo(cfg: Config, s: State, a: Action, b: Action)
    ensures Exec(cfg, s, [a, b]) == Step(cfg, Step(cfg, s, a), b)
  {
    assert [a, b][..1] == [a] && [a][..0] == [];
    assert Exec(cfg, s, [a]) == Step(cfg, Exec(cfg, s, []), a);
  }

  /** Submitting again just as the timer fires hands the new event over at once, with no quiet time at all. */
  lemma ResubmitAtExpiry(cfg: Config, clock: int, k: string, e: string, e': string) returns (acts: seq<Action>)
    requires cfg.window > 0
    ensures k in Exec(cfg, Initial(clock), acts).rt.firing
    ensures !WaitsForWindow(cfg, Step(cfg, Exec(cfg, Initial(clock), acts), Submit(k, e')), k)
  {
    acts := ThreeSteps(cfg, Initial(clock), Submit(k, e), Tick(cfg.window), Fire(0));
    FirstExpiry(cfg, clock, k, e);
    ExecKeepsInv(cfg, Initial(clock), acts);
    WindowKeptIff(cfg, Exec(cfg, Initial(clock), acts), k, e');
  }

  lemma ThreeSteps(cfg: Config, s: State, a: Action, b: Action, c: Action) returns (acts: seq<Action>)
    ensures Exec(cfg, s, acts) == Step(cfg, Step(cfg, Step(cfg, s, a), b), c)
  {
    acts := [a, b, c];
    ExecTwo(cfg, s, a, b);
    assert acts[..2] == [a, b];
  }

  lemma FirstExpiry(cfg: Config, clock: int, k: string, e: string)
    ensures k in Step(cfg, Step(cfg, Step(cfg, Initial(clock), Submit(k, e)), Tick(cfg.window)), Fire(0)).rt.firing
  {
    var s1 := Step(cfg, Initial(clock), Submit(k, e));
    assert s1.rt.armed == map[0 := clock + cfg.window] && s1.rt.owner == map[0 := k];
  }

  // ---------- The code ----------

  class Debouncer {
    const cfg: Config
    var pending: map<string, Item>
    var timers: map<string, nat>
    var rt: Runtime    // timers, started callbacks and the channel
    var hist: History  // what became of each event, kept for the statement only

    constructor (cfg: Config, clock: int)
      ensures this.cfg == cfg && State() == Initial(clock)
    {
      this.cfg := cfg;
      pending, timers := map[], map[];
      rt := Initial(clock).rt;
      hist := Initial(clock).hist;
    }

    function State(): State
      reads this
    {
      DebouncerModel.State(pending, timers, rt, hist)
    }

    /** Replaces the pending event and resets the key's timer, or starts one. */
    method Submit(key: string, event: string)
      modifies this
      ensures State() == Step(cfg, old(State()), DebouncerModel.Submit(key, event))
      ensures Holds(cfg, old(State()), State(), key, event)
    {
      SubmitLaw(cfg, State(), key, event);
      var x := NewItem(State(), key, event);
      hist := SubmitHistory(State(), x);
      pending := pending[key := x];
      if key in timers {
        rt := rt.(armed := rt.armed[timers[key] := rt.clock + cfg.window]);
        return;
      }
      var t := Fresh(rt);
      rt := rt.(armed := rt.armed[t := rt.clock + cfg.window], owner := rt.owner[t := key]);
      timers := timers[key := t];
    }

    /** The critical section of emit: whatever is pending under the key, if anything. */
    method TakePending(key: string) returns (event: Option<Item>)
      requires key in rt.firing
      modifies this
      ensures State() == Step(cfg, old(State()), Take(key))
      ensures event == Get(old(pending), key)
    {
      event := Get(pending, key);
      pending := pending - {key};
      timers := timers - {key};
      rt := rt.(firing := rt.firing - multiset{key});
      if event.Some? { hist := hist.(taken := hist.taken + multiset{event.value}); }
    }

    /** The non-blocking send: a full queue drops the event. */
    method TrySend(event: Item)
      requires event in hist.taken
      modifies this`rt, this`hist
      ensures State() == Step(cfg, old(State()), Send(event))
      ensures if |old(rt.queue)| < cfg.capacity
              then rt.queue == old(rt.queue) + [event] && hist.dropped == old(hist.dropped)
              else rt.queue == old(rt.queue) && hist.dropped == old(hist.dropped) + multiset{event}
    {
      hist := hist.(taken := hist.taken - multiset{event});
      if |rt.queue| < cfg.capacity {
        rt := rt.(queue := rt.queue + [event]);
        hist := hist.(sent := hist.sent + multiset{event}, order := hist.order + [event]);
      } else {
        hist := hist.(dropped := hist.dropped + multiset{event});
      }
    }

    /** A timer callback: takes the pending event under the lock and sends it after releasing it, with other
        goroutines in between. */
    method Emit(key: string, others: seq<Action>) returns (event: Option<Item>)
      requires key in rt.firing && KeysAgree(State()) && Leaves(others, Get(pending, key))
      modifies this
      ensures event == Get(old(pending), key)
      ensures State() == Exec(cfg, old(State()),
                              [Take(key)] + others + if event.Some? then [Send(event.value)] else [])
      ensures event.Some? ==>
                var s := Exec(cfg, old(State()), [Take(key)] + others);
                rt.queue == if |s.rt.queue| < cfg.capacity then s.rt.queue + [event.value] else s.rt.queue
    {
      ghost var s := State();
      event := TakePending(key);
      ExecOne(cfg, s, [], Take(key));
      StepKeepsKeys(cfg, s, Take(key));
      Others(others, s, [Take(key)]);
      if event.None? {
        assert [Take(key)] + others + [] == [Take(key)] + others;
        return;
      }
      TakenStays(cfg, Step(cfg, s, Take(key)), others, event.value);
      ExecAppend(cfg, s, [Take(key)], others);
      TrySend(event.value);
      ExecOne(cfg, s, [Take(key)] + others, Send(event.value));
    }

    /** Cancels every timer in the map and forgets what is pending under its key. */
    method Stop()
      requires KeysAgree(State())
      modifies this
      ensures State() == Step(cfg, old(State()), DebouncerModel.Stop)
    {
      ghost var s := State();
      var gone := CancelTimers();
      StopAll(s, gone);
      hist := hist.(discarded := hist.discarded + multiset(gone));
    }

    method CancelTimers() returns (gone: set<Item>)
      requires pending.Keys == timers.Keys
      modifies this`pending, this`timers, this`rt
      ensures pending == map[] && timers == map[]
      ensures rt == old(rt).(armed := old(rt.armed) - set k | k in old(timers).Keys :: old(timers)[k])
      ensures gone == set k | k in old(timers).Keys :: old(pending)[k]
    {
      ghost var s := State();
      var todo := timers.Keys;
      ghost var done: set<string> := {};
      gone := {};
      while todo != {}
        invariant todo == s.timers.Keys - done && done <= s.timers.Keys
        invariant timers == s.timers - done && pending == s.pending - done
        invariant rt == s.rt.(armed := s.rt.armed - set k | k in done :: s.timers[k])
        invariant gone == set k | k in done :: s.pending[k]
        decreases todo
      {
        var key :| key in todo;
        rt := rt.(armed := rt.armed - {timers[key]});
        gone := gone + {pending[key]};
        timers := timers - {key};
        pending := pending - {key};
        todo := todo - {key};
        StoppedOne(s, done, key);
        done := done + {key};
      }
      assert done == s.timers.Keys;
    }

    /** What the Go runtime and the channel's reader do: a timer expires, a reader receives, time passes. */
    method RuntimeStep(a: Action)
      requires a.Fire? || a.Receive? || a.Tick?
      modifies this`rt
      ensures State() == Step(cfg, old(State()), a)
    {
      if Enabled(State(), a) {
        match a {
          case Fire(t) => rt := rt.(armed := rt.armed - {t}, firing := rt.firing + multiset{rt.owner[t]});
          case Receive => rt := rt.(queue := rt.queue[1..]);
          case Tick(d) => rt := rt.(clock := rt.clock + d);
        }
      }
    }

    /** Other goroutines running while this one does not hold the lock. */
    method Others(acts: seq<Action>, ghost start: DebouncerModel.State, ghost past: seq<Action>)
      requires State() == Exec(cfg, start, past) && KeysAgree(State())
      modifies this
      ensures State() == Exec(cfg, start, past + acts)
    {
      assert past + acts[..0] == past;
      for i := 0 to |acts|
        invariant State() == Exec(cfg, start, past + acts[..i]) && KeysAgree(State())
      {
        ghost var before := past + acts[..i];
        StepKeepsKeys(cfg, State(), acts[i]);
        OtherStep(acts[i]);
        ExecOne(cfg, start, before, acts[i]);
        assert before + [acts[i]] == past + acts[..i + 1];
      }
      assert acts[..|acts|] == acts;
    }

    method OtherStep(a: Action)
      requires KeysAgree(State())
      modifies this
      ensures State() == Step(cfg, old(State()), a)
    {
      match a {
        case Submit(k, e) => Submit(k, e);
        case Take(k) => if k in rt.firing { var x := TakePending(k); }
        case Send(x) => if x in hist.taken { TrySend(x); }
        case Fire(_) => RuntimeStep(a);
        case Receive => RuntimeStep(a);
        case Tick(_) => RuntimeStep(a);
        case Stop => Stop();
      }
    }
  }

  /** Other goroutines: any step, Stop included, but the send of this callback's own event. */
  predicate Leaves(acts: seq<Action>, mine: Option<Item>) {
    forall a | a in acts && a.Send? :: Some(a.item) != mine
  }

  lemma StoppedOne(s: DebouncerModel.State, done: set<string>, key: string)
    requires done <= s.timers.Keys && key in s.timers
    ensures s.rt.armed - (set k | k in done + {key} :: s.timers[k])
            == s.rt.armed - (set k | k in done :: s.timers[k]) - {s.timers[key]}
  {
  }

  lemma StopAll(s: DebouncerModel.State, gone: set<Item>)
    requires KeysAgree(s) && gone == set k | k in s.timers.Keys :: s.pending[k]
    ensures StopStep(s)
            == DebouncerModel.State(map[], map[],
                                    s.rt.(armed := s.rt.armed - set k | k in s.timers.Keys :: s.timers[k]),
                                    s.hist.(discarded := s.hist.discarded + multiset(gone)))
  {
    assert gone == set k | k in s.pending && k in s.timers :: s.pending[k];
    assert s.timers.Values == set k | k in s.timers.Keys :: s.timers[k];
  }

  lemma ExecOne(cfg: Config, s: DebouncerModel.State, past: seq<Action>, a: Action)
    ensures Exec(cfg, s, past + [a]) == Step(cfg, Exec(cfg, s, past), a)
  {
    assert (past + [a])[..|past|] == past;
  }

  lemma {:induction false} ExecAppend(cfg: Config, s: DebouncerModel.State, a: seq<Action>, b: seq<Action>)
    ensures Exec(cfg, s, a + b) == Exec(cfg, Exec(cfg, s, a), b)
    decreases |b|
  {
    if b == [] {
      assert a + b == a;
    } else {
      var n := |b| - 1;
      ExecAppend(cfg, s, a, b[..n]);
      ExecOne(cfg, s, a + b[..n], b[n]);
      assert a + b[..n] + [b[n]] == a + b;
    }
  }

  /** An event that this callback has taken stays with it. */
  lemma {:induction false} TakenStays(cfg: Config, s: DebouncerModel.State, acts: seq<Action>, x: Item)
    requires x in s.hist.taken && Send(x) !in acts
    ensures x in Exec(cfg, s, acts).hist.taken
    decreases |acts|
  {
    if acts != [] {
      var n := |acts| - 1;
      assert acts[n] != Send(x) && Send(x) !in acts[..n];
      TakenStays(cfg, s, acts[..n], x);
      TakenStaysOnce(cfg, Exec(cfg, s, acts[..n]), acts[n], x);
    }
  }

  lemma TakenStaysOnce(cfg: Config, s: DebouncerModel.State, a: Action, x: Item)
    requires x in s.hist.taken && a != Send(x)
    ensures x in Step(cfg, s, a).hist.taken
  {
  }
}
