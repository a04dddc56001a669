/**
 The debouncer: one pending event and one timer per deployment key, with timers that can fire while their key is
 being submitted again. A fired timer is a goroutine that waits for the lock; a re-armed one fires a second time.
 */
module DebouncerModel {
  /** A submitted event, told apart by its position among all submissions. */
  datatype Item = Item(key: string, event: string, number: nat, at: int)

  /** The Go runtime's side: timers by identity, the emit goroutines they started, the output channel. */
  datatype Runtime = Runtime(
    armed: map<nat, int>,       // armed timer -> its deadline
    owner: map<nat, string>,    // timer -> the key its callback emits
    firing: multiset<string>,   // emit callbacks that have started and wait for the lock
    queue: seq<Item>,
    clock: int)

  /** What became of each submitted event. */
  datatype History = History(
    submitted: multiset<Item>, replaced: multiset<Item>, taken: multiset<Item>,
    sent: multiset<Item>, dropped: multiset<Item>, discarded: multiset<Item>,
    last: map<string, Item>, count: nat,
    order: seq<Item>)  // the events sent, in the order of sending

  datatype State = State(pending: map<string, Item>, timers: map<string, nat>, rt: Runtime, hist: History)

  datatype Config = Config(window: nat, capacity: nat)

  datatype Action =
    | Submit(key: string, event: string)
    | Fire(timer: nat)
    | Take(key: string)
    | Send(item: Item)
    | Receive
    | Stop
    | Tick(seconds: nat)

  function Initial(clock: int): State {
    var none: multiset<Item> := multiset{};
    State(map[], map[], Runtime(map[], map[], multiset{}, [], clock),
          History(none, none, none, none, none, none, map[], 0, []))
  }

  predicate Enabled(s: State, a: Action) {
    match a
    case Fire(t) => t in s.rt.armed && t in s.rt.owner && s.rt.armed[t] <= s.rt.clock
    case Take(k) => k in s.rt.firing
    case Send(x) => x in s.hist.taken
    case Receive => s.rt.queue != []
    case _ => true
  }

  function Fresh(rt: Runtime): nat {
    |rt.owner|
  }

  function SubmitRuntime(cfg: Config, s: State, k: string): (map<string, nat>, Runtime) {
    if k in s.timers then
      (s.timers, s.rt.(armed := s.rt.armed[s.timers[k] := s.rt.clock + cfg.window]))
    else
      var t := Fresh(s.rt);
      (s.timers[k := t], s.rt.(armed := s.rt.armed[t := s.rt.clock + cfg.window], owner := s.rt.owner[t := k]))
  }

  function SubmitHistory(s: State, x: Item): History {
    var replaced := if x.key in s.pending then multiset{s.pending[x.key]} else multiset{};
    s.hist.(submitted := s.hist.submitted + multiset{x}, replaced := s.hist.replaced + replaced,
            last := s.hist.last[x.key := x], count := s.hist.count + 1)
  }

  function NewItem(s: State, k: string, e: string): Item {
    Item(k, e, s.hist.count, s.rt.clock)
  }

  function SubmitStep(cfg: Config, s: State, k: string, e: string): State {
    var x := NewItem(s, k, e);
    var (timers, rt) := SubmitRuntime(cfg, s, k);
    State(s.pending[k := x], timers, rt, SubmitHistory(s, x))
  }

  function FireStep(s: State, t: nat): State
    requires t in s.rt.owner
  {
    s.(rt := s.rt.(armed := s.rt.armed - {t}, firing := s.rt.firing + multiset{s.rt.owner[t]}))
  }

  function TakeStep(s: State, k: string): State {
    State(s.pending - {k}, s.timers - {k}, s.rt.(firing := s.rt.firing - multiset{k}),
          if k in s.pending then s.hist.(taken := s.hist.taken + multiset{s.pending[k]}) else s.hist)
  }

  function SendStep(cfg: Config, s: State, x: Item): State {
    var left := s.hist.(taken := s.hist.taken - multiset{x});
    if |s.rt.queue| < cfg.capacity
    then s.(rt := s.rt.(queue := s.rt.queue + [x]), hist := left.(sent := left.sent + multiset{x}, order := left.order + [x]))
    else s.(hist := left.(dropped := left.dropped + multiset{x}))
  }

  /** Stop cancels the timers in the map and discards the events pending under their keys. */
  function StopStep(s: State): State {
    State(s.pending - s.timers.Keys,
          map[],
          s.rt.(armed := s.rt.armed - s.timers.Values),
          s.hist.(discarded := s.hist.discarded
                               + multiset(set k | k in s.pending && k in s.timers :: s.pending[k])))
  }

  function Step(cfg: Config, s: State, a: Action): State {
    if !Enabled(s, a) then s
    else
      match a
      case Submit(k, e) => SubmitStep(cfg, s, k, e)
      case Fire(t) => FireStep(s, t)
      case Take(k) => TakeStep(s, k)
      case Send(x) => SendStep(cfg, s, x)
      case Receive => s.(rt := s.rt.(queue := s.rt.queue[1..]))
      case Stop => StopStep(s)
      case Tick(d) => s.(rt := s.rt.(clock := s.rt.clock + d))
  }

  function Exec(cfg: Config, s: State, acts: seq<Action>): State
    decreases |acts|
  {
    if acts == [] then s else Step(cfg, Exec(cfg, s, acts[..|acts| - 1]), acts[|acts| - 1])
  }

  // ---------- Invariants ----------

  ghost predicate KeysAgree(s: State) {
    s.pending.Keys == s.timers.Keys && forall k | k in s.pending :: s.pending[k].key == k
  }

  ghost predicate TimersSound(s: State) {
    && (forall t | t in s.rt.owner :: t < Fresh(s.rt))
    && (forall t | t in s.rt.armed :: t in s.rt.owner)
    && (forall k | k in s.timers :: s.timers[k] in s.rt.owner && s.rt.owner[s.timers[k]] == k)
  }

  /** Every pending event has a timer running, or a callback already waiting for the lock. */
  ghost predicate WillEmit(s: State) {
    forall k | k in s.timers :: s.timers[k] in s.rt.armed || k in s.rt.firing
  }

  function PendingCount(pending: map<string, Item>, x: Item): nat {
    if x.key in pending && pending[x.key] == x then 1 else 0
  }

  /** How many fates an event has. */
  function Fates(s: State, x: Item): nat {
    PendingCount(s.pending, x) + s.hist.taken[x] + s.hist.replaced[x]
    + s.hist.sent[x] + s.hist.dropped[x] + s.hist.discarded[x]
  }

  ghost predicate Conserved(s: State) {
    && (forall x :: s.hist.submitted[x] == Fates(s, x))
    && (forall x | x in s.hist.submitted :: x.number < s.hist.count && s.hist.submitted[x] == 1)
  }

  ghost predicate LatestPending(s: State) {
    LatestIn(s.pending, s.hist.last, s.hist.submitted)
  }

  ghost predicate Inv(s: State) {
    KeysAgree(s) && TimersSound(s) && WillEmit(s) && Conserved(s) && LatestPending(s)
  }

  lemma StepKeepsKeys(cfg: Config, s: State, a: Action)
    requires KeysAgree(s)
    ensures KeysAgree(Step(cfg, s, a))
  {
  }

  lemma StepKeepsTimers(cfg: Config, s: State, a: Action)
    requires TimersSound(s)
    ensures TimersSound(Step(cfg, s, a))
  {
    if a.Submit? && a.key !in s.timers {
      var t := Fresh(s.rt);
      assert t !in s.rt.owner;
      assert |s.rt.owner[t := a.key]| == t + 1;
    }
  }

  lemma SubmitKeepsWillEmit(cfg: Config, s: State, k: string, e: string)
    requires WillEmit(s)
    ensures WillEmit(SubmitStep(cfg, s, k, e))
  {
  }

  lemma FireKeepsWillEmit(s: State, t: nat)
    requires TimersSound(s) && WillEmit(s) && t in s.rt.owner
    ensures WillEmit(FireStep(s, t))
  {
    var s' := FireStep(s, t);
    forall k | k in s'.timers ensures s'.timers[k] in s'.rt.armed || k in s'.rt.firing {
      assert k in s.timers && s.rt.owner[s.timers[k]] == k;
    }
  }

  lemma StepKeepsWillEmit(cfg: Config, s: State, a: Action)
    requires TimersSound(s) && WillEmit(s)
    ensures WillEmit(Step(cfg, s, a))
  {
    if Enabled(s, a) {
      match a {
        case Submit(k, e) => SubmitKeepsWillEmit(cfg, s, k, e);
        case Fire(t) => FireKeepsWillEmit(s, t);
        case _ =>
      }
    }
  }

  ghost predicate LatestIn(pending: map<string, Item>, last: map<string, Item>, submitted: multiset<Item>) {
    && (forall k | k in pending :: k in last && pending[k] == last[k])
    && (forall k | k in last :: last[k] in submitted && last[k].key == k)
    && (forall x | x in submitted :: x.key in last && x.number <= last[x.key].number)
  }

  lemma SubmitKeepsLatest(pending: map<string, Item>, last: map<string, Item>, submitted: multiset<Item>, x: Item)
    requires LatestIn(pending, last, submitted)
    requires forall y | y in submitted :: y.number < x.number
    ensures LatestIn(pending[x.key := x], last[x.key := x], submitted + multiset{x})
  {
  }

  /** Only Submit adds a pending event or changes which is the latest. */
  lemma PendingShrinks(cfg: Config, s: State, a: Action)
    requires !a.Submit?
    ensures forall k | k in Step(cfg, s, a).pending :: k in s.pending && Step(cfg, s, a).pending[k] == s.pending[k]
  {
  }

  lemma HistoryKept(cfg: Config, s: State, a: Action)
    requires !a.Submit?
    ensures Step(cfg, s, a).hist.last == s.hist.last
    ensures Step(cfg, s, a).hist.submitted == s.hist.submitted
    ensures Step(cfg, s, a).hist.count == s.hist.count
  {
    if Enabled(s, a) && a.Send? {
      SendKeepsHistory(cfg, s, a.item);
    }
  }

  lemma SendKeepsHistory(cfg: Config, s: State, x: Item)
    requires x in s.hist.taken
    ensures var h := SendStep(cfg, s, x).hist;
            h.last == s.hist.last && h.submitted == s.hist.submitted && h.count == s.hist.count
  {
  }

  lemma StepKeepsLatest(cfg: Config, s: State, a: Action)
    requires LatestPending(s) && Conserved(s)
    ensures LatestPending(Step(cfg, s, a))
  {
    if a.Submit? {
      SubmitKeepsLatest(s.pending, s.hist.last, s.hist.submitted, NewItem(s, a.key, a.event));
    } else {
      PendingShrinks(cfg, s, a);
      HistoryKept(cfg, s, a);
    }
  }

  lemma SubmitConserves(cfg: Config, s: State, k: string, e: string, y: Item)
    requires KeysAgree(s) && Conserved(s)
    ensures var s' := Step(cfg, s, Submit(k, e)); s'.hist.submitted[y] == Fates(s', y)
  {
    var x := NewItem(s, k, e);
    assert s.hist.submitted[y] == Fates(s, y);
    assert x !in s.hist.submitted;
    assert s.hist.submitted[x] == Fates(s, x);
  }

  lemma StopConserves(s: State, y: Item)
    requires KeysAgree(s) && s.hist.submitted[y] == Fates(s, y)
    ensures StopStep(s).hist.submitted[y] == Fates(StopStep(s), y)
  {
    var gone := set k | k in s.pending && k in s.timers :: s.pending[k];
    assert y in gone <==> y.key in s.pending && s.pending[y.key] == y;
    assert multiset(gone)[y] == if y in gone then 1 else 0;
  }

  lemma TakeConserves(s: State, k: string, y: Item)
    requires KeysAgree(s) && s.hist.submitted[y] == Fates(s, y)
    ensures TakeStep(s, k).hist.submitted[y] == Fates(TakeStep(s, k), y)
  {
  }

  lemma SendConserves(cfg: Config, s: State, x: Item, y: Item)
    requires x in s.hist.taken && s.hist.submitted[y] == Fates(s, y)
    ensures SendStep(cfg, s, x).hist.submitted[y] == Fates(SendStep(cfg, s, x), y)
  {
    assert (s.hist.taken - multiset{x})[y] == s.hist.taken[y] - if x == y then 1 else 0;
  }

  lemma StepConserves(cfg: Config, s: State, a: Action)
    requires KeysAgree(s) && Conserved(s)
    ensures Conserved(Step(cfg, s, a))
  {
    var s' := Step(cfg, s, a);
    forall y ensures s'.hist.submitted[y] == Fates(s', y) {
      assert s.hist.submitted[y] == Fates(s, y);
      match a {
        case Submit(k, e) => SubmitConserves(cfg, s, k, e, y);
        case Take(k) => if Enabled(s, a) { TakeConserves(s, k, y); }
        case Send(x) => if Enabled(s, a) { SendConserves(cfg, s, x, y); }
        case Stop => StopConserves(s, y);
        case _ =>
      }
    }
    NumbersGrow(cfg, s, a);
  }

  lemma NumbersGrow(cfg: Config, s: State, a: Action)
    requires forall x | x in s.hist.submitted :: x.number < s.hist.count && s.hist.submitted[x] == 1
    ensures var h := Step(cfg, s, a).hist; forall x | x in h.submitted :: x.number < h.count && h.submitted[x] == 1
  {
    if a.Submit? {
      var x := NewItem(s, a.key, a.event);
      assert x !in s.hist.submitted;
    } else {
      HistoryKept(cfg, s, a);
    }
  }
}
