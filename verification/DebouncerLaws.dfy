/** Which events a debouncer delivers, with which payload and in which order, over every run. */
module DebouncerLaws {
  import opened Wrappers
  import opened DebouncerModel

  // ---------- Submitting ----------

  function Submits(acts: seq<Action>): nat {
    if acts == [] then 0 else Submits(acts[..|acts| - 1]) + if acts[|acts| - 1].Submit? then 1 else 0
  }

  /** Event x is what the n-th step submitted, at the time of that step. */
  ghost predicate SubmittedAt(cfg: Config, clock: int, acts: seq<Action>, n: int, x: Item) {
    && 0 <= n < |acts| && acts[n] == Submit(x.key, x.event)
    && x.number == Submits(acts[..n]) && x.at == Exec(cfg, Initial(clock), acts[..n]).rt.clock
  }

  lemma SubmittedOneMore(cfg: Config, clock: int, acts: seq<Action>, n: int, x: Item)
    requires acts != [] && 0 <= n < |acts| - 1
    ensures SubmittedAt(cfg, clock, acts, n, x) <==> SubmittedAt(cfg, clock, acts[..|acts| - 1], n, x)
  {
    assert acts[..|acts| - 1][..n] == acts[..n];
  }

  lemma {:induction false} CountsSubmits(cfg: Config, clock: int, acts: seq<Action>)
    ensures Exec(cfg, Initial(clock), acts).hist.count == Submits(acts)
    decreases |acts|
  {
    if acts != [] {
      var n := |acts| - 1;
      CountsSubmits(cfg, clock, acts[..n]);
      var s := Exec(cfg, Initial(clock), acts[..n]);
      if !acts[n].Submit? { HistoryKept(cfg, s, acts[n]); }
    }
  }

  /** The events submitted are exactly those of the Submit steps, with their keys and payloads. */
  lemma {:induction false} SubmittedExactly(cfg: Config, clock: int, acts: seq<Action>, x: Item)
    ensures x in Exec(cfg, Initial(clock), acts).hist.submitted <==> exists n :: SubmittedAt(cfg, clock, acts, n, x)
    decreases |acts|
  {
    if acts != [] {
      var n := |acts| - 1;
      var s := Exec(cfg, Initial(clock), acts[..n]);
      SubmittedExactly(cfg, clock, acts[..n], x);
      CountsSubmits(cfg, clock, acts[..n]);
      if acts[n].Submit? {
        assert x in Step(cfg, s, acts[n]).hist.submitted <==> x in s.hist.submitted || x == NewItem(s, acts[n].key, acts[n].event);
        assert x == NewItem(s, acts[n].key, acts[n].event) <==> SubmittedAt(cfg, clock, acts, n, x);
      } else {
        HistoryKept(cfg, s, acts[n]);
        assert !SubmittedAt(cfg, clock, acts, n, x);
      }
      if m :| SubmittedAt(cfg, clock, acts, m, x) && m < n {
        SubmittedOneMore(cfg, clock, acts, m, x);
      }
      if m :| SubmittedAt(cfg, clock, acts[..n], m, x) {
        SubmittedOneMore(cfg, clock, acts, m, x);
      }
    }
  }

  /** Step n submitted x under k, and no step since has submitted anything under k. */
  ghost predicate LastSubmit(cfg: Config, clock: int, acts: seq<Action>, k: string, n: int, x: Item) {
    && SubmittedAt(cfg, clock, acts, n, x) && x.key == k
    && forall m | n < m < |acts| && acts[m].Submit? :: acts[m].key != k
  }

  lemma LastSubmitOneMore(cfg: Config, clock: int, acts: seq<Action>, k: string, n: int, x: Item)
    requires acts != [] && LastSubmit(cfg, clock, acts[..|acts| - 1], k, n, x)
    requires acts[|acts| - 1].Submit? ==> acts[|acts| - 1].key != k
    ensures LastSubmit(cfg, clock, acts, k, n, x)
  {
    SubmittedOneMore(cfg, clock, acts, n, x);
    assert forall j | n < j < |acts| - 1 :: acts[..|acts| - 1][j] == acts[j];
  }

  /** What is pending under a key is what the last Submit of the key submitted. */
  lemma {:induction false} PendingIsLastSubmit(cfg: Config, clock: int, acts: seq<Action>, k: string)
    requires k in Exec(cfg, Initial(clock), acts).pending
    ensures exists n :: LastSubmit(cfg, clock, acts, k, n, Exec(cfg, Initial(clock), acts).pending[k])
    decreases |acts|
  {
    if acts != [] {
      var n := |acts| - 1;
      var s := Exec(cfg, Initial(clock), acts[..n]);
      if acts[n].Submit? && acts[n].key == k {
        SubmittedNow(cfg, clock, acts);
        assert LastSubmit(cfg, clock, acts, k, n, Exec(cfg, Initial(clock), acts).pending[k]);
      } else {
        PendingBefore(cfg, s, acts[n], k);
        PendingIsLastSubmit(cfg, clock, acts[..n], k);
        var m :| LastSubmit(cfg, clock, acts[..n], k, m, s.pending[k]);
        LastSubmitOneMore(cfg, clock, acts, k, m, s.pending[k]);
      }
    }
  }

  lemma SubmittedNow(cfg: Config, clock: int, acts: seq<Action>)
    requires acts != [] && acts[|acts| - 1].Submit?
    ensures var n, k := |acts| - 1, acts[|acts| - 1].key;
            && k in Exec(cfg, Initial(clock), acts).pending
            && SubmittedAt(cfg, clock, acts, n, Exec(cfg, Initial(clock), acts).pending[k])
            && Exec(cfg, Initial(clock), acts).pending[k].key == k
  {
    CountsSubmits(cfg, clock, acts[..|acts| - 1]);
  }

  lemma PendingBefore(cfg: Config, s: State, a: Action, k: string)
    requires k in Step(cfg, s, a).pending && !(a.Submit? && a.key == k)
    ensures k in s.pending && Step(cfg, s, a).pending[k] == s.pending[k]
  {
    if !a.Submit? { PendingShrinks(cfg, s, a); }
  }

  /** A Submit replaces what is pending under its key, with its payload, and gives the key a whole window. */
  lemma SubmitLaw(cfg: Config, s: State, k: string, e: string)
    ensures Holds(cfg, s, Step(cfg, s, Submit(k, e)), k, e)
  {
    var s' := SubmitStep(cfg, s, k, e);
    var (timers, rt) := SubmitRuntime(cfg, s, k);
    assert s'.pending == s.pending[k := NewItem(s, k, e)];
    assert s'.timers == timers && s'.rt == rt;
    TimerLaw(cfg, s, k);
  }

  lemma TimerLaw(cfg: Config, s: State, k: string)
    ensures var (timers, rt) := SubmitRuntime(cfg, s, k);
            && (forall j | j != k :: Get(timers, j) == Get(s.timers, j))
            && k in timers && timers[k] in rt.armed && rt.armed[timers[k]] == s.rt.clock + cfg.window
  {
  }

  ghost predicate Holds(cfg: Config, s: State, s': State, k: string, e: string) {
    && k in s'.pending && s'.pending[k].key == k && s'.pending[k].event == e && s'.pending[k].at == s.rt.clock
    && (forall j | j != k :: Get(s'.pending, j) == Get(s.pending, j) && Get(s'.timers, j) == Get(s.timers, j))
    && k in s'.timers && s'.timers[k] in s'.rt.armed && s'.rt.armed[s'.timers[k]] == s.rt.clock + cfg.window
  }

  // ---------- Sending ----------

  /** A send that finds room puts its event at the end of the queue; one that does not drops it. */
  lemma SendLaw(cfg: Config, s: State, x: Item)
    requires x in s.hist.taken
    ensures var s' := Step(cfg, s, Send(x));
            if |s.rt.queue| < cfg.capacity
            then s'.rt.queue == s.rt.queue + [x] && s'.hist.dropped == s.hist.dropped
                 && s'.hist.sent == s.hist.sent + multiset{x} && s'.hist.order == s.hist.order + [x]
            else s'.rt.queue == s.rt.queue && s'.hist.dropped == s.hist.dropped + multiset{x}
                 && s'.hist.sent == s.hist.sent && s'.hist.order == s.hist.order
  {
  }

  /** No other step drops or sends anything. */
  lemma OnlySends(cfg: Config, s: State, a: Action)
    requires !a.Send?
    ensures Step(cfg, s, a).hist.dropped == s.hist.dropped && Step(cfg, s, a).hist.sent == s.hist.sent
    ensures Step(cfg, s, a).hist.order == s.hist.order
    ensures Step(cfg, s, a).rt.queue == if a.Receive? && s.rt.queue != [] then s.rt.queue[1..] else s.rt.queue
  {
  }

  /** The n-th step sends x, after its callback took it, and finds room or not. */
  ghost predicate SendsAt(cfg: Config, clock: int, acts: seq<Action>, n: int, x: Item, room: bool) {
    && 0 <= n < |acts| && acts[n] == Send(x)
    && var s := Exec(cfg, Initial(clock), acts[..n]);
       x in s.hist.taken && (room <==> |s.rt.queue| < cfg.capacity)
  }

  lemma SendsOneMore(cfg: Config, clock: int, acts: seq<Action>, n: int, x: Item, room: bool)
    requires acts != [] && 0 <= n < |acts| - 1
    ensures SendsAt(cfg, clock, acts, n, x, room) <==> SendsAt(cfg, clock, acts[..|acts| - 1], n, x, room)
  {
    assert acts[..|acts| - 1][..n] == acts[..n];
  }

  ghost predicate SentWith(cfg: Config, clock: int, acts: seq<Action>, x: Item, room: bool) {
    exists n :: SendsAt(cfg, clock, acts, n, x, room)
  }

  lemma SentWithOneMore(cfg: Config, clock: int, acts: seq<Action>, x: Item, room: bool)
    requires acts != []
    ensures var n := |acts| - 1;
            SentWith(cfg, clock, acts, x, room)
            <==> SentWith(cfg, clock, acts[..n], x, room) || SendsAt(cfg, clock, acts, n, x, room)
  {
    var n := |acts| - 1;
    if m :| SendsAt(cfg, clock, acts, m, x, room) && m < n {
      SendsOneMore(cfg, clock, acts, m, x, room);
    }
    if m :| SendsAt(cfg, clock, acts[..n], m, x, room) {
      SendsOneMore(cfg, clock, acts, m, x, room);
    }
  }

  /** Over every run: an event is dropped exactly when its send found the queue full, and sent exactly when it found
      room. */
  lemma {:induction false} DroppedIff(cfg: Config, clock: int, acts: seq<Action>, x: Item)
    ensures x in Exec(cfg, Initial(clock), acts).hist.dropped <==> SentWith(cfg, clock, acts, x, false)
    ensures x in Exec(cfg, Initial(clock), acts).hist.sent <==> SentWith(cfg, clock, acts, x, true)
    decreases |acts|
  {
    if acts != [] {
      var n := |acts| - 1;
      DroppedIff(cfg, clock, acts[..n], x);
      SentWithOneMore(cfg, clock, acts, x, false);
      SentWithOneMore(cfg, clock, acts, x, true);
      DroppedOnce(cfg, clock, acts, x);
    }
  }

  lemma DroppedOnce(cfg: Config, clock: int, acts: seq<Action>, x: Item)
    requires acts != []
    ensures var n := |acts| - 1;
            var s, s' := Exec(cfg, Initial(clock), acts[..n]), Exec(cfg, Initial(clock), acts);
            && (x in s'.hist.dropped <==> x in s.hist.dropped || SendsAt(cfg, clock, acts, n, x, false))
            && (x in s'.hist.sent <==> x in s.hist.sent || SendsAt(cfg, clock, acts, n, x, true))
  {
    var n := |acts| - 1;
    var s := Exec(cfg, Initial(clock), acts[..n]);
    if acts[n].Send? {
      if acts[n].item in s.hist.taken { SendLaw(cfg, s, acts[n].item); }
    } else {
      OnlySends(cfg, s, acts[n]);
    }
  }

  /** The queue is the end of what was sent, in the order of sending; the reader has received the beginning. */
  ghost predicate InOrder(cfg: Config, s: State) {
    OrderIs(cfg.capacity, s.rt.queue, s.hist.order, s.hist.sent)
  }

  ghost predicate OrderIs(capacity: nat, queue: seq<Item>, order: seq<Item>, sent: multiset<Item>) {
    && |queue| <= capacity && |queue| <= |order|
    && queue == order[|order| - |queue|..]
    && multiset(order) == sent
  }

  lemma {:induction false} QueueInOrder(cfg: Config, clock: int, acts: seq<Action>)
    ensures InOrder(cfg, Exec(cfg, Initial(clock), acts))
    decreases |acts|
  {
    if acts != [] {
      var n := |acts| - 1;
      QueueInOrder(cfg, clock, acts[..n]);
      StepInOrder(cfg, Exec(cfg, Initial(clock), acts[..n]), acts[n]);
    }
  }

  lemma StepInOrder(cfg: Config, s: State, a: Action)
    requires InOrder(cfg, s)
    ensures InOrder(cfg, Step(cfg, s, a))
  {
    if a.Send? {
      if a.item in s.hist.taken {
        SendLaw(cfg, s, a.item);
        if |s.rt.queue| < cfg.capacity { SentAtEnd(cfg.capacity, s.rt.queue, s.hist.order, s.hist.sent, a.item); }
      }
    } else {
      OnlySends(cfg, s, a);
      TailInOrder(cfg.capacity, s.rt.queue, s.hist.order, s.hist.sent);
    }
  }

  lemma SentAtEnd(capacity: nat, queue: seq<Item>, order: seq<Item>, sent: multiset<Item>, x: Item)
    requires OrderIs(capacity, queue, order, sent) && |queue| < capacity
    ensures OrderIs(capacity, queue + [x], order + [x], sent + multiset{x})
  {
    assert queue + [x] == (order + [x])[|order| - |queue|..];
  }

  lemma TailInOrder(capacity: nat, queue: seq<Item>, order: seq<Item>, sent: multiset<Item>)
    requires OrderIs(capacity, queue, order, sent)
    ensures queue != [] ==> OrderIs(capacity, queue[1..], order, sent)
  {
  }

  /** The reader gets the events in the order of sending. */
  lemma ReceiveLaw(cfg: Config, s: State)
    requires InOrder(cfg, s) && s.rt.queue != []
    ensures var received := |s.hist.order| - |s.rt.queue|;
            && s.rt.queue[0] == s.hist.order[received]
            && Step(cfg, s, Receive).rt.queue == s.hist.order[received + 1..]
  {
    OnlySends(cfg, s, Receive);
  }
}
