/** The rollout analyzer's code: the polling loop, the failure checks and the soak. */
module Analyzer {
  import opened Wrappers
  import opened AnalyzerModel

  function History(ticks: nat -> Tick, n: nat): seq<Tick> {
    seq(n, i requires 0 <= i => ticks(i))
  }

  class ProgressState {
    var lastUpdated: int
    var lastAvailable: int
    var lastUnavailable: int
    var lastProgressAt: int

    constructor (now: int)
      ensures Last() == Counts(0, 0, 0) && lastProgressAt == now
    {
      lastUpdated, lastAvailable, lastUnavailable, lastProgressAt := 0, 0, 0, now;
    }

    function Last(): Counts
      reads this
    {
      Counts(lastUpdated, lastAvailable, lastUnavailable)
    }

    /** Compares with the counts of the previous evaluated poll, and remembers these for the next. */
    method RecordProgress(updated: int, available: int, unavailable: int, now: int)
      modifies this
      ensures Last() == Counts(updated, available, unavailable)
      ensures lastProgressAt == if Forward(old(Last()), Last()) then now else old(lastProgressAt)
      ensures lastProgressAt == now || lastProgressAt == old(lastProgressAt)
      ensures updated > old(lastUpdated) || available > old(lastAvailable) || unavailable < old(lastUnavailable)
              ==> lastProgressAt == now
      ensures updated <= old(lastUpdated) && available <= old(lastAvailable) && unavailable >= old(lastUnavailable)
              ==> lastProgressAt == old(lastProgressAt)
    {
      if updated > lastUpdated || available > lastAvailable || unavailable < lastUnavailable {
        lastProgressAt := now;
      }
      lastUpdated := updated;
      lastAvailable := available;
      lastUnavailable := unavailable;
    }
  }

  /** The checks before convergence: the Progressing condition, containers stuck before their first start beyond
      the window, and the restart threshold. The timer is a reference in the source and a result here. */
  method CheckFailureConditions(cfg: Config, deploy: Deployment, lookup: Lookup, now: int, progressAt: int,
                                configErrorFirstSeen: Option<int>)
    returns (failure: Option<Failure>, since: Option<int>)
    ensures (failure, since) == CheckFailure(cfg, deploy, lookup, now, progressAt, configErrorFirstSeen)
  {
    since := configErrorFirstSeen;
    for k := 0 to |deploy.conditions|
      invariant Condition("Progressing", "False", "ProgressDeadlineExceeded") !in deploy.conditions[..k]
    {
      var cond := deploy.conditions[k];
      if cond.kind == "Progressing" && cond.status == "False" && cond.reason == "ProgressDeadlineExceeded" {
        return Some(ProgressDeadlineExceeded), since;
      }
    }
    if lookup.Unlisted? {
      return None, since;
    }
    failure, since := CheckNewPods(cfg, lookup.pods, now, progressAt, configErrorFirstSeen);
  }

  /** The checks on the new ReplicaSet's pods. */
  method CheckNewPods(cfg: Config, pods: seq<Pod>, now: int, progressAt: int, configErrorFirstSeen: Option<int>)
    returns (failure: Option<Failure>, since: Option<int>)
    ensures (failure, since) == CheckPods(cfg, pods, now, progressAt, configErrorFirstSeen)
  {
    since := configErrorFirstSeen;
    var totalRestarts := 0;
    var hasWaitingBeforeStart := false;
    for i := 0 to |pods|
      invariant totalRestarts == AllRestarts(pods[..i])
      invariant Tracks(cfg, now, configErrorFirstSeen, AllStuck(pods[..i]), since, hasWaitingBeforeStart)
    {
      ghost var before := AllStuck(pods[..i]);
      assert pods[..i + 1][..i] == pods[..i];
      var restarts;
      failure, since, hasWaitingBeforeStart, restarts :=
        CheckStatuses(cfg, pods[i].name, pods[i].inits + pods[i].containers, now, since, hasWaitingBeforeStart, configErrorFirstSeen, before);
      if failure.Some? {
        AllStuckPrefix(pods, i + 1);
        return failure, since;
      }
      totalRestarts := totalRestarts + restarts;
    }
    assert pods[..|pods|] == pods;
    if since.Some? && !hasWaitingBeforeStart {
      since := None;
    }
    if totalRestarts >= cfg.restartThreshold && now - progressAt < cfg.restartWindow {
      return Some(TooManyRestarts(totalRestarts)), since;
    }
    return None, since;
  }

  /** The container statuses of one pod, init containers first, after the stuck containers of earlier pods. */
  method CheckStatuses(cfg: Config, pod: string, allStatuses: seq<Container>, now: int, since0: Option<int>,
                       flag0: bool, ghost firstSeen: Option<int>, ghost before: seq<Failure>)
    returns (failure: Option<Failure>, since: Option<int>, flag: bool, restarts: int)
    requires Tracks(cfg, now, firstSeen, before, since0, flag0)
    ensures var all := before + StuckIn(pod, allStatuses);
            && (failure.None? ==> Tracks(cfg, now, firstSeen, all, since, flag))
            && (failure.Some? ==> Expires(cfg, now, firstSeen, all, failure.value, since))
    ensures failure.None? ==> restarts == RestartsIn(allStatuses)
  {
    failure, since, flag, restarts := None, since0, flag0, 0;
    ghost var found, mine := before, [];
    for j := 0 to |allStatuses|
      invariant restarts == RestartsIn(allStatuses[..j])
      invariant mine == StuckIn(pod, allStatuses[..j]) && found == before + mine
      invariant Tracks(cfg, now, firstSeen, found, since, flag)
    {
      assert allStatuses[..j + 1][..j] == allStatuses[..j];
      var cs := allStatuses[j];
      if cs.waiting.Some? && cs.waiting.value != "" && cs.restarts == 0 {
        if cs.waiting.value == "ContainerCreating" {
          continue;
        }
        flag := true;
        ghost var stuck := Persisted(pod, cs.name, cs.waiting.value);
        TracksOn(cfg, now, firstSeen, found, since, stuck);
        assert before + (mine + [stuck]) == found + [stuck];
        found, mine := found + [stuck], mine + [stuck];
        if since.None? {
          since := Some(now);
        } else if now - since.value >= cfg.configErrorWindow {
          failure := Some(Persisted(pod, cs.name, cs.waiting.value));
          StuckInPrefix(pod, allStatuses, j + 1);
          ExpiresOn(cfg, now, firstSeen, found, before + StuckIn(pod, allStatuses), failure.value, since);
          return;
        }
      }
      restarts := restarts + cs.restarts;
    }
    assert allStatuses[..|allStatuses|] == allStatuses;
  }

  /** One more stuck container: it starts the timer, leaves it running, or finds it expired. */
  lemma TracksOn(cfg: Config, now: int, since0: Option<int>, found: seq<Failure>, since: Option<int>, f: Failure)
    requires Tracks(cfg, now, since0, found, since, found != [])
    ensures since.None? ==> Tracks(cfg, now, since0, found + [f], Some(now), true)
    ensures since.Some? && now - since.value < cfg.configErrorWindow ==> Tracks(cfg, now, since0, found + [f], since, true)
    ensures since.Some? && now - since.value >= cfg.configErrorWindow ==> Expires(cfg, now, since0, found + [f], f, since)
  {
  }

  lemma ExpiresOn(cfg: Config, now: int, since0: Option<int>, found: seq<Failure>, all: seq<Failure>, f: Failure,
                  since: Option<int>)
    requires Expires(cfg, now, since0, found, f, since) && found <= all
    ensures Expires(cfg, now, since0, all, f, since)
  {
  }

  /** The check fails on the first stuck container that finds the timer already running for the window. */
  ghost predicate Expires(cfg: Config, now: int, since0: Option<int>, stuck: seq<Failure>, f: Failure, since: Option<int>) {
    if since0.Some?
    then stuck != [] && now - since0.value >= cfg.configErrorWindow && f == stuck[0] && since == since0
    else |stuck| >= 2 && 0 >= cfg.configErrorWindow && f == stuck[1] && since == Some(now)
  }

  /** The timer and flag after these stuck containers, none of which has failed the check. */
  ghost predicate Tracks(cfg: Config, now: int, since0: Option<int>, stuck: seq<Failure>, since: Option<int>, flag: bool) {
    && (flag <==> stuck != [])
    && since == (if stuck == [] || since0.Some? then since0 else Some(now))
    && (stuck != [] && since0.Some? ==> now - since0.value < cfg.configErrorWindow)
    && (|stuck| >= 2 && since0.None? ==> 0 < cfg.configErrorWindow)
  }

  lemma {:induction false} StuckInPrefix(pod: string, cs: seq<Container>, n: nat)
    requires n <= |cs|
    ensures StuckIn(pod, cs[..n]) <= StuckIn(pod, cs)
    decreases |cs|
  {
    if n == |cs| {
      assert cs[..n] == cs;
    } else {
      var init := cs[..|cs| - 1];
      assert init[..n] == cs[..n];
      StuckInPrefix(pod, init, n);
    }
  }

  lemma {:induction false} AllStuckPrefix(pods: seq<Pod>, n: nat)
    requires n <= |pods|
    ensures AllStuck(pods[..n]) <= AllStuck(pods)
    decreases |pods|
  {
    if n == |pods| {
      assert pods[..n] == pods;
    } else {
      var init := pods[..|pods| - 1];
      assert init[..n] == pods[..n];
      AllStuckPrefix(init, n);
    }
  }

  /** Snapshot of restart counts, the wait, and the regression checks. */
  method Soak(soak: Soaking) returns (verdict: Verdict)
    ensures SoakConcludes(soak, verdict)
  {
    if soak.SoakDone? {
      return Inconclusive(ContextDoneInSoak);
    }
    var preRestarts: map<string, int> := map[];
    if soak.before.Listed? {
      var pods := soak.before.pods;
      for i := 0 to |pods|
        invariant preRestarts == Snapshot(pods[..i])
      {
        var cs := pods[i].containers;
        for j := 0 to |cs|
          invariant preRestarts == RecordRestarts(pods[i].name, cs[..j], Snapshot(pods[..i]))
        {
          preRestarts := preRestarts[Key(pods[i].name, cs[j].name) := cs[j].restarts];
          assert cs[..j + 1][..j] == cs[..j];
        }
        assert cs[..|cs|] == cs;
        assert pods[..i + 1][..i] == pods[..i];
      }
      assert pods[..|pods|] == pods;
    }
    if !soak.after.Got? {
      return Inconclusive(RefetchFailed);
    }
    var deploy := soak.after.deploy;
    var desired := if deploy.replicas.Some? then deploy.replicas.value else 1;
    if deploy.updated != desired || deploy.available != desired || deploy.unavailable != 0 {
      return Unstable(CountsRegressed);
    }
    if soak.after.lookup.Unlisted? {
      return Success;
    }
    verdict := CheckPodsAfterSoak(preRestarts, soak.after.lookup.pods);
  }

  method CheckPodsAfterSoak(preRestarts: map<string, int>, pods: seq<Pod>) returns (verdict: Verdict)
    ensures verdict == Success <==> Healthy(preRestarts, pods)
    ensures verdict != Success ==> verdict.Unstable? && Witnessed(preRestarts, pods, verdict.regression)
  {
    for i := 0 to |pods|
      invariant forall p | p in pods[..i] :: HealthyPod(preRestarts, p)
    {
      var pod := pods[i];
      for j := 0 to |pod.containers|
        invariant forall c | c in pod.containers[..j] :: !RestartedSince(preRestarts, pod.name, c)
      {
        var cs := pod.containers[j];
        var key := Key(pod.name, cs.name);
        if key in preRestarts && cs.restarts > preRestarts[key] {
          assert RestartedSince(preRestarts, pod.name, cs) && cs in pod.containers && pod in pods;
          assert !HealthyPod(preRestarts, pod);
          return Unstable(Restarted(pod.name, cs.name, preRestarts[key], cs.restarts));
        }
      }
      for j := 0 to |pod.conditions|
        invariant forall cond | cond in pod.conditions[..j] :: !Unready(cond)
      {
        var cond := pod.conditions[j];
        if cond.kind == "Ready" && cond.status != "True" {
          assert Unready(cond) && cond in pod.conditions && pod in pods;
          assert !HealthyPod(preRestarts, pod);
          return Unstable(NotReady(pod.name));
        }
      }
      assert HealthyPod(preRestarts, pod);
    }
    return Success;
  }

  /** Failure conditions first, then progress and the stall timer, then convergence. */
  method EvaluatePoll(run: Run, progress: ProgressState, configErrorFirstSeen: Option<int>,
                      deploy: Deployment, lookup: Lookup, now: int) returns (decision: Decision, since: Option<int>)
    modifies progress
    ensures (decision, State(progress.Last(), progress.lastProgressAt, since, false))
            == Evaluate(run, State(old(progress.Last()), old(progress.lastProgressAt), configErrorFirstSeen, false),
                        deploy, lookup, now)
  {
    var failure;
    failure, since := CheckFailureConditions(run.cfg, deploy, lookup, now, progress.lastProgressAt, configErrorFirstSeen);
    if failure.Some? {
      return Stop(Failed(failure.value)), since;
    }
    var desired := if deploy.replicas.Some? then deploy.replicas.value else 1;
    progress.RecordProgress(deploy.updated, deploy.available, deploy.unavailable, now);
    if now - progress.lastProgressAt > run.cfg.inactivityTimeout {
      return Stop(Stalled), since;
    }
    if deploy.updated == desired && deploy.available == desired && deploy.unavailable == 0 {
      return EnterSoak, since;
    }
    return Continue, since;
  }

  /** One tick of the loop: the deadline, the fetch, the generation gate, the paused flag, the evaluation. */
  method OnePoll(run: Run, progress: ProgressState, configErrorFirstSeen: Option<int>, lastSeenPaused: bool, tick: Tick)
    returns (decision: Decision, since: Option<int>, paused: bool)
    modifies progress
    ensures (decision, State(progress.Last(), progress.lastProgressAt, since, paused))
            == OnTick(run, State(old(progress.Last()), old(progress.lastProgressAt), configErrorFirstSeen, lastSeenPaused),
                      tick)
  {
    since, paused := configErrorFirstSeen, lastSeenPaused;
    if tick.Done? {
      return Stop(Inconclusive(ContextDone)), since, paused;
    }
    var now := tick.now;
    if now > run.start + run.cfg.absoluteTimeout {
      if lastSeenPaused {
        return Stop(Paused), since, paused;
      }
      if now - progress.lastProgressAt < run.cfg.inactivityTimeout {
        return Stop(Inconclusive(StillProgressing)), since, paused;
      }
      return Stop(Stalled), since, paused;
    }
    if !tick.fetch.Got? {
      return if tick.fetch.NotFound? then Stop(Deleted) else Continue, since, paused;
    }
    var deploy := tick.fetch.deploy;
    if deploy.observed < deploy.generation {
      progress.lastProgressAt := now;
      return Continue, since, paused;
    }
    if deploy.paused {
      return Continue, since, true;
    }
    paused := false;
    decision, since := EvaluatePoll(run, progress, configErrorFirstSeen, deploy, tick.fetch.lookup, now);
  }

  /** The loop ends within a bounded number of polls, on the first tick that is decided. */
  method MonitorRollout(run: Run, ticks: nat -> Tick, soak: Soaking) returns (verdict: Verdict, polls: nat)
    requires run.cfg.pollInterval > 0 && run.start <= run.progressStart
    requires forall k: nat :: ticks(k).Poll? ==> ticks(k).now >= run.start + (k + 1) * run.cfg.pollInterval
    ensures 1 <= polls <= (if run.cfg.absoluteTimeout < 0 then 0 else run.cfg.absoluteTimeout / run.cfg.pollInterval) + 1
    ensures Ongoing(run, History(ticks, polls - 1))
    ensures Concludes(OnTick(run, StateAfter(run, History(ticks, polls - 1)), ticks(polls - 1)).0, soak, verdict)
  {
    var progress := new ProgressState(run.progressStart);
    var configErrorFirstSeen: Option<int> := None;
    var lastSeenPaused := false;
    var bound := if run.cfg.absoluteTimeout < 0 then 0 else run.cfg.absoluteTimeout / run.cfg.pollInterval;
    polls := 0;
    while true
      invariant polls <= bound
      invariant Ongoing(run, History(ticks, polls))
      invariant StateAfter(run, History(ticks, polls))
                == State(progress.Last(), progress.lastProgressAt, configErrorFirstSeen, lastSeenPaused)
      invariant fresh(progress)
      decreases bound - polls
    {
      ghost var s := StateAfter(run, History(ticks, polls));
      var tick := ticks(polls);
      var decision;
      decision, configErrorFirstSeen, lastSeenPaused :=
        OnePoll(run, progress, configErrorFirstSeen, lastSeenPaused, tick);
      polls := polls + 1;
      match decision {
        case Stop(v) =>
          return v, polls;
        case EnterSoak =>
          verdict := Soak(soak);
          return verdict, polls;
        case Continue =>
          HistoryGrows(run, ticks, polls);
          ContinuesBeforeDeadline(run, s, tick);
          BeforeDeadline(run.cfg.absoluteTimeout, run.cfg.pollInterval, polls, tick.now - run.start);
      }
    }
  }

  /** The verdict that a decision leads to. */
  ghost predicate Concludes(decision: Decision, soak: Soaking, verdict: Verdict) {
    decision == Stop(verdict) || (decision == EnterSoak && SoakConcludes(soak, verdict))
  }

  lemma ContinuesBeforeDeadline(run: Run, s: State, t: Tick)
    requires OnTick(run, s, t).0 == Continue
    ensures t.Poll? && t.now <= run.start + run.cfg.absoluteTimeout
  {
  }

  lemma HistoryGrows(run: Run, ticks: nat -> Tick, n: nat)
    requires n > 0
    ensures History(ticks, n)[..n - 1] == History(ticks, n - 1) && History(ticks, n)[n - 1] == ticks(n - 1)
    ensures Ongoing(run, History(ticks, n - 1))
            && OnTick(run, StateAfter(run, History(ticks, n - 1)), ticks(n - 1)).0 == Continue
            ==> Ongoing(run, History(ticks, n))
    ensures StateAfter(run, History(ticks, n))
            == OnTick(run, StateAfter(run, History(ticks, n - 1)), ticks(n - 1)).1
  {
    var h, h' := History(ticks, n - 1), History(ticks, n);
    assert h'[..n - 1] == h;
    if Ongoing(run, h) && OnTick(run, StateAfter(run, h), ticks(n - 1)).0 == Continue {
      OngoingOnce(run, h, h');
    }
  }

  lemma OngoingOnce(run: Run, h: seq<Tick>, h': seq<Tick>)
    requires |h'| == |h| + 1 && h'[..|h|] == h && Ongoing(run, h)
    requires OnTick(run, StateAfter(run, h), h'[|h|]).0 == Continue
    ensures Ongoing(run, h')
  {
    forall k | 0 <= k < |h'| ensures OnTick(run, StateAfter(run, h'[..k]), h'[k]).0 == Continue {
      if k < |h| {
        assert h'[..k] == h[..k] && h'[k] == h[k];
      }
    }
  }

  /** A poll before the deadline leaves room for one more. */
  lemma BeforeDeadline(total: int, interval: int, k: nat, elapsed: int)
    requires interval > 0 && k * interval <= elapsed <= total
    ensures total >= 0 && k <= total / interval
  {
    var q := total / interval;
    assert total < (q + 1) * interval;
    SmallerFactor(k, q + 1, interval);
  }

  lemma SmallerFactor(a: int, b: int, c: int)
    requires c > 0 && a * c < b * c
    ensures a < b
  {
    if a >= b {
      LargerProduct(a - b, c);
    }
  }

  lemma LargerProduct(a: int, c: int)
    requires c > 0 && a >= 0
    ensures a * c >= 0
  {
  }
}
