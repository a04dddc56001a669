/**
 Every verdict of the analyzer, and every decision of a poll, as an exact condition on what was observed: the fields of
 the deployment and its pods, with nothing but the history's progress moments and streaks beside them.
 */
module AnalyzerVerdicts {
  import opened Wrappers
  import opened AnalyzerModel
  import opened AnalyzerTheorems
  import opened Analyzer

  predicate InTime(run: Run, t: Tick) {
    t.Poll? && t.now <= run.start + run.cfg.absoluteTimeout
  }

  /** The controller has caught up with the deployment, and it is not paused. */
  predicate Ready(t: Tick) {
    t.Poll? && t.fetch.Got? && t.fetch.deploy.observed >= t.fetch.deploy.generation && !t.fetch.deploy.paused
  }

  /** As many replicas as are asked for, one if nothing is said, are updated and available, and none is not. */
  predicate AtTarget(d: Deployment) {
    && (d.replicas.None? ==> d.updated == 1 && d.available == 1)
    && (d.replicas.Some? ==> d.updated == d.replicas.value && d.available == d.replicas.value)
    && d.unavailable == 0
  }

  predicate RolloutTimedOut(d: Deployment) {
    Condition("Progressing", "False", "ProgressDeadlineExceeded") in d.conditions
  }

  // ---------- What a poll leads to ----------

  /** The soak begins exactly with a poll in time that shows a deployment at its target, no failure condition, and no
      longer silence than the inactivity timeout. */
  lemma EnterSoakIff(run: Run, h: seq<Tick>, t: Tick)
    requires Ongoing(run, h)
    ensures Decide(run, h, t) == EnterSoak
            <==> && InTime(run, t) && Ready(t) && !FailsOn(run, h, t)
                 && t.now - LastProgress(run, h + [t]) <= run.cfg.inactivityTimeout
                 && AtTarget(t.fetch.deploy)
  {
    StateExact(run, h);
    if InTime(run, t) { FailedIff(run, h, t); }
    assert (h + [t])[..|h|] == h && (h + [t])[|h|] == t;
  }

  /** Polling goes on exactly after a poll in time that failed to fetch, found the controller lagging or the deployment
      paused, or showed no failure, no long silence and no deployment at its target. */
  lemma ContinueIff(run: Run, h: seq<Tick>, t: Tick)
    requires Ongoing(run, h)
    ensures Decide(run, h, t) == Continue
            <==> && InTime(run, t) && !t.fetch.NotFound?
                 && (Ready(t) ==>
                       && !FailsOn(run, h, t)
                       && t.now - LastProgress(run, h + [t]) <= run.cfg.inactivityTimeout
                       && !AtTarget(t.fetch.deploy))
  {
    StateExact(run, h);
    if InTime(run, t) { FailedIff(run, h, t); }
    assert (h + [t])[..|h|] == h && (h + [t])[|h|] == t;
  }

  lemma DeletedIff(run: Run, h: seq<Tick>, t: Tick)
    ensures Decide(run, h, t) == Stop(Deleted) <==> InTime(run, t) && t.fetch.NotFound?
  {
  }

  lemma CancelledIff(run: Run, h: seq<Tick>, t: Tick)
    ensures Decide(run, h, t) == Stop(Inconclusive(ContextDone)) <==> t.Done?
  {
  }

  lemma PausedIff(run: Run, h: seq<Tick>, t: Tick)
    requires Ongoing(run, h)
    ensures Decide(run, h, t) == Stop(Paused)
            <==> t.Poll? && !InTime(run, t) && exists i :: PausedLast(h, i)
  {
    StateExact(run, h);
    PausedAfterIff(h);
  }

  lemma StillProgressingIff(run: Run, h: seq<Tick>, t: Tick)
    requires Ongoing(run, h)
    ensures Decide(run, h, t) == Stop(Inconclusive(StillProgressing))
            <==> && t.Poll? && !InTime(run, t) && (forall i :: !PausedLast(h, i))
                 && t.now - LastProgress(run, h) < run.cfg.inactivityTimeout
  {
    StateExact(run, h);
    PausedAfterIff(h);
  }

  // ---------- Which failure is reported ----------

  lemma RolloutTimedOutIff(run: Run, h: seq<Tick>, t: Tick)
    ensures Decide(run, h, t) == Stop(Failed(ProgressDeadlineExceeded))
            <==> InTime(run, t) && Ready(t) && RolloutTimedOut(t.fetch.deploy)
  {
    var s := StateAfter(run, h);
    if InTime(run, t) && Ready(t) && t.fetch.lookup.Listed? {
      NoTimeoutAmong(t.fetch.lookup.pods);
    }
  }

  lemma NoTimeoutAmong(pods: seq<Pod>)
    ensures ProgressDeadlineExceeded !in AllStuck(pods)
  {
    AreStuck(pods);
  }

  /** The container reported is the first one listed, if the streak began before this poll. */
  lemma PersistedIff(run: Run, h: seq<Tick>, t: Tick, f: Failure)
    requires Ongoing(run, h) && f.Persisted?
    ensures Decide(run, h, t) == Stop(Failed(f))
            <==> && InTime(run, t) && Ready(t) && !RolloutTimedOut(t.fetch.deploy) && StuckTooLong(run, h, t)
                 && f == AllStuck(t.fetch.lookup.pods)[if exists i :: StreakStart(h, i) then 0 else 1]
  {
    StateExact(run, h);
    StuckByTimer(run, h, t);
    PersistedByTimer(run, StateAfter(run, h), t, f);
  }

  lemma TimerIsStreak(h: seq<Tick>)
    ensures TimerAfter(h).Some? <==> exists i :: StreakStart(h, i)
    ensures forall i | StreakStart(h, i) :: TimerAfter(h) == Some(h[i].now)
  {
    TimerSinceStreak(h);
    forall i | StreakStart(h, i) ensures TimerAfter(h) == Some(h[i].now) {
      StreakTimer(h, i);
    }
  }

  lemma StuckByTimer(run: Run, h: seq<Tick>, t: Tick)
    ensures TimerAfter(h).Some? <==> exists i :: StreakStart(h, i)
    ensures StuckTooLong(run, h, t) <==> TimerExpired(run.cfg, TimerAfter(h), t)
  {
    TimerIsStreak(h);
  }

  predicate TimerExpired(cfg: Config, since: Option<int>, t: Tick) {
    && Stuck(t)
    && (if since.Some? then t.now - since.value >= cfg.configErrorWindow
        else cfg.configErrorWindow <= 0 && |AllStuck(t.fetch.lookup.pods)| >= 2)
  }

  /** The same in terms of the loop's variables. */
  lemma PersistedByTimer(run: Run, s: State, t: Tick, f: Failure)
    requires f.Persisted?
    ensures OnTick(run, s, t).0 == Stop(Failed(f))
            <==> && InTime(run, t) && Ready(t) && !RolloutTimedOut(t.fetch.deploy) && TimerExpired(run.cfg, s.stuckSince, t)
                 && f == AllStuck(t.fetch.lookup.pods)[if s.stuckSince.Some? then 0 else 1]
  {
  }

  lemma TooManyRestartsIff(run: Run, h: seq<Tick>, t: Tick, n: int)
    requires Ongoing(run, h)
    ensures Decide(run, h, t) == Stop(Failed(TooManyRestarts(n)))
            <==> && InTime(run, t) && Ready(t) && !RolloutTimedOut(t.fetch.deploy) && !StuckTooLong(run, h, t)
                 && t.fetch.lookup.Listed? && n == AllRestarts(t.fetch.lookup.pods)
                 && n >= run.cfg.restartThreshold && t.now - LastProgress(run, h) < run.cfg.restartWindow
  {
    StateExact(run, h);
    StuckByTimer(run, h, t);
    RestartsByTimer(run, StateAfter(run, h), t, n);
  }

  lemma RestartsByTimer(run: Run, s: State, t: Tick, n: int)
    ensures OnTick(run, s, t).0 == Stop(Failed(TooManyRestarts(n)))
            <==> && InTime(run, t) && Ready(t) && !RolloutTimedOut(t.fetch.deploy) && !TimerExpired(run.cfg, s.stuckSince, t)
                 && t.fetch.lookup.Listed? && n == AllRestarts(t.fetch.lookup.pods)
                 && n >= run.cfg.restartThreshold && t.now - s.progressAt < run.cfg.restartWindow
  {
    if InTime(run, t) && Ready(t) && t.fetch.lookup.Listed? {
      var stuck := AllStuck(t.fetch.lookup.pods);
      AreStuck(t.fetch.lookup.pods);
      assert forall i | 0 <= i < |stuck| :: stuck[i] in stuck;
    }
  }

  /** The failures for stuck containers: one for each container, init containers included, that waits for a reason that is
      neither empty nor ContainerCreating and was never restarted. */
  lemma {:induction false} StuckListed(pods: seq<Pod>, f: Failure)
    ensures f in AllStuck(pods) <==>
            exists p, c :: && p in pods && c in p.inits + p.containers && c.waiting.Some? && c.restarts == 0
                           && c.waiting.value != "" && c.waiting.value != "ContainerCreating"
                           && f == Persisted(p.name, c.name, c.waiting.value)
    decreases |pods|
  {
    if pods != [] {
      var n := |pods| - 1;
      assert forall p :: p in pods <==> p in pods[..n] || p == pods[n];
      StuckListed(pods[..n], f);
      StuckInListed(pods[n].name, pods[n].inits + pods[n].containers, f);
    }
  }

  lemma {:induction false} StuckInListed(pod: string, cs: seq<Container>, f: Failure)
    ensures f in StuckIn(pod, cs) <==>
            exists c :: && c in cs && c.waiting.Some? && c.restarts == 0
                        && c.waiting.value != "" && c.waiting.value != "ContainerCreating"
                        && f == Persisted(pod, c.name, c.waiting.value)
    decreases |cs|
  {
    if cs != [] {
      var n := |cs| - 1;
      assert forall c :: c in cs <==> c in cs[..n] || c == cs[n];
      StuckInListed(pod, cs[..n], f);
    }
  }

  /** Restarts are counted over all containers, init containers included: the count of one container is its own, and
      counts add up over pods and containers. */
  lemma {:induction false} RestartsAdd(pods: seq<Pod>, more: seq<Pod>)
    ensures AllRestarts(pods + more) == AllRestarts(pods) + AllRestarts(more)
    decreases |more|
  {
    if more == [] {
      assert pods + more == pods;
    } else {
      var n := |more| - 1;
      var all := pods + more;
      RestartsAdd(pods, more[..n]);
      assert all[..|all| - 1] == pods + more[..n] && all[|all| - 1] == more[n];
      LastPodAdds(all);
      LastPodAdds(more);
    }
  }

  lemma LastPodAdds(pods: seq<Pod>)
    requires pods != []
    ensures var p := pods[|pods| - 1];
            AllRestarts(pods) == AllRestarts(pods[..|pods| - 1]) + RestartsIn(p.inits + p.containers)
  {
  }

  lemma {:induction false} ContainersAdd(cs: seq<Container>, more: seq<Container>)
    ensures RestartsIn(cs + more) == RestartsIn(cs) + RestartsIn(more)
    decreases |more|
  {
    if more == [] {
      assert cs + more == cs;
    } else {
      var n := |more| - 1;
      ContainersAdd(cs, more[..n]);
      assert (cs + more)[..|cs + more| - 1] == cs + more[..n];
    }
  }

  lemma OnePodRestarts(p: Pod, c: Container)
    ensures AllRestarts([p]) == RestartsIn(p.inits) + RestartsIn(p.containers)
    ensures RestartsIn([c]) == c.restarts
  {
    ContainersAdd(p.inits, p.containers);
    assert [p][..0] == [] && [c][..0] == [];
    assert AllRestarts([p][..0]) == 0 && RestartsIn([c][..0]) == 0;
  }

  // ---------- The soak ----------

  /** A listed container that the snapshot names has more restarts than there, or a listed pod is not Ready. */
  ghost predicate Regressed(pre: map<string, int>, pods: seq<Pod>) {
    || (exists p, c :: p in pods && c in p.containers && p.name + "/" + c.name in pre
                       && c.restarts > pre[p.name + "/" + c.name])
    || (exists p, cond :: p in pods && cond in p.conditions && cond.kind == "Ready" && cond.status != "True")
  }

  lemma RegressedIff(pre: map<string, int>, pods: seq<Pod>)
    ensures Regressed(pre, pods) <==> !Healthy(pre, pods)
  {
    if !Healthy(pre, pods) {
      var p :| p in pods && !HealthyPod(pre, p);
      if c :| c in p.containers && RestartedSince(pre, p.name, c) {
        assert p.name + "/" + c.name == Key(p.name, c.name);
      } else {
        var cond :| cond in p.conditions && Unready(cond);
      }
    }
    if p, c :| p in pods && c in p.containers && p.name + "/" + c.name in pre && c.restarts > pre[p.name + "/" + c.name] {
      assert p.name + "/" + c.name == Key(p.name, c.name);
      assert RestartedSince(pre, p.name, c) && !HealthyPod(pre, p);
    }
    if p, cond :| p in pods && cond in p.conditions && cond.kind == "Ready" && cond.status != "True" {
      assert Unready(cond) && !HealthyPod(pre, p);
    }
  }

  /** The snapshot names the containers, not the init containers, of the listed pods, and nothing else. */
  lemma {:induction false} SnapshotNames(pods: seq<Pod>, k: string)
    ensures k in Snapshot(pods) <==> exists p, c :: p in pods && c in p.containers && p.name + "/" + c.name == k
    decreases |pods|
  {
    if pods != [] {
      var n := |pods| - 1;
      assert forall p :: p in pods <==> p in pods[..n] || p == pods[n];
      SnapshotNames(pods[..n], k);
      RecordedNames(pods[n].name, pods[n].containers, Snapshot(pods[..n]), k);
    }
  }

  lemma {:induction false} RecordedNames(pod: string, cs: seq<Container>, m: map<string, int>, k: string)
    ensures k in RecordRestarts(pod, cs, m) <==> k in m || exists c :: c in cs && pod + "/" + c.name == k
    decreases |cs|
  {
    if cs != [] {
      var n := |cs| - 1;
      assert forall c :: c in cs <==> c in cs[..n] || c == cs[n];
      RecordedNames(pod, cs[..n], m, k);
      assert Key(pod, cs[n].name) == pod + "/" + cs[n].name;
    }
  }

  /** Every verdict of a soak. */
  lemma SoakVerdictIff(soak: Soaking, v: Verdict)
    requires SoakConcludes(soak, v)
    ensures v == Inconclusive(ContextDoneInSoak) <==> soak.SoakDone?
    ensures v == Inconclusive(RefetchFailed) <==> soak.Soaked? && !soak.after.Got?
    ensures v == Unstable(CountsRegressed) <==> soak.Soaked? && soak.after.Got? && !AtTarget(soak.after.deploy)
    ensures v.Unstable? <==>
            && soak.Soaked? && soak.after.Got?
            && (AtTarget(soak.after.deploy) ==>
                  soak.after.lookup.Listed? && Regressed(SnapshotOf(soak.before), soak.after.lookup.pods))
    ensures v == Success <==>
            && soak.Soaked? && soak.after.Got? && AtTarget(soak.after.deploy)
            && (soak.after.lookup.Listed? ==> !Regressed(SnapshotOf(soak.before), soak.after.lookup.pods))
    ensures v == Success || v.Unstable? || v == Inconclusive(ContextDoneInSoak) || v == Inconclusive(RefetchFailed)
  {
    if soak.Soaked? && soak.after.Got? && soak.after.lookup.Listed? {
      RegressedIff(SnapshotOf(soak.before), soak.after.lookup.pods);
    }
  }

  // ---------- How a run ends ----------

  /** SUCCESS: exactly when the deciding poll enters the soak, and after it the deployment is at its target and, where pods
      could be listed, no container that the snapshot names has restarted and no pod is unready. */
  lemma SuccessIff(run: Run, h: seq<Tick>, t: Tick, soak: Soaking, v: Verdict)
    requires Ongoing(run, h) && Concludes(Decide(run, h, t), soak, v)
    ensures v == Success
            <==> && InTime(run, t) && Ready(t) && !FailsOn(run, h, t)
                 && t.now - LastProgress(run, h + [t]) <= run.cfg.inactivityTimeout && AtTarget(t.fetch.deploy)
                 && soak.Soaked? && soak.after.Got? && AtTarget(soak.after.deploy)
                 && (soak.after.lookup.Listed? ==> !Regressed(SnapshotOf(soak.before), soak.after.lookup.pods))
  {
    EnterSoakIff(run, h, t);
    if Decide(run, h, t) == EnterSoak {
      SoakVerdictIff(soak, v);
    } else {
      assert Decide(run, h, t) == Stop(v);
      StopsWithout(run, StateAfter(run, h), t);
    }
  }

  /** UNSTABLE: exactly when the soak is entered and one of these is found after it. */
  lemma UnstableIff(run: Run, h: seq<Tick>, t: Tick, soak: Soaking, v: Verdict)
    requires Ongoing(run, h) && Concludes(Decide(run, h, t), soak, v)
    ensures v.Unstable?
            <==> && InTime(run, t) && Ready(t) && !FailsOn(run, h, t)
                 && t.now - LastProgress(run, h + [t]) <= run.cfg.inactivityTimeout && AtTarget(t.fetch.deploy)
                 && soak.Soaked? && soak.after.Got?
                 && (AtTarget(soak.after.deploy) ==>
                       soak.after.lookup.Listed? && Regressed(SnapshotOf(soak.before), soak.after.lookup.pods))
  {
    EnterSoakIff(run, h, t);
    if Decide(run, h, t) == EnterSoak {
      SoakVerdictIff(soak, v);
    } else {
      assert Decide(run, h, t) == Stop(v);
      StopsWithout(run, StateAfter(run, h), t);
    }
  }

  /** No poll ends a run with a verdict that only the soak gives. */
  lemma StopsWithout(run: Run, s: State, t: Tick)
    ensures var d := OnTick(run, s, t).0;
            d.Stop? ==> d.verdict != Success && !d.verdict.Unstable?
                        && d.verdict != Inconclusive(ContextDoneInSoak) && d.verdict != Inconclusive(RefetchFailed)
  {
  }
}
