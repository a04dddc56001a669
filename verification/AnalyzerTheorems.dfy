/**
 What the analyzer's verdicts say about the polls that led to them, over every trace of polls.

 A history h is the ticks before the deciding one, t the deciding tick; Ongoing(run, h) says that the loop was
 still polling after h, which is what MonitorRollout proves of the ticks it consumed.
 */
module AnalyzerTheorems {
  import opened Wrappers
  import opened AnalyzerModel

  function Decide(run: Run, h: seq<Tick>, t: Tick): Decision {
    OnTick(run, StateAfter(run, h), t).0
  }

  lemma OngoingInit(run: Run, h: seq<Tick>)
    requires Ongoing(run, h) && h != []
    ensures var n := |h| - 1; Ongoing(run, h[..n]) && Decide(run, h[..n], h[n]) == Continue
  {
    var n := |h| - 1;
    forall k | 0 <= k < n ensures h[..n][..k] == h[..k] && h[..n][k] == h[k] {
    }
  }

  // ---------- The loop's variables, each on its own ----------

  function PausedAfter(h: seq<Tick>): bool {
    if h == [] then false
    else
      var t := h[|h| - 1];
      if Current(t) then t.fetch.deploy.paused else PausedAfter(h[..|h| - 1])
  }

  /** The counts of the last evaluated poll, zero before the first. */
  function PreviousCounts(h: seq<Tick>): Counts {
    if h == [] then Counts(0, 0, 0)
    else if Evaluated(h[|h| - 1]) then CountsOf(h[|h| - 1].fetch.deploy)
    else PreviousCounts(h[..|h| - 1])
  }

  /** The controller had not caught up, or the counts moved forward since the previous evaluated poll. */
  predicate ProgressMoment(h: seq<Tick>, i: int)
    requires 0 <= i < |h|
  {
    Lagged(h[i]) || (Evaluated(h[i]) && Forward(PreviousCounts(h[..i]), CountsOf(h[i].fetch.deploy)))
  }

  function LastProgress(run: Run, h: seq<Tick>): int {
    if h == [] then run.progressStart
    else
      var n := |h| - 1;
      if ProgressMoment(h, n) && h[n].Poll? then h[n].now else LastProgress(run, h[..n])
  }

  function TimerAfter(h: seq<Tick>): Option<int> {
    if h == [] then None
    else
      var t := h[|h| - 1];
      var since := TimerAfter(h[..|h| - 1]);
      if !Listing(t) then since
      else if !Stuck(t) then None
      else if since.Some? then since
      else Some(t.now)
  }

  /** What a tick that does not end the loop does to its variables. */
  lemma ContinueEffect(run: Run, s: State, t: Tick)
    requires OnTick(run, s, t).0 == Continue
    ensures var s' := OnTick(run, s, t).1;
            && s'.paused == (if Current(t) then t.fetch.deploy.paused else s.paused)
            && s'.counts == (if Evaluated(t) then CountsOf(t.fetch.deploy) else s.counts)
            && s'.progressAt == (if Lagged(t) || (Evaluated(t) && Forward(s.counts, CountsOf(t.fetch.deploy)))
                                 then t.now else s.progressAt)
            && s'.stuckSince == (if !Listing(t) then s.stuckSince else if !Stuck(t) then None
                                 else if s.stuckSince.Some? then s.stuckSince else Some(t.now))
  {
  }

  lemma {:induction false} StateExact(run: Run, h: seq<Tick>)
    requires Ongoing(run, h)
    ensures StateAfter(run, h) == State(PreviousCounts(h), LastProgress(run, h), TimerAfter(h), PausedAfter(h))
    decreases |h|
  {
    if h != [] {
      var n := |h| - 1;
      OngoingInit(run, h);
      StateExact(run, h[..n]);
      ContinueEffect(run, StateAfter(run, h[..n]), h[n]);
    }
  }

  // ---------- The paused flag ----------

  /** Poll i was paused, and it is the most recent fetched poll that was generation-current. */
  ghost predicate PausedLast(h: seq<Tick>, i: int) {
    0 <= i < |h| && PausedPoll(h[i]) && forall j | i < j < |h| :: !Current(h[j])
  }

  lemma {:induction false} PausedAfterIff(h: seq<Tick>)
    ensures PausedAfter(h) <==> exists i :: PausedLast(h, i)
    decreases |h|
  {
    if h != [] {
      var n := |h| - 1;
      var g, t := h[..n], h[n];
      PausedAfterIff(g);
      if Current(t) {
        assert PausedPoll(t) ==> PausedLast(h, n);
        assert forall i | PausedLast(h, i) :: i == n;
      } else {
        forall i ensures PausedLast(g, i) <==> PausedLast(h, i) {
          if PausedLast(h, i) { assert i != n; }
        }
      }
    }
  }

  // ---------- The progress clock ----------

  ghost predicate LastMoment(h: seq<Tick>, i: int) {
    0 <= i < |h| && ProgressMoment(h, i) && forall j | i < j < |h| :: !ProgressMoment(h, j)
  }

  /** LastProgress is the time of the last progress moment, the start when there was none. */
  lemma {:induction false} LastProgressIsLatest(run: Run, h: seq<Tick>)
    ensures (exists i :: LastMoment(h, i) && h[i].Poll? && LastProgress(run, h) == h[i].now)
            || ((forall i | 0 <= i < |h| :: !ProgressMoment(h, i)) && LastProgress(run, h) == run.progressStart)
    decreases |h|
  {
    if h != [] {
      var n := |h| - 1;
      if ProgressMoment(h, n) {
        assert LastMoment(h, n);
      } else {
        var g := h[..n];
        LastProgressIsLatest(run, g);
        forall i | 0 <= i < n ensures ProgressMoment(g, i) <==> ProgressMoment(h, i) {
          assert g[..i] == h[..i];
        }
        if i :| LastMoment(g, i) && g[i].Poll? && LastProgress(run, g) == g[i].now {
          assert LastMoment(h, i);
        }
      }
    }
  }

  /** The analyzer's clock is exactly the last progress moment of the history. */
  lemma ProgressClockExact(run: Run, h: seq<Tick>)
    requires Ongoing(run, h)
    ensures (exists i :: LastMoment(h, i) && h[i].Poll? && StateAfter(run, h).progressAt == h[i].now)
            || ((forall i | 0 <= i < |h| :: !ProgressMoment(h, i)) && StateAfter(run, h).progressAt == run.progressStart)
  {
    StateExact(run, h);
    LastProgressIsLatest(run, h);
  }

  /** A stall. Past the deadline: the latest current poll was not paused, and at least the inactivity timeout has passed
      since the last progress moment. Before: an evaluated poll shows no failure condition and a longer silence. */
  lemma StalledIff(run: Run, h: seq<Tick>, t: Tick)
    requires Ongoing(run, h) && t.Poll?
    ensures var deadline := run.start + run.cfg.absoluteTimeout;
            var d := Decide(run, h, t);
            && (t.now > deadline ==>
                  (d == Stop(Stalled) <==>
                   (forall i :: !PausedLast(h, i)) && t.now - LastProgress(run, h) >= run.cfg.inactivityTimeout))
            && (t.now <= deadline ==>
                  (d == Stop(Stalled) <==>
                   Evaluated(t) && !FailsOn(run, h, t) && t.now - LastProgress(run, h + [t]) > run.cfg.inactivityTimeout))
            && (t.now <= deadline && Evaluated(t) && t.now - LastProgress(run, h + [t]) > run.cfg.inactivityTimeout ==>
                  d.Stop? && (d.verdict == Stalled || d.verdict.Failed?))
  {
    PausedAfterIff(h);
    StateExact(run, h);
    if t.now <= run.start + run.cfg.absoluteTimeout { FailedIff(run, h, t); }
    var all := h + [t];
    assert all[..|h|] == h && all[|h|] == t;
  }

  // ---------- The config-error timer ----------

  /** Poll j is the last one before i that listed pods. */
  ghost predicate LastListing(h: seq<Tick>, j: int, i: int) {
    0 <= j < i <= |h| && Listing(h[j]) && forall k | j < k < i :: !Listing(h[k])
  }

  /** Poll i starts the present streak: it and every later poll that listed pods had a container stuck before its
      first start, and the poll that last listed pods before it, if any, had none. */
  ghost predicate StreakStart(h: seq<Tick>, i: int) {
    && 0 <= i < |h| && Stuck(h[i])
    && (forall j | i < j < |h| && Listing(h[j]) :: Stuck(h[j]))
    && (forall j | LastListing(h, j, i) :: !Stuck(h[j]))
  }

  lemma {:induction false} TimerRunsIff(h: seq<Tick>)
    ensures TimerAfter(h).Some? <==> exists j :: LastListing(h, j, |h|) && Stuck(h[j])
    decreases |h|
  {
    if h != [] {
      var n := |h| - 1;
      var g := h[..n];
      TimerRunsIff(g);
      if Listing(h[n]) {
        assert LastListing(h, n, |h|);
        assert forall j | LastListing(h, j, |h|) :: j == n;
      } else {
        assert forall k | 0 <= k < n :: g[k] == h[k];
        forall j ensures LastListing(g, j, n) <==> LastListing(h, j, |h|) {
          if LastListing(h, j, |h|) { assert j != n; }
        }
      }
    }
  }

  /** A running timer was started by the poll that starts the present streak; lookups that failed neither
      started, advanced nor reset it. */
  lemma {:induction false} TimerSinceStreak(h: seq<Tick>)
    ensures TimerAfter(h).Some? ==> exists i :: StreakStart(h, i) && h[i].now == TimerAfter(h).value
    decreases |h|
  {
    if h != [] {
      var n := |h| - 1;
      var g, t := h[..n], h[n];
      assert h == g + [t];
      TimerSinceStreak(g);
      TimerRunsIff(g);
      if TimerAfter(g).Some? {
        var i :| StreakStart(g, i) && g[i].now == TimerAfter(g).value;
        if Listing(t) ==> Stuck(t) {
          StreakExtends(g, t, i);
        }
      } else if Stuck(t) {
        FreshStreak(g, t);
      }
    }
  }

  lemma StreakExtends(g: seq<Tick>, t: Tick, i: int)
    requires StreakStart(g, i) && (Listing(t) ==> Stuck(t))
    ensures StreakStart(g + [t], i)
  {
    var h := g + [t];
    assert forall k | 0 <= k < |g| :: g[k] == h[k];
    forall j | LastListing(h, j, i) ensures !Stuck(h[j]) {
      assert LastListing(g, j, i);
    }
  }

  lemma FreshStreak(g: seq<Tick>, t: Tick)
    requires Stuck(t) && !exists j :: LastListing(g, j, |g|) && Stuck(g[j])
    ensures StreakStart(g + [t], |g|)
  {
    var h := g + [t];
    assert forall k | 0 <= k < |g| :: g[k] == h[k];
    forall j | LastListing(h, j, |g|) ensures !Stuck(h[j]) {
      assert LastListing(g, j, |g|);
    }
  }

  lemma {:induction false} LastListingExists(h: seq<Tick>, i: int, n: int) returns (j: int)
    requires 0 <= i < n <= |h| && Listing(h[i])
    ensures i <= j && LastListing(h, j, n)
    decreases n
  {
    if Listing(h[n - 1]) {
      j := n - 1;
    } else {
      j := LastListingExists(h, i, n - 1);
    }
  }

  lemma NoLaterStreak(h: seq<Tick>, i: int, i': int)
    requires StreakStart(h, i) && StreakStart(h, i')
    ensures i' <= i
  {
    if i < i' {
      var j := LastListingExists(h, i, i');
    }
  }

  lemma StreakStartUnique(h: seq<Tick>, i: int, i': int)
    requires StreakStart(h, i) && StreakStart(h, i')
    ensures i == i'
  {
    NoLaterStreak(h, i, i');
    NoLaterStreak(h, i', i);
  }

  predicate IsPersisted(d: Decision) {
    d.Stop? && d.verdict.Failed? && d.verdict.failure.Persisted?
  }

  /** What one persisted verdict says about the timer it found. */
  lemma PersistedNow(run: Run, s: State, t: Tick)
    requires IsPersisted(OnTick(run, s, t).0)
    ensures Stuck(t) && OnTick(run, s, t).0.verdict.failure in AllStuck(t.fetch.lookup.pods)
    ensures t.now - (if s.stuckSince.Some? then s.stuckSince.value else t.now) >= run.cfg.configErrorWindow
  {
  }

  /** The conditions under which a poll reports it. */
  lemma PersistedWhen(run: Run, s: State, t: Tick)
    requires Stuck(t) && t.now <= run.start + run.cfg.absoluteTimeout
    requires s.stuckSince.Some? && t.now - s.stuckSince.value >= run.cfg.configErrorWindow
    ensures IsPersisted(OnTick(run, s, t).0)
  {
    AreStuck(t.fetch.lookup.pods);
  }

  lemma {:induction false} AreStuck(pods: seq<Pod>)
    ensures forall f | f in AllStuck(pods) :: f.Persisted?
  {
    if pods != [] {
      AreStuck(pods[..|pods| - 1]);
      var p := pods[|pods| - 1];
      AreStuckIn(p.name, p.inits + p.containers);
    }
  }

  lemma {:induction false} AreStuckIn(pod: string, cs: seq<Container>)
    ensures forall f | f in StuckIn(pod, cs) :: f.Persisted?
    decreases |cs|
  {
    if cs != [] {
      AreStuckIn(pod, cs[..|cs| - 1]);
    }
  }

  /** A poll with a stuck container continues the streak that the timer measures, or starts one. */
  lemma StreakWithTimer(h: seq<Tick>, t: Tick)
    requires Stuck(t)
    ensures exists i :: StreakStart(h + [t], i)
                        && (h + [t])[i].now == if TimerAfter(h).Some? then TimerAfter(h).value else t.now
  {
    TimerSinceStreak(h);
    TimerRunsIff(h);
    if TimerAfter(h).Some? {
      var i :| StreakStart(h, i) && h[i].now == TimerAfter(h).value;
      StreakExtends(h, t, i);
      assert (h + [t])[i] == h[i];
    } else {
      FreshStreak(h, t);
      assert (h + [t])[|h|] == t;
    }
  }

  /** FAILED for a container that stayed stuck: the deciding poll lists one, in a streak of stuck listings that
      started at least the window ago. */
  lemma PersistedSound(run: Run, h: seq<Tick>, t: Tick)
    requires Ongoing(run, h) && IsPersisted(Decide(run, h, t))
    ensures Stuck(t) && Decide(run, h, t).verdict.failure in AllStuck(t.fetch.lookup.pods)
    ensures exists i :: StreakStart(h + [t], i) && t.now - (h + [t])[i].now >= run.cfg.configErrorWindow
  {
    StateExact(run, h);
    PersistedNow(run, StateAfter(run, h), t);
    StreakWithTimer(h, t);
  }

  lemma StreakTimer(h: seq<Tick>, i: int)
    requires StreakStart(h, i)
    ensures TimerAfter(h) == Some(h[i].now)
  {
    TimerSinceStreak(h);
    TimerRunsIff(h);
    var j := LastListingExists(h, i, |h|);
    assert Stuck(h[j]);
    var i' :| StreakStart(h, i') && h[i'].now == TimerAfter(h).value;
    StreakStartUnique(h, i, i');
  }

  /** And such a streak is always reported when it began on an earlier poll. */
  lemma PersistedComplete(run: Run, h: seq<Tick>, t: Tick, i: int)
    requires Ongoing(run, h) && Stuck(t) && t.now <= run.start + run.cfg.absoluteTimeout
    requires StreakStart(h, i) && t.now - h[i].now >= run.cfg.configErrorWindow
    ensures IsPersisted(Decide(run, h, t))
  {
    StateExact(run, h);
    StreakTimer(h, i);
    PersistedWhen(run, StateAfter(run, h), t);
  }

  // ---------- Failure ----------

  /** A listed container is stuck, in a streak that began at least the window ago; or, with no window at all, a second
      one on the poll that begins the streak. */
  ghost predicate StuckTooLong(run: Run, h: seq<Tick>, t: Tick) {
    && Stuck(t)
    && ((exists i :: StreakStart(h, i) && t.now - h[i].now >= run.cfg.configErrorWindow)
        || (run.cfg.configErrorWindow <= 0 && |AllStuck(t.fetch.lookup.pods)| >= 2 && forall i :: !StreakStart(h, i)))
  }

  /** Too many restarts, soon after the last progress moment of the earlier polls. */
  predicate Crashing(run: Run, h: seq<Tick>, t: Tick) {
    && Listing(t)
    && AllRestarts(t.fetch.lookup.pods) >= run.cfg.restartThreshold
    && t.now - LastProgress(run, h) < run.cfg.restartWindow
  }

  ghost predicate FailsOn(run: Run, h: seq<Tick>, t: Tick) {
    (Evaluated(t) && DeadlineExceeded(t.fetch.deploy)) || StuckTooLong(run, h, t) || Crashing(run, h, t)
  }

  /** Before the absolute deadline a poll ends the analysis as FAILED exactly when it shows one of the three. */
  lemma FailedIff(run: Run, h: seq<Tick>, t: Tick)
    requires Ongoing(run, h) && t.Poll? && t.now <= run.start + run.cfg.absoluteTimeout
    ensures (Decide(run, h, t).Stop? && Decide(run, h, t).verdict.Failed?) <==> FailsOn(run, h, t)
  {
    StateExact(run, h);
    TimerSinceStreak(h);
    forall i | StreakStart(h, i) ensures TimerAfter(h) == Some(h[i].now) {
      StreakTimer(h, i);
    }
    FailsByTimer(run, StateAfter(run, h), t);
  }

  /** The same in terms of the loop's variables. */
  lemma FailsByTimer(run: Run, s: State, t: Tick)
    requires t.Poll? && t.now <= run.start + run.cfg.absoluteTimeout
    ensures (OnTick(run, s, t).0.Stop? && OnTick(run, s, t).0.verdict.Failed?)
            <==> (Evaluated(t) && DeadlineExceeded(t.fetch.deploy))
                 || (Stuck(t) && (if s.stuckSince.Some? then t.now - s.stuckSince.value >= run.cfg.configErrorWindow
                                  else run.cfg.configErrorWindow <= 0 && |AllStuck(t.fetch.lookup.pods)| >= 2))
                 || (Listing(t) && AllRestarts(t.fetch.lookup.pods) >= run.cfg.restartThreshold
                     && t.now - s.progressAt < run.cfg.restartWindow)
  {
  }

  // ---------- The absolute deadline ----------

  /** Past the deadline the loop stops: PAUSED exactly when the most recent current poll was paused, otherwise
      INCONCLUSIVE exactly while progress is younger than the inactivity timeout. */
  lemma DeadlineVerdict(run: Run, h: seq<Tick>, t: Tick)
    requires Ongoing(run, h) && t.Poll? && t.now > run.start + run.cfg.absoluteTimeout
    ensures Decide(run, h, t).Stop?
    ensures var v := Decide(run, h, t).verdict;
            var silence := t.now - LastProgress(run, h);
            && (v == Paused <==> exists i :: PausedLast(h, i))
            && (v != Paused && silence < run.cfg.inactivityTimeout ==> v == Inconclusive(StillProgressing))
            && (v != Paused && silence >= run.cfg.inactivityTimeout ==> v == Stalled)
  {
    PausedAfterIff(h);
    StateExact(run, h);
  }

  // ---------- Success ----------

  /** SUCCESS: a poll no later than the deadline that was current, unpaused, free of failure conditions and
      converged, followed by a soak after which the deployment is still converged and, where pods could be
      listed, no container restarted and every pod is ready. */
  lemma SuccessSound(run: Run, h: seq<Tick>, t: Tick, soak: Soaking)
    requires Ongoing(run, h) && t.Poll?
    requires Decide(run, h, t) == Stop(Success) || (Decide(run, h, t) == EnterSoak && SoakConcludes(soak, Success))
    ensures t.now <= run.start + run.cfg.absoluteTimeout
    ensures Evaluated(t) && !DeadlineExceeded(t.fetch.deploy) && Converged(t.fetch.deploy)
    ensures t.fetch.lookup.Listed? && t.now - LastProgress(run, h) < run.cfg.restartWindow ==>
              AllRestarts(t.fetch.lookup.pods) < run.cfg.restartThreshold
    ensures forall i | StreakStart(h, i) && Stuck(t) :: t.now - h[i].now < run.cfg.configErrorWindow
    ensures soak.Soaked? && soak.after.Got? && Converged(soak.after.deploy)
    ensures soak.after.lookup.Listed? ==> Healthy(SnapshotOf(soak.before), soak.after.lookup.pods)
  {
    StateExact(run, h);
    forall i | StreakStart(h, i) && Stuck(t) ensures t.now - h[i].now < run.cfg.configErrorWindow {
      if t.now - h[i].now >= run.cfg.configErrorWindow {
        PersistedComplete(run, h, t, i);
        assert false;
      }
    }
  }

  /** Container c of pod p, wherever its pod and container names occur. */
  ghost predicate NamedOnce(pods: seq<Pod>, p: Pod, c: Container) {
    forall q, d | q in pods && d in q.containers && Key(q.name, d.name) == Key(p.name, c.name) :: d == c
  }

  /** The snapshot holds the restart count of every container it could name. */
  lemma {:induction false} SnapshotHolds(pods: seq<Pod>, p: Pod, c: Container)
    requires p in pods && c in p.containers && NamedOnce(pods, p, c)
    ensures Key(p.name, c.name) in Snapshot(pods) && Snapshot(pods)[Key(p.name, c.name)] == c.restarts
    decreases |pods|
  {
    var n := |pods| - 1;
    var last, init := pods[n], pods[..n];
    var k := Key(p.name, c.name);
    assert forall q | q in init :: q in pods;
    if exists d :: d in last.containers && Key(last.name, d.name) == k {
      RecordedLast(last.name, last.containers, Snapshot(init), k, c.restarts);
    } else {
      assert p in init;
      SnapshotHolds(init, p, c);
      RecordedElsewhere(last.name, last.containers, Snapshot(init), k);
    }
  }

  lemma {:induction false} RecordedElsewhere(pod: string, cs: seq<Container>, m: map<string, int>, k: string)
    requires forall d | d in cs :: Key(pod, d.name) != k
    ensures k in m <==> k in RecordRestarts(pod, cs, m)
    ensures k in m ==> RecordRestarts(pod, cs, m)[k] == m[k]
    decreases |cs|
  {
    if cs != [] {
      assert cs[|cs| - 1] in cs;
      RecordedElsewhere(pod, cs[..|cs| - 1], m, k);
    }
  }

  lemma {:induction false} RecordedLast(pod: string, cs: seq<Container>, m: map<string, int>, k: string, r: int)
    requires exists d :: d in cs && Key(pod, d.name) == k
    requires forall d | d in cs && Key(pod, d.name) == k :: d.restarts == r
    ensures k in RecordRestarts(pod, cs, m) && RecordRestarts(pod, cs, m)[k] == r
    decreases |cs|
  {
    var init, last := cs[..|cs| - 1], cs[|cs| - 1];
    assert last in cs && forall d | d in init :: d in cs;
    if Key(pod, last.name) != k {
      var d :| d in cs && Key(pod, d.name) == k;
      assert d in init;
      RecordedLast(pod, init, m, k, r);
    }
  }

  /** After a SUCCESS no container that both listings name, and the first names once, has restarted during the soak. */
  lemma SuccessMeansNoRestart(run: Run, h: seq<Tick>, t: Tick, soak: Soaking, p: Pod, c: Container, q: Pod, d: Container)
    requires Ongoing(run, h) && t.Poll?
    requires Decide(run, h, t) == Stop(Success) || (Decide(run, h, t) == EnterSoak && SoakConcludes(soak, Success))
    requires soak.Soaked? && soak.before.Listed? && soak.after.Got? && soak.after.lookup.Listed?
    requires p in soak.before.pods && c in p.containers && NamedOnce(soak.before.pods, p, c)
    requires q in soak.after.lookup.pods && d in q.containers && q.name == p.name && d.name == c.name
    ensures d.restarts <= c.restarts
  {
    SuccessSound(run, h, t, soak);
    SnapshotHolds(soak.before.pods, p, c);
    var pre := Snapshot(soak.before.pods);
    assert HealthyPod(pre, q) && !RestartedSince(pre, q.name, d);
  }

  // ---------- Progress is not measured against the best so far ----------

  function Better(a: Counts, b: Counts): Counts {
    Counts(if a.updated > b.updated then a.updated else b.updated,
           if a.available > b.available then a.available else b.available,
           if a.unavailable < b.unavailable then a.unavailable else b.unavailable)
  }

  /** The best of each count over the evaluated polls. */
  function Best(h: seq<Tick>): Option<Counts> {
    if h == [] then None
    else
      var before, t := Best(h[..|h| - 1]), h[|h| - 1];
      if !Evaluated(t) then before
      else if before.None? then Some(CountsOf(t.fetch.deploy))
      else Some(Better(before.value, CountsOf(t.fetch.deploy)))
  }

  /** Every evaluated poll is at most as good, and the previous counts are those of one of them. */
  lemma {:induction false} BestSoFar(h: seq<Tick>)
    ensures Best(h).Some? <==> exists i :: 0 <= i < |h| && Evaluated(h[i])
    ensures Best(h).Some? ==>
              && (forall i | 0 <= i < |h| && Evaluated(h[i]) :: !Forward(Best(h).value, CountsOf(h[i].fetch.deploy)))
              && !Forward(Best(h).value, PreviousCounts(h))
    decreases |h|
  {
    if h != [] {
      var n := |h| - 1;
      var g, t := h[..n], h[n];
      BestSoFar(g);
      if Evaluated(t) {
        assert 0 <= n < |h| && Evaluated(h[n]);
      } else if i :| 0 <= i < |h| && Evaluated(h[i]) {
        assert Evaluated(g[i]);
      }
      if i :| 0 <= i < |g| && Evaluated(g[i]) {
        assert Evaluated(h[i]);
      }
      forall i | 0 <= i < |h| && Evaluated(h[i]) ensures !Forward(Best(h).value, CountsOf(h[i].fetch.deploy)) {
        if i < n { assert Evaluated(g[i]); }
      }
    }
  }

  /** Polls that the analyzer takes for progress although they are no better than what was already reached: there are
      such polls exactly when the last evaluated counts are not the best ones. */
  lemma ProgressBelowBestIff(h: seq<Tick>)
    requires Best(h).Some?
    ensures (exists t :: Evaluated(t) && ProgressMoment(h + [t], |h|) && !Forward(Best(h).value, CountsOf(t.fetch.deploy)))
            <==> PreviousCounts(h) != Best(h).value
  {
    BestSoFar(h);
    var best := Best(h).value;
    if t :| Evaluated(t) && ProgressMoment(h + [t], |h|) && !Forward(best, CountsOf(t.fetch.deploy)) {
      assert (h + [t])[..|h|] == h;
    }
    if PreviousCounts(h) != best {
      var t := Reaching(h, best);
      assert Evaluated(t) && ProgressMoment(h + [t], |h|) && !Forward(best, CountsOf(t.fetch.deploy));
    }
  }

  /** A poll that is back at counts which the previous ones fall short of. */
  lemma Reaching(h: seq<Tick>, best: Counts) returns (t: Tick)
    requires PreviousCounts(h) != best && !Forward(best, PreviousCounts(h))
    ensures Evaluated(t) && CountsOf(t.fetch.deploy) == best && ProgressMoment(h + [t], |h|)
  {
    t := Poll(0, Got(Deployment(1, 1, false, [], None, best.updated, best.available, best.unavailable), Unlisted));
    assert (h + [t])[..|h|] == h && CountsOf(t.fetch.deploy) == best;
  }

  /** Evaluated polls that show a and b in turn, beginning with a. */
  ghost predicate Alternates(h: seq<Tick>, a: Counts, b: Counts) {
    forall i | 0 <= i < |h| :: Evaluated(h[i]) && CountsOf(h[i].fetch.deploy) == Turn(a, b, i)
  }

  function Turn(a: Counts, b: Counts, i: int): Counts {
    if i % 2 == 0 then a else b
  }

  /** When an alternating history last moved forward: on its last poll, if that is an upswing, and otherwise on the poll
      before, which then is one; equal counts move forward on the first poll at most. */
  function LastUpswing(run: Run, h: seq<Tick>, a: Counts, b: Counts): int
    requires |h| >= 3 && Alternates(h, a, b)
  {
    var n := |h| - 1;
    if a == b then LastProgress(run, h[..1])
    else if Forward(Turn(a, b, n - 1), Turn(a, b, n)) then h[n].now
    else h[n - 1].now
  }

  lemma {:induction false} LastUpswingIsProgress(run: Run, h: seq<Tick>, a: Counts, b: Counts)
    requires |h| >= 3 && Alternates(h, a, b)
    ensures LastProgress(run, h) == LastUpswing(run, h, a, b)
  {
    var n := |h| - 1;
    if a == b {
      SameCountsNoProgress(run, h, a);
    } else {
      AlternationMoments(h, a, b, n);
      AlternationMoments(h, a, b, n - 1);
      assert h[..n][n - 1] == h[n - 1] && h[..n][..n - 1] == h[..n - 1];
    }
  }

  lemma AlternationMoments(h: seq<Tick>, a: Counts, b: Counts, i: int)
    requires Alternates(h, a, b) && 1 <= i < |h|
    ensures ProgressMoment(h, i) <==> Forward(Turn(a, b, i - 1), Turn(a, b, i))
  {
    assert h[..i][i - 1] == h[i - 1];
  }

  lemma {:induction false} SameCountsNoProgress(run: Run, h: seq<Tick>, a: Counts)
    requires h != [] && Alternates(h, a, a)
    ensures LastProgress(run, h) == LastProgress(run, h[..1])
    decreases |h|
  {
    var n := |h| - 1;
    if n == 0 {
      assert h[..1] == h;
    } else {
      AlternationMoments(h, a, a, n);
      SameCountsNoProgress(run, h[..n], a);
      assert h[..n][..1] == h[..1];
    }
  }

  /** For any two counts: polls that swing between them, before the deadline and while no failure is found, end as
      STALLED exactly when the last upswing is longer ago than the inactivity timeout. */
  lemma AlternationStallsIff(run: Run, h: seq<Tick>, t: Tick, a: Counts, b: Counts)
    requires Ongoing(run, h) && |h| >= 2 && Alternates(h + [t], a, b)
    requires t.Poll? && t.now <= run.start + run.cfg.absoluteTimeout
    ensures Decide(run, h, t) == Stop(Stalled)
            <==> && !FailsOn(run, h, t)
                 && t.now - LastUpswing(run, h + [t], a, b) > run.cfg.inactivityTimeout
  {
    assert (h + [t])[|h|] == t && Evaluated((h + [t])[|h|]);
    LastUpswingIsProgress(run, h + [t], a, b);
    StalledIff(run, h, t);
  }

  /** Swinging between two different counts goes on undetected exactly as long as no two polls of which the second is
      no upswing are farther apart than the inactivity timeout. */
  lemma SwingStallsIff(run: Run, h: seq<Tick>, t: Tick, a: Counts, b: Counts)
    requires Ongoing(run, h) && |h| >= 2 && Alternates(h + [t], a, b) && a != b
    requires t.Poll? && t.now <= run.start + run.cfg.absoluteTimeout && run.cfg.inactivityTimeout >= 0
    ensures Decide(run, h, t) == Stop(Stalled)
            <==> && !FailsOn(run, h, t)
                 && !Forward(Turn(a, b, |h| - 1), Turn(a, b, |h|))
                 && t.now - h[|h| - 1].now > run.cfg.inactivityTimeout
  {
    AlternationStallsIff(run, h, t, a, b);
  }

  function CountsPoll(now: int, updated: int): Tick {
    Poll(now, Got(Deployment(1, 1, false, [], Some(2), updated, 0, 1), Unlisted))
  }

  /** A deployment that falls back and recovers: the recovery counts as progress, without anything new. */
  lemma ThrashingIsProgress(run: Run, h: seq<Tick>, now: int, now': int)
    requires h == [] || (exists t: int :: h[|h| - 1] == CountsPoll(t, 1))
    ensures LastProgress(run, h + [CountsPoll(now, 0), CountsPoll(now', 1)]) == now'
  {
    var down, up := CountsPoll(now, 0), CountsPoll(now', 1);
    var all := h + [down, up];
    assert all[..|all| - 1] == h + [down] && (h + [down])[|h|] == down;
    assert PreviousCounts(h + [down]) == Counts(0, 0, 1);
  }

  /** But sparse polls do find it stalled: eleven seconds after the recovery, with a timeout of five. */
  lemma SparsePollsStall()
    ensures var run := Run(Config(10, 5, 600, 3, 300, 90), 0, 0);
            var h := [CountsPoll(4, 1), CountsPoll(5, 0), CountsPoll(9, 1)];
            Ongoing(run, h) && Decide(run, h, CountsPoll(20, 0)) == Stop(Stalled)
  {
    var run := Run(Config(10, 5, 600, 3, 300, 90), 0, 0);
    var h := [CountsPoll(4, 1), CountsPoll(5, 0), CountsPoll(9, 1)];
    assert h[..3] == h && h[..3][..2] == h[..2] && h[..2][..1] == h[..1] && h[..1][..0] == [] == h[..0];
    assert StateAfter(run, h[..1]) == State(Counts(1, 0, 1), 4, None, false);
    assert StateAfter(run, h[..2]) == State(Counts(0, 0, 1), 4, None, false);
    assert StateAfter(run, h) == State(Counts(1, 0, 1), 9, None, false);
  }
}
