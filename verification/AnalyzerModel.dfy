/**
 What the rollout analyzer observes and decides on one poll, as values.

 Times are integers on one clock that does not run backwards; a lookup that failed and one that found no new
 ReplicaSet are both Unlisted, which is how the analyzer treats them.
 */
module AnalyzerModel {
  import opened Wrappers

  datatype Config = Config(
    pollInterval: int, inactivityTimeout: int, absoluteTimeout: int,
    restartThreshold: int, restartWindow: int, configErrorWindow: int)

  // ---------- Observations ----------

  datatype Container = Container(name: string, waiting: Option<string>, restarts: int)

  datatype PodCondition = PodCondition(kind: string, status: string)

  datatype Pod = Pod(name: string, inits: seq<Container>, containers: seq<Container>, conditions: seq<PodCondition>)

  datatype Lookup = Unlisted | Listed(pods: seq<Pod>)

  datatype Condition = Condition(kind: string, status: string, reason: string)

  datatype Deployment = Deployment(
    generation: int, observed: int, paused: bool, conditions: seq<Condition>,
    replicas: Option<int>, updated: int, available: int, unavailable: int)

  datatype Fetch = NotFound | GetFailed | Got(deploy: Deployment, lookup: Lookup)

  datatype Tick = Done | Poll(now: int, fetch: Fetch)

  /** The soak: the pods before it, and what was fetched after it. */
  datatype Soaking = SoakDone | Soaked(before: Lookup, after: Fetch)

  // ---------- Verdicts ----------

  datatype Failure =
    | ProgressDeadlineExceeded
    | Persisted(pod: string, container: string, reason: string)
    | TooManyRestarts(total: int)

  datatype Regression =
    | CountsRegressed
    | Restarted(pod: string, container: string, before: int, after: int)
    | NotReady(pod: string)

  datatype Doubt = ContextDone | StillProgressing | ContextDoneInSoak | RefetchFailed

  datatype Verdict =
    | Success
    | Failed(failure: Failure)
    | Stalled
    | Unstable(regression: Regression)
    | Paused
    | Deleted
    | Inconclusive(doubt: Doubt)

  datatype Decision = Continue | Stop(verdict: Verdict) | EnterSoak

  // ---------- Reading an observation ----------

  function Desired(d: Deployment): int {
    if d.replicas.Some? then d.replicas.value else 1
  }

  predicate Converged(d: Deployment) {
    d.updated == Desired(d) && d.available == Desired(d) && d.unavailable == 0
  }

  predicate DeadlineExceeded(d: Deployment) {
    Condition("Progressing", "False", "ProgressDeadlineExceeded") in d.conditions
  }

  /** Stuck before its first start: waiting with a reason other than ContainerCreating and no restart. */
  predicate StuckWaiting(c: Container) {
    && c.waiting.Some? && c.waiting.value != "" && c.waiting.value != "ContainerCreating"
    && c.restarts == 0
  }

  function StuckIn(pod: string, cs: seq<Container>): seq<Failure> {
    if cs == [] then []
    else
      var rest := StuckIn(pod, cs[..|cs| - 1]);
      var c := cs[|cs| - 1];
      if StuckWaiting(c) then rest + [Persisted(pod, c.name, c.waiting.value)] else rest
  }

  /** Every container stuck before its first start, init containers first, as the failure it would be. */
  function AllStuck(pods: seq<Pod>): seq<Failure> {
    if pods == [] then []
    else
      var p := pods[|pods| - 1];
      AllStuck(pods[..|pods| - 1]) + StuckIn(p.name, p.inits + p.containers)
  }

  function RestartsIn(cs: seq<Container>): int {
    if cs == [] then 0 else RestartsIn(cs[..|cs| - 1]) + cs[|cs| - 1].restarts
  }

  function AllRestarts(pods: seq<Pod>): int {
    if pods == [] then 0
    else
      var p := pods[|pods| - 1];
      AllRestarts(pods[..|pods| - 1]) + RestartsIn(p.inits + p.containers)
  }

  predicate Lagged(t: Tick) {
    t.Poll? && t.fetch.Got? && t.fetch.deploy.observed < t.fetch.deploy.generation
  }

  /** A fetched poll whose generation the controller has caught up with. */
  predicate Current(t: Tick) {
    t.Poll? && t.fetch.Got? && t.fetch.deploy.observed >= t.fetch.deploy.generation
  }

  predicate PausedPoll(t: Tick) {
    Current(t) && t.fetch.deploy.paused
  }

  /** A poll whose replica counts are evaluated. */
  predicate Evaluated(t: Tick) {
    Current(t) && !t.fetch.deploy.paused
  }

  /** A poll that looks at pods. */
  predicate Listing(t: Tick) {
    Evaluated(t) && !DeadlineExceeded(t.fetch.deploy) && t.fetch.lookup.Listed?
  }

  predicate Stuck(t: Tick) {
    Listing(t) && AllStuck(t.fetch.lookup.pods) != []
  }

  // ---------- The poll loop, one poll at a time ----------

  datatype Counts = Counts(updated: int, available: int, unavailable: int)

  datatype State = State(counts: Counts, progressAt: int, stuckSince: Option<int>, paused: bool)

  datatype Run = Run(cfg: Config, start: int, progressStart: int)

  function Initially(run: Run): State {
    State(Counts(0, 0, 0), run.progressStart, None, false)
  }

  function CountsOf(d: Deployment): Counts {
    Counts(d.updated, d.available, d.unavailable)
  }

  predicate Forward(before: Counts, after: Counts) {
    after.updated > before.updated || after.available > before.available || after.unavailable < before.unavailable
  }

  /** The pod checks: the failure found, if any, and the config-error timer afterwards. */
  function CheckPods(cfg: Config, pods: seq<Pod>, now: int, progressAt: int, since: Option<int>)
    : (Option<Failure>, Option<int>)
  {
    var stuck := AllStuck(pods);
    var total := AllRestarts(pods);
    var crashing :=
      if total >= cfg.restartThreshold && now - progressAt < cfg.restartWindow then Some(TooManyRestarts(total))
      else None;
    if stuck == [] then (crashing, None)
    else if since.Some? && now - since.value >= cfg.configErrorWindow then (Some(stuck[0]), since)
    else if since.None? && 0 >= cfg.configErrorWindow && |stuck| >= 2 then (Some(stuck[1]), Some(now))
    else (crashing, if since.Some? then since else Some(now))
  }

  function CheckFailure(cfg: Config, d: Deployment, lookup: Lookup, now: int, progressAt: int, since: Option<int>)
    : (Option<Failure>, Option<int>)
  {
    if DeadlineExceeded(d) then (Some(ProgressDeadlineExceeded), since)
    else if lookup.Unlisted? then (None, since)
    else CheckPods(cfg, lookup.pods, now, progressAt, since)
  }

  function Progress(s: State, d: Deployment, now: int): State {
    s.(counts := CountsOf(d), progressAt := if Forward(s.counts, CountsOf(d)) then now else s.progressAt)
  }

  /** The evaluation of a current, unpaused deployment. */
  function Evaluate(run: Run, s: State, d: Deployment, lookup: Lookup, now: int): (Decision, State) {
    var (failure, since) := CheckFailure(run.cfg, d, lookup, now, s.progressAt, s.stuckSince);
    var s1 := s.(paused := false, stuckSince := since);
    if failure.Some? then (Stop(Failed(failure.value)), s1)
    else
      var s2 := Progress(s1, d, now);
      if now - s2.progressAt > run.cfg.inactivityTimeout then (Stop(Stalled), s2)
      else if Converged(d) then (EnterSoak, s2)
      else (Continue, s2)
  }

  /** The verdict once the absolute deadline has passed. */
  function AtDeadline(run: Run, s: State, now: int): Verdict {
    if s.paused then Paused
    else if now - s.progressAt < run.cfg.inactivityTimeout then Inconclusive(StillProgressing)
    else Stalled
  }

  function OnTick(run: Run, s: State, t: Tick): (Decision, State) {
    if t.Done? then (Stop(Inconclusive(ContextDone)), s)
    else if t.now > run.start + run.cfg.absoluteTimeout then (Stop(AtDeadline(run, s, t.now)), s)
    else if t.fetch.NotFound? then (Stop(Deleted), s)
    else if t.fetch.GetFailed? then (Continue, s)
    else if t.fetch.deploy.observed < t.fetch.deploy.generation then (Continue, s.(progressAt := t.now))
    else if t.fetch.deploy.paused then (Continue, s.(paused := true))
    else Evaluate(run, s, t.fetch.deploy, t.fetch.lookup, t.now)
  }

  function StateAfter(run: Run, h: seq<Tick>): State {
    if h == [] then Initially(run)
    else OnTick(run, StateAfter(run, h[..|h| - 1]), h[|h| - 1]).1
  }

  /** The loop is still polling after these ticks. */
  ghost predicate Ongoing(run: Run, h: seq<Tick>) {
    forall k | 0 <= k < |h| :: OnTick(run, StateAfter(run, h[..k]), h[k]).0 == Continue
  }

  // ---------- The soak ----------

  function Key(pod: string, container: string): string {
    pod + "/" + container
  }

  function RecordRestarts(pod: string, cs: seq<Container>, m: map<string, int>): map<string, int> {
    if cs == [] then m
    else RecordRestarts(pod, cs[..|cs| - 1], m)[Key(pod, cs[|cs| - 1].name) := cs[|cs| - 1].restarts]
  }

  /** The restart counts before the soak, keyed by pod and container. */
  function Snapshot(pods: seq<Pod>): map<string, int> {
    if pods == [] then map[]
    else
      var p := pods[|pods| - 1];
      RecordRestarts(p.name, p.containers, Snapshot(pods[..|pods| - 1]))
  }

  function SnapshotOf(lookup: Lookup): map<string, int> {
    if lookup.Listed? then Snapshot(lookup.pods) else map[]
  }

  predicate RestartedSince(pre: map<string, int>, pod: string, c: Container) {
    Key(pod, c.name) in pre && c.restarts > pre[Key(pod, c.name)]
  }

  predicate Unready(cond: PodCondition) {
    cond.kind == "Ready" && cond.status != "True"
  }

  predicate HealthyPod(pre: map<string, int>, p: Pod) {
    && (forall c | c in p.containers :: !RestartedSince(pre, p.name, c))
    && (forall cond | cond in p.conditions :: !Unready(cond))
  }

  predicate Healthy(pre: map<string, int>, pods: seq<Pod>) {
    forall p | p in pods :: HealthyPod(pre, p)
  }

  /** The regression reported is one that the pods show. */
  ghost predicate Witnessed(pre: map<string, int>, pods: seq<Pod>, r: Regression) {
    match r
    case CountsRegressed => false
    case Restarted(pod, container, before, after) =>
      exists p, c :: p in pods && c in p.containers && p.name == pod && c.name == container
                     && RestartedSince(pre, p.name, c) && before == pre[Key(pod, container)] && after == c.restarts
    case NotReady(pod) =>
      exists p, cond :: p in pods && cond in p.conditions && p.name == pod && Unready(cond)
  }

  /** What the soak may conclude. */
  ghost predicate SoakConcludes(soak: Soaking, v: Verdict) {
    if soak.SoakDone? then v == Inconclusive(ContextDoneInSoak)
    else if !soak.after.Got? then v == Inconclusive(RefetchFailed)
    else if !Converged(soak.after.deploy) then v == Unstable(CountsRegressed)
    else if soak.after.lookup.Unlisted? then v == Success
    else
      var pre := SnapshotOf(soak.before);
      && (v == Success <==> Healthy(pre, soak.after.lookup.pods))
      && (v != Success ==> v.Unstable? && Witnessed(pre, soak.after.lookup.pods, v.regression))
  }
}
