/**
 The watch manager's reconcile pass, cluster by cluster.

 No phase lets one cluster's bookkeeping depend on another's, so the manager's state is, for every cluster id, which
 watcher runs, which file hash is recorded, and what is queued for retry; a pass acts on each id separately.
 Starting a watcher, a health verdict and the content of the kubeconfig directory are inputs.
 */
module ManagerModel {
  import opened Wrappers

  const MAX_BACKOFF := 300

  function Pow2(n: nat): nat {
    if n == 0 then 1 else 2 * Pow2(n - 1)
  }

  function Min(a: int, b: int): int {
    if a < b then a else b
  }

  /** Ten seconds doubled per attempt, at most five minutes. */
  function Backoff(attempt: nat): int {
    Min(10 * Pow2(attempt), MAX_BACKOFF)
  }

  // A queued cluster; a watcher stopped as unhealthy is queued without its configuration.
  datatype Retry = Retry(config: Option<string>, attempt: nat, nextRetry: int)

  datatype Local = Local(
    running: Option<string>,  // the configuration of the watcher in the map
    leaked: nat,              // live watchers that are in no map and that nothing will stop
    hash: Option<string>,     // the recorded file hash
    retry: Option<Retry>)

  predicate Known(l: Local) {
    l.running.Some? || l.retry.Some?
  }

  /** Starting a watcher puts it in the map, over whatever is there. */
  function Start(l: Local, config: string): Local {
    l.(running := Some(config), leaked := if l.running.Some? then l.leaked + 1 else l.leaked)
  }

  function Queue(l: Local, config: Option<string>, now: int): Local {
    l.(retry := Some(Retry(config, 0, now + Backoff(0))))
  }

  // An attempt to start a watcher that fails may fail before its informer runs, or in waiting for it to sync.
  datatype Result = Started | Failed | TimedOut

  // How an attempt goes, and the time after it.
  datatype Try = Try(result: Result, at: int)

  /** An informer whose sync timed out is not stopped: it stays alive outside the map. */
  function Attempt(l: Local, config: string, r: Result): Local {
    match r
    case Started => Start(l, config)
    case Failed => l
    case TimedOut => l.(leaked := l.leaked + 1)
  }

  function StartOrQueue(l: Local, config: string, t: Try): Local {
    if t.result == Started then Start(l, config) else Queue(Attempt(l, config, t.result), Some(config), t.at)
  }

  /** Phase 0: a cluster that the watchlist wants and that is neither running nor queued. */
  function Ensure(l: Local, wanted: bool, found: Option<string>, t: Try): Local {
    if !wanted || Known(l) || found.None? then l else StartOrQueue(l, found.value, t)
  }

  /** What a loaded snapshot says about a cluster: the hash and configuration of its file. */
  datatype File = File(hash: string, config: string)

  /** Phase 1, first two loops: a cluster whose file is gone. The recorded hash goes only with a watcher. */
  function StopRemoved(l: Local, file: Option<File>): Local {
    if l.running.Some? && file.None? then l.(running := None, hash := None, retry := None) else l
  }

  function CancelRemoved(l: Local, file: Option<File>): Local {
    if l.retry.Some? && file.None? then l.(retry := None) else l
  }

  /** Phase 1, last loop: a file that is new or changed. */
  function StartNew(l: Local, file: Option<File>, t: Try): Local {
    if file.None? then l
    else
      var f := file.value;
      if l.hash.None? then
        if l.retry.Some? then l.(retry := Some(l.retry.value.(config := Some(f.config))), hash := Some(f.hash))
        else if t.result == Started then Start(l, f.config).(hash := Some(f.hash))
        else StartOrQueue(l, f.config, t)
      else if l.hash.value != f.hash then
        var stopped := l.(running := None, retry := None);
        StartOrQueue(stopped, f.config, t).(hash := if t.result == Started then Some(f.hash) else None)
      else l
  }

  function Rescan(l: Local, file: Option<File>, t: Try): Local {
    StartNew(CancelRemoved(StopRemoved(l, file), file), file, t)
  }

  /** Phase 2: an unhealthy watcher is stopped and queued. */
  function Health(l: Local, healthy: bool, now: int): Local {
    if l.running.None? || healthy then l
    else
      var stopped := l.(running := None);
      if l.retry.Some? then stopped else Queue(stopped, None, now)
  }

  function Postpone(r: Retry, now: int): Retry {
    Retry(r.config, r.attempt + 1, now + Backoff(r.attempt + 1))
  }

  /** Phase 3: a queued cluster whose time has come, on the directory's configuration if it has one. */
  function RetryDue(l: Local, found: Option<string>, r: Result, now: int): Local {
    if l.retry.None? || now < l.retry.value.nextRetry then l
    else
      var config := if found.Some? then found else l.retry.value.config;
      if config.None? then l.(retry := Some(Postpone(l.retry.value, now)))
      else Attempt(l, config.value, r).(retry := if r == Started then None else Some(Postpone(l.retry.value, now)))
  }

  // ---------- A pass ----------

  /** What a rescan that loads its snapshot sees of one cluster, and how a start during it would go. */
  datatype Scan = Scan(file: Option<File>, try: Try)

  /** What a pass meets, as far as one cluster is concerned. */
  datatype Input = Input(
    wanted: bool, ensureFound: Option<string>, ensureTry: Try,
    scan: Option<Scan>,  // None when no rescan is due or its load failed
    healthy: bool, queuedAt: int,
    retryFound: Option<string>, retryResult: Result, now: int)

  function Pass(l: Local, i: Input): Local {
    var ensured := Ensure(l, i.wanted, i.ensureFound, i.ensureTry);
    var scanned := if i.scan.Some? then Rescan(ensured, i.scan.value.file, i.scan.value.try) else ensured;
    RetryDue(Health(scanned, i.healthy, i.queuedAt), i.retryFound, i.retryResult, i.now)
  }

  function Passes(l: Local, inputs: seq<Input>): Local
    decreases |inputs|
  {
    if inputs == [] then l else Pass(Passes(l, inputs[..|inputs| - 1]), inputs[|inputs| - 1])
  }

  // ---------- What a pass does to a cluster, case by case ----------

  /** A queued cluster that is due and stays queued through the rescan: what the directory holds for it now comes before
      what it was queued with, and a file that the rescan takes up replaces the latter. */
  lemma RetryLaw(l: Local, i: Input)
    requires l.retry.Some? && l.retry.value.nextRetry <= i.now
    requires i.scan.Some? ==> i.scan.value.file.Some? && (l.hash.None? || l.hash == Some(i.scan.value.file.value.hash))
    ensures var l', entry := Pass(l, i), l.retry.value;
            var queued := if i.scan.Some? && l.hash.None? then Some(i.scan.value.file.value.config) else entry.config;
            if i.retryResult == Started && i.retryFound.Some?
            then l'.running == i.retryFound && l'.retry.None?
            else if i.retryResult == Started && queued.Some?
            then l'.running == queued && l'.retry.None?
            else && l'.running == (if i.healthy then l.running else None)
                 && l'.retry == Some(Retry(queued, entry.attempt + 1, i.now + Backoff(entry.attempt + 1)))
  {
  }

  lemma RetryDueLaw(l: Local, found: Option<string>, r: Result, now: int)
    requires l.retry.Some?
    ensures var l', entry := RetryDue(l, found, r, now), l.retry.value;
            && l'.hash == l.hash
            && (now < entry.nextRetry ==> l' == l)
            && (now >= entry.nextRetry && r == Started && found.Some? ==> l'.running == found && l'.retry.None?)
            && (now >= entry.nextRetry && r == Started && found.None? && entry.config.Some? ==>
                  l'.running == entry.config && l'.retry.None?)
            && (now >= entry.nextRetry && (r != Started || (found.None? && entry.config.None?)) ==>
                  && l'.running == l.running
                  && l'.retry == Some(Retry(entry.config, entry.attempt + 1, now + Backoff(entry.attempt + 1))))
  {
  }

  /** Ten seconds, twenty, forty, eighty, a hundred and sixty, and five minutes from then on. */
  lemma BackoffSequence(attempt: nat)
    ensures Backoff(0) == 10 && Backoff(1) == 20 && Backoff(2) == 40 && Backoff(3) == 80 && Backoff(4) == 160
    ensures attempt >= 5 ==> Backoff(attempt) == 300
  {
    assert Pow2(1) == 2 && Pow2(2) == 4 && Pow2(3) == 8 && Pow2(4) == 16 && Pow2(5) == 32;
    if attempt >= 5 { Pow2Monotone(5, attempt); }
  }

  /** A running cluster that gives no cause for anything is left alone. */
  lemma SteadyLaw(l: Local, i: Input)
    requires l.running.Some? && l.retry.None? && i.healthy
    requires i.scan.Some? ==> i.scan.value.file.Some? && l.hash == Some(i.scan.value.file.value.hash)
    ensures Pass(l, i) == l
  {
  }

  /** A watcher found unhealthy is stopped, and queued for ten seconds later with no configuration of its own. */
  lemma SickLaw(l: Local, i: Input)
    requires l.running.Some? && l.retry.None? && !i.healthy && i.now < i.queuedAt + 10
    requires i.scan.Some? ==> i.scan.value.file.Some? && l.hash == Some(i.scan.value.file.value.hash)
    ensures Pass(l, i) == l.(running := None, retry := Some(Retry(None, 0, i.queuedAt + 10)))
  {
    assert Backoff(0) == 10;
  }

  /** A changed file: the old watcher is stopped, whether or not the new one starts; one that fails is queued for ten
      seconds later, with no hash on record. */
  lemma ChangedLaw(l: Local, i: Input)
    requires i.scan.Some? && i.scan.value.file.Some? && i.healthy && i.now < i.scan.value.try.at + 10
    requires Known(l) && l.hash.Some? && l.hash.value != i.scan.value.file.value.hash
    ensures var f, t := i.scan.value.file.value, i.scan.value.try;
            && (t.result == Started ==> Pass(l, i) == Local(Some(f.config), l.leaked, Some(f.hash), None))
            && (t.result != Started ==>
                  && Pass(l, i).running.None? && Pass(l, i).hash.None?
                  && Pass(l, i).retry == Some(Retry(Some(f.config), 0, t.at + 10)))
  {
    assert Backoff(0) == 10;
  }

  /** A cluster of which nothing is known, on a pass that rescans: started from its file, with the hash, or queued. */
  lemma NewFileLaw(i: Input)
    requires !i.wanted && i.scan.Some? && i.scan.value.file.Some? && i.healthy && i.now < i.scan.value.try.at + 10
    ensures var f, t := i.scan.value.file.value, i.scan.value.try;
            && (t.result == Started ==> Pass(Nothing, i) == Local(Some(f.config), 0, Some(f.hash), None))
            && (t.result != Started ==>
                  && Pass(Nothing, i).running.None? && Pass(Nothing, i).hash.None?
                  && Pass(Nothing, i).retry == Some(Retry(Some(f.config), 0, t.at + 10)))
  {
    assert Backoff(0) == 10;
  }

  /** A file that is gone: its watcher is stopped with its hash and its retry forgotten. */
  lemma GoneLaw(l: Local, i: Input)
    requires l.running.Some? && i.scan.Some? && i.scan.value.file.None?
    ensures Pass(l, i) == Nothing.(leaked := l.leaked)
  {
  }

  /** A cluster that only the watchlist asks for is started, or queued for ten seconds later. */
  lemma WantedLaw(l: Local, i: Input)
    requires !Known(l) && i.wanted && i.ensureFound.Some? && i.scan.None? && i.healthy && i.now < i.ensureTry.at + 10
    ensures if i.ensureTry.result == Started
            then Pass(l, i).running == i.ensureFound && Pass(l, i).retry.None?
            else Pass(l, i).running.None? && Pass(l, i).retry == Some(Retry(i.ensureFound, 0, i.ensureTry.at + 10))
  {
    assert Backoff(0) == 10;
  }

  // ---------- Conservation ----------

  /** The cluster's file is in every snapshot that a rescan loads. */
  ghost predicate AlwaysListed(inputs: seq<Input>) {
    forall i | i in inputs && i.scan.Some? :: i.scan.value.file.Some?
  }

  /** A cluster that is running or queued stays running or queued, whatever starts fail and watchers sicken. */
  lemma {:induction false} ClusterConserved(l: Local, inputs: seq<Input>)
    requires Known(l) && AlwaysListed(inputs)
    ensures Known(Passes(l, inputs))
    decreases |inputs|
  {
    if inputs != [] {
      var n := |inputs| - 1;
      assert inputs[n] in inputs && forall i | i in inputs[..n] :: i in inputs;
      ClusterConserved(l, inputs[..n]);
    }
  }

  /** After a rescan that loaded a snapshot: what is running or queued is in it; a listed cluster has its hash
      recorded or is queued without one; and a new or changed one runs on, or waits with, the listed configuration. */
  ghost predicate Settled(l: Local, file: Option<File>, l': Local) {
    && (Known(l') ==> file.Some?)
    && (file.Some? ==> l'.hash == Some(file.value.hash) || (l'.hash.None? && l'.retry.Some?))
    && (file.Some? && l.hash != Some(file.value.hash) ==>
          l'.running == Some(file.value.config)
          || (l'.retry.Some? && l'.retry.value.config == Some(file.value.config)))
  }

  lemma RescanSettles(l: Local, file: Option<File>, t: Try)
    ensures Settled(l, file, Rescan(l, file, t))
  {
  }

  // ---------- What the passes do not keep ----------

  /** Neither running nor queued, although the present hash of its file is on record. */
  ghost predicate Abandoned(l: Local, f: File) {
    !Known(l) && l.hash == Some(f.hash)
  }

  /** Only the watchlist or a change of the file can start it again: no number of passes over the same file does. */
  lemma {:induction false} AbandonedForever(l: Local, f: File, inputs: seq<Input>)
    requires Abandoned(l, f)
    requires forall i | i in inputs :: !i.wanted && (i.scan.Some? ==> i.scan.value.file == Some(f))
    ensures Passes(l, inputs) == l
    decreases |inputs|
  {
    if inputs != [] {
      var n := |inputs| - 1;
      assert inputs[n] in inputs && forall i | i in inputs[..n] :: i in inputs;
      AbandonedForever(l, f, inputs[..n]);
    }
  }

  /** Neither running nor queued with a hash on record: abandoned as soon as its file is there with that hash. */
  predicate Lost(l: Local) {
    !Known(l) && l.hash.Some?
  }

  /** A rescan finds the file gone while the cluster is not running and its hash is on record: the hash is forgotten only
      together with a watcher. */
  predicate Vanishes(l: Local, i: Input) {
    var ensured := Ensure(l, i.wanted, i.ensureFound, i.ensureTry);
    i.scan.Some? && i.scan.value.file.None? && ensured.running.None? && ensured.hash.Some?
  }

  /** The watchlist does not ask for the cluster, and its file is not seen with another hash. */
  predicate Leaves(i: Input, hash: string) {
    && !(i.wanted && i.ensureFound.Some?)
    && (i.scan.Some? ==> i.scan.value.file.None? || i.scan.value.file.value.hash == hash)
  }

  lemma PassLosesIff(l: Local, i: Input)
    ensures Lost(Pass(l, i)) <==> Vanishes(l, i) || (Lost(l) && Leaves(i, l.hash.value))
    ensures Lost(l) && Leaves(i, l.hash.value) ==> Pass(l, i).hash == l.hash
  {
    var ensured := Ensure(l, i.wanted, i.ensureFound, i.ensureTry);
    var scanned := if i.scan.Some? then Rescan(ensured, i.scan.value.file, i.scan.value.try) else ensured;
    assert Known(scanned) <==> Known(Health(scanned, i.healthy, i.queuedAt));
    assert Known(scanned) <==> Known(Pass(l, i));
    assert Pass(l, i).hash == scanned.hash;
  }

  /** Pass j lost the cluster, or it was lost from the start, and no pass since has brought it back. */
  ghost predicate LostSince(l: Local, inputs: seq<Input>, j: int) {
    && 0 <= j <= |inputs|
    && (if j == 0 then Lost(l) else Vanishes(Passes(l, inputs[..j - 1]), inputs[j - 1]))
    && var hash := Passes(l, inputs[..j]).hash;
       hash.Some? && forall k | j <= k < |inputs| :: Leaves(inputs[k], hash.value)
  }

  /** Over any run a cluster ends up neither running nor queued, with a hash on record, exactly when at some pass its file
      was gone while it was not running, or it began that way, and since then neither the watchlist asked for it nor was
      its file seen with another hash. */
  lemma {:induction false} LostIff(l: Local, inputs: seq<Input>)
    ensures Lost(Passes(l, inputs)) <==> exists j :: LostSince(l, inputs, j)
    decreases |inputs|
  {
    if inputs == [] {
      assert inputs[..0] == [];
      assert Lost(l) <==> LostSince(l, inputs, 0);
    } else {
      var n := |inputs| - 1;
      var g := inputs[..n];
      var before := Passes(l, g);
      PassLosesIff(before, inputs[n]);
      LostIff(l, g);
      if Vanishes(before, inputs[n]) {
        assert inputs[..n + 1] == inputs;
        assert LostSince(l, inputs, n + 1);
      } else if Lost(before) && Leaves(inputs[n], before.hash.value) {
        var j :| LostSince(l, g, j);
        LostStays(l, g, j);
        LostOneMore(l, inputs, j);
      }
      if j :| LostSince(l, inputs, j) {
        LostStays(l, inputs, j);
      }
    }
  }

  lemma {:induction false} LostStays(l: Local, inputs: seq<Input>, j: int)
    requires LostSince(l, inputs, j)
    ensures Lost(Passes(l, inputs)) && Passes(l, inputs).hash == Passes(l, inputs[..j]).hash
    decreases |inputs|
  {
    if j == |inputs| {
      assert inputs[..j] == inputs;
      if j > 0 { PassLosesIff(Passes(l, inputs[..j - 1]), inputs[j - 1]); }
    } else {
      var n := |inputs| - 1;
      LostOneLess(l, inputs, j);
      LostStays(l, inputs[..n], j);
      assert inputs[..n][..j] == inputs[..j];
      PassLosesIff(Passes(l, inputs[..n]), inputs[n]);
    }
  }

  lemma LostOneLess(l: Local, inputs: seq<Input>, j: int)
    requires j < |inputs| && LostSince(l, inputs, j)
    ensures LostSince(l, inputs[..|inputs| - 1], j)
  {
    var g := inputs[..|inputs| - 1];
    assert g[..j] == inputs[..j];
    if j > 0 { assert g[..j - 1] == inputs[..j - 1] && g[j - 1] == inputs[j - 1]; }
  }

  lemma LostOneMore(l: Local, inputs: seq<Input>, j: int)
    requires inputs != [] && LostSince(l, inputs[..|inputs| - 1], j)
    requires Leaves(inputs[|inputs| - 1], Passes(l, inputs[..|inputs| - 1][..j]).hash.value)
    ensures LostSince(l, inputs, j)
  {
    var g := inputs[..|inputs| - 1];
    assert g[..j] == inputs[..j];
    if j > 0 { assert g[..j - 1] == inputs[..j - 1] && g[j - 1] == inputs[j - 1]; }
    forall k | j <= k < |inputs| ensures Leaves(inputs[k], Passes(l, inputs[..j]).hash.value) {
      if k < |g| { assert g[k] == inputs[k]; }
    }
  }

  /** From nothing, a cluster whose file is in every snapshot is never abandoned, whatever starts fail. */
  lemma LostOnlyByRemoval(inputs: seq<Input>, f: File)
    requires AlwaysListed(inputs)
    ensures !Abandoned(Passes(Nothing, inputs), f)
  {
    UnknownHasNoHash(inputs);
  }

  const Nothing := Local(None, 0, None, None)

  lemma {:induction false} UnknownHasNoHash(inputs: seq<Input>)
    requires AlwaysListed(inputs)
    ensures Known(Passes(Nothing, inputs)) || Passes(Nothing, inputs) == Nothing
    decreases |inputs|
  {
    if inputs != [] {
      var n := |inputs| - 1;
      assert inputs[n] in inputs && forall i | i in inputs[..n] :: i in inputs;
      UnknownHasNoHash(inputs[..n]);
    }
  }

  /** The hash of a cluster that is only queued survives the removal of its file: start, sicken, lose the file. */
  lemma AbandonedFromNothing(f: File, now: int)
    ensures var inputs := [Rescanned(Some(f), Started, now), Sick(Started, now), Rescanned(None, Started, now)];
            Abandoned(Passes(Nothing, inputs), f)
  {
    var a, b, c := Rescanned(Some(f), Started, now), Sick(Started, now), Rescanned(None, Started, now);
    ThreePasses(Nothing, a, b, c);
    assert Backoff(0) == 10;
  }

  // ---------- Passes in which one thing happens ----------

  function Rescanned(file: Option<File>, r: Result, now: int): Input {
    Input(false, None, Try(r, now), Some(Scan(file, Try(r, now))), true, now, None, r, now)
  }

  function Sick(r: Result, now: int): Input {
    Input(false, None, Try(r, now), None, false, now, None, r, now)
  }

  function Retried(found: string, r: Result, now: int): Input {
    Input(false, None, Try(r, now), None, true, now, Some(found), r, now)
  }

  function Wanted(found: string, r: Result, now: int): Input {
    Input(true, Some(found), Try(r, now), None, true, now, None, r, now)
  }

  lemma TwoPasses(l: Local, a: Input, b: Input)
    ensures Passes(l, [a, b]) == Pass(Pass(l, a), b)
  {
    assert [a, b][..1] == [a] && [a][..0] == [];
    assert Passes(l, [a]) == Pass(Passes(l, [a][..0]), a);
  }

  lemma ThreePasses(l: Local, a: Input, b: Input, c: Input)
    ensures Passes(l, [a, b, c]) == Pass(Pass(Pass(l, a), b), c)
  {
    TwoPasses(l, a, b);
    assert [a, b, c][..2] == [a, b];
  }

  // ---------- Live watchers outside the map ----------

  /** What an attempt adds to them: an informer that did not sync in time, or the watcher it is put over. */
  function StartLeaks(l: Local, r: Result): nat {
    if r == TimedOut || (r == Started && l.running.Some?) then 1 else 0
  }

  function EnsureLeaks(l: Local, wanted: bool, found: Option<string>, t: Try): nat {
    if wanted && !Known(l) && found.Some? then StartLeaks(l, t.result) else 0
  }

  /** A rescan adds one exactly when it starts a cluster that already runs and has no recorded hash, as after a start by
      a retry or by the watchlist, or when a start that it attempts times out. */
  function RescanLeaks(l: Local, file: Option<File>, t: Try): nat {
    if file.Some? && l.hash.None? && l.retry.None? then StartLeaks(l, t.result)
    else if file.Some? && l.hash.Some? && l.hash.value != file.value.hash && t.result == TimedOut then 1
    else 0
  }

  /** A retry adds one exactly when the cluster it starts is running as well, or when its start times out. */
  function RetryLeaks(l: Local, found: Option<string>, r: Result, now: int): nat {
    if l.retry.Some? && l.retry.value.nextRetry <= now && (found.Some? || l.retry.value.config.Some?)
    then StartLeaks(l, r) else 0
  }

  function PassLeaks(l: Local, i: Input): nat {
    var ensured := Ensure(l, i.wanted, i.ensureFound, i.ensureTry);
    var scanned := if i.scan.Some? then Rescan(ensured, i.scan.value.file, i.scan.value.try) else ensured;
    EnsureLeaks(l, i.wanted, i.ensureFound, i.ensureTry)
    + (if i.scan.Some? then RescanLeaks(ensured, i.scan.value.file, i.scan.value.try) else 0)
    + RetryLeaks(Health(scanned, i.healthy, i.queuedAt), i.retryFound, i.retryResult, i.now)
  }

  lemma EnsureLeaksIff(l: Local, wanted: bool, found: Option<string>, t: Try)
    ensures Ensure(l, wanted, found, t).leaked == l.leaked + EnsureLeaks(l, wanted, found, t)
  {
  }

  lemma RescanLeaksIff(l: Local, file: Option<File>, t: Try)
    ensures Rescan(l, file, t).leaked == l.leaked + RescanLeaks(l, file, t)
  {
  }

  lemma RetryLeaksIff(l: Local, found: Option<string>, r: Result, now: int)
    ensures RetryDue(l, found, r, now).leaked == l.leaked + RetryLeaks(l, found, r, now)
  {
  }

  lemma PassLeaksIff(l: Local, i: Input)
    ensures Pass(l, i).leaked == l.leaked + PassLeaks(l, i)
  {
    var ensured := Ensure(l, i.wanted, i.ensureFound, i.ensureTry);
    EnsureLeaksIff(l, i.wanted, i.ensureFound, i.ensureTry);
    var scanned := ensured;
    if i.scan.Some? {
      RescanLeaksIff(ensured, i.scan.value.file, i.scan.value.try);
      scanned := Rescan(ensured, i.scan.value.file, i.scan.value.try);
    }
    RetryLeaksIff(Health(scanned, i.healthy, i.queuedAt), i.retryFound, i.retryResult, i.now);
  }

  function LeaksOver(l: Local, inputs: seq<Input>): nat
    decreases |inputs|
  {
    if inputs == [] then 0
    else
      var n := |inputs| - 1;
      LeaksOver(l, inputs[..n]) + PassLeaks(Passes(l, inputs[..n]), inputs[n])
  }

  /** Over any run the live watchers outside the map grow by exactly the starts that time out or that are put over a
      watcher that runs; nothing ever stops one. */
  lemma {:induction false} LeakedExactly(l: Local, inputs: seq<Input>)
    ensures Passes(l, inputs).leaked == l.leaked + LeaksOver(l, inputs)
    decreases |inputs|
  {
    if inputs != [] {
      var n := |inputs| - 1;
      LeakedExactly(l, inputs[..n]);
      PassLeaksIff(Passes(l, inputs[..n]), inputs[n]);
    }
  }

  /** Passes in which starts go only in the ways listed, and in which the watchlist wants the cluster only if it may. */
  ghost predicate Within(inputs: seq<Input>, results: set<Result>, mayWant: bool) {
    forall i | i in inputs ::
      && i.ensureTry.result in results && i.retryResult in results
      && (i.scan.Some? ==> i.scan.value.try.result in results)
      && (i.wanted ==> mayWant)
  }

  ghost predicate LeaksNever(l: Local, results: set<Result>, mayWant: bool) {
    forall inputs | Within(inputs, results, mayWant) :: Passes(l, inputs).leaked == 0
  }

  /** Nothing leaked, nothing both running and queued, and a hash on record for all that is either. */
  predicate Tidy(l: Local) {
    l.leaked == 0 && !(l.running.Some? && l.retry.Some?) && (Known(l) ==> l.hash.Some?)
  }

  /** From any state: no run leaks a live watcher exactly when none has leaked, no start times out and, where starts can
      succeed, none fails, the watchlist wants nothing and the state is tidy. */
  lemma LeaksNeverFromIff(l: Local, results: set<Result>, mayWant: bool)
    ensures LeaksNever(l, results, mayWant)
            <==> && l.leaked == 0 && TimedOut !in results
                 && (Started in results ==> Failed !in results && !mayWant && Tidy(l))
  {
    if l.leaked > 0 {
      assert Within([], results, mayWant) && Passes(l, []) == l;
    } else if TimedOut in results {
      var inputs := TimeoutLeaks(l);
      assert Within(inputs, results, mayWant);
    } else if Started in results && Failed in results {
      var inputs := RetryLeaksFrom(l, Failed);
      assert Within(inputs, results, mayWant);
    } else if Started in results && mayWant {
      var inputs := WantedLeaks(l);
      assert Within(inputs, results, mayWant);
    } else if Started in results && !Tidy(l) {
      var inputs := UntidyLeaks(l);
      assert Within(inputs, results, mayWant);
    } else {
      forall inputs | Within(inputs, results, mayWant) ensures Passes(l, inputs).leaked == 0 {
        if Started in results {
          StaysTidy(l, inputs);
        } else {
          OnlyFailures(l, inputs);
        }
      }
    }
  }

  /** A hash that is not on record. */
  function OtherHash(l: Local): string {
    if l.hash == Some("a") then "b" else "a"
  }

  lemma LeakedGrows(l: Local, a: Input, b: Input)
    ensures Passes(l, [a, b]).leaked >= Pass(l, a).leaked >= l.leaked
  {
    TwoPasses(l, a, b);
    PassLeaksIff(l, a);
    PassLeaksIff(Pass(l, a), b);
  }

  lemma TimeoutLeaks(l: Local) returns (inputs: seq<Input>)
    ensures Passes(l, inputs).leaked > 0
    ensures forall i | i in inputs :: OnlyAs(i, {TimedOut})
  {
    var a := Rescanned(Some(File(OtherHash(l), "")), TimedOut, 0);
    var b := Rescanned(Some(File("c", "")), TimedOut, 0);
    inputs := [a, b];
    LeakedGrows(l, a, b);
    PassLeaksIff(l, a);
    if !(l.hash.None? && l.retry.Some?) {
      assert PassLeaks(l, a) > 0;
    } else if PassLeaks(l, a) == 0 {
      TimedOutRescan(Pass(l, a), b);
      TwoPasses(l, a, b);
    }
  }

  lemma TimedOutRescan(l: Local, b: Input)
    requires l.hash.Some? && l.hash.value != "c" && b == Rescanned(Some(File("c", "")), TimedOut, 0)
    ensures Pass(l, b).leaked > l.leaked
  {
    PassLeaksIff(l, b);
  }

  /** The watchlist wants nothing, and starts go in these ways. */
  ghost predicate OnlyAs(i: Input, results: set<Result>) {
    && !i.wanted && i.ensureTry.result in results && i.retryResult in results
    && (i.scan.Some? ==> i.scan.value.try.result in results)
  }

  /** Whatever the state, the file can go away, come back while the start fails, and be retried: then the cluster runs
      without a recorded hash. */
  function RetryRun(l: Local, r: Result): seq<Input> {
    [Rescanned(None, r, 0), Rescanned(Some(File(OtherHash(l), "")), r, 0), Retried("", Started, 10)]
  }

  lemma RunsWithoutHash(l: Local, r: Result)
    requires r != Started
    ensures var l' := Passes(l, RetryRun(l, r));
            l'.running == Some("") && l'.hash.None? && l'.retry.None? && l'.leaked >= l.leaked
    ensures forall i | i in RetryRun(l, r) :: OnlyAs(i, {Started, r})
  {
    var run := RetryRun(l, r);
    var gone := Pass(l, run[0]);
    assert !Known(gone) && (gone.hash == l.hash || gone.hash.None?);
    var queued := Pass(gone, run[1]);
    assert Backoff(0) == 10;
    assert queued == Local(None, if r == TimedOut then gone.leaked + 1 else gone.leaked, None, Some(Retry(Some(""), 0, 10)));
    ThreePasses(l, run[0], run[1], run[2]);
    assert run == [run[0], run[1], run[2]];
    PassLeaksIff(l, run[0]);
  }

  lemma OneMorePass(l: Local, inputs: seq<Input>, last: Input)
    ensures Passes(l, inputs + [last]) == Pass(Passes(l, inputs), last)
  {
    assert (inputs + [last])[..|inputs|] == inputs;
  }

  lemma RetryLeaksFrom(l: Local, r: Result) returns (inputs: seq<Input>)
    requires r != Started
    ensures Passes(l, inputs).leaked > 0
    ensures forall i | i in inputs :: OnlyAs(i, {Started, r})
  {
    RunsWithoutHash(l, r);
    var last := Rescanned(Some(File("", "")), Started, 10);
    inputs := RetryRun(l, r) + [last];
    OneMorePass(l, RetryRun(l, r), last);
    StartedOver(Passes(l, RetryRun(l, r)), last);
  }

  /** A cluster that runs without a recorded hash is started over its live watcher by the next rescan. */
  lemma StartedOver(l: Local, last: Input)
    requires l.running.Some? && l.hash.None? && l.retry.None?
    requires last.scan.Some? && last.scan.value.file.Some? && last.scan.value.try.result == Started
    ensures Pass(l, last).leaked > l.leaked
  {
    PassLeaksIff(l, last);
  }

  /** The file goes away, the watchlist starts the cluster, the file goes away with its hash, and the watchlist starts the
      cluster again: then it runs without a recorded hash. */
  lemma WantedLeaks(l: Local) returns (inputs: seq<Input>)
    ensures Passes(l, inputs).leaked > 0
    ensures forall i | i in inputs ::
              i.ensureTry.result == i.retryResult == Started && (i.scan.Some? ==> i.scan.value.try.result == Started)
  {
    var gone, wanted := Rescanned(None, Started, 0), Wanted("", Started, 0);
    var last := Rescanned(Some(File("", "")), Started, 0);
    TwoPasses(l, gone, wanted);
    OneMorePass(l, [gone, wanted], gone);
    OneMorePass(l, [gone, wanted] + [gone], wanted);
    inputs := [gone, wanted] + [gone] + [wanted] + [last];
    OneMorePass(l, [gone, wanted] + [gone] + [wanted], last);
    var l1 := Pass(l, gone);
    assert !Known(l1);
    var l2 := Pass(l1, wanted);
    assert l2.running.Some? && l2.retry.None?;
    var l3 := Pass(l2, gone);
    assert !Known(l3) && l3.hash.None?;
    var l4 := Pass(l3, wanted);
    StartedOver(l4, last);
  }

  lemma UntidyLeaks(l: Local) returns (inputs: seq<Input>)
    requires l.leaked == 0 && !Tidy(l)
    ensures Passes(l, inputs).leaked > 0
    ensures forall i | i in inputs :: OnlyAs(i, {Started})
  {
    var last := Rescanned(Some(File("", "")), Started, 0);
    if l.retry.None? {
      inputs := [last];
      assert inputs[..0] == [];
      StartedOver(l, last);
    } else {
      var due := Retried("", Started, l.retry.value.nextRetry);
      inputs := [due, last];
      LeakedGrows(l, due, last);
      TwoPasses(l, due, last);
      PassLeaksIff(l, due);
      if l.running.None? {
        StartedOver(Pass(l, due), last);
      }
    }
  }

  ghost predicate OnlyStarts(i: Input) {
    && !i.wanted && i.retryResult == Started
    && (i.scan.Some? ==> i.scan.value.try.result == Started)
  }

  lemma {:induction false} StaysTidy(l: Local, inputs: seq<Input>)
    requires Tidy(l) && forall i | i in inputs :: OnlyStarts(i)
    ensures Tidy(Passes(l, inputs))
    decreases |inputs|
  {
    if inputs != [] {
      var n := |inputs| - 1;
      assert inputs[n] in inputs && forall i | i in inputs[..n] :: i in inputs;
      StaysTidy(l, inputs[..n]);
      PassKeepsTidy(Passes(l, inputs[..n]), inputs[n]);
    }
  }

  lemma PassKeepsTidy(l: Local, i: Input)
    requires Tidy(l) && OnlyStarts(i)
    ensures Tidy(Pass(l, i))
  {
  }

  lemma {:induction false} OnlyFailures(l: Local, inputs: seq<Input>)
    requires forall i | i in inputs ::
               i.ensureTry.result == i.retryResult == Failed && (i.scan.Some? ==> i.scan.value.try.result == Failed)
    ensures Passes(l, inputs).leaked == l.leaked
    decreases |inputs|
  {
    if inputs != [] {
      var n := |inputs| - 1;
      assert inputs[n] in inputs && forall i | i in inputs[..n] :: i in inputs;
      OnlyFailures(l, inputs[..n]);
      PassLeaksIff(Passes(l, inputs[..n]), inputs[n]);
    }
  }

  // ---------- A manager without a kubeconfig directory ----------

  /** Nothing is rescanned and nothing is found, so that only what startup queued can be started. */
  ghost predicate NoDirectory(inputs: seq<Input>, results: set<Result>) {
    forall i | i in inputs :: i.scan.None? && i.ensureFound.None? && i.retryFound.None? && i.retryResult in results
  }

  /** A start that is still possible there would time out or be put over a watcher. */
  predicate RetryWouldLeak(l: Local, results: set<Result>) {
    && l.retry.Some? && l.retry.value.config.Some?
    && (TimedOut in results || (Started in results && l.running.Some?))
  }

  lemma WithoutDirectoryIff(l: Local, results: set<Result>)
    ensures (forall inputs | NoDirectory(inputs, results) :: Passes(l, inputs).leaked == 0)
            <==> l.leaked == 0 && !RetryWouldLeak(l, results)
  {
    if l.leaked > 0 {
      assert NoDirectory([], results) && Passes(l, []) == l;
    } else if RetryWouldLeak(l, results) {
      var r := if TimedOut in results then TimedOut else Started;
      var i := Retried("", r, l.retry.value.nextRetry).(retryFound := None);
      assert [i][..0] == [] && NoDirectory([i], results);
      PassLeaksIff(l, i);
      assert Passes(l, [i]) == Pass(Passes(l, [i][..0]), i);
    } else {
      forall inputs | NoDirectory(inputs, results) ensures Passes(l, inputs).leaked == 0 {
        NoMoreLeaks(l, inputs, results);
      }
    }
  }

  lemma {:induction false} NoMoreLeaks(l: Local, inputs: seq<Input>, results: set<Result>)
    requires l.leaked == 0 && !RetryWouldLeak(l, results) && NoDirectory(inputs, results)
    ensures Passes(l, inputs).leaked == 0 && !RetryWouldLeak(Passes(l, inputs), results)
    decreases |inputs|
  {
    if inputs != [] {
      var n := |inputs| - 1;
      assert inputs[n] in inputs && forall i | i in inputs[..n] :: i in inputs;
      NoMoreLeaks(l, inputs[..n], results);
      PassWithoutDirectory(Passes(l, inputs[..n]), inputs[n], results);
    }
  }

  lemma PassWithoutDirectory(l: Local, i: Input, results: set<Result>)
    requires l.leaked == 0 && !RetryWouldLeak(l, results) && NoDirectory([i], results)
    ensures Pass(l, i).leaked == 0 && !RetryWouldLeak(Pass(l, i), results)
  {
    assert i in [i];
  }

  // ---------- Runs from nothing ----------

  /** A start that fails, its retry ten seconds later, and another rescan of the same file. */
  function RetriedRun(f: File, first: Result, last: Result, now: int): seq<Input> {
    [Rescanned(Some(f), first, now), Retried(f.config, Started, now + 10), Rescanned(Some(f), last, now + 10)]
  }

  lemma RetriedState(f: File, first: Result, last: Result, now: int)
    requires first != Started
    ensures Passes(Nothing, RetriedRun(f, first, last, now))
            == Rescan(Attempt(Nothing, f.config, first).(running := Some(f.config)), Some(f), Try(last, now + 10))
  {
    assert Backoff(0) == 10;
    var run := RetriedRun(f, first, last, now);
    ThreePasses(Nothing, run[0], run[1], run[2]);
    assert run == [run[0], run[1], run[2]];
  }

  /** A cluster that starts on a retry after a failed start is started twice by the next rescan. */
  lemma RetriedThenLeaks(f: File, now: int)
    ensures Passes(Nothing, RetriedRun(f, Failed, Started, now)).leaked == 1
  {
    RetriedState(f, Failed, Started, now);
  }

  /** So is one that was started for the watchlist. */
  lemma WantedThenLeaks(f: File, now: int)
    ensures Passes(Nothing, [Wanted(f.config, Started, now), Rescanned(Some(f), Started, now)]).leaked == 1
  {
    TwoPasses(Nothing, Wanted(f.config, Started, now), Rescanned(Some(f), Started, now));
  }

  /** After a start that timed out three watchers of one cluster are alive: the informer that was given up, the one
      that the retry put in the map, and the one that the next rescan put over it. */
  lemma TimedOutThenThreeLive(f: File, now: int)
    ensures var l := Passes(Nothing, RetriedRun(f, TimedOut, Started, now)); l.leaked == 2 && l.running.Some?
  {
    RetriedState(f, TimedOut, Started, now);
  }

  // ---------- Running and queued at once ----------

  /** A rescan leaves a cluster both running and queued exactly when it was both and its file gave no reason to
      recycle it, or when the second start of a running cluster without a recorded hash fails. */
  lemma RunningAndQueuedIff(l: Local, file: Option<File>, t: Try)
    ensures var l' := Rescan(l, file, t);
            l'.running.Some? && l'.retry.Some? <==>
            && file.Some? && l.running.Some?
            && ((l.retry.Some? && (l.hash.None? || l.hash.value == file.value.hash))
                || (l.hash.None? && l.retry.None? && t.result != Started))
  {
  }

  predicate Both(l: Local) {
    l.running.Some? && l.retry.Some?
  }

  ghost predicate BothNever(l: Local, results: set<Result>, mayWant: bool) {
    forall inputs | Within(inputs, results, mayWant) :: !Both(Passes(l, inputs))
  }

  /** From any state: no run has a cluster running and queued at once exactly when it is not so now and starts always
      succeed, or never do and the cluster does not run without a recorded hash. */
  lemma BothNeverFromIff(l: Local, results: set<Result>, mayWant: bool)
    ensures BothNever(l, results, mayWant)
            <==> && !Both(l)
                 && (if Started in results then results == {Started}
                     else results == {} || l.running.None? || l.hash.Some?)
  {
    if Both(l) {
      assert Within([], results, mayWant) && Passes(l, []) == l;
    } else if Started in results && results != {Started} {
      var r :| r in results && r != Started;
      var inputs := BothAfterRetry(l, r);
      assert Within(inputs, results, mayWant);
    } else if Started !in results && results != {} && l.running.Some? && l.hash.None? {
      var r :| r in results;
      var last := Rescanned(Some(File("", "")), r, 0);
      assert [last][..0] == [] && Within([last], results, mayWant);
      FailsOver(l, last, r);
      assert Passes(l, [last]) == Pass(Passes(l, [last][..0]), last);
    } else {
      forall inputs | Within(inputs, results, mayWant) ensures !Both(Passes(l, inputs)) {
        NotBoth(l, inputs, results, mayWant);
      }
    }
  }

  lemma FailsOver(l: Local, last: Input, r: Result)
    requires l.running.Some? && l.hash.None? && l.retry.None? && r != Started
    requires last == Rescanned(Some(File("", "")), r, last.now)
    ensures Both(Pass(l, last))
  {
    RunningAndQueuedIff(l, Some(File("", "")), Try(r, last.now));
    assert Backoff(0) == 10;
  }

  lemma BothAfterRetry(l: Local, r: Result) returns (inputs: seq<Input>)
    requires r != Started
    ensures Both(Passes(l, inputs))
    ensures forall i | i in inputs :: OnlyAs(i, {Started, r})
  {
    RunsWithoutHash(l, r);
    var last := Rescanned(Some(File("", "")), r, 10);
    inputs := RetryRun(l, r) + [last];
    OneMorePass(l, RetryRun(l, r), last);
    FailsOver(Passes(l, RetryRun(l, r)), last, r);
  }

  lemma {:induction false} NotBoth(l: Local, inputs: seq<Input>, results: set<Result>, mayWant: bool)
    requires Within(inputs, results, mayWant) && !Both(l)
    requires if Started in results then results == {Started} else results == {} || l.running.None? || l.hash.Some?
    ensures var l' := Passes(l, inputs);
            !Both(l') && (Started in results || results == {} || l'.running.None? || l'.hash.Some?)
    decreases |inputs|
  {
    if inputs != [] {
      var n := |inputs| - 1;
      assert inputs[n] in inputs && forall i | i in inputs[..n] :: i in inputs;
      NotBoth(l, inputs[..n], results, mayWant);
      if Started in results {
        PassNotBoth(Passes(l, inputs[..n]), inputs[n]);
      } else {
        PassWithoutStarts(Passes(l, inputs[..n]), inputs[n]);
      }
    }
  }

  lemma PassNotBoth(l: Local, i: Input)
    requires !Both(l) && i.ensureTry.result == i.retryResult == Started
    requires i.scan.Some? ==> i.scan.value.try.result == Started
    ensures !Both(Pass(l, i))
  {
  }

  lemma PassWithoutStarts(l: Local, i: Input)
    requires !Both(l) && (l.running.None? || l.hash.Some?)
    requires i.ensureTry.result != Started && i.retryResult != Started
    requires i.scan.Some? ==> i.scan.value.try.result != Started
    ensures !Both(Pass(l, i)) && (Pass(l, i).running.None? || Pass(l, i).hash.Some?)
  {
  }

  // ---------- Running on another configuration ----------

  /** After a rescan a cluster runs on something else than its file says exactly when its hash matched already, or
      when it has no recorded hash and the rescan does not start it: the hash vouches for the file the rescan last
      saw, not for the configuration a retry picked up. */
  lemma OtherConfigIff(l: Local, f: File, t: Try)
    ensures var l' := Rescan(l, Some(f), t);
            l'.running.Some? && l'.running.value != f.config <==>
            && l.running.Some? && l.running.value != f.config
            && (l.hash == Some(f.hash) || (l.hash.None? && (l.retry.Some? || t.result != Started)))
  {
  }

  /** Passes whose rescans all see f, and whose other loads find only these configurations. */
  ghost predicate Listing(inputs: seq<Input>, f: File, found: set<string>) {
    forall i | i in inputs ::
      && (i.scan.Some? ==> i.scan.value.file == Some(f))
      && (i.ensureFound.Some? ==> i.ensureFound.value in found)
      && (i.retryFound.Some? ==> i.retryFound.value in found)
  }

  ghost predicate RunsListed(l: Local, f: File, found: set<string>) {
    forall inputs | Listing(inputs, f, found) ::
      var l' := Passes(l, inputs); l'.running.Some? ==> l'.running.value == f.config
  }

  /** From any state: while all rescans see the same file, a cluster always runs on what that file says exactly when it
      runs on, or waits with, nothing else now and no retry or watchlist start can find anything else in between. */
  lemma RunsListedFromIff(l: Local, f: File, found: set<string>)
    ensures RunsListed(l, f, found) <==> On(l, f.config) && found <= {f.config}
  {
    if c :| c in found && c != f.config {
      var inputs := StartsOn(l, c);
      assert Listing(inputs, f, found);
    } else if !On(l, f.config) {
      var inputs := OffNow(l, f.config);
      assert Listing(inputs, f, found);
    } else {
      forall inputs | Listing(inputs, f, found)
        ensures var l' := Passes(l, inputs); l'.running.Some? ==> l'.running.value == f.config
      {
        OnlyListed(l, inputs, f, found);
      }
    }
  }

  /** Whatever the state, a configuration that loads find can come to run. */
  lemma StartsOn(l: Local, c: string) returns (inputs: seq<Input>)
    ensures Passes(l, inputs).running == Some(c)
    ensures forall i | i in inputs ::
              && i.scan.None? && (i.ensureFound.Some? ==> i.ensureFound.value == c)
              && (i.retryFound.Some? ==> i.retryFound.value == c)
  {
    assert Backoff(0) == 10;
    if l.retry.Some? {
      inputs := [Retried(c, Started, l.retry.value.nextRetry)];
      assert inputs[..0] == [];
    } else if l.running.Some? {
      inputs := [Sick(Started, 0), Retried(c, Started, 10)];
      TwoPasses(l, inputs[0], inputs[1]);
      assert inputs == [inputs[0], inputs[1]];
    } else {
      inputs := [Wanted(c, Started, 0)];
      assert inputs[..0] == [];
    }
  }

  /** What a cluster waits with can come to run when nothing is found for it. */
  lemma OffNow(l: Local, config: string) returns (inputs: seq<Input>)
    requires !On(l, config)
    ensures var l' := Passes(l, inputs); l'.running.Some? && l'.running.value != config
    ensures forall i | i in inputs :: i.scan.None? && i.ensureFound.None? && i.retryFound.None?
  {
    if l.running.Some? && l.running.value != config {
      inputs := [];
    } else {
      inputs := [Retried("", Started, l.retry.value.nextRetry).(retryFound := None)];
      assert inputs[..0] == [];
    }
  }

  ghost predicate On(l: Local, config: string) {
    && (l.running.Some? ==> l.running.value == config)
    && (l.retry.Some? && l.retry.value.config.Some? ==> l.retry.value.config.value == config)
  }

  lemma PassStaysOn(l: Local, i: Input, f: File)
    requires On(l, f.config) && (i.scan.Some? ==> i.scan.value.file == Some(f))
    requires i.ensureFound.Some? ==> i.ensureFound.value == f.config
    requires i.retryFound.Some? ==> i.retryFound.value == f.config
    ensures On(Pass(l, i), f.config)
  {
    var ensured := Ensure(l, i.wanted, i.ensureFound, i.ensureTry);
    var scanned := ensured;
    if i.scan.Some? {
      RescanStaysOn(ensured, f, i.scan.value.try);
      scanned := Rescan(ensured, Some(f), i.scan.value.try);
    }
    RetryStaysOn(Health(scanned, i.healthy, i.queuedAt), i.retryFound, i.retryResult, i.now, f.config);
  }

  lemma RescanStaysOn(l: Local, f: File, t: Try)
    requires On(l, f.config)
    ensures On(Rescan(l, Some(f), t), f.config)
  {
  }

  lemma RetryStaysOn(l: Local, found: Option<string>, r: Result, now: int, config: string)
    requires On(l, config) && (found.Some? ==> found.value == config)
    ensures On(RetryDue(l, found, r, now), config)
  {
  }

  lemma {:induction false} OnlyListed(l: Local, inputs: seq<Input>, f: File, found: set<string>)
    requires On(l, f.config) && Listing(inputs, f, found) && found <= {f.config}
    ensures On(Passes(l, inputs), f.config)
    decreases |inputs|
  {
    if inputs != [] {
      var n := |inputs| - 1;
      assert inputs[n] in inputs && forall i | i in inputs[..n] :: i in inputs;
      OnlyListed(l, inputs[..n], f, found);
      PassStaysOn(Passes(l, inputs[..n]), inputs[n], f);
    }
  }

  /** A watcher that sickens and is retried while the file is edited. */
  function EditedRun(f: File, edited: string, now: int): seq<Input> {
    [Rescanned(Some(f), Started, now), Sick(Started, now), Retried(edited, Started, now + 10)]
  }

  /** An edit that a retry picks up and that is undone before the next rescan stays in force for as long as the
      watcher is healthy, however often the file is rescanned. */
  lemma {:induction false} UndoneEditStays(f: File, edited: string, now: int, later: seq<Input>)
    requires forall i | i in later :: i.healthy && (i.scan.Some? ==> i.scan.value.file == Some(f))
    ensures Passes(Nothing, EditedRun(f, edited, now) + later) == Local(Some(edited), 0, Some(f.hash), None)
    decreases |later|
  {
    var run := EditedRun(f, edited, now);
    if later == [] {
      assert Backoff(0) == 10;
      ThreePasses(Nothing, run[0], run[1], run[2]);
      assert run + later == [run[0], run[1], run[2]];
    } else {
      var n := |later| - 1;
      assert later[n] in later && forall i | i in later[..n] :: i in later;
      UndoneEditStays(f, edited, now, later[..n]);
      assert (run + later)[..|run + later| - 1] == run + later[..n];
      assert (run + later)[|run + later| - 1] == later[n];
    }
  }

  // ---------- The backoff ----------

  lemma {:induction false} Pow2Monotone(m: nat, n: nat)
    requires m <= n
    ensures 1 <= Pow2(m) <= Pow2(n)
    decreases n
  {
    if m < n {
      Pow2Monotone(m, n - 1);
    } else if m > 0 {
      Pow2Monotone(m - 1, n - 1);
    }
  }

  /** The loop of the source: doubling stops at the cap. */
  method RetryBackoff(attempt: nat) returns (d: int)
    ensures d == Backoff(attempt)
  {
    d := 10;
    for i := 0 to attempt
      invariant d == 10 * Pow2(i) <= MAX_BACKOFF
    {
      d := d * 2;
      if d > MAX_BACKOFF {
        Pow2Monotone(i + 1, attempt);
        return MAX_BACKOFF;
      }
    }
  }
}
