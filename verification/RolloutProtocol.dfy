/**
 The claim protocol over RolloutRecords in split mode, as a state machine.

 An API server stores records under names. Any number of dispatcher replicas read it through informers,
 Lists and Gets that may be arbitrarily stale, and write it back with compare-and-swap on the version.
 A write may be refused, may be applied and acknowledged, or may be applied while the caller is told it failed.
 */
module RolloutProtocol {
  import opened Wrappers

  // ---------- The stored object ----------

  // NoPhase is a record whose status the API server dropped on creation: the CRD enables the status
  // subresource, so whether Create keeps the phase is up to the server, and both are modelled.
  datatype Phase = NoPhase | Detected | Processing | Dispatched | Failed

  // What DispatchEvent returned: the targets that succeeded and the error string, "" when there is none.
  datatype Report = Report(targets: seq<string>, error: string)

  datatype Record = Record(
    version: nat, created: int, phase: Phase, targets: seq<string>, error: string, dispatchedAt: Option<int>)

  // The timeout after which a Processing record is considered stuck, in seconds.
  const STUCK_TIMEOUT := 600

  predicate Terminal(p: Phase) {
    p == Dispatched || p == Failed
  }

  /** A phase from which the record has not been claimed since it was created or last reset. */
  predicate Unclaimed(p: Phase) {
    p == NoPhase || p == Detected
  }

  /** The record that updateRecordStatus writes: a success leaves an earlier error message in place. */
  function Finished(r: Record, rep: Report, clearsError: bool, now: int): Record {
    if rep.error != ""
    then r.(phase := Failed, targets := rep.targets, error := rep.error, dispatchedAt := Some(now))
    else r.(phase := Dispatched, targets := rep.targets, error := if clearsError then "" else r.error,
            dispatchedAt := Some(now))
  }

  // ---------- The world ----------

  /** A handler thread that holds a claim, by what it does next. `local` marks the monitor's own dispatcher
      of combined mode, which finishes a record without claiming it. */
  datatype Handler =
    | ToDispatch(name: string)
    | ToFetch(name: string, rep: Report, local: bool)
    | ToWrite(name: string, rep: Report, local: bool, snap: Record)

  datatype Event =
    | Claimed(name: string)
    | WasReset(name: string)
    | Ran(name: string)
    | LocalRan(name: string)
    | Removed(name: string, phase: Phase, age: int)

  /** The API server's side: the stored objects and everything a stale reader may still hold. */
  datatype Db = Db(
    store: map<string, Record>,
    seen: set<(string, Record)>,  // every content ever stored
    names: set<string>,           // every name ever created
    nextVersion: nat)

  datatype World = World(
    db: Db,
    reports: set<(string, Report)>,  // every result a run of DispatchEvent returned
    pool: multiset<Handler>,
    log: multiset<Event>,
    clock: int,
    ttl: int)

  function Initial(clock: int, ttl: int): World {
    World(Db(map[], {}, {}, 0), {}, multiset{}, multiset{}, clock, ttl)
  }

  datatype Reply = Acked | LostReply | Refused

  datatype Action =
    | Create(name: string, keepStatus: bool)
    | Claim(name: string, snap: Record, reply: Reply)
    | Dispatch(name: string, rep: Report)
    | LocalDispatch(name: string, rep: Report)
    | Fetch(name: string, rep: Report, local: bool, snap: Record)
    | Finish(name: string, rep: Report, local: bool, snap: Record, reply: Reply)
    | ResetStuck(name: string, snap: Record, reply: Reply)
    | Delete(name: string, snap: Record, reply: Reply)
    | Crash(handler: Handler)
    | Tick(seconds: nat)

  // ---------- The API server ----------

  /** Compare-and-swap: whether an update made from this snapshot is applied. */
  predicate Applies(db: Db, n: string, snap: Record, reply: Reply) {
    reply != Refused && n in db.store && db.store[n].version == snap.version
  }

  /** Stores a content: a write that changes nothing keeps the version, any other takes a fresh one. */
  function Put(db: Db, n: string, r: Record): Db {
    if n in db.store && r.(version := db.store[n].version) == db.store[n] then db
    else
      var r' := r.(version := db.nextVersion);
      Db(db.store[n := r'], db.seen + {(n, r')}, db.names + {n}, db.nextVersion + 1)
  }

  function NewRecord(clock: int, keepStatus: bool): Record {
    Record(0, clock, if keepStatus then Detected else NoPhase, [], "", None)
  }

  // ---------- The steps ----------

  /** What each step of the code checks before it acts. */
  predicate Enabled(w: World, a: Action) {
    match a
    case Create(n, _) => n !in w.db.names
    case Claim(n, snap, _) => (n, snap) in w.db.seen && snap.phase == Detected
    case Dispatch(n, _) => ToDispatch(n) in w.pool
    case LocalDispatch(n, _) => true
    case Fetch(n, rep, local, snap) => ToFetch(n, rep, local) in w.pool && (n, snap) in w.db.seen
    case Finish(n, rep, local, snap, _) => ToWrite(n, rep, local, snap) in w.pool
    case ResetStuck(n, snap, _) =>
      (n, snap) in w.db.seen && snap.phase == Processing && w.clock - snap.created >= STUCK_TIMEOUT
    case Delete(n, snap, _) =>
      (n, snap) in w.db.seen && Terminal(snap.phase) && w.clock - snap.created >= w.ttl
    case Crash(h) => h in w.pool
    case Tick(_) => true
  }

  /** The effect of an enabled step on the API server. */
  function DbEffect(db: Db, clock: int, a: Action): Db {
    match a
    case Create(n, keep) => Put(db, n, NewRecord(clock, keep))
    case Claim(n, snap, reply) =>
      if Applies(db, n, snap, reply) then Put(db, n, snap.(phase := Processing)) else db
    case Finish(n, rep, local, snap, reply) =>
      if Applies(db, n, snap, reply) then Put(db, n, Finished(snap, rep, local, clock)) else db
    case ResetStuck(n, snap, reply) =>
      if Applies(db, n, snap, reply) then Put(db, n, snap.(phase := Detected)) else db
    case Delete(n, snap, reply) =>
      if reply == Refused then db else db.(store := db.store - {n})
    case _ => db
  }

  /** The handler threads that a step ends and starts. */
  function Ended(a: Action): multiset<Handler> {
    match a
    case Dispatch(n, _) => multiset{ToDispatch(n)}
    case Fetch(n, rep, local, _) => multiset{ToFetch(n, rep, local)}
    case Finish(n, rep, local, snap, _) => multiset{ToWrite(n, rep, local, snap)}
    case Crash(h) => multiset{h}
    case _ => multiset{}
  }

  function Started(db: Db, a: Action): multiset<Handler> {
    match a
    case Claim(n, snap, reply) =>
      if Applies(db, n, snap, reply) && reply == Acked then multiset{ToDispatch(n)} else multiset{}
    case Dispatch(n, rep) => multiset{ToFetch(n, rep, false)}
    case LocalDispatch(n, rep) => multiset{ToFetch(n, rep, true)}
    case Fetch(n, rep, local, snap) => multiset{ToWrite(n, rep, local, snap)}
    case _ => multiset{}
  }

  /** What a step adds to the history. */
  function Logged(db: Db, clock: int, a: Action): multiset<Event> {
    match a
    case Claim(n, snap, reply) => if Applies(db, n, snap, reply) then multiset{Claimed(n)} else multiset{}
    case ResetStuck(n, snap, reply) => if Applies(db, n, snap, reply) then multiset{WasReset(n)} else multiset{}
    case Dispatch(n, _) => multiset{Ran(n)}
    case LocalDispatch(n, _) => multiset{LocalRan(n)}
    case Delete(n, _, reply) =>
      if reply != Refused && n in db.store
      then multiset{Removed(n, db.store[n].phase, clock - db.store[n].created)} else multiset{}
    case _ => multiset{}
  }

  function Effect(w: World, a: Action): World {
    World(
      DbEffect(w.db, w.clock, a),
      if a.Dispatch? || a.LocalDispatch? then w.reports + {(a.name, a.rep)} else w.reports,
      w.pool - Ended(a) + Started(w.db, a),
      w.log + Logged(w.db, w.clock, a),
      if a.Tick? then w.clock + a.seconds else w.clock,
      w.ttl)
  }

  /** A step that is not enabled does nothing, so every list of actions is an interleaving. */
  function Step(w: World, a: Action): World {
    if Enabled(w, a) then Effect(w, a) else w
  }

  function Exec(w: World, acts: seq<Action>): World
    decreases |acts|
  {
    if acts == [] then w else Exec(Step(w, acts[0]), acts[1..])
  }

  // ---------- The inductive invariant ----------

  /** A snapshot whose version is the stored version has the stored content. */
  ghost predicate SnapshotsAgree(db: Db) {
    && (forall n | n in db.store :: n in db.names && (n, db.store[n]) in db.seen)
    && (forall s | s in db.seen :: s.0 in db.names && s.1.version < db.nextVersion)
    && (forall s | s in db.seen && s.0 in db.store :: s.1.created == db.store[s.0].created)
    && (forall s | s in db.seen && s.0 in db.store && s.1.version == db.store[s.0].version :: s.1 == db.store[s.0])
  }

  /** Once any reader has seen a record terminal, the stored record is terminal or gone. */
  ghost predicate Absorbing(db: Db) {
    forall s | s in db.seen && s.0 in db.store && Terminal(s.1.phase) :: Terminal(db.store[s.0].phase)
  }

  predicate StatusReported(reports: set<(string, Report)>, n: string, r: Record) {
    && (r.phase == Failed ==> r.error != "" && (n, Report(r.targets, r.error)) in reports)
    && (r.phase == Dispatched ==> (n, Report(r.targets, "")) in reports)
  }

  /** Every terminal status is one that a run of DispatchEvent for this record returned. */
  ghost predicate Reported(db: Db, reports: set<(string, Report)>) {
    forall s | s in db.seen :: StatusReported(reports, s.0, s.1)
  }

  ghost predicate HandlersSound(db: Db, reports: set<(string, Report)>, pool: multiset<Handler>) {
    && (forall h | h in pool && h.ToWrite? :: (h.name, h.snap) in db.seen)
    && (forall h | h in pool && !h.ToDispatch? :: (h.name, h.rep) in reports)
  }

  /** 0 while the record is waiting for a claim, 1 otherwise. */
  function Spent(db: Db, n: string): nat {
    if n in db.store && Unclaimed(db.store[n].phase) then 0 else 1
  }

  ghost predicate CountedFor(w: World, n: string) {
    && RunsCounted(w, n)
    && ClaimsCounted(w, n)
  }

  /** Every claim pays for at most one handler about to dispatch, which runs DispatchEvent at most once. */
  predicate RunsCounted(w: World, n: string) {
    w.log[Ran(n)] + w.pool[ToDispatch(n)] <= w.log[Claimed(n)]
  }

  predicate ClaimsCounted(w: World, n: string) {
    && w.log[Claimed(n)] <= w.log[WasReset(n)] + Spent(w.db, n)
    && (n !in w.db.names ==> w.log[Claimed(n)] == w.log[WasReset(n)] == 0)
  }

  ghost predicate Counted(w: World) {
    forall n: string :: CountedFor(w, n)
  }

  ghost predicate ResetsAged(w: World) {
    forall n | n in w.db.store && w.log[WasReset(n)] > 0 :: w.clock - w.db.store[n].created >= STUCK_TIMEOUT
  }

  ghost predicate RemovalsSound(w: World) {
    forall e | e in w.log && e.Removed? :: Terminal(e.phase) && e.age >= w.ttl
  }

  ghost predicate Inv(w: World) {
    && SnapshotsAgree(w.db)
    && Absorbing(w.db)
    && Reported(w.db, w.reports)
    && HandlersSound(w.db, w.reports, w.pool)
    && Counted(w)
    && ResetsAged(w)
    && RemovalsSound(w)
  }

  lemma PutKeepsDb(db: Db, reports: set<(string, Report)>, n: string, r: Record)
    requires SnapshotsAgree(db) && Absorbing(db) && Reported(db, reports)
    requires n in db.store ==> r.created == db.store[n].created && (Terminal(db.store[n].phase) ==> Terminal(r.phase))
    requires n !in db.store ==> n !in db.names
    requires StatusReported(reports, n, r)
    ensures SnapshotsAgree(Put(db, n, r)) && Absorbing(Put(db, n, r)) && Reported(Put(db, n, r), reports)
  {
  }

  lemma StepKeepsDb(w: World, a: Action)
    requires Inv(w) && Enabled(w, a)
    ensures SnapshotsAgree(DbEffect(w.db, w.clock, a)) && Absorbing(DbEffect(w.db, w.clock, a)) && Reported(DbEffect(w.db, w.clock, a), w.reports)
  {
    match a {
      case Create(n, keep) => PutKeepsDb(w.db, w.reports, n, NewRecord(w.clock, keep));
      case Claim(n, snap, reply) =>
        if Applies(w.db, n, snap, reply) { PutKeepsDb(w.db, w.reports, n, snap.(phase := Processing)); }
      case Finish(n, rep, local, snap, reply) =>
        if Applies(w.db, n, snap, reply) {
          var h := ToWrite(n, rep, local, snap);
          assert h in w.pool && (h.name, h.snap) in w.db.seen && (h.name, h.rep) in w.reports;
          assert rep == Report(rep.targets, rep.error);
          PutKeepsDb(w.db, w.reports, n, Finished(snap, rep, local, w.clock));
        }
      case ResetStuck(n, snap, reply) =>
        if Applies(w.db, n, snap, reply) { PutKeepsDb(w.db, w.reports, n, snap.(phase := Detected)); }
      case _ =>
    }
  }

  lemma StepKeepsHandlers(w: World, a: Action)
    requires HandlersSound(w.db, w.reports, w.pool) && Enabled(w, a)
    ensures var w' := Effect(w, a); HandlersSound(w'.db, w'.reports, w'.pool)
  {
    var w' := Effect(w, a);
    EffectGrows(w, a);
    StartedSound(w, a);
    forall h | h in w'.pool
      ensures h.ToWrite? ==> (h.name, h.snap) in w'.db.seen
      ensures !h.ToDispatch? ==> (h.name, h.rep) in w'.reports
    {
      assert h in w.pool || h in Started(w.db, a);
    }
  }

  lemma EffectGrows(w: World, a: Action)
    ensures w.db.seen <= Effect(w, a).db.seen && w.reports <= Effect(w, a).reports
  {
  }

  lemma StartedSound(w: World, a: Action)
    requires HandlersSound(w.db, w.reports, w.pool) && Enabled(w, a)
    ensures forall h | h in Started(w.db, a) ::
              && (h.ToWrite? ==> (h.name, h.snap) in w.db.seen)
              && (!h.ToDispatch? ==> (h.name, h.rep) in Effect(w, a).reports)
  {
    if a.Fetch? {
      var g := ToFetch(a.name, a.rep, a.local);
      assert g in w.pool && (g.name, g.rep) in w.reports;
    }
  }

  lemma StepPays(db: Db, clock: int, a: Action, n: string)
    ensures Logged(db, clock, a)[Ran(n)] + Started(db, a)[ToDispatch(n)]
            <= Logged(db, clock, a)[Claimed(n)] + (if a.Dispatch? && a.name == n then 1 else 0)
  {
  }

  lemma StepKeepsRuns(w: World, a: Action, n: string)
    requires RunsCounted(w, n) && Enabled(w, a)
    ensures RunsCounted(Effect(w, a), n)
  {
    var logged, started := Logged(w.db, w.clock, a), Started(w.db, a);
    StepPays(w.db, w.clock, a, n);
    var w' := Effect(w, a);
    assert w'.log[Ran(n)] == w.log[Ran(n)] + logged[Ran(n)];
    assert w'.log[Claimed(n)] == w.log[Claimed(n)] + logged[Claimed(n)];
    if a.Dispatch? && a.name == n {
      assert w.pool[ToDispatch(n)] >= 1;
      assert (w.pool - multiset{ToDispatch(n)})[ToDispatch(n)] == w.pool[ToDispatch(n)] - 1;
    } else {
      assert (w.pool - Ended(a))[ToDispatch(n)] <= w.pool[ToDispatch(n)];
    }
  }

  /** What a step does to the pieces of the claim count of one record. */
  lemma StepSpends(w: World, a: Action, n: string)
    requires SnapshotsAgree(w.db) && Enabled(w, a)
    ensures Spent(DbEffect(w.db, w.clock, a), n) + Logged(w.db, w.clock, a)[WasReset(n)] >= Spent(w.db, n) + Logged(w.db, w.clock, a)[Claimed(n)]
              || (a.Create? && a.name == n)
    ensures n !in DbEffect(w.db, w.clock, a).names ==>
              n !in w.db.names && Logged(w.db, w.clock, a)[Claimed(n)] == Logged(w.db, w.clock, a)[WasReset(n)] == 0
  {
    match a {
      case Create(m, keep) =>
      case Claim(m, snap, reply) => ClaimSpends(w.db, w.clock, m, snap, reply, n);
      case ResetStuck(m, snap, reply) => ResetSpends(w.db, w.clock, m, snap, reply, n);
      case Finish(m, rep, local, snap, reply) => FinishSpends(w.db, w.clock, m, rep, local, snap, reply, n);
      case _ =>
    }
  }

  lemma ClaimSpends(db: Db, clock: int, m: string, snap: Record, reply: Reply, n: string)
    requires SnapshotsAgree(db) && (m, snap) in db.seen && snap.phase == Detected
    ensures var a := Claim(m, snap, reply);
            && Spent(DbEffect(db, clock, a), n) >= Spent(db, n) + Logged(db, clock, a)[Claimed(n)]
            && (n !in DbEffect(db, clock, a).names ==> n !in db.names && Logged(db, clock, a)[Claimed(n)] == 0)
  {
  }

  lemma ResetSpends(db: Db, clock: int, m: string, snap: Record, reply: Reply, n: string)
    requires SnapshotsAgree(db) && (m, snap) in db.seen && snap.phase == Processing
    ensures var a := ResetStuck(m, snap, reply);
            && Spent(DbEffect(db, clock, a), n) + Logged(db, clock, a)[WasReset(n)] >= Spent(db, n)
            && (n !in DbEffect(db, clock, a).names ==> n !in db.names && Logged(db, clock, a)[WasReset(n)] == 0)
  {
  }

  lemma FinishSpends(db: Db, clock: int, m: string, rep: Report, local: bool, snap: Record, reply: Reply, n: string)
    requires SnapshotsAgree(db)
    ensures var db' := DbEffect(db, clock, Finish(m, rep, local, snap, reply));
            Spent(db', n) >= Spent(db, n) && (n !in db'.names ==> n !in db.names)
  {
  }

  lemma StepKeepsClaims(w: World, a: Action, n: string)
    requires SnapshotsAgree(w.db) && ClaimsCounted(w, n) && Enabled(w, a)
    ensures ClaimsCounted(Effect(w, a), n)
  {
    var w' := Effect(w, a);
    StepSpends(w, a, n);
    assert w'.log[Claimed(n)] == w.log[Claimed(n)] + Logged(w.db, w.clock, a)[Claimed(n)];
    assert w'.log[WasReset(n)] == w.log[WasReset(n)] + Logged(w.db, w.clock, a)[WasReset(n)];
  }

  lemma StepKeepsCreation(w: World, a: Action, n: string)
    requires SnapshotsAgree(w.db) && HandlersSound(w.db, w.reports, w.pool) && Enabled(w, a)
    requires n in DbEffect(w.db, w.clock, a).store
    ensures if n in w.db.store then DbEffect(w.db, w.clock, a).store[n].created == w.db.store[n].created else n !in w.db.names
  {
    match a {
      case Claim(m, snap, _) => assert (m, snap) in w.db.seen;
      case ResetStuck(m, snap, _) => assert (m, snap) in w.db.seen;
      case Finish(m, rep, local, snap, _) =>
        var h := ToWrite(m, rep, local, snap);
        assert h in w.pool && (h.name, h.snap) in w.db.seen;
      case _ =>
    }
  }

  lemma StepKeepsAges(w: World, a: Action)
    requires SnapshotsAgree(w.db) && HandlersSound(w.db, w.reports, w.pool)
    requires Counted(w) && ResetsAged(w) && Enabled(w, a)
    ensures ResetsAged(Effect(w, a))
  {
    var w' := Effect(w, a);
    forall n | n in w'.db.store && w'.log[WasReset(n)] > 0
      ensures w'.clock - w'.db.store[n].created >= STUCK_TIMEOUT
    {
      assert CountedFor(w, n);
      StepKeepsAge(w, a, n);
    }
  }

  lemma StepKeepsAge(w: World, a: Action, n: string)
    requires SnapshotsAgree(w.db) && HandlersSound(w.db, w.reports, w.pool)
    requires CountedFor(w, n) && ResetsAged(w) && Enabled(w, a)
    requires n in Effect(w, a).db.store && Effect(w, a).log[WasReset(n)] > 0
    ensures Effect(w, a).clock - Effect(w, a).db.store[n].created >= STUCK_TIMEOUT
  {
    StepKeepsCreation(w, a, n);
    assert WasReset(n) in w.log || WasReset(n) in Logged(w.db, w.clock, a);
  }

  lemma StepKeepsRemovals(w: World, a: Action)
    requires SnapshotsAgree(w.db) && Absorbing(w.db) && RemovalsSound(w) && Enabled(w, a)
    ensures RemovalsSound(Effect(w, a))
  {
    var w' := Effect(w, a);
    forall e | e in w'.log && e.Removed?
      ensures Terminal(e.phase) && e.age >= w.ttl
    {
      assert e in w.log || e in Logged(w.db, w.clock, a);
    }
  }
}
