/** The monitor's side of a RolloutRecord: creating it, finishing it in combined mode, and what the split-mode
    dispatcher reads back from it. */
module AuditRecorder {
  import opened Wrappers
  import opened RolloutProtocol
  import opened RolloutTheorems
  import opened RecordWatcher

  class AuditRecorder {
    const server: ApiServer

    constructor (server: ApiServer)
      ensures this.server == server
    {
      this.server := server;
    }

    /** Creates the record, in phase Detected if the server keeps the status it is sent. A record that is
        already there is left as it is and reported as a success. */
    method RecordRollout(name: string, keepStatus: bool, reply: Reply) returns (failed: bool)
      modifies server
      ensures (name in old(server.world.db.names) ==> name in old(server.world.db.store))  // names are not used twice
              ==> Leads(old(server.world), server.world)
      ensures !failed ==> name in server.world.db.store
      ensures server.world == if reply == Refused || name in old(server.world.db.store) then old(server.world)
                              else var w := old(server.world);
                                   w.(db := Put(w.db, name, NewRecord(w.clock, keepStatus)))
      ensures name !in old(server.world.db.store) ==> (failed <==> reply != Acked)
      ensures name !in old(server.world.db.store) && reply != Refused ==>
                Stores(old(server.world), server.world, name,
                       Record(0, old(server.world.clock), if keepStatus then Detected else NoPhase, [], "", None))
    {
      ghost var w := server.world;
      assert w == Exec(w, []);
      if reply == Refused { return true; }
      if name in server.world.db.store { return reply == LostReply; }
      server.world := server.world.(db := Put(server.world.db, name, NewRecord(server.world.clock, keepStatus)));
      StepLeads(w, Create(name, keepStatus));
      assert w.pool - multiset{} + multiset{} == w.pool && w.log + multiset{} == w.log;
      return reply == LostReply;
    }

    /** Reads the record back, sets whatever status it is given on what it read, and writes that. */
    method UpdateRecordStatus(name: string, phase: Phase, targets: seq<string>, dispatchErr: string,
                              got: Option<Record>, reply: Reply, env: seq<Action>)
      modifies server
      ensures server.world
              == if got.None? || (name, got.value) !in old(server.world.db.seen) then old(server.world)
                 else var w := Exec(old(server.world), env);
                      Updated(w, name, got.value.(phase := phase, targets := targets, error := dispatchErr,
                                                  dispatchedAt := Some(w.clock)), reply, multiset{})
      ensures got.Some? && (name, got.value) in old(server.world.db.seen) ==>
                var w, r := Exec(old(server.world), env), got.value;
                if reply != Refused && name in w.db.store && w.db.store[name].version == r.version
                then Stores(w, server.world, name, r.(phase := phase, targets := targets, error := dispatchErr,
                                                      dispatchedAt := Some(w.clock)))
                else server.world == w
    {
      if got.None? || (name, got.value) !in server.world.db.seen { return; }
      server.Others(env, multiset{});
      var record := got.value.(phase := phase, targets := targets, error := dispatchErr,
                               dispatchedAt := Some(server.world.clock));
      var failed := server.UpdateStatus(name, record, reply, multiset{});
    }

    /** The callback after a combined-mode dispatch: the handler of a local run ends, as a protocol step. */
    method OnDispatched(name: string, rep: Report, got: Option<Record>, reply: Reply, env: seq<Action>)
      modifies server
      ensures server.world == Recorded(old(server.world), name, rep, true, got, reply, env)
      ensures Leads(With(old(server.world), multiset{ToFetch(name, rep, true)}), server.world)
      ensures got.Some? && (name, got.value) in old(server.world.db.seen) ==>
                var w, r := Exec(old(server.world), env), got.value;
                if reply != Refused && name in w.db.store && w.db.store[name].version == r.version
                then Stores(w, server.world, name, r.(phase := if rep.error != "" then Failed else Dispatched,
                                                      error := rep.error, targets := rep.targets,
                                                      dispatchedAt := Some(w.clock)))
                else server.world == w
    {
      RecordedLeads(server.world, name, rep, true, got, reply, env);
      var phase := Dispatched;
      if rep.error != "" {
        phase := Failed;
      }
      UpdateRecordStatus(name, phase, rep.targets, rep.error, got, reply, env);
    }
  }

  // ---------- What survives the trip through the record's spec ----------

  datatype RolloutEvent = RolloutEvent(
    clusterID: string, namespace: string, deployment: string,
    oldHash: string, newHash: string, oldImages: seq<string>, newImages: seq<string>,
    app: string, slackChannel: string, timestamp: int)  // nanoseconds

  datatype RecordSpec = RecordSpec(
    clusterID: string, namespace: string, deployment: string,
    oldHash: string, newHash: string, oldImages: seq<string>, newImages: seq<string>,
    detectedAt: int)  // seconds: the serialised form has no fraction

  const NANOS := 1_000_000_000

  function ToSpec(e: RolloutEvent): RecordSpec {
    RecordSpec(e.clusterID, e.namespace, e.deployment, e.oldHash, e.newHash, e.oldImages, e.newImages,
               e.timestamp / NANOS)
  }

  function ToRolloutEvent(s: RecordSpec): RolloutEvent {
    RolloutEvent(s.clusterID, s.namespace, s.deployment, s.oldHash, s.newHash, s.oldImages, s.newImages,
                 "", "", s.detectedAt * NANOS)
  }

  /** Split mode dispatches the event that was detected exactly when it had no app routing and a whole second:
      the app name and Slack channel that the monitor resolved do not reach the dispatcher. */
  lemma EventSurvivesRecordIff(e: RolloutEvent)
    ensures ToRolloutEvent(ToSpec(e)) == e <==> e.app == "" && e.slackChannel == "" && e.timestamp % NANOS == 0
    ensures ToSpec(ToRolloutEvent(ToSpec(e))) == ToSpec(e)
    ensures ToSpec(e).oldHash == e.oldHash && ToSpec(e).newHash == e.newHash
    ensures ToSpec(e).oldImages == e.oldImages && ToSpec(e).newImages == e.newImages
    ensures ToSpec(e).clusterID == e.clusterID && ToSpec(e).namespace == e.namespace && ToSpec(e).deployment == e.deployment
  {
    var q := e.timestamp / NANOS;
    assert e.timestamp == q * NANOS + e.timestamp % NANOS;
    assert (q * NANOS) / NANOS == q;
  }
}
