/** Convergence accounting on top of the sync and the read-back: what a recorded fingerprint says about
    the tables of the replicas. */
module Replicas {
  import opened Text
  import opened Desired
  import opened Runtime
  import opened AdminDb
  import opened Sync
  import opened Monitor
  import opened Resync
  import opened Convergence

  /** The probe is what reading these answers back against the desired state gives. */
  ghost predicate Backed(probe: Probe, reachable: bool, q: Answers, native: Desired) {
    && (probe.InSync? ==> reachable && q.Complete())
    && (forall rt | q.Complete() && q.From(rt) :: probe.InSync? <==> reachable && Converged(native, rt))
  }

  /** applyReplica on the native path: sync through the connection, then observe. */
  method PushReplica(c: Connection, pod: string, native: Desired, dialed: bool, reachable: bool, q: Answers,
                     version: int)
    returns (o: Observation, push: Push)
    modifies c
    ensures o == Applied(pod, push, version)
    ensures push.ok ==> Backed(push.probe, reachable, q, native)
    ensures push.ok <==>
            dialed && FirstFailure(None, Steps(native, false),
                                   RunSteps(old(c.db), Steps(native, false), old(c.script)).oks)
    ensures dialed ==> c.db == RunSteps(old(c.db), Steps(native, false), old(c.script)).db
  {
    hide Steps, RunSteps, Converged;
    if !dialed {
      return Failed(pod, "NativeApplyFailed"), Push(false, Unreachable);
    }
    ghost var oks := RunSteps(c.db, Steps(native, false), c.script).oks;
    var err := c.Sync(native, false);
    if err.Some? {
      assert FirstFailure(err, Steps(native, false), oks);
      return Failed(pod, "NativeApplyFailed"), Push(false, Unreachable);
    }
    var probe;
    o, probe := ObserveReplica(pod, reachable, q, native, version);
    push := Push(true, probe);
  }

  /** The read-back that decides what the pass records for a replica. */
  ghost function Deciding(s: Status, input: Input, i: nat): (probe: Probe)
    requires Valid(input) && i < |input.endpoints|
  {
    if Unchanged(s, input) && input.first[i].InSync?
    then (if Verifies(s, input) then input.first[i] else input.again[i])
    else input.pushes[i].probe
  }

  /** A pass counts every replica as synced only if the answers it last read from each of them came
      from tables that hold the desired state. */
  lemma SyncedMeansConverged(s: Status, input: Input, reachable: seq<bool>, answers: seq<Answers>, i: nat, rt: Runtime)
    requires Valid(input) && !Skips(s, input) && |answers| == |reachable| == |input.endpoints|
    requires forall j | 0 <= j < |answers| :: Backed(Deciding(s, input, j), reachable[j], answers[j], input.content)
    requires Next(s, input).synced == |input.endpoints|
    requires i < |answers| && answers[i].Complete() && answers[i].From(rt)
    ensures Converged(input.content, rt)
  {
    hide Converged, Next, Unchanged, Skips;
    SyncedExactly(s, input);
    assert EndsWell(s, input, i);
    assert Backed(Deciding(s, input, i), reachable[i], answers[i], input.content);
  }

  /** So a newly recorded fingerprint means convergence of every replica it lists. */
  lemma RecordedMeansConverged(s: Status, input: Input, reachable: seq<bool>, answers: seq<Answers>, i: nat,
                               rt: Runtime)
    requires Valid(input) && !Skips(s, input) && |answers| == |reachable| == |input.endpoints|
    requires forall j | 0 <= j < |answers| :: Backed(Deciding(s, input, j), reachable[j], answers[j], input.content)
    requires Next(s, input).lastApplied == Some(FingerprintOf(input)) && s.lastApplied != Some(FingerprintOf(input))
    requires i < |answers| && answers[i].Complete() && answers[i].From(rt)
    ensures Converged(input.content, rt)
  {
    hide Converged, Next, Unchanged, Skips, Valid, Backed, FingerprintOf;
    Accounting(s, input);
    SyncedMeansConverged(s, input, reachable, answers, i, rt);
  }

  /** One replica during a pass: its database and replies, what its monitor does after the push, and
      the answers it then gives. */
  datatype Trace = Trace(db: Db, script: seq<Reply>, steps: seq<MonitorStep>, q: Answers)

  ghost predicate PushedCleanly(t: Trace, content: Desired, shows: bool) {
    var r := RunSteps(t.db, Steps(content, false), t.script);
    && FirstFailure(None, Steps(content, false), r.oks)
    && t.q.Complete() && t.q.From(RuntimeOf(Monitored(r.db, t.steps), shows))
  }

  lemma CleanPush(t: Trace, content: Desired, shows: bool, probe: Probe)
    requires PushedCleanly(t, content, shows) && Backed(probe, true, t.q, content)
    requires content.sqlStatements == [] && forall s | s in content.mysqlServers :: KnownStatus(s.status)
    ensures probe.InSync? <==> Tidy(content, shows)
  {
    hide RunSteps, Steps, Converged, Tidy, RuntimeOf, Monitored, KnownStatus;
    NoRepushLoop(content, t.db, t.script, t.steps, shows);
  }

  /** From end to end: a pass with new content whose pushes meet no error, whatever the monitors do
      before the read-back, records its fingerprint if and only if the content is tidy. */
  lemma CleanPassRecordsExactly(s: Status, input: Input, traces: seq<Trace>, shows: bool)
    requires Valid(input) && !Unchanged(s, input) && |traces| == |input.endpoints| > 0
    requires input.content.sqlStatements == [] && forall v | v in input.content.mysqlServers :: KnownStatus(v.status)
    requires s.lastApplied != Some(FingerprintOf(input))
    requires forall i | 0 <= i < |traces| ::
               PushedCleanly(traces[i], input.content, shows) && input.pushes[i].ok
               && Backed(input.pushes[i].probe, true, traces[i].q, input.content)
    ensures Next(s, input).lastApplied == Some(FingerprintOf(input)) <==> Tidy(input.content, shows)
  {
    hide Next, Tidy, PushedCleanly, Backed, KnownStatus, FingerprintOf, Unchanged;
    forall i | 0 <= i < |traces| ensures EndsWell(s, input, i) <==> Tidy(input.content, shows) {
      CleanPush(traces[i], input.content, shows, input.pushes[i].probe);
    }
    assert EndsWell(s, input, 0) <==> Tidy(input.content, shows);
    SyncedExactly(s, input);
    Accounting(s, input);
  }
}
