/** Per-replica convergence accounting of a ProxySQLConfig: observe, push, count, and when to skip. */
module Convergence {
  import opened Text
  import opened Desired
  import opened Runtime

  /* ---- one replica ---- */

  datatype ReplicaStatus = ReplicaStatus(pod: string, converged: bool, drifted: bool, reason: string,
                                         observedVersion: int)

  datatype Observation = Observation(status: ReplicaStatus, drifted: bool)

  /** The outcome of reading one replica back. */
  datatype Probe = Unreachable | ReadFailed | Drifted | InSync

  function Failed(pod: string, reason: string): (o: Observation) {
    Observation(ReplicaStatus(pod, false, true, reason, 0), true)
  }

  function Observed(pod: string, probe: Probe, version: int): (o: Observation)
    ensures o.status.pod == pod && o.drifted == o.status.drifted == !o.status.converged
    ensures o.status.converged <==> probe.InSync?
    ensures o.status.converged ==> o.status.observedVersion == version
  {
    match probe
    case Unreachable => Failed(pod, "AdminUnavailable")
    case ReadFailed => Failed(pod, "NativeReadFailed")
    case Drifted => Failed(pod, "NativeDrift")
    case InSync => Observation(ReplicaStatus(pod, true, false, "Converged", version), false)
  }

  /** observeReplica on the native path: a replica counts as converged exactly when its tables were
      read back whole and hold the desired state. */
  method ObserveReplica(pod: string, reachable: bool, q: Answers, native: Desired, version: int)
    returns (o: Observation, probe: Probe)
    ensures o == Observed(pod, probe, version)
    ensures forall rt | q.Complete() && q.From(rt) :: probe.InSync? <==> reachable && Converged(native, rt)
    ensures probe.InSync? ==> reachable && q.Complete()
  {
    hide Converged;
    if !reachable {
      return Failed(pod, "AdminUnavailable"), Unreachable;
    }
    var diffs := ReadBack(native, q);
    if diffs.None? {
      return Failed(pod, "NativeReadFailed"), ReadFailed;
    }
    if diffs.value != [] {
      return Failed(pod, "NativeDrift"), Drifted;
    }
    return Observation(ReplicaStatus(pod, true, false, "Converged", version), false), InSync;
  }

  datatype CycleStep = CycleStep(reason: string, ok: bool)

  /** runApplyCycle: the reason of the first failing step, or "". */
  method RunApplyCycle(steps: seq<CycleStep>) returns (reason: string)
    requires forall s | s in steps :: s.reason != ""
    ensures reason == "" <==> forall s | s in steps :: s.ok
    ensures reason != "" ==>
            exists i | 0 <= i < |steps| :: !steps[i].ok && steps[i].reason == reason && forall j | 0 <= j < i ::
            steps[j].ok
  {
    for i := 0 to |steps|
      invariant forall j | 0 <= j < i :: steps[j].ok
    {
      if !steps[i].ok {
        return steps[i].reason;
      }
    }
    return "";
  }

  /** A push and the read-back that follows a successful one. */
  datatype Push = Push(ok: bool, probe: Probe)

  function Applied(pod: string, push: Push, version: int): (o: Observation)
    ensures o.status.pod == pod && o.drifted == o.status.drifted == !o.status.converged
    ensures o.status.converged <==> push.ok && push.probe.InSync?
    ensures o.status.converged ==> o.status.observedVersion == version
  {
    if push.ok then Observed(pod, push.probe, version) else Failed(pod, "NativeApplyFailed")
  }

  method ApplyReplica(pod: string, push: Push, version: int) returns (o: Observation)
    ensures o == Applied(pod, push, version)
  {
    var reason := RunApplyCycle([CycleStep("NativeApplyFailed", push.ok)]);
    if reason != "" {
      return Failed(pod, reason);
    }
    return Observed(pod, push.probe, version);
  }

  /* ---- counting ---- */

  ghost function Converging(os: seq<Observation>): (n: nat)
    ensures n <= |os|
  {
    if os == [] then 0 else Converging(os[..|os| - 1]) + if os[|os| - 1].status.converged then 1 else 0
  }

  function StatusesOf(os: seq<Observation>): (ss: seq<ReplicaStatus>)
    ensures |ss| == |os| && forall i | 0 <= i < |os| :: ss[i] == os[i].status
  {
    seq(|os|, i requires 0 <= i < |os| => os[i].status)
  }

  lemma {:induction false} AllConverging(os: seq<Observation>)
    ensures Converging(os) == |os| <==> forall o | o in os :: o.status.converged
    decreases |os|
  {
    if os != [] {
      var n := |os| - 1;
      AllConverging(os[..n]);
      assert os == os[..n] + [os[n]];
    }
  }

  method SummarizeReplicas(os: seq<Observation>) returns (statuses: seq<ReplicaStatus>, synced: nat, drifted: nat)
    ensures statuses == StatusesOf(os) && synced == Converging(os) && synced + drifted == |os|
  {
    statuses, synced, drifted := [], 0, 0;
    for i := 0 to |os|
      invariant statuses == StatusesOf(os[..i]) && synced == Converging(os[..i]) && synced + drifted == i
    {
      assert os[..i + 1][..i] == os[..i];
      statuses := statuses + [os[i].status];
      if os[i].status.converged {
        synced := synced + 1;
      } else {
        drifted := drifted + 1;
      }
    }
    assert os[..|os|] == os;
  }

  /* ---- one pass ---- */

  datatype Endpoint = Endpoint(pod: string, addr: string)

  /** combinedSyncFingerprint, as the values it hashes. */
  datatype Fingerprint = Fingerprint(content: Desired, version: int, addrs: seq<string>)

  datatype Status = Status(
    lastApplied: Option<Fingerprint>, synced: int, drifted: int, replicas: seq<ReplicaStatus>,
    observedGeneration: int, observedVersion: int, lastSync: Option<int>)

  const FRESH := Status(None, 0, 0, [], 0, 0, None)

  /** What a pass is given, and what each replica answers: to the resync read-back, to a second
      read-back when it is not pushed to, and to a push. */
  datatype Input = Input(
    content: Desired, version: int, generation: int, now: int, interval: int,
    endpoints: seq<Endpoint>, first: seq<Probe>, again: seq<Probe>, pushes: seq<Push>)

  ghost predicate Valid(input: Input) {
    && |input.first| == |input.again| == |input.pushes| == |input.endpoints|
    && forall i, j | 0 <= i < j < |input.endpoints| :: input.endpoints[i].pod != input.endpoints[j].pod
  }

  function FingerprintOf(input: Input): (f: Fingerprint) {
    Fingerprint(input.content, input.version,
                seq(|input.endpoints|, i requires 0 <= i < |input.endpoints| => input.endpoints[i].addr))
  }

  predicate Unchanged(s: Status, input: Input) {
    && s.lastApplied == Some(FingerprintOf(input)) && s.synced == |input.endpoints|
    && s.observedGeneration == input.generation && s.observedVersion == input.version
  }

  predicate ResyncDue(s: Status, input: Input) {
    s.lastSync.None? || input.now - s.lastSync.value >= input.interval
  }

  predicate Skips(s: Status, input: Input) {
    Unchanged(s, input) && !ResyncDue(s, input)
  }

  function Pods(input: Input): (pods: set<string>) {
    set e | e in input.endpoints :: e.pod
  }

  /** The replicas a pass pushes to: all of them, or on an informed resync those that drifted. */
  ghost function Selected(s: Status, input: Input): (sel: seq<bool>)
    requires Valid(input)
  {
    seq(|input.endpoints|, i requires 0 <= i < |input.endpoints| => !Unchanged(s, input) || !input.first[i].InSync?)
  }

  /** The observations of the resync read-back. */
  ghost function Inspected(input: Input): (os: seq<Observation>)
    requires Valid(input)
    ensures |os| == |input.endpoints|
  {
    seq(|input.endpoints|,
        i requires 0 <= i < |input.endpoints| => Observed(input.endpoints[i].pod, input.first[i], input.version))
  }

  /** The observations a pushing pass records: after the push, or read back again where it did not push. */
  ghost function Recorded(s: Status, input: Input): (os: seq<Observation>)
    requires Valid(input)
    ensures |os| == |input.endpoints|
  {
    seq(|input.endpoints|, i requires 0 <= i < |input.endpoints| =>
      if Selected(s, input)[i] then Applied(input.endpoints[i].pod, input.pushes[i], input.version)
      else Observed(input.endpoints[i].pod, input.again[i], input.version))
  }

  /** An informed resync that finds every replica converged. */
  ghost predicate Verifies(s: Status, input: Input)
    requires Valid(input)
  {
    Unchanged(s, input) && ResyncDue(s, input) && forall i | 0 <= i < |input.endpoints| :: input.first[i].InSync?
  }

  function Counted(s: Status, statuses: seq<ReplicaStatus>, synced: nat, drifted: nat): (r: Status) {
    s.(replicas := statuses, synced := synced, drifted := drifted)
  }

  /** The status after a pass. */
  ghost function Next(s: Status, input: Input): (r: Status)
    requires Valid(input)
  {
    if Skips(s, input) then s
    else if Verifies(s, input) then
      var os := Inspected(input);
      var counted := Counted(s, StatusesOf(os), Converging(os), |os| - Converging(os));
      counted.(lastSync := Some(input.now), observedVersion := input.version)
    else
      var os := Recorded(s, input);
      var counted := Counted(s, StatusesOf(os), Converging(os), |os| - Converging(os));
      if Converging(os) == |os| then
        counted.(observedGeneration := input.generation, lastApplied := Some(FingerprintOf(input)),
                 observedVersion := input.version, lastSync := Some(input.now))
      else counted.(observedGeneration := input.generation)
  }

  /** Which of the first `n` endpoints are in the push list. */
  ghost predicate Lists(pods: set<string>, s: Status, input: Input, n: nat)
    requires Valid(input) && n <= |input.endpoints|
  {
    && (forall i | 0 <= i < n :: input.endpoints[i].pod in pods <==> Selected(s, input)[i])
    && (forall i | n <= i < |input.endpoints| :: input.endpoints[i].pod !in pods)
  }

  class Config {
    var status: Status

    /** The read-back of an informed resync: what each replica shows and which need a push. */
    method Inspect(input: Input) returns (os: seq<Observation>, push: set<string>)
      requires Valid(input) && Unchanged(status, input)
      ensures os == Inspected(input)
      ensures Lists(push, status, input, |input.endpoints|) && push <= Pods(input)
    {
      hide Unchanged;
      os, push := [], {};
      for i := 0 to |input.endpoints|
        invariant |os| == i && forall j | 0 <= j < i ::
                  os[j] == Observed(input.endpoints[j].pod, input.first[j], input.version)
        invariant Lists(push, status, input, i) && push <= Pods(input)
      {
        assert input.endpoints[i] in input.endpoints;
        var o := Observed(input.endpoints[i].pod, input.first[i], input.version);
        os := os + [o];
        if o.drifted {
          push := push + {input.endpoints[i].pod};
        }
      }
    }

    /** Push to the listed replicas, read the others back, one result per pod. */
    method PushSelected(input: Input, push: set<string>) returns (os: seq<Observation>)
      requires Valid(input) && Lists(push, status, input, |input.endpoints|)
      ensures os == Recorded(status, input)
    {
      hide Unchanged, Observed, Applied;
      var n := |input.endpoints|;
      ghost var want := Recorded(status, input);
      var results: map<string, Observation> := map[];
      for i := 0 to n
        invariant forall j | 0 <= j < i && input.endpoints[j].pod !in push ::
                  input.endpoints[j].pod in results && results[input.endpoints[j].pod] == want[j]
      {
        if input.endpoints[i].pod !in push {
          results := results[input.endpoints[i].pod := Observed(input.endpoints[i].pod, input.again[i], input.version)];
        }
      }
      for i := 0 to n
        invariant forall j | 0 <= j < n && (j < i || input.endpoints[j].pod !in push) ::
                  input.endpoints[j].pod in results && results[input.endpoints[j].pod] == want[j]
      {
        if input.endpoints[i].pod in push {
          var o := ApplyReplica(input.endpoints[i].pod, input.pushes[i], input.version);
          results := results[input.endpoints[i].pod := o];
        }
      }
      os := [];
      for i := 0 to n
        invariant |os| == i && forall j | 0 <= j < i :: os[j] == want[j]
      {
        os := os + [results[input.endpoints[i].pod]];
      }
    }

    /** reconcileReadyReplicas. */
    method ReconcileReadyReplicas(input: Input)
      requires Valid(input)
      modifies this
      ensures status == Next(old(status), input)
    {
      hide Recorded, Selected, Observed, Inspected, FingerprintOf, Unchanged;
      var same, due := Unchanged(status, input), ResyncDue(status, input);
      if same && !due {
        return;
      }
      var push := Pods(input);
      if same {
        var seen, drifted := Inspect(input);
        push := drifted;
        NothingDrifted(status, input, push);
        if push == {} {
          var statuses, synced, off := SummarizeReplicas(seen);
          status :=
            Counted(status, statuses, synced, off).(lastSync := Some(input.now), observedVersion := input.version);
          return;
        }
      } else {
        AllListed(status, input);
      }
      var os := PushSelected(input, push);
      var statuses, synced, off := SummarizeReplicas(os);
      status := Counted(status, statuses, synced, off).(observedGeneration := input.generation);
      if synced == |input.endpoints| {
        status :=
          status.(lastApplied := Some(FingerprintOf(input)), observedVersion := input.version,
                  lastSync := Some(input.now));
      }
    }
  }

  lemma NothingDrifted(s: Status, input: Input, push: set<string>)
    requires Valid(input) && Unchanged(s, input) && ResyncDue(s, input) && Lists(push, s, input, |input.endpoints|)
    requires push <= Pods(input)
    ensures push == {} <==> Verifies(s, input)
  {
    hide Unchanged, ResyncDue;
    if Verifies(s, input) {
      forall p | p in Pods(input) ensures p !in push {
        var e :| e in input.endpoints && e.pod == p;
        var i :| 0 <= i < |input.endpoints| && input.endpoints[i] == e;
      }
    }
    if push == {} {
      forall i | 0 <= i < |input.endpoints| ensures input.first[i].InSync? {
        assert input.endpoints[i].pod !in push;
      }
    }
  }

  lemma AllListed(s: Status, input: Input)
    requires Valid(input) && !Unchanged(s, input)
    ensures Lists(Pods(input), s, input, |input.endpoints|) && !Verifies(s, input)
  {
    var push := Pods(input);
    forall i | 0 <= i < |input.endpoints|
      ensures input.endpoints[i].pod in push { assert input.endpoints[i] in input.endpoints; }
  }

  /* ---- accounting ---- */

  /** Every endpoint is counted once and listed in order; the fingerprint is recorded only by a pass
      whose every recorded observation converged at the spec version, and then always. */
  lemma Accounting(s: Status, input: Input)
    requires Valid(input) && !Skips(s, input)
    ensures var after := Next(s, input);
            && 0 <= after.synced && 0 <= after.drifted
            && after.synced + after.drifted == |input.endpoints| == |after.replicas|
            && (forall i | 0 <= i < |after.replicas| :: after.replicas[i].pod == input.endpoints[i].pod)
            && (after.synced == |input.endpoints| <==>
                forall r | r in after.replicas :: r.converged && r.observedVersion == input.version)
            && (after.lastApplied == s.lastApplied
                || (after.lastApplied == Some(FingerprintOf(input)) && after.synced == |input.endpoints|))
            && (after.synced == |input.endpoints| ==> after.lastApplied == Some(FingerprintOf(input)))
  {
    hide FingerprintOf, ResyncDue;
    var os := if Verifies(s, input) then Inspected(input) else Recorded(s, input);
    AllConverging(os);
    var replicas := StatusesOf(os);
    forall i | 0 <= i < |os|
      ensures os[i].status.pod == input.endpoints[i].pod
              && (os[i].status.converged ==> os[i].status.observedVersion == input.version) {
    }
    if Converging(os) == |os| {
      forall r | r in replicas ensures r.converged && r.observedVersion == input.version {
        var i :| 0 <= i < |replicas| && replicas[i] == r;
        assert os[i] in os;
      }
    } else {
      var o :| o in os && !o.status.converged;
      var i :| 0 <= i < |os| && os[i] == o;
      assert replicas[i] in replicas;
    }
    if Verifies(s, input) {
      forall o | o in os ensures o.status.converged {
        var i :| 0 <= i < |os| && os[i] == o;
      }
    }
  }

  /** A replica that cannot be shown converged is recorded by its push, any other by a fresh read-back. */
  lemma DriftedArePushed(s: Status, input: Input, i: nat)
    requires Valid(input) && !Skips(s, input) && !Verifies(s, input) && i < |input.endpoints|
    ensures var replica := Next(s, input).replicas[i];
            if Unchanged(s, input) && input.first[i].InSync? then replica.converged <==> input.again[i].InSync?
            else replica.converged <==> input.pushes[i].ok && input.pushes[i].probe.InSync?
  {
    hide FingerprintOf, Unchanged, ResyncDue, Converging;
    assert Next(s, input).replicas == StatusesOf(Recorded(s, input));
  }

  /** The replica ends the pass read back as converged: left alone because it was, or pushed to. */
  ghost predicate EndsWell(s: Status, input: Input, i: nat)
    requires Valid(input) && i < |input.endpoints|
  {
    if Unchanged(s, input) && input.first[i].InSync? then Verifies(s, input) || input.again[i].InSync?
    else input.pushes[i].ok && input.pushes[i].probe.InSync?
  }

  ghost predicate AllEndWell(s: Status, input: Input)
    requires Valid(input)
  {
    forall i | 0 <= i < |input.endpoints| :: EndsWell(s, input, i)
  }

  /** All replicas count as synced exactly when each of them ends the pass well. */
  lemma SyncedExactly(s: Status, input: Input)
    requires Valid(input) && !Skips(s, input)
    ensures Next(s, input).synced == |input.endpoints| <==> AllEndWell(s, input)
  {
    hide FingerprintOf, ResyncDue, Unchanged;
    var os := if Verifies(s, input) then Inspected(input) else Recorded(s, input);
    AllConverging(os);
    hide Converging;
    assert forall i | 0 <= i < |os| :: os[i].status.converged <==> EndsWell(s, input, i);
    if AllEndWell(s, input) {
      forall o | o in os ensures o.status.converged { var i :| 0 <= i < |os| && os[i] == o; }
    }
    if forall o | o in os :: o.status.converged {
      forall i | 0 <= i < |os| ensures EndsWell(s, input, i) { assert os[i] in os; }
    }
  }
}
