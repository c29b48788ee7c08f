/** What one pass over a ProxySQLConfig leaves in its status, told from what the replicas answered, and
    how long a pass may go without asking them. */
module ConfigPass {
  import opened Text
  import opened Convergence
  import opened Skipping

  /** The status records this content, version, generation and these addresses, for as many replicas. */
  ghost predicate Same(s: Status, input: Input) {
    && s.lastApplied.Some? && s.lastApplied.value.content == input.content
    && s.lastApplied.value.version == input.version == s.observedVersion
    && |s.lastApplied.value.addrs| == |input.endpoints| == s.synced
    && (forall i | 0 <= i < |input.endpoints| :: s.lastApplied.value.addrs[i] == input.endpoints[i].addr)
    && s.observedGeneration == input.generation
  }

  /** The desired state was asserted less than an interval ago. */
  ghost predicate Recent(s: Status, input: Input) {
    s.lastSync.Some? && input.now - s.lastSync.value < input.interval
  }

  ghost predicate AllFound(input: Input)
    requires Valid(input)
  {
    forall i | 0 <= i < |input.endpoints| :: input.first[i].InSync?
  }

  /** The reason a read-back gives. */
  function ReasonOf(probe: Probe): (reason: string) {
    match probe
    case Unreachable => "AdminUnavailable"
    case ReadFailed => "NativeReadFailed"
    case Drifted => "NativeDrift"
    case InSync => "Converged"
  }

  /** What the pass records of replica `i`: the answer to its push, or, where a resync found it
      converged, the last read-back. */
  ghost function ReasonAt(s: Status, input: Input, i: nat): (reason: string)
    requires Valid(input) && i < |input.endpoints|
  {
    if Same(s, input) && input.first[i].InSync?
    then ReasonOf(if AllFound(input) then input.first[i] else input.again[i])
    else if input.pushes[i].ok then ReasonOf(input.pushes[i].probe) else "NativeApplyFailed"
  }

  ghost function StatusAt(s: Status, input: Input, i: nat): (r: ReplicaStatus)
    requires Valid(input) && i < |input.endpoints|
  {
    var reason := ReasonAt(s, input, i);
    var ok := reason == "Converged";
    ReplicaStatus(input.endpoints[i].pod, ok, !ok, reason, if ok then input.version else 0)
  }

  ghost function Good(s: Status, input: Input): (indices: set<int>)
    requires Valid(input)
  {
    set i | 0 <= i < |input.endpoints| && ReasonAt(s, input, i) == "Converged"
  }

  /* ---- the pass behind it ---- */

  lemma SameExactly(s: Status, input: Input)
    ensures Unchanged(s, input) <==> Same(s, input)
  {
    var addrs := FingerprintOf(input).addrs;
    if Same(s, input) {
      assert s.lastApplied.value.addrs == addrs;
    }
  }

  lemma ReasonsApart(probe: Probe)
    ensures ReasonOf(probe) == "Converged" <==> probe.InSync?
    ensures "NativeApplyFailed" != "Converged"
  {
  }

  lemma ObservedAs(pod: string, probe: Probe, version: int)
    ensures var ok := probe.InSync?;
            Observed(pod, probe, version).status ==
            ReplicaStatus(pod, ok, !ok, ReasonOf(probe), if ok then version else 0)
  {
  }

  /** The observations of the pass, one for each endpoint. */
  ghost function Seen(s: Status, input: Input): (os: seq<Observation>)
    requires Valid(input)
    ensures |os| == |input.endpoints|
  {
    if Verifies(s, input) then Inspected(input) else Recorded(s, input)
  }

  lemma SeenAt(s: Status, input: Input, i: nat)
    requires Valid(input) && i < |input.endpoints| && !(Same(s, input) && Recent(s, input))
    ensures Seen(s, input)[i].status == StatusAt(s, input, i)
  {
    hide Unchanged, FingerprintOf, Observed, Applied, ReasonOf, Same;
    SameExactly(s, input);
    var pod, push := input.endpoints[i].pod, input.pushes[i];
    ObservedAs(pod, input.first[i], input.version);
    ObservedAs(pod, input.again[i], input.version);
    ObservedAs(pod, push.probe, input.version);
    ReasonsApart(input.first[i]);
    ReasonsApart(input.again[i]);
    ReasonsApart(push.probe);
    assert Applied(pod, push, input.version) ==
           if push.ok then Observed(pod, push.probe, input.version) else Failed(pod, "NativeApplyFailed") by {
      AppliedAs(pod, push, input.version);
    }
  }

  lemma AppliedAs(pod: string, push: Push, version: int)
    ensures Applied(pod, push, version) ==
            if push.ok then Observed(pod, push.probe, version) else Failed(pod, "NativeApplyFailed")
  {
  }

  ghost function Converged(os: seq<Observation>): (indices: set<int>) {
    set i | 0 <= i < |os| && os[i].status.converged
  }

  lemma {:induction false} CountedOnce(os: seq<Observation>)
    ensures Converging(os) == |Converged(os)|
    decreases |os|
  {
    if os == [] {
      assert Converged(os) == {};
    } else {
      var n := |os| - 1;
      CountedOnce(os[..n]);
      assert Converged(os) == Converged(os[..n]) + if os[n].status.converged then {n} else {};
    }
  }

  /* ---- the whole status ---- */

  /** A pass rests only on a recent status for the same configuration; any other pass records the
      answers of every replica, and the clock, fingerprint and version when all of them converged. */
  lemma PassExactly(s: Status, input: Input)
    requires Valid(input)
    ensures var after := Next(s, input);
            if Same(s, input) && Recent(s, input) then after == s
            else
              var n, good := |input.endpoints|, |Good(s, input)|;
              && |after.replicas| == n
              && (forall i | 0 <= i < n :: after.replicas[i] == StatusAt(s, input, i))
              && after.synced == good && after.drifted == n - good
              && after.observedGeneration == input.generation
              && (if good == n then
                    && after.lastSync == Some(input.now) && after.observedVersion == input.version
                    && after.lastApplied.Some? && after.lastApplied.value.content == input.content
                    && after.lastApplied.value.version == input.version && |after.lastApplied.value.addrs| == n
                    && forall i | 0 <= i < n :: after.lastApplied.value.addrs[i] == input.endpoints[i].addr
                  else
                    && after.lastSync == s.lastSync && after.observedVersion == s.observedVersion
                    && after.lastApplied == s.lastApplied)
  {
    hide StatusAt, Recorded, Inspected;
    SameExactly(s, input);
    if !(Same(s, input) && Recent(s, input)) {
      var os := Seen(s, input);
      forall i | 0 <= i < |os| ensures os[i].status == StatusAt(s, input, i) { SeenAt(s, input, i); }
      CountedOnce(os);
      ConvergedGood(s, input, os);
      AllConverging(os);
      if Verifies(s, input) { VerifiedGood(s, input, os); }
      hide Good, ReasonAt, Converging, Converged;
    }
  }

  lemma ConvergedGood(s: Status, input: Input, os: seq<Observation>)
    requires Valid(input) && |os| == |input.endpoints|
    requires forall i | 0 <= i < |os| :: os[i].status == StatusAt(s, input, i)
    ensures Converged(os) == Good(s, input)
  {
    hide ReasonAt;
  }

  lemma VerifiedGood(s: Status, input: Input, os: seq<Observation>)
    requires Valid(input) && Verifies(s, input) && os == Inspected(input)
    ensures forall o | o in os :: o.status.converged
  {
    hide Unchanged, ResyncDue;
    forall o | o in os ensures o.status.converged { var i :| 0 <= i < |os| && os[i] == o; }
  }

  /** A pass an interval or more after the last sync asks every replica, whatever the status says: a
      replica that does not read back converged is recorded by its push, and a pass that finds the same
      configuration everywhere restarts the clock. */
  lemma OverduePassReads(s: Status, input: Input)
    requires Valid(input) && (s.lastSync.Some? ==> input.now - s.lastSync.value >= input.interval)
    ensures var after, n := Next(s, input), |input.endpoints|;
            && |after.replicas| == n
            && (forall i | 0 <= i < n :: after.replicas[i].pod == input.endpoints[i].pod)
            && (forall i | 0 <= i < n && !input.first[i].InSync? ::
                  after.replicas[i].converged <==> input.pushes[i].ok && input.pushes[i].probe.InSync?)
            && (Same(s, input) && AllFound(input) ==>
                  after.lastSync == Some(input.now) && forall i | 0 <= i < n :: after.replicas[i].converged)
  {
    hide Next, Same, Good;
    PassExactly(s, input);
    forall i | 0 <= i < |input.endpoints| && !input.first[i].InSync?
      ensures ReasonAt(s, input, i) == "Converged" <==> input.pushes[i].ok && input.pushes[i].probe.InSync? {
      ReasonsApart(input.pushes[i].probe);
    }
    if Same(s, input) && AllFound(input) { FoundIsGood(s, input); }
  }

  lemma FoundIsGood(s: Status, input: Input)
    requires Valid(input) && Same(s, input) && AllFound(input) && !Recent(s, input)
    ensures |Good(s, input)| == |input.endpoints|
  {
    hide Same;
    var os := Seen(s, input);
    SameExactly(s, input);
    assert Verifies(s, input);
    VerifiedGood(s, input, os);
    AllConverging(os);
    CountedOnce(os);
    forall i | 0 <= i < |os| ensures os[i].status == StatusAt(s, input, i) { SeenAt(s, input, i); }
    ConvergedGood(s, input, os);
  }

  /* ---- whole runs ---- */

  /** Event `k` asked its replicas, recorded their answers, and all of them had converged. */
  ghost predicate AssertedAt(events: seq<Event>, k: nat)
    requires AllValid(events)
  {
    k < |events| && events[k].Pass? && Valid(events[k].input)
    && var s, input := Before(events, k).status, events[k].input;
       !(Same(s, input) && Recent(s, input))
       && forall i | 0 <= i < |input.endpoints| :: ReasonAt(s, input, i) == "Converged"
  }

  lemma StepAsserts(s: Status, input: Input)
    requires Valid(input)
    ensures Next(s, input).lastSync ==
            if !(Same(s, input) && Recent(s, input))
               && forall i | 0 <= i < |input.endpoints| :: ReasonAt(s, input, i) == "Converged"
            then Some(input.now) else s.lastSync
  {
    hide Next, ReasonAt;
    PassExactly(s, input);
    if !(Same(s, input) && Recent(s, input)) { GoodExactly(s, input); }
  }

  lemma GoodExactly(s: Status, input: Input)
    requires Valid(input) && !(Same(s, input) && Recent(s, input))
    ensures |Good(s, input)| == |input.endpoints| <==>
            forall i | 0 <= i < |input.endpoints| :: ReasonAt(s, input, i) == "Converged"
  {
    hide ReasonAt, Same, Recent;
    var os := Seen(s, input);
    forall i | 0 <= i < |os| ensures os[i].status == StatusAt(s, input, i) { SeenAt(s, input, i); }
    hide Seen;
    ConvergedGood(s, input, os);
    CountedOnce(os);
    AllConverging(os);
    if forall i | 0 <= i < |os| :: ReasonAt(s, input, i) == "Converged" {
      forall o | o in os ensures o.status.converged { var i :| 0 <= i < |os| && os[i] == o; }
    }
    if forall o | o in os :: o.status.converged {
      forall i | 0 <= i < |os| ensures ReasonAt(s, input, i) == "Converged" { assert os[i] in os; }
    }
  }

  /** In every run the sync time is the clock of the last recorded pass that found or made every
      replica converged. */
  lemma {:induction false} SyncTimeProvenance(events: seq<Event>) returns (k: nat)
    requires AllValid(events) && Run(events).status.lastSync.Some?
    ensures AssertedAt(events, k) && events[k].input.now == Run(events).status.lastSync.value
    ensures forall j | k < j < |events| :: !AssertedAt(events, j)
    decreases |events|
  {
    hide Valid, Next, Same, Recent, ReasonAt;
    assert events != [];
    var n := |events| - 1;
    assert events[..n + 1] == events;
    RunNext(events, n);
    var s, input := Before(events, n).status, events[n].input;
    StepAsserts(s, input);
    SkipIsSame(s, input);
    if AssertedAt(events, n) {
      k := n;
    } else {
      BeforePrefix(events, n, n);
      k := SyncTimeProvenance(events[..n]);
      PrefixValid(events, k);
      forall j | k <= j < n ensures AssertedAt(events, j) <==> AssertedAt(events[..n], j) {
        BeforePrefix(events, n, j);
        PrefixValid(events, j);
      }
    }
  }

  lemma SkipIsSame(s: Status, input: Input)
    ensures Skips(s, input) <==> Same(s, input) && Recent(s, input)
  {
    hide Unchanged, Same;
    SameExactly(s, input);
  }

  /** So a skipped pass lies less than one interval after the last recorded pass in which every replica
      ended converged. */
  lemma SkippedIsRecent(events: seq<Event>, input: Input) returns (k: nat)
    requires AllValid(events) && Valid(input) && Skips(Run(events).status, input)
    ensures AssertedAt(events, k) && input.now - events[k].input.now < input.interval
    ensures forall j | k < j < |events| :: !AssertedAt(events, j)
  {
    hide Valid, Run, Same, AssertedAt, Skips;
    SkipIsSame(Run(events).status, input);
    k := SyncTimeProvenance(events);
  }
}
