/** Runs that lose an update, one for each hypothesis of the variable-safety theorem. Each is a
    whole family: it exists for every pair of Secrets that differ in variable values only. */
module RestartWitness {
  import opened Text
  import opened Digest
  import opened Restart
  import opened RestartSafety
  import Cnf

  /** Two renderings of one structure with different variable values. */
  ghost predicate ValuesEdit(a: Data, b: Data) {
    && CNF_KEY in a && a[CNF_KEY] != "" && CNF_KEY in b && b[CNF_KEY] != ""
    && StructuralHash(a) == StructuralHash(b) && VarsIn(a) != VarsIn(b)
  }

  /** The variables that the edit moves. */
  function Moved(a: Data, b: Data): (names: set<string>) {
    set k | k in VarsIn(a) && k in VarsIn(b) && VarsIn(a)[k] != VarsIn(b)[k]
  }

  const POD: string := "proxysql-0"

  function One(data: Data, endpoints: seq<string>, startupOnly: set<string>): (i: Input) {
    Input(data, 1, endpoints, startupOnly)
  }

  lemma RunNext(events: seq<Event>, e: Event, startupOnly: set<string>)
    ensures Run(events + [e]) == Step(Run(events), e)
    ensures Pending(events + [e]) == PendingAfter(Pending(events), e)
    ensures Disciplined(events + [e], startupOnly) <==>
              Disciplined(events, startupOnly) && Admissible(Run(events), Pending(events), e, startupOnly)
  {
    hide Step, Admissible, PendingAfter;
    assert (events + [e])[..|events|] == events;
  }

  /** The StatefulSet after committing `data` while the template carries `rolled`. */
  ghost function Marked(rolled: Data, rev: nat, data: Data): (t: Sts) {
    Sts(CnfChecksum(rolled), VarsHash(VarsIn(data)), StructuralHash(data), rev, rolled)
  }

  lemma EditFacts(a: Data, b: Data)
    requires ValuesEdit(a, b)
    ensures CnfChecksum(a) != CnfChecksum(b) && VarsHash(VarsIn(a)) != VarsHash(VarsIn(b))
    ensures VarsIn(a).Keys == VarsIn(b).Keys
    ensures Cnf.Changed(VarsIn(a), VarsIn(b)) == map k | k in Moved(a, b) :: VarsIn(b)[k]
    ensures Moved(a, b) == Moved(b, a) && Moved(a, b) != {}
  {
    hide VarsIn, CnfChecksum, StructuralHash, VarsHash;
    ChecksumExact(a, b);
    VarsHashed(a, b);
    SameStructure(a, b);
    var va, vb := VarsIn(a), VarsIn(b);
    assert (forall k | k in va :: va[k] == vb[k]) ==> va == vb;
    var k :| k in va && va[k] != vb[k];
    assert k in Moved(a, b);
  }

  /** Editing values under any other template checksum asks for a push of the moved ones. */
  lemma EditVerdict(a: Data, b: Data, prev: Marker, vars: Marker)
    requires ValuesEdit(a, b) && prev != NoDigest && prev != CnfChecksum(b)
    ensures Classify(a, b, prev, vars, StructuralHash(b)) == RuntimeTry(map k | k in Moved(a, b) :: VarsIn(b)[k])
  {
    hide CnfChecksum, StructuralHash, VarsHash, StructuralView, Cnf.Normalize, Cnf.Parse, Cnf.Changed;
    EditFacts(a, b);
    StructuralExact(a, b);
    ViewsEqual(a, b);
    assert DiffKeys(a, b) == {};
    assert Cnf.Changed(VarsIn(a), VarsIn(b)) != map[] by {
      var k :| k in Moved(a, b);
      assert k in Cnf.Changed(VarsIn(a), VarsIn(b));
    }
  }

  /** First pass of a fresh cluster, then the pod boots. */
  ghost function Opening(a: Data, startupOnly: set<string>): (events: seq<Event>) {
    [] + [Pass(One(a, [], startupOnly))] + [Boot(POD)]
  }

  lemma FirstPass(a: Data, startupOnly: set<string>)
    ensures Step(FRESH, Pass(One(a, [], startupOnly))) == State(Some(a), Some(Marked(a, 0, a)), map[])
    ensures Allowed(FRESH, None, One(a, [], startupOnly), startupOnly)
  {
    hide CnfChecksum, StructuralHash, VarsHash, VarsIn;
  }

  lemma OpeningState(a: Data, startupOnly: set<string>)
    ensures Run(Opening(a, startupOnly)) ==
            State(Some(a), Some(Marked(a, 0, a)), map[POD := Pod(0, a, VarsIn(a), VarsIn(a))])
    ensures Pending(Opening(a, startupOnly)) == None && Disciplined(Opening(a, startupOnly), startupOnly)
  {
    hide CnfChecksum, StructuralHash, VarsHash, VarsIn;
    RunNext([], Pass(One(a, [], startupOnly)), startupOnly);
    RunNext([] + [Pass(One(a, [], startupOnly))], Boot(POD), startupOnly);
    assert map[] + VarsIn(a) == VarsIn(a);
  }

  /** A pod that is not ready during a push keeps its old values for good. (The monitor
      credentials are the exception: for them the pass rolls the pods instead.) */
  lemma LostWhenNotReady(a: Data, b: Data)
    requires ValuesEdit(a, b) && Moved(a, b) !! MONITOR_KEYS
    ensures var events := Opening(a, {}) + [Pass(One(b, [], {}))];
            !Settled(Run(events)) && NextChecksum(Run(Opening(a, {})), One(b, [], {})) == CnfChecksum(a)
  {
    hide CnfChecksum, StructuralHash, VarsHash, VarsIn, Classify;
    OpeningState(a, {});
    RunNext(Opening(a, {}), Pass(One(b, [], {})), {});
    EditFacts(a, b);
    EditVerdict(a, b, CnfChecksum(a), VarsHash(VarsIn(a)));
    var k :| k in Moved(a, b);
    var s := Run(Opening(a, {}) + [Pass(One(b, [], {}))]);
    assert (map n | n in Moved(a, b) :: VarsIn(b)[n]).Keys == Moved(a, b);
    assert s.pods[POD].runtime == VarsIn(a) && s.pods[POD].rev == s.sts.value.rev;
    assert !Agrees(VarsIn(a), VarsIn(b));
  }

  /** With a single pod, pushing and reading back is about that pod. */
  lemma OnePod(pod: Pod, changed: Vars, startupOnly: set<string>)
    ensures var after := Push(pod, changed, startupOnly);
            && PushAll(map[POD := pod], [POD], changed, startupOnly) == map[POD := after]
            && (AnyMismatch(map[POD := pod], [POD], changed, startupOnly) <==> Mismatched(after, changed) != {})
  {
    hide Push, Mismatched;
    assert POD in map[POD := pod] && POD in [POD] && map[POD := pod][POD] == pod;
  }

  /** A push that ran but never committed, followed by a revert instead of the retry: the
      revert finds checksum and marker in place and leaves the pushed values running. */
  lemma LostWhenNotRetried(a: Data, b: Data)
    requires ValuesEdit(a, b)
    ensures var broken := Opening(a, {}) + [Interrupted(One(b, [POD], {}), Fault(1, {}, {}))];
            && Disciplined(broken, {})
            && AllReady(Run(broken), One(a, [POD], {}))
            && !Settled(Run(broken + [Pass(One(a, [POD], {}))]))
  {
    hide CnfChecksum, StructuralHash, VarsHash, VarsIn;
    var opening := Opening(a, {});
    var broken := opening + [Interrupted(One(b, [POD], {}), Fault(1, {}, {}))];
    OpeningState(a, {});
    RunNext(opening, Interrupted(One(b, [POD], {}), Fault(1, {}, {})), {});
    RunNext(broken, Pass(One(a, [POD], {})), {});
    hide Run, Disciplined, Pending;
    var pod := BrokenPush(a, b, Run(opening));
    RevertAfterBroken(a, b, Run(broken), pod);
  }

  lemma BrokenPush(a: Data, b: Data, s: State) returns (after: Pod)
    requires ValuesEdit(a, b)
    requires s == State(Some(a), Some(Marked(a, 0, a)), map[POD := Pod(0, a, VarsIn(a), VarsIn(a))])
    ensures Allowed(s, None, One(b, [POD], {}), {})
    ensures Step(s, Interrupted(One(b, [POD], {}), Fault(1, {}, {}))) == State(Some(b), s.sts, map[POD := after])
    ensures after.rev == 0 && exists k :: k in VarsIn(a) && k in after.runtime && after.runtime[k] != VarsIn(a)[k]
  {
    hide CnfChecksum, StructuralHash, VarsHash, VarsIn, Classify, PushAll, Push;
    EditFacts(a, b);
    EditVerdict(a, b, CnfChecksum(a), VarsHash(VarsIn(a)));
    DomainsKnown(b);
    var k :| k in Moved(a, b);
    var changed := map n | n in Moved(a, b) :: VarsIn(b)[n];
    var pod := Pod(0, a, VarsIn(a), VarsIn(a));
    after := Push(pod, changed, {});
    PushedAt(pod, changed, {}, k);
    OnePod(pod, changed, {});
  }

  lemma RevertAfterBroken(a: Data, b: Data, s: State, pod: Pod)
    requires ValuesEdit(a, b) && pod.rev == 0 && exists k ::
             k in VarsIn(a) && k in pod.runtime && pod.runtime[k] != VarsIn(a)[k]
    requires s == State(Some(b), Some(Marked(a, 0, a)), map[POD := pod])
    ensures AllReady(s, One(a, [POD], {}))
    ensures !Settled(Step(s, Pass(One(a, [POD], {}))))
  {
    hide CnfChecksum, StructuralHash, VarsHash, VarsIn, AnyMismatch;
    assert VerdictAt(s, a) == BootHash;
    var after := Step(s, Pass(One(a, [POD], {})));
    assert after.pods == s.pods && after.sts.value.rev == 0;
    assert after.pods[POD] == pod;
  }

  lemma PushedAt(pod: Pod, changed: Vars, startupOnly: set<string>, k: string)
    requires k in changed && k !in startupOnly && Domain(k).Some?
    ensures var after := Push(pod, changed, startupOnly);
            after.rev == pod.rev && k in after.runtime && after.runtime[k] == changed[k]
  {
  }

  /** Every listed hypothesis holds and an update is still lost: the edit and its revert meet
      pods that have not rolled yet, so the revert reads back clean under the new checksum;
      the pods then boot on the reverted Secret, and the second edit asks for a restart
      that the unchanged checksum cannot cause. */
  lemma LostDuringRollout(a: Data, b: Data)
    requires ValuesEdit(a, b)
    ensures var u := Moved(a, b);
            var events := Opening(a, u) + [Pass(One(b, [POD], u))] + [Pass(One(a, [POD], u))] + [Boot(POD)]
                          + [Pass(One(b, [POD], u))];
            Disciplined(events, u) && !Settled(Run(events))
  {
    hide CnfChecksum, StructuralHash, VarsHash, VarsIn, Classify, Run, Disciplined, Pending, Moved;
    var u := Moved(a, b);
    var e2 := Opening(a, u);
    var e3 := e2 + [Pass(One(b, [POD], u))];
    var e4 := e3 + [Pass(One(a, [POD], u))];
    var e5 := e4 + [Boot(POD)];
    OpeningState(a, u);
    RunNext(e2, Pass(One(b, [POD], u)), u);
    RunNext(e3, Pass(One(a, [POD], u)), u);
    RunNext(e4, Boot(POD), u);
    RunNext(e5, Pass(One(b, [POD], u)), u);
    EditFacts(a, b);
    EditFacts(b, a);
    var pod0 := Pod(0, a, VarsIn(a), VarsIn(a));
    var pod1 := EditOnPod(a, b, Run(e2), pod0);
    var pod2 := RevertOnOldPod(a, b, Run(e3), pod1);
    BootReverted(a, b, Run(e4), pod2);
    DeadEdit(a, b, Run(e5));
  }

  /** Step 1: the edit reads back wrong everywhere, so the template rolls to revision 1. */
  lemma EditOnPod(a: Data, b: Data, s: State, pod: Pod) returns (after: Pod)
    requires ValuesEdit(a, b) && pod == Pod(0, a, VarsIn(a), VarsIn(a))
    requires s == State(Some(a), Some(Marked(a, 0, a)), map[POD := pod])
    ensures Allowed(s, None, One(b, [POD], Moved(a, b)), Moved(a, b))
    ensures Step(s, Pass(One(b, [POD], Moved(a, b)))) == State(Some(b), Some(Marked(b, 1, b)), map[POD := after])
    ensures after.rev == 0 && after.memory == VarsIn(b) && after.runtime == VarsIn(a)
  {
    hide CnfChecksum, StructuralHash, VarsHash, VarsIn, Classify, PushAll, Push, AnyMismatch;
    EditFacts(a, b);
    EditVerdict(a, b, CnfChecksum(a), VarsHash(VarsIn(a)));
    DomainsKnown(b);
    var u := Moved(a, b);
    var changed := map k | k in u :: VarsIn(b)[k];
    after := Push(pod, changed, u);
    MovedPush(VarsIn(a), VarsIn(b), pod, u);
    OnePod(pod, changed, u);
    var k :| k in u;
    assert k in Mismatched(after, changed);
  }

  /** Pushing startup-only variables changes the admin table and nothing at runtime. */
  lemma MovedPush(va: Vars, vb: Vars, pod: Pod, u: set<string>)
    requires va.Keys == vb.Keys && u == set k | k in va && va[k] != vb[k]
    requires pod.memory == va && Agrees(pod.runtime, va) && Agrees(va, pod.runtime)
    requires forall k | k in vb :: Domain(k).Some?
    ensures var after := Push(pod, map k | k in u :: vb[k], u);
            after.memory == vb && after.runtime == va && after.rev == pod.rev && after.booted == pod.booted
  {
    hide Domain;
    var changed := map k | k in u :: vb[k];
    var updated := Update(pod, changed, changed.Keys);
    assert updated.memory == vb;
    assert pod.runtime == va;
    assert Load(updated, Domains(changed), u).runtime == va;
  }

  /** Step 2: the revert finds the not yet restarted pods already running its values. */
  lemma RevertOnOldPod(a: Data, b: Data, s: State, pod: Pod) returns (after: Pod)
    requires ValuesEdit(a, b) && pod.rev == 0 && pod.memory == VarsIn(b) && pod.runtime == VarsIn(a)
    requires s == State(Some(b), Some(Marked(b, 1, b)), map[POD := pod])
    ensures Allowed(s, None, One(a, [POD], Moved(a, b)), Moved(a, b))
    ensures Step(s, Pass(One(a, [POD], Moved(a, b)))) == State(Some(a), Some(Marked(b, 1, a)), map[POD := after])
    ensures after.rev == 0 && after.memory == VarsIn(a)
  {
    hide CnfChecksum, StructuralHash, VarsHash, VarsIn, Classify, PushAll, Push, AnyMismatch;
    EditFacts(b, a);
    EditVerdict(b, a, CnfChecksum(b), VarsHash(VarsIn(b)));
    DomainsKnown(a);
    var u := Moved(a, b);
    var changed := map k | k in u :: VarsIn(a)[k];
    after := Push(pod, changed, u);
    RevertPush(VarsIn(a), VarsIn(b), pod, u);
    OnePod(pod, changed, u);
    assert Mismatched(after, changed) == {};
  }

  lemma RevertPush(va: Vars, vb: Vars, pod: Pod, u: set<string>)
    requires va.Keys == vb.Keys && u == set k | k in va && va[k] != vb[k]
    requires pod.memory == vb && pod.runtime == va
    requires forall k | k in va :: Domain(k).Some?
    ensures var after := Push(pod, map k | k in u :: va[k], u);
            after.memory == va && after.runtime == va && after.rev == pod.rev && after.booted == pod.booted
  {
    hide Domain;
    var changed := map k | k in u :: va[k];
    var updated := Update(pod, changed, changed.Keys);
    assert updated.memory == va;
    assert Load(updated, Domains(changed), u).runtime == va;
  }

  lemma BootReverted(a: Data, b: Data, s: State, pod: Pod)
    requires s == State(Some(a), Some(Marked(b, 1, a)), map[POD := pod])
    ensures var after := Step(s, Boot(POD));
            && after.secret == s.secret && after.sts == s.sts && after.pods.Keys == {POD}
            && after.pods[POD].rev == 1 && Agrees(after.pods[POD].runtime, VarsIn(a))
  {
    hide CnfChecksum, StructuralHash, VarsHash, VarsIn;
  }

  /** Step 3: the same edit again is a dead restart. */
  lemma DeadEdit(a: Data, b: Data, s: State)
    requires ValuesEdit(a, b) && s.secret == Some(a) && s.sts == Some(Marked(b, 1, a))
    requires s.pods.Keys == {POD} && s.pods[POD].rev == 1 && Agrees(s.pods[POD].runtime, VarsIn(a))
    ensures Allowed(s, None, One(b, [POD], Moved(a, b)), Moved(a, b))
    ensures !Settled(Step(s, Pass(One(b, [POD], Moved(a, b)))))
  {
    hide CnfChecksum, StructuralHash, VarsHash, VarsIn;
    EditFacts(a, b);
    var i := One(b, [POD], Moved(a, b));
    var k :| k in Moved(a, b);
    assert POD in s.pods && k in i.startupOnly && k in VarsIn(b) && Cnf.Lookup(s.pods[POD].runtime, k) != VarsIn(b)[k];
    assert DeadRestart(s, i);
    DeadRestartLoses(s, i);
  }

  /** A pod that boots on a Secret whose pass was interrupted, and then a revert instead of the
      retry: the markers are right about the template, and the pod runs another structure. */
  lemma PodLeftOnOtherStructure(a: Data, b: Data)
    requires StructuralHash(a) != StructuralHash(b)
    ensures var s := Run([] + [Pass(One(a, [], {}))] + [Interrupted(One(b, [], {}), Fault(0, {}, {}))] + [Boot(POD)]
                         + [Pass(One(a, [POD], {}))]);
            && s.secret == Some(a) && s.sts.Some? && s.sts.value.structuralApplied == StructuralHash(a)
            && POD in s.pods && s.pods[POD].rev == s.sts.value.rev
            && StructuralHash(s.pods[POD].booted) != StructuralHash(a)
  {
    hide CnfChecksum, StructuralHash, VarsHash, VarsIn, Push, VerdictAt, PodsFor, NextChecksum, Classify, Commit;
    var e1 := [] + [Pass(One(a, [], {}))];
    var e2 := e1 + [Interrupted(One(b, [], {}), Fault(0, {}, {}))];
    var e3 := e2 + [Boot(POD)];
    RunNext([], Pass(One(a, [], {})), {});
    RunNext(e1, Interrupted(One(b, [], {}), Fault(0, {}, {})), {});
    RunNext(e2, Boot(POD), {});
    RunNext(e3, Pass(One(a, [POD], {})), {});
    var s1, s2, s3 := Run(e1), Run(e2), Run(e3);
    FirstPass(a, {});
    assert s2 == State(Some(b), s1.sts, s2.pods) && s2.pods.Keys == {};
    assert s3.sts == s2.sts && s3.secret == Some(b) && s3.pods.Keys == {POD} && s3.pods[POD].rev == 0
           && s3.pods[POD].booted == b;
    RevertStep(a, b, s3);
  }

  lemma RevertStep(a: Data, b: Data, s: State)
    requires s.secret == Some(b) && s.sts == Some(Marked(a, 0, a)) && s.pods.Keys == {POD}
    requires s.pods[POD].rev == 0 && s.pods[POD].booted == b
    ensures var after := Step(s, Pass(One(a, [POD], {})));
            && after.secret == Some(a) && after.sts == s.sts && after.pods.Keys == {POD}
            && after.pods[POD].rev == 0 && after.pods[POD].booted == b
  {
    hide CnfChecksum, StructuralHash, VarsHash, VarsIn, PodsFor, AnyMismatch, MonitorFallback, Push;
    PodsReached(VerdictAt(s, a), s.pods, One(a, [POD], {}), None, POD);
    var v := VerdictAt(s, a);
    assert v.BootHash? || v == RuntimeTry(VarsIn(a));
  }

  /* ---- such pairs of Secrets exist ---- */

  function ThreadsCnf(n: string): (cnf: string) {
    Join(["mysql_variables=", "threads=" + n], '\n')
  }

  lemma ThreadsMatch(n: string)
    requires AllDigits(n) && n != ""
    ensures Cnf.MatchVar("threads=" + n) == Some(Cnf.VarMatch("", "threads", n))
  {
    hide Cnf.MatchVar;
    var line, m := "threads=" + n, Cnf.VarMatch("", "threads", n);
    assert n + "" == n && "" + line == line;
    assert line == "threads" + ("=" + n);
    assert Cnf.IsKey("threads") && Cnf.Trimmed(n) && Cnf.Blank("");
    Cnf.MatchesFound(line, m, "");
  }

  lemma ThreadsLine(n: string)
    requires AllDigits(n) && n != ""
    ensures Cnf.Classify(Cnf.Inside("mysql"), "threads=" + n) ==
            Cnf.Var("threads=" + n, "", "threads", "mysql-threads", n)
  {
    hide Cnf.MatchVar;
    ThreadsMatch(n);
    assert "mysql" + "-" + "threads" == "mysql-threads";
    assert |"threads=" + n| > 1;
  }

  lemma ThreadsScanned(n: string)
    requires AllDigits(n) && n != ""
    ensures Cnf.ScanCnf(ThreadsCnf(n)) ==
            [Cnf.Plain("mysql_variables="), Cnf.Var("threads=" + n, "", "threads", "mysql-threads", n)]
  {
    var head, line := "mysql_variables=", "threads=" + n;
    assert '\n' !in head && '\n' !in line;
    SplitJoin([head, line], '\n');
    ThreadsLine(n);
    hide Split, Join, Cnf.MatchVar, Cnf.Classify;
    assert [head, line][1..] == [line] && [line][1..] == [];
    assert Cnf.Scan(Cnf.Inside("mysql"), [line]) == [Cnf.Classify(Cnf.Inside("mysql"), line)];
    assert Cnf.NextSection(Cnf.Outside, head) == Cnf.Inside("mysql");
    assert Cnf.Classify(Cnf.Outside, head) == Cnf.Plain(head) by { HeadLine(head); }
  }

  lemma HeadLine(line: string)
    ensures Cnf.Classify(Cnf.Outside, line) == Cnf.Plain(line)
  {
  }

  lemma ThreadsParsed(n: string)
    requires AllDigits(n) && n != ""
    ensures Cnf.Parse(ThreadsCnf(n)) == map["mysql-threads" := n] && ThreadsCnf(n) != ""
  {
    ThreadsScanned(n);
    hide Cnf.ScanCnf, Cnf.Classify, Split;
    assert "mysql-threads" !in Cnf.STRUCTURAL;
    var l := Cnf.Var("threads=" + n, "", "threads", "mysql-threads", n);
    var scanned := [Cnf.Plain("mysql_variables="), l];
    assert scanned[..1] == [Cnf.Plain("mysql_variables=")] && scanned[..1][..0] == [];
    assert Cnf.VarsOf(scanned[..1]) == map[];
    assert Cnf.Unquote(n) == n;
  }

  lemma ThreadsAgree(m: string, n: string)
    requires AllDigits(m) && m != "" && AllDigits(n) && n != ""
    ensures Cnf.ScansAgree(Cnf.ScanCnf(ThreadsCnf(m)), Cnf.ScanCnf(ThreadsCnf(n)))
  {
    hide ThreadsCnf, Cnf.ScanCnf;
    ThreadsScanned(m);
    ThreadsScanned(n);
    assert "mysql-threads" !in Cnf.STRUCTURAL;
    var x, y := Cnf.ScanCnf(ThreadsCnf(m)), Cnf.ScanCnf(ThreadsCnf(n));
    assert Cnf.Agree(x[0], y[0]) && Cnf.Agree(x[1], y[1]);
  }

  /** mysql-threads 4 and 8: an edit that the witness runs apply to. */
  lemma ThreadsEdit()
    ensures var a, b: Data := map[CNF_KEY := ThreadsCnf("4")], map[CNF_KEY := ThreadsCnf("8")];
            ValuesEdit(a, b) && Moved(a, b) == {"mysql-threads"} && Moved(a, b) !! MONITOR_KEYS
  {
    hide StructuralHash, ThreadsCnf, Cnf.ScanCnf, Cnf.Parse, Cnf.ScansAgree;
    var a, b: Data := map[CNF_KEY := ThreadsCnf("4")], map[CNF_KEY := ThreadsCnf("8")];
    ThreadsAgree("4", "8");
    ThreadsParsed("4");
    ThreadsParsed("8");
    StructuralExact(a, b);
    ThreadsMoved(a, b);
  }

  lemma ThreadsMoved(a: Data, b: Data)
    requires VarsIn(a) == map["mysql-threads" := "4"] && VarsIn(b) == map["mysql-threads" := "8"]
    ensures Moved(a, b) == {"mysql-threads"} && Moved(a, b) !! MONITOR_KEYS && VarsIn(a) != VarsIn(b)
  {
    hide VarsIn;
    assert VarsIn(a)["mysql-threads"] != VarsIn(b)["mysql-threads"];
  }
}
