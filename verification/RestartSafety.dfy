/** What the restart protocol guarantees over whole runs: spec edits, crashes between the
    Secret write and the StatefulSet write, failing pushes and pod restarts in any order. */
module RestartSafety {
  import opened Text
  import opened Digest
  import opened Restart
  import Cnf

  /* ---- structural content: every run ---- */

  ghost predicate Anchored(s: State) {
    s.sts.Some? ==>
      && s.sts.value.checksum == CnfChecksum(s.sts.value.rolled)
      && s.sts.value.structuralApplied == StructuralHash(s.sts.value.rolled)
      && s.sts.value.varsApplied != NoDigest
  }

  /** What a verdict promises about the markers `t`, the previous Secret and the new one. */
  ghost predicate Sound(v: Verdict, t: Sts, was: Data, data: Data) {
    match v
    case BootHash => t.checksum == CnfChecksum(data) ==> was == map[] || t.varsApplied == VarsHash(VarsIn(data))
    case Structural(_, _) => t.checksum != CnfChecksum(data)
    case KeepPrev =>
      && t.checksum != CnfChecksum(data) && t.structuralApplied == StructuralHash(data)
      && t.varsApplied == VarsHash(VarsIn(data)) && VarsIn(was) == VarsIn(data)
    case RuntimeTry(changed) =>
      if t.checksum == CnfChecksum(data) then changed == VarsIn(data)
      else
        && t.structuralApplied == StructuralHash(data)
        && (changed == VarsIn(data)
            || (VarsIn(was) != VarsIn(data) && changed == Cnf.Changed(VarsIn(was), VarsIn(data))))
  }

  lemma VerdictSound(s: State, data: Data)
    requires Anchored(s) && s.sts.Some?
    ensures Sound(VerdictAt(s, data), s.sts.value, OldData(s), data)
  {
    hide CnfChecksum, StructuralHash, VarsHash, DiffKeys, Cnf.Normalize, Cnf.Parse, Cnf.Changed;
    if Cnf.Normalize(CnfText(OldData(s))) == Cnf.Normalize(CnfText(data)) {
      Cnf.DiffComplete(CnfText(OldData(s)), CnfText(data));
    }
  }

  /** A pass that leaves the template alone has structurally nothing new to deliver. */
  lemma KeptChecksum(s: State, i: Input)
    requires Anchored(s) && s.sts.Some? && NextChecksum(s, i) == Prev(s)
    ensures StructuralHash(i.data) == StructuralHash(s.sts.value.rolled)
  {
    hide CnfChecksum, StructuralHash, VarsHash, VarsIn, VerdictAt, Dials, MonitorFallback, AnyMismatch;
    VerdictSound(s, i.data);
    ChecksumExact(i.data, s.sts.value.rolled);
  }

  lemma StepAnchored(s: State, e: Event)
    requires Anchored(s)
    ensures Anchored(Step(s, e))
    ensures e.Pass? ==>
      && Step(s, e).sts.Some?
      && Step(s, e).sts.value.structuralApplied == StructuralHash(e.input.data)
  {
    if e.Pass? && s.sts.Some? && NextChecksum(s, e.input) == Prev(s) {
      KeptChecksum(s, e.input);
    }
  }

  /** Structural restarts are never lost: the marker always names the content the template was
      last rolled for, and after every committing pass it also names the current Secret. */
  lemma {:induction false} StructuralRestartsNeverLost(events: seq<Event>)
    ensures var s := Run(events);
            && Anchored(s)
            && (events != [] && events[|events| - 1].Pass? ==>
                  && s.sts.Some? && s.secret.Some?
                  && s.sts.value.structuralApplied == StructuralHash(s.secret.value)
                  && StructuralHash(s.secret.value) == StructuralHash(s.sts.value.rolled))
  {
    if events != [] {
      var n := |events| - 1;
      StructuralRestartsNeverLost(events[..n]);
      StepAnchored(Run(events[..n]), events[n]);
    }
  }

  /* ---- variables: hypotheses ---- */

  ghost function PendingAfter(pending: Option<Data>, e: Event): (data: Option<Data>) {
    match e
    case Pass(_) => None
    case Interrupted(i, _) => Some(i.data)
    case _ => pending
  }

  /** The content of the last pass that wrote the Secret and did not commit. */
  ghost function Pending(events: seq<Event>): (data: Option<Data>) {
    if events == [] then None else PendingAfter(Pending(events[..|events| - 1]), events[|events| - 1])
  }

  ghost function LastCommitted(events: seq<Event>): (data: Option<Data>) {
    if events == [] then None
    else match events[|events| - 1]
      case Pass(i) => Some(i.data)
      case _ => LastCommitted(events[..|events| - 1])
  }

  /** Whenever values have to be pushed, every pod is among the ready ones. */
  ghost predicate AllReady(s: State, i: Input) {
    VerdictAt(s, i.data).RuntimeTry? ==>
      i.replicas <= |i.endpoints| && forall p | p in s.pods :: p in i.endpoints
  }

  /** A reconcile allowed by the hypotheses: `startupOnly` never changes, all replicas are
      ready for a push, and an interrupted pass is retried with the same rendered Secret. */
  ghost predicate Allowed(s: State, pending: Option<Data>, i: Input, startupOnly: set<string>) {
    && i.startupOnly == startupOnly
    && AllReady(s, i)
    && (pending.Some? ==> i.data == pending.value)
  }

  ghost predicate Disciplined(events: seq<Event>, startupOnly: set<string>) {
    events != [] ==>
      var before := events[..|events| - 1];
      && Disciplined(before, startupOnly)
      && Admissible(Run(before), Pending(before), events[|events| - 1], startupOnly)
  }

  ghost predicate Admissible(s: State, pending: Option<Data>, e: Event, startupOnly: set<string>) {
    e.Pass? || e.Interrupted? ==> Allowed(s, pending, e.input, startupOnly)
  }

  /** The one branch that cannot deliver: the template already carries this content's checksum,
      so the restart it asks for changes nothing, and a pod of the current revision runs
      another value for a variable that only a restart can set. */
  ghost predicate DeadRestart(s: State, i: Input) {
    && s.sts.Some?
    && s.sts.value.checksum == CnfChecksum(i.data)
    && exists p, k :: p in s.pods && s.pods[p].rev == s.sts.value.rev
                      && k in i.startupOnly && k in VarsIn(i.data)
                      && Cnf.Lookup(s.pods[p].runtime, k) != VarsIn(i.data)[k]
  }

  ghost predicate NoDeadRestart(events: seq<Event>) {
    forall n | 0 <= n < |events| && events[n].Pass? :: !DeadRestart(Run(events[..n]), events[n].input)
  }

  ghost predicate Agrees(have: Vars, want: Vars) {
    forall k | k in want :: k in have && have[k] == want[k]
  }

  /** Every pod of the current revision runs the variables of the Secret. */
  ghost predicate Settled(s: State) {
    s.sts.Some? && s.secret.Some? ==>
      forall p | p in s.pods && s.pods[p].rev == s.sts.value.rev :: Agrees(s.pods[p].runtime, VarsIn(s.secret.value))
  }

  /* ---- variables: the invariant ---- */

  /** Each variable has its committed value or the one of the Secret still to be committed. */
  ghost predicate Between(have: Vars, committed: Vars, next: Vars) {
    forall k | k in committed :: k in have && (have[k] == committed[k] || (k in next && have[k] == next[k]))
  }

  ghost predicate PodFollows(pod: Pod, committed: Data, next: Data) {
    StructuralHash(next) == StructuralHash(committed) ==>
      && StructuralHash(pod.booted) == StructuralHash(committed)
      && Between(pod.memory, VarsIn(committed), VarsIn(next))
      && Between(pod.runtime, VarsIn(committed), VarsIn(next))
  }

  ghost predicate PodsFollow(pods: Pods, rev: nat, committed: Data, next: Data) {
    forall p | p in pods :: pods[p].rev <= rev && (pods[p].rev == rev ==> PodFollows(pods[p], committed, next))
  }

  ghost predicate Inv(s: State, pending: Option<Data>, committed: Option<Data>) {
    && Anchored(s)
    && match s.sts
       case None => s.pods == map[] && committed.None? && s.secret == pending
       case Some(t) =>
         && committed.Some? && s.secret.Some?
         && s.secret == (if pending.Some? then pending else committed)
         && t.varsApplied == VarsHash(VarsIn(committed.value))
         && t.structuralApplied == StructuralHash(committed.value)
         && PodsFollow(s.pods, t.rev, committed.value, s.secret.value)
  }

  /** Structurally equal Secrets declare the same variables and the diff covers the change. */
  lemma SameStructure(a: Data, b: Data)
    requires StructuralHash(a) == StructuralHash(b)
    ensures VarsIn(a).Keys == VarsIn(b).Keys
    ensures VarsIn(a) + Cnf.Changed(VarsIn(a), VarsIn(b)) == VarsIn(b)
    ensures a == map[] <==> b == map[]
  {
    ChecksumExact(StructuralView(a), StructuralView(b));
    ViewsEqual(a, b);
    Cnf.DiffComplete(CnfText(a), CnfText(b));
  }

  lemma VarsHashed(a: Data, b: Data)
    ensures VarsHash(VarsIn(a)) == VarsHash(VarsIn(b)) <==> VarsIn(a) == VarsIn(b)
  {
    VarsHashExact(CnfText(a), CnfText(b));
  }

  /** Every variable of a cnf belongs to one of the three admin domains. */
  lemma DomainKnown(data: Data, k: string)
    requires k in VarsIn(data)
    ensures Domain(k).Some?
  {
    Cnf.ParseWellFormed(CnfText(data));
    var p, key :| Cnf.IsDomain(p) && Cnf.IsKey(key) && k == p + "-" + key;
    assert p + "-" <= k;
  }

  /* ---- variables: single pods under a push ---- */

  lemma BetweenPushed(pod: Pod, committed: Vars, next: Vars, changed: Vars, updated: set<string>, loaded: set<string>,
                      startupOnly: set<string>)
    requires Between(pod.memory, committed, next) && Between(pod.runtime, committed, next)
    requires Agrees(next, changed)
    ensures var after := Load(Update(pod, changed, updated), loaded, startupOnly);
            Between(after.memory, committed, next) && Between(after.runtime, committed, next)
  {
  }

  /** A push of every variable sets all of them except the startup-only ones. */
  lemma FullPush(pod: Pod, data: Data, startupOnly: set<string>)
    ensures var after := Push(pod, VarsIn(data), startupOnly);
            && Agrees(after.memory, VarsIn(data))
            && (forall k | k in VarsIn(data) && k !in startupOnly ::
                k in after.runtime && after.runtime[k] == VarsIn(data)[k])
  {
    var vars := VarsIn(data);
    forall k | k in vars ensures Domain(k).Some? && Domain(k).value in Domains(vars) {
      DomainKnown(data, k);
    }
  }

  /** No push moves a startup-only variable at runtime. */
  lemma StartupOnlyStays(pod: Pod, changed: Vars, updated: set<string>, loaded: set<string>, startupOnly: set<string>,
                         k: string)
    requires k in startupOnly
    ensures var after := Load(Update(pod, changed, updated), loaded, startupOnly);
            (k in after.runtime <==> k in pod.runtime) && Cnf.Lookup(after.runtime, k) == Cnf.Lookup(pod.runtime, k)
  {
  }

  /** Pushing the diff to a pod that runs the old variables, with a clean read-back. */
  lemma DiffPush(pod: Pod, oldVars: Vars, newVars: Vars, startupOnly: set<string>)
    requires Agrees(pod.memory, oldVars) && Agrees(pod.runtime, oldVars)
    requires oldVars.Keys == newVars.Keys
    requires forall k | k in newVars :: Domain(k).Some?
    requires Mismatched(Push(pod, Cnf.Changed(oldVars, newVars), startupOnly), Cnf.Changed(oldVars, newVars)) == {}
    ensures var after := Push(pod, Cnf.Changed(oldVars, newVars), startupOnly);
            Agrees(after.memory, newVars) && Agrees(after.runtime, newVars)
  {
    var changed := Cnf.Changed(oldVars, newVars);
    var after := Push(pod, changed, startupOnly);
    forall k | k in newVars
      ensures k in after.memory && after.memory[k] == newVars[k]
      ensures k in after.runtime && after.runtime[k] == newVars[k]
    {
      if k in changed {
        assert k !in Mismatched(after, changed);
      }
    }
  }

  /* ---- variables: single steps ---- */

  lemma BootFollows(memory: Vars, rev: nat, committed: Data, next: Data)
    ensures PodFollows(BootOn(memory, rev, next), committed, next)
  {
    if StructuralHash(next) == StructuralHash(committed) {
      SameStructure(committed, next);
    }
  }

  /** How far a push, complete or cut short, can have brought one pod. */
  ghost predicate Reached(pod: Pod, after: Pod, changed: Vars, fault: Option<Fault>, startupOnly: set<string>) {
    || after == pod
    || after == Push(pod, changed, startupOnly)
    || (fault.Some? && after == Load(Update(pod, changed, fault.value.updated), fault.value.loaded, startupOnly))
    || (fault.Some?
        && after == Load(Update(Push(pod, changed, startupOnly), changed, fault.value.updated), fault.value.loaded,
                         startupOnly))
  }

  lemma PodsReached(v: Verdict, pods: Pods, i: Input, f: Option<Fault>, p: string)
    requires p in pods
    ensures var after := PodsFor(v, pods, i, f);
            && after[p].rev == pods[p].rev && after[p].booted == pods[p].booted
            && (if Dials(v, i) then Reached(pods[p], after[p], v.changed, f, i.startupOnly) else after[p] == pods[p])
            && (Dials(v, i) && f.None? && p in i.endpoints ==> after[p] == Push(pods[p], v.changed, i.startupOnly))
  {
    hide Load, Update, Domains, MonitorFallback;
  }

  lemma ReachedBetween(pod: Pod, after: Pod, committed: Vars, next: Vars, changed: Vars, f: Option<Fault>,
                       startupOnly: set<string>)
    requires Between(pod.memory, committed, next) && Between(pod.runtime, committed, next)
    requires Agrees(next, changed) && Reached(pod, after, changed, f, startupOnly)
    ensures Between(after.memory, committed, next) && Between(after.runtime, committed, next)
  {
    hide Load, Update, Domains, Between, Agrees;
    BetweenPushed(pod, committed, next, changed, changed.Keys, Domains(changed), startupOnly);
    if f.Some? {
      BetweenPushed(pod, committed, next, changed, f.value.updated, f.value.loaded, startupOnly);
      BetweenPushed(Push(pod, changed, startupOnly), committed, next, changed, f.value.updated, f.value.loaded,
                    startupOnly);
    }
  }

  lemma ReachedStays(pod: Pod, after: Pod, changed: Vars, f: Option<Fault>, startupOnly: set<string>, k: string)
    requires k in startupOnly && Reached(pod, after, changed, f, startupOnly)
    ensures (k in after.runtime <==> k in pod.runtime) && Cnf.Lookup(after.runtime, k) == Cnf.Lookup(pod.runtime, k)
  {
    hide Load, Update, Domains, Cnf.Lookup;
    StartupOnlyStays(pod, changed, changed.Keys, Domains(changed), startupOnly, k);
    if f.Some? {
      StartupOnlyStays(pod, changed, f.value.updated, f.value.loaded, startupOnly, k);
      StartupOnlyStays(Push(pod, changed, startupOnly), changed, f.value.updated, f.value.loaded, startupOnly, k);
    }
  }

  /** Pods that follow (committed, current) follow (committed, data) through any partial push. */
  lemma InterruptedFollows(s: State, pending: Option<Data>, committed: Option<Data>, i: Input, f: Option<Fault>)
    requires Inv(s, pending, committed) && s.sts.Some?
    requires pending.Some? ==> i.data == pending.value
    ensures PodsFollow(PodsFor(VerdictAt(s, i.data), s.pods, i, f), s.sts.value.rev, committed.value, i.data)
  {
    hide CnfChecksum, StructuralHash, VarsHash, VarsIn, VerdictAt, PodsFor, Reached, Between, Cnf.Changed,
         MonitorFallback;
    var v := VerdictAt(s, i.data);
    var after := PodsFor(v, s.pods, i, f);
    var c := committed.value;
    VerdictSound(s, i.data);
    ChangedWithin(VarsIn(OldData(s)), VarsIn(i.data));
    forall p | p in after
      ensures p in s.pods && after[p].rev == s.pods[p].rev
      ensures after[p].rev == s.sts.value.rev ==> PodFollows(after[p], c, i.data)
    {
      InterruptedPod(v, s.pods, s.sts.value.rev, c, OldData(s), i, f, p);
    }
  }

  lemma InterruptedPod(v: Verdict, pods: Pods, rev: nat, c: Data, x: Data, i: Input, f: Option<Fault>, p: string)
    requires p in pods && (pods[p].rev == rev ==> PodFollows(pods[p], c, x))
    requires x == c || x == i.data
    requires v.RuntimeTry? ==> Agrees(VarsIn(i.data), v.changed)
    ensures var after := PodsFor(v, pods, i, f);
            after[p].rev == pods[p].rev && (after[p].rev == rev ==> PodFollows(after[p], c, i.data))
  {
    hide StructuralHash, VarsIn, PodsFor, Reached, Agrees, MonitorFallback;
    PodsReached(v, pods, i, f, p);
    var after := PodsFor(v, pods, i, f)[p];
    if pods[p].rev == rev && StructuralHash(i.data) == StructuralHash(c) && Dials(v, i) {
      ReachedBetween(pods[p], after, VarsIn(c), VarsIn(i.data), v.changed, f, i.startupOnly);
    }
  }

  lemma ChangedWithin(oldVars: Vars, newVars: Vars)
    ensures Agrees(newVars, Cnf.Changed(oldVars, newVars)) && Agrees(newVars, newVars)
  {
  }

  /** The heart of the matter: a committing pass that keeps the template leaves a pod of the
      current revision with the variables of the new Secret, unless it is a dead restart. */
  lemma KeptPod(v: Verdict, t: Sts, pods: Pods, c: Data, x: Data, i: Input, p: string)
    requires p in pods && PodFollows(pods[p], c, x) && (x == c || x == i.data)
    requires Sound(v, t, x, i.data) && t.varsApplied == VarsHash(VarsIn(c))
    requires StructuralHash(i.data) == StructuralHash(c)
    requires v.RuntimeTry? ==> p in i.endpoints && i.replicas <= |i.endpoints|
    requires ChecksumFor(v, pods, t.checksum, CnfChecksum(i.data), i) == t.checksum
    requires t.checksum == CnfChecksum(i.data) ==>
               forall k | k in i.startupOnly && k in VarsIn(i.data) ::
                   Cnf.Lookup(pods[p].runtime, k) == VarsIn(i.data)[k]
    ensures var after := PodsFor(v, pods, i, None);
            && Agrees(after[p].memory, VarsIn(i.data)) && Agrees(after[p].runtime, VarsIn(i.data))
            && StructuralHash(after[p].booted) == StructuralHash(i.data)
  {
    hide CnfChecksum, StructuralHash, VarsHash, VarsIn, PodsFor, Reached, Push, Cnf.Changed, Cnf.Lookup;
    SameStructure(c, i.data);
    VarsHashed(c, i.data);
    PodsReached(v, pods, i, None, p);
    if v.RuntimeTry? {
      assert t.checksum != CnfChecksum(i.data) ==> Mismatched(Push(pods[p], v.changed, i.startupOnly), v.changed) == {};
      if v.changed == VarsIn(i.data) {
        FullPushSettles(pods[p], i, t.checksum == CnfChecksum(i.data));
      } else {
        DomainsKnown(i.data);
        DiffPush(pods[p], VarsIn(c), VarsIn(i.data), i.startupOnly);
      }
    }
  }

  lemma DomainsKnown(data: Data)
    ensures forall k | k in VarsIn(data) :: Domain(k).Some?
  {
    forall k | k in VarsIn(data) ensures Domain(k).Some? { DomainKnown(data, k); }
  }

  lemma FullPushSettles(pod: Pod, i: Input, unchecked: bool)
    requires forall k | k in VarsIn(i.data) :: k in pod.runtime
    requires !unchecked ==> Mismatched(Push(pod, VarsIn(i.data), i.startupOnly), VarsIn(i.data)) == {}
    requires unchecked ==>
             forall k | k in i.startupOnly && k in VarsIn(i.data) :: Cnf.Lookup(pod.runtime, k) == VarsIn(i.data)[k]
    ensures var after := Push(pod, VarsIn(i.data), i.startupOnly);
            Agrees(after.memory, VarsIn(i.data)) && Agrees(after.runtime, VarsIn(i.data))
  {
    hide VarsIn, Load, Update, Domains;
    var vars := VarsIn(i.data);
    var after := Push(pod, vars, i.startupOnly);
    FullPush(pod, i.data, i.startupOnly);
    forall k | k in vars ensures k in after.runtime && after.runtime[k] == vars[k] {
      if k in i.startupOnly {
        StartupOnlyStays(pod, vars, vars.Keys, Domains(vars), i.startupOnly, k);
        assert unchecked || k !in Mismatched(after, vars);
      }
    }
  }

  lemma AnchoredMarker(s: State)
    requires Anchored(s) && s.sts.Some?
    ensures s.sts.value.structuralApplied == StructuralHash(s.sts.value.rolled)
  {
  }

  lemma CommitInv(s: State, pending: Option<Data>, committed: Option<Data>, i: Input)
    requires Inv(s, pending, committed) && Allowed(s, pending, i, i.startupOnly) && !DeadRestart(s, i)
    ensures Inv(Step(s, Pass(i)), None, Some(i.data))
  {
    hide CnfChecksum, StructuralHash, VarsHash, VarsIn, VerdictAt, PodsFor, ChecksumFor, Cnf.Lookup, Anchored, Sound,
         AnyMismatch;
    var after := Step(s, Pass(i));
    StepAnchored(s, Pass(i));
    if s.sts.Some? {
      var v := VerdictAt(s, i.data);
      VerdictSound(s, i.data);
      forall p | p in after.pods
        ensures after.pods[p].rev <= after.sts.value.rev
        ensures after.pods[p].rev == after.sts.value.rev ==> PodFollows(after.pods[p], i.data, i.data)
      {
        PodsReached(v, s.pods, i, None, p);
        if after.pods[p].rev == after.sts.value.rev {
          KeptChecksum(s, i);
          AnchoredMarker(s);
          KeptPod(v, s.sts.value, s.pods, committed.value, s.secret.value, i, p);
        }
      }
    }
  }

  lemma StepInv(s: State, pending: Option<Data>, committed: Option<Data>, e: Event)
    requires Inv(s, pending, committed) && !e.Pass?
    requires e.Interrupted? ==> pending.Some? ==> e.input.data == pending.value
    ensures Inv(Step(s, e), if e.Interrupted? then Some(e.input.data) else pending, committed)
  {
    if s.sts.Some? {
      match e
      case Interrupted(i, f) => InterruptedFollows(s, pending, committed, i, Some(f));
      case Boot(p) =>
        BootFollows(if p in s.pods then s.pods[p].memory else map[], s.sts.value.rev, committed.value, s.secret.value);
      case Reread(p) =>
        if p in s.pods { BootFollows(s.pods[p].memory, s.pods[p].rev, committed.value, s.secret.value); }
      case Remove(p) =>
    }
  }

  lemma {:induction false} RunInv(events: seq<Event>, startupOnly: set<string>)
    requires Disciplined(events, startupOnly) && NoDeadRestart(events)
    ensures Inv(Run(events), Pending(events), LastCommitted(events))
  {
    if events != [] {
      var n := |events| - 1;
      var before := events[..n];
      assert forall m | 0 <= m <= n :: before[..m] == events[..m];
      RunInv(before, startupOnly);
      match events[n]
      case Pass(i) => CommitInv(Run(before), Pending(before), LastCommitted(before), i);
      case _ => StepInv(Run(before), Pending(before), LastCommitted(before), events[n]);
    }
  }

  /* ---- variables: the theorems ---- */

  /** Variable changes and reverts are never lost: after every commit each pod of the current
      revision runs exactly the values of the Secret and booted on its structure. (A commit
      that changed the template has no such pods until they boot, on this very Secret.) */
  lemma VariablesNeverLost(events: seq<Event>, startupOnly: set<string>)
    requires Disciplined(events, startupOnly) && NoDeadRestart(events)
    requires events != [] && events[|events| - 1].Pass?
    ensures Settled(Run(events))
    ensures var s := Run(events);
            forall p | p in s.pods && s.pods[p].rev == s.sts.value.rev ::
              StructuralHash(s.pods[p].booted) == StructuralHash(s.secret.value)
  {
    RunInv(events, startupOnly);
  }

  /** Exactly when: in a run without a dead restart so far, the next commit settles the pods if
      and only if it is not itself a dead restart. */
  lemma CommitSettlesExactly(events: seq<Event>, i: Input)
    requires Disciplined(events + [Pass(i)], i.startupOnly) && NoDeadRestart(events)
    ensures Settled(Run(events + [Pass(i)])) <==> !DeadRestart(Run(events), i)
  {
    var all := events + [Pass(i)];
    assert all[..|events|] == events;
    var s := Run(events);
    RunInv(events, i.startupOnly);
    if DeadRestart(s, i) {
      DeadRestartLoses(s, i);
    } else {
      CommitInv(s, Pending(events), LastCommitted(events), i);
    }
  }

  lemma DeadRestartLoses(s: State, i: Input)
    requires DeadRestart(s, i)
    ensures !Settled(Step(s, Pass(i)))
  {
    hide CnfChecksum, StructuralHash, VarsHash, VarsIn, VerdictAt, PodsFor, Reached, AnyMismatch, MonitorFallback;
    var p, k :| && p in s.pods && s.pods[p].rev == s.sts.value.rev
                && k in i.startupOnly && k in VarsIn(i.data)
                && Cnf.Lookup(s.pods[p].runtime, k) != VarsIn(i.data)[k];
    var v := VerdictAt(s, i.data);
    var after := Step(s, Pass(i));
    PodsReached(v, s.pods, i, None, p);
    if Dials(v, i) {
      ReachedStays(s.pods[p], after.pods[p], v.changed, None, i.startupOnly, k);
    }
    assert after.pods[p].rev == after.sts.value.rev;
    assert Cnf.Lookup(after.pods[p].runtime, k) != VarsIn(i.data)[k];
  }

  /* ---- when dead restarts cannot happen ---- */

  /** Pushes meet at least one pod of the current revision, and no pod reads a Secret that is
      still waiting for its commit. */
  ghost predicate Calm(events: seq<Event>) {
    events != [] ==>
      var before := events[..|events| - 1];
      && Calm(before)
      && match events[|events| - 1]
         case Pass(i) => MeetsCurrent(Run(before), i)
         case Interrupted(i, _) => true
         case Boot(_) => Pending(before).None?
         case Reread(_) => Pending(before).None?
         case Remove(_) => true
  }

  ghost predicate MeetsCurrent(s: State, i: Input) {
    s.sts.Some? && VerdictAt(s, i.data).RuntimeTry? ==>
      exists p :: p in i.endpoints && p in s.pods && s.pods[p].rev == s.sts.value.rev
  }

  /** Startup-only variables have, in the committed Secret and on every pod of the current
      revision, the value they had when the template was last rolled. */
  ghost predicate StartupFixed(s: State, committed: Option<Data>, startupOnly: set<string>) {
    s.sts.Some? && committed.Some? ==>
      forall k | k in startupOnly && k in VarsIn(committed.value) ::
        && k in VarsIn(s.sts.value.rolled)
        && VarsIn(s.sts.value.rolled)[k] == VarsIn(committed.value)[k]
        && forall p | p in s.pods && s.pods[p].rev == s.sts.value.rev ::
             Cnf.Lookup(s.pods[p].runtime, k) == VarsIn(committed.value)[k]
  }

  lemma CalmNotDead(s: State, pending: Option<Data>, committed: Option<Data>, i: Input)
    requires Inv(s, pending, committed) && StartupFixed(s, committed, i.startupOnly)
    ensures !DeadRestart(s, i)
  {
    if s.sts.Some? && s.sts.value.checksum == CnfChecksum(i.data) {
      ChecksumExact(s.sts.value.rolled, i.data);
      SameStructure(committed.value, i.data);
    }
  }

  lemma CalmCommit(s: State, pending: Option<Data>, committed: Option<Data>, i: Input)
    requires Inv(s, pending, committed) && StartupFixed(s, committed, i.startupOnly)
    requires Allowed(s, pending, i, i.startupOnly) && MeetsCurrent(s, i)
    ensures StartupFixed(Step(s, Pass(i)), Some(i.data), i.startupOnly)
  {
    hide CnfChecksum, StructuralHash, VarsHash, VarsIn, VerdictAt, PodsFor, ChecksumFor, AnyMismatch, Cnf.Changed;
    var after := Step(s, Pass(i));
    CalmNotDead(s, pending, committed, i);
    CommitInv(s, pending, committed, i);
    if s.sts.Some? && NextChecksum(s, i) == Prev(s) {
      KeptChecksum(s, i);
      SameStructure(committed.value, i.data);
      SameStructure(s.sts.value.rolled, i.data);
      forall k | k in i.startupOnly && k in VarsIn(i.data)
        ensures VarsIn(s.sts.value.rolled)[k] == VarsIn(i.data)[k]
        ensures forall p | p in after.pods && after.pods[p].rev == after.sts.value.rev ::
             Cnf.Lookup(after.pods[p].runtime, k) == VarsIn(i.data)[k]
      {
        CalmKept(s, pending, committed, i, k);
      }
    } else if s.sts.Some? {
      forall p | p in after.pods ensures after.pods[p].rev == s.pods[p].rev {
        PodsReached(VerdictAt(s, i.data), s.pods, i, None, p);
      }
    }
  }

  lemma CalmKept(s: State, pending: Option<Data>, committed: Option<Data>, i: Input, k: string)
    requires Inv(s, pending, committed) && StartupFixed(s, committed, i.startupOnly) && s.sts.Some?
    requires Allowed(s, pending, i, i.startupOnly) && MeetsCurrent(s, i)
    requires NextChecksum(s, i) == Prev(s) && k in i.startupOnly && k in VarsIn(i.data)
    requires StructuralHash(i.data) == StructuralHash(committed.value)
    ensures k in VarsIn(committed.value) && VarsIn(committed.value)[k] == VarsIn(i.data)[k]
  {
    hide CnfChecksum, StructuralHash, VarsHash, VarsIn, VerdictAt, PodsFor, AnyMismatch, PodsFollow, Push, Cnf.Changed;
    VerdictSound(s, i.data);
    SameStructure(committed.value, i.data);
    VarsHashed(committed.value, i.data);
    var v := VerdictAt(s, i.data);
    if s.sts.value.checksum == CnfChecksum(i.data) {
      ChecksumExact(s.sts.value.rolled, i.data);
    } else if v.RuntimeTry? {
      var p :| p in i.endpoints && p in s.pods && s.pods[p].rev == s.sts.value.rev;
      var pushed := Push(s.pods[p], v.changed, i.startupOnly);
      ReachedStays(s.pods[p], pushed, v.changed, None, i.startupOnly, k);
      NoMismatchAt(s.pods, i.endpoints, v.changed, i.startupOnly, p, k);
      ChangedAt(VarsIn(committed.value), VarsIn(i.data), k);
    }
  }

  lemma NoMismatchAt(pods: Pods, endpoints: seq<string>, changed: Vars, startupOnly: set<string>, p: string, k: string)
    requires p in pods && p in endpoints && !AnyMismatch(pods, endpoints, changed, startupOnly)
    ensures k in changed ==> Cnf.Lookup(Push(pods[p], changed, startupOnly).runtime, k) == changed[k]
  {
    hide Push;
    assert k in changed ==> k !in Mismatched(Push(pods[p], changed, startupOnly), changed);
  }

  lemma ChangedAt(oldVars: Vars, newVars: Vars, k: string)
    requires k in oldVars && k in newVars
    ensures k in Cnf.Changed(oldVars, newVars) <==> oldVars[k] != newVars[k]
    ensures k in Cnf.Changed(oldVars, newVars) ==> Cnf.Changed(oldVars, newVars)[k] == newVars[k]
  {
  }

  lemma CalmStep(s: State, pending: Option<Data>, committed: Option<Data>, e: Event, startupOnly: set<string>)
    requires Inv(s, pending, committed) && StartupFixed(s, committed, startupOnly) && !e.Pass?
    requires e.Boot? || e.Reread? ==> pending.None?
    requires e.Interrupted? ==> e.input.startupOnly == startupOnly
    ensures StartupFixed(Step(s, e), committed, startupOnly)
  {
    hide CnfChecksum, StructuralHash, VarsHash, VarsIn, VerdictAt, PodsFor, Reached, AnyMismatch, MonitorFallback,
         PodsFollow, Anchored;
    if s.sts.Some? && e.Interrupted? {
      var v := VerdictAt(s, e.input.data);
      var after := Step(s, e);
      forall k, p | k in startupOnly && p in after.pods
        ensures p in s.pods && after.pods[p].rev == s.pods[p].rev
        ensures Cnf.Lookup(after.pods[p].runtime, k) == Cnf.Lookup(s.pods[p].runtime, k)
      {
        PodsReached(v, s.pods, e.input, Some(e.fault), p);
        if Dials(v, e.input) {
          ReachedStays(s.pods[p], after.pods[p], v.changed, Some(e.fault), startupOnly, k);
        }
      }
    }
  }

  lemma FreshFixed(startupOnly: set<string>)
    ensures StartupFixed(FRESH, None, startupOnly)
  {
  }

  /** In a calm run no commit is a dead restart, so nothing is ever lost. */
  lemma {:induction false} CalmRunsLoseNothing(events: seq<Event>, startupOnly: set<string>)
    requires Disciplined(events, startupOnly) && Calm(events)
    ensures NoDeadRestart(events)
    ensures StartupFixed(Run(events), LastCommitted(events), startupOnly)
    ensures events != [] && events[|events| - 1].Pass? ==> Settled(Run(events))
  {
    hide CnfChecksum, StructuralHash, VarsHash, VarsIn, VerdictAt, PodsFor, ChecksumFor, AnyMismatch, DeadRestart,
         StartupFixed, MeetsCurrent;
    FreshFixed(startupOnly);
    if events != [] {
      var n := |events| - 1;
      var before := events[..n];
      assert forall m | 0 <= m <= n :: before[..m] == events[..m];
      CalmRunsLoseNothing(before, startupOnly);
      RunInv(before, startupOnly);
      var s, pending, committed := Run(before), Pending(before), LastCommitted(before);
      match events[n]
      case Pass(i) =>
        CalmNotDead(s, pending, committed, i);
        CalmCommit(s, pending, committed, i);
        CommitInv(s, pending, committed, i);
      case _ => CalmStep(s, pending, committed, events[n], startupOnly);
    }
  }
}
