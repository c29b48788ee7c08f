/** Structural content as the pods run it: when a commit leaves every current pod on the structure of
    the Secret. */
module RestartStructure {
  import opened Text
  import opened Digest
  import opened Restart
  import opened RestartSafety

  ghost predicate Current(s: State, p: string) {
    s.sts.Some? && p in s.pods && s.pods[p].rev == s.sts.value.rev
  }

  /** Every pod of the current revision booted on content of this structure. */
  ghost predicate AllOn(s: State, data: Data) {
    forall p | Current(s, p) :: StructuralHash(s.pods[p].booted) == StructuralHash(data)
  }

  /** No pod is ahead of the template, and there are none before the first commit. */
  ghost predicate Placed(s: State) {
    && (s.sts.Some? ==> s.secret.Some?)
    && (forall p | p in s.pods :: s.sts.Some? && s.pods[p].rev <= s.sts.value.rev)
  }

  lemma PushedPods(s: State, i: Input, f: Option<Fault>, p: string)
    ensures var after := PodsFor(VerdictAt(s, i.data), s.pods, i, f);
            && (p in after <==> p in s.pods)
            && (p in s.pods ==> after[p].rev == s.pods[p].rev && after[p].booted == s.pods[p].booted)
  {
    hide PodsFor, VerdictAt, Reached;
    if p in s.pods { PodsReached(VerdictAt(s, i.data), s.pods, i, f, p); }
  }

  lemma StepPlaced(s: State, e: Event)
    requires Placed(s)
    ensures Placed(Step(s, e))
  {
    hide PodsFor, VerdictAt, NextChecksum, StructuralHash, VarsHash;
    var after := Step(s, e);
    forall p | p in after.pods ensures after.sts.Some? && after.pods[p].rev <= after.sts.value.rev {
      if e.Pass? || e.Interrupted? { PushedPods(s, e.input, if e.Pass? then None else Some(e.fault), p); }
    }
  }

  lemma {:induction false} RunPlaced(events: seq<Event>)
    ensures Placed(Run(events))
  {
    hide Step;
    if events != [] {
      RunPlaced(events[..|events| - 1]);
      StepPlaced(Run(events[..|events| - 1]), events[|events| - 1]);
    }
  }

  /* ---- exactly ---- */

  ghost predicate KeepsTemplate(s: State, i: Input) {
    s.sts.Some? && NextChecksum(s, i) == Prev(s)
  }

  /** One commit: a changed template leaves no current pod, a kept one leaves them as they booted. */
  lemma CommitOnStructure(s: State, i: Input)
    requires Anchored(s) && Placed(s)
    ensures AllOn(Step(s, Pass(i)), i.data) <==> (KeepsTemplate(s, i) ==> AllOn(s, s.sts.value.rolled))
  {
    hide PodsFor, VerdictAt, NextChecksum, StructuralHash, VarsHash, CnfChecksum;
    var after := Step(s, Pass(i));
    forall p
      ensures Current(after, p) <==> KeepsTemplate(s, i) && Current(s, p)
      ensures Current(after, p) ==> after.pods[p].booted == s.pods[p].booted {
      PushedPods(s, i, None, p);
    }
    if KeepsTemplate(s, i) {
      KeptChecksum(s, i);
    }
  }

  /** In every run: the next commit leaves all current pods on the structure of its Secret if and only
      if it changes the template or each of them had booted on the structure last rolled out. */
  lemma CommitOnStructureExactly(events: seq<Event>, i: Input)
    ensures var s := Run(events);
            AllOn(Run(events + [Pass(i)]), i.data) <==> (KeepsTemplate(s, i) ==> AllOn(s, s.sts.value.rolled))
  {
    hide Step, KeepsTemplate, AllOn;
    var all := events + [Pass(i)];
    assert all[..|events|] == events;
    StructuralRestartsNeverLost(events);
    RunPlaced(events);
    CommitOnStructure(Run(events), i);
  }

  /* ---- with retries ---- */

  /** An interrupted pass is retried with the same rendered Secret until one commits. */
  ghost predicate Retried(events: seq<Event>) {
    events != [] ==>
      var before := events[..|events| - 1];
      Retried(before) && Retries(Pending(before), events[|events| - 1])
  }

  ghost predicate Retries(pending: Option<Data>, e: Event) {
    (e.Pass? || e.Interrupted?) && pending.Some? ==> e.input.data == pending.value
  }

  /** Pods booted on the applied structure or on that of the Secret still to be committed. */
  ghost predicate Following(s: State, pending: Option<Data>) {
    && Anchored(s) && Placed(s)
    && (s.sts.Some? ==>
          && (if pending.Some? then s.secret == pending
              else StructuralHash(s.secret.value) == s.sts.value.structuralApplied)
          && forall p | Current(s, p) ::
               || StructuralHash(s.pods[p].booted) == s.sts.value.structuralApplied
               || StructuralHash(s.pods[p].booted) == StructuralHash(s.secret.value))
  }

  lemma PassFollows(s: State, pending: Option<Data>, i: Input)
    requires Following(s, pending) && Retries(pending, Pass(i))
    ensures Following(Step(s, Pass(i)), None) && AllOn(Step(s, Pass(i)), i.data)
  {
    hide PodsFor, VerdictAt, NextChecksum, StructuralHash, VarsHash, CnfChecksum;
    StepAnchored(s, Pass(i));
    StepPlaced(s, Pass(i));
    if KeepsTemplate(s, i) {
      KeptChecksum(s, i);
    }
    CommitOnStructure(s, i);
  }

  lemma InterruptedFollowing(s: State, pending: Option<Data>, i: Input, f: Fault)
    requires Following(s, pending) && Retries(pending, Interrupted(i, f))
    ensures Following(Step(s, Interrupted(i, f)), Some(i.data))
  {
    hide PodsFor, VerdictAt, StructuralHash, VarsHash, CnfChecksum;
    StepPlaced(s, Interrupted(i, f));
    var after := Step(s, Interrupted(i, f));
    forall p | Current(after, p) ensures Current(s, p) && after.pods[p].booted == s.pods[p].booted {
      PushedPods(s, i, Some(f), p);
    }
  }

  lemma StepFollows(s: State, pending: Option<Data>, e: Event)
    requires Following(s, pending) && Retries(pending, e)
    ensures Following(Step(s, e), PendingAfter(pending, e))
  {
    hide PodsFor, VerdictAt, NextChecksum, StructuralHash, VarsHash, CnfChecksum, Commit;
    match e
    case Pass(i) => PassFollows(s, pending, i);
    case Interrupted(i, f) => InterruptedFollowing(s, pending, i, f);
    case Boot(p) => StepPlaced(s, e);
    case Reread(p) => StepPlaced(s, e);
    case Remove(p) => StepPlaced(s, e);
  }

  lemma {:induction false} RunFollows(events: seq<Event>)
    requires Retried(events)
    ensures Following(Run(events), Pending(events))
  {
    hide Step, StructuralHash;
    if events != [] {
      var n := |events| - 1;
      RunFollows(events[..n]);
      StepFollows(Run(events[..n]), Pending(events[..n]), events[n]);
    }
  }

  /** Structural changes reach the pods: in every run that retries interrupted passes, whoever is ready
      and whatever the variables do, each commit leaves all current pods on the Secret's structure. */
  lemma PodsOnStructure(events: seq<Event>, i: Input)
    requires Retried(events + [Pass(i)])
    ensures AllOn(Run(events + [Pass(i)]), i.data)
  {
    hide Step, Following, AllOn;
    var all := events + [Pass(i)];
    assert all[..|events|] == events;
    RunFollows(events);
    PassFollows(Run(events), Pending(events), i);
  }
}
