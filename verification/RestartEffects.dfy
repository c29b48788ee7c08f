/** What one committing pass does to the template and the pods, told from the Secrets it stands
    between and not from the branches it takes. */
module RestartEffects {
  import opened Text
  import opened Sorting
  import opened Digest
  import opened Restart
  import opened RestartSafety
  import Cnf

  /** A pass over an existing StatefulSet whose template carries another checksum. */
  ghost predicate OtherTemplate(s: State, i: Input) {
    Anchored(s) && s.sts.Some? && s.secret.Some? && s.sts.value.checksum != CnfChecksum(i.data)
  }

  /** Old Secret, new Secret and the structure applied last differ in variable values only. */
  ghost predicate ValuesOnly(s: State, data: Data)
    requires s.sts.Some? && s.secret.Some?
  {
    StructuralHash(s.secret.value) == StructuralHash(data) == s.sts.value.structuralApplied
  }

  /** A variable to deliver: one the edit changes, or any while an earlier edit is unconfirmed. */
  ghost predicate Due(s: State, data: Data, k: string)
    requires s.sts.Some? && s.secret.Some?
  {
    var was, vars := VarsIn(s.secret.value), VarsIn(data);
    k in vars && if was == vars then s.sts.value.varsApplied != VarsHash(vars) else k !in was || was[k] != vars[k]
  }

  predicate MonitorCredential(k: string) {
    k == "mysql-monitor_username" || k == "mysql-monitor_password" || k == "pgsql-monitor_username"
    || k == "pgsql-monitor_password"
  }

  /** Monitor credentials that cannot reach every replica by a push. */
  ghost predicate CredentialsStranded(s: State, i: Input)
    requires s.sts.Some? && s.secret.Some?
  {
    |i.endpoints| < i.replicas && exists k :: MonitorCredential(k) && Due(s, i.data, k)
  }

  /** A dialed pod runs another value for a due variable that no push can set. */
  ghost predicate NeedsStartup(s: State, i: Input)
    requires s.sts.Some? && s.secret.Some?
  {
    exists p, k :: p in i.endpoints && p in s.pods && Due(s, i.data, k) && k in i.startupOnly
                   && Cnf.Lookup(s.pods[p].runtime, k) != VarsIn(i.data)[k]
  }

  ghost predicate Rolled(s: State, data: Data, after: State)
    requires s.sts.Some?
  {
    after.sts == Some(Sts(CnfChecksum(data), VarsHash(VarsIn(data)), StructuralHash(data), s.sts.value.rev + 1, data))
  }

  ghost predicate Kept(s: State, data: Data, after: State)
    requires s.sts.Some?
  {
    after.sts == Some(s.sts.value.(varsApplied := VarsHash(VarsIn(data)), structuralApplied := StructuralHash(data)))
  }

  /** The dialed pods run the due values, startup-only ones excepted, and no other pod is touched. */
  ghost predicate Delivered(s: State, i: Input, after: State)
    requires s.sts.Some? && s.secret.Some?
  {
    && after.pods.Keys == s.pods.Keys
    && forall p | p in s.pods ::
         if p in i.endpoints then DeliveredTo(s, i, s.pods[p], after.pods[p]) else after.pods[p] == s.pods[p]
  }

  ghost predicate DeliveredTo(s: State, i: Input, pod: Pod, after: Pod)
    requires s.sts.Some? && s.secret.Some?
  {
    && after.rev == pod.rev && after.booted == pod.booted
    && (forall k | Due(s, i.data, k) :: k in after.memory && after.memory[k] == VarsIn(i.data)[k])
    && (forall k | Due(s, i.data, k) && k !in i.startupOnly ::
        k in after.runtime && after.runtime[k] == VarsIn(i.data)[k])
    && (forall k | k in i.startupOnly :: Cnf.Lookup(after.runtime, k) == Cnf.Lookup(pod.runtime, k))
  }

  /* ---- the verdict behind it ---- */

  ghost predicate DueVars(s: State, data: Data, changed: Vars)
    requires s.sts.Some? && s.secret.Some?
  {
    forall k :: (k in changed <==> Due(s, data, k)) && (k in changed ==> changed[k] == VarsIn(data)[k])
  }

  lemma OnlyEmptyIsEmpty(cnf: string)
    ensures Cnf.Normalize(cnf) == "" <==> cnf == ""
  {
    Cnf.MaskedTextsSplit(cnf);
    var lines := Split(cnf, '\n');
    Cnf.ScanAt(Cnf.Outside, lines, 0);
    assert cnf == "" ==> lines == [""];
  }

  /** The marker compares what the two early tests compare. */
  lemma StructuralHashes(a: Data, b: Data)
    ensures StructuralHash(a) == StructuralHash(b) <==>
            DiffKeys(a, b) == {} && (CNF_KEY in a <==> CNF_KEY in b)
            && Cnf.Normalize(CnfText(a)) == Cnf.Normalize(CnfText(b))
  {
    StructuralExact(a, b);
    ViewsEqual(a, b);
    hide Cnf.Normalize, StructuralHash, StructuralView;
    if DiffKeys(a, b) == {} && (CNF_KEY in a <==> CNF_KEY in b) {
      forall k ensures k in a <==> k in b { if k != CNF_KEY { assert k !in DiffKeys(a, b); } }
      forall k | k in a && k != CNF_KEY ensures a[k] == b[k] { assert k !in DiffKeys(a, b); }
    }
  }

  /** With values only to deliver, the old Secret has a cnf: else the template would be up to date. */
  lemma CnfThere(s: State, data: Data)
    requires Anchored(s) && s.sts.Some? && s.secret.Some? && s.sts.value.checksum != CnfChecksum(data)
    requires ValuesOnly(s, data)
    ensures CnfText(s.secret.value) != "" && s.secret.value != map[]
  {
    hide Cnf.Normalize, StructuralHash, CnfChecksum, DiffKeys;
    var was, rolled := s.secret.value, s.sts.value.rolled;
    StructuralHashes(was, data);
    StructuralHashes(rolled, data);
    ChecksumExact(rolled, data);
    if CnfText(was) == "" {
      OnlyEmptyIsEmpty("");
      OnlyEmptyIsEmpty(CnfText(data));
      OnlyEmptyIsEmpty(CnfText(rolled));
      NoDifference(rolled, data);
    }
  }

  lemma NoDifference(a: Data, b: Data)
    requires DiffKeys(a, b) == {} && (CNF_KEY in a <==> CNF_KEY in b) && CnfText(a) == CnfText(b)
    ensures a == b
  {
    forall k ensures (k in a <==> k in b) && (k in a && k in b ==> a[k] == b[k]) {
      if k != CNF_KEY { assert k !in DiffKeys(a, b); }
    }
  }

  lemma StructuralVerdict(s: State, data: Data)
    requires Anchored(s) && s.sts.Some? && s.secret.Some? && s.sts.value.checksum != CnfChecksum(data)
    ensures ValuesOnly(s, data) <==> VerdictAt(s, data).KeepPrev? || VerdictAt(s, data).RuntimeTry?
  {
    hide CnfChecksum, VarsHash, VarsIn, Cnf.Changed, Cnf.Normalize, StructuralHash, DiffKeys;
    StructuralHashes(s.secret.value, data);
    if ValuesOnly(s, data) { CnfThere(s, data); }
    OnlyEmptyIsEmpty(CnfText(s.secret.value));
    OnlyEmptyIsEmpty(CnfText(data));
  }

  lemma ValuesVerdict(s: State, data: Data)
    requires Anchored(s) && s.sts.Some? && s.secret.Some? && s.sts.value.checksum != CnfChecksum(data)
    requires ValuesOnly(s, data)
    ensures match VerdictAt(s, data)
            case RuntimeTry(changed) => DueVars(s, data, changed)
            case _ => forall k :: !Due(s, data, k)
  {
    hide CnfChecksum, VarsHash, VarsIn, Cnf.Normalize, StructuralHash, DiffKeys;
    StructuralVerdict(s, data);
    SameStructure(s.secret.value, data);
    VarsHashed(s.secret.value, data);
    var was, vars := VarsIn(s.secret.value), VarsIn(data);
    if was == vars {
      assert Cnf.Changed(was, vars) == map[];
    }
  }

  /* ---- the push behind it ---- */

  /** A push sets what it may set; a startup-only variable keeps its value. */
  lemma PushSets(pod: Pod, changed: Vars, data: Data, startupOnly: set<string>)
    requires forall k | k in changed :: k in VarsIn(data)
    ensures var after := Push(pod, changed, startupOnly);
            && after.rev == pod.rev && after.booted == pod.booted
            && (forall k | k in changed :: k in after.memory && after.memory[k] == changed[k])
            && (forall k | k in changed && k !in startupOnly :: k in after.runtime && after.runtime[k] == changed[k])
            && (forall k | k in startupOnly :: Cnf.Lookup(after.runtime, k) == Cnf.Lookup(pod.runtime, k))
  {
    hide VarsIn;
    forall k | k in changed ensures Domain(k).Some? && Domain(k).value in Domains(changed) { DomainKnown(data, k); }
  }

  lemma MismatchedExactly(pod: Pod, changed: Vars, data: Data, startupOnly: set<string>)
    requires forall k | k in changed :: k in VarsIn(data)
    ensures Mismatched(Push(pod, changed, startupOnly), changed) != {} <==>
            exists k :: k in changed && k in startupOnly && Cnf.Lookup(pod.runtime, k) != changed[k]
  {
    hide VarsIn, Push;
    PushSets(pod, changed, data, startupOnly);
    var after := Push(pod, changed, startupOnly);
    if k :| k in Mismatched(after, changed) {
      assert k in startupOnly;
    }
    if k :| k in changed && k in startupOnly && Cnf.Lookup(pod.runtime, k) != changed[k] {
      assert k in Mismatched(after, changed);
    }
  }

  lemma FallbackExactly(s: State, i: Input, changed: Vars)
    requires s.sts.Some? && s.secret.Some? && DueVars(s, i.data, changed)
    ensures MonitorFallback(changed, i) <==> CredentialsStranded(s, i)
  {
    hide Due;
    if CredentialsStranded(s, i) {
      var k :| MonitorCredential(k) && Due(s, i.data, k);
      assert k in changed.Keys * MONITOR_KEYS;
    }
    if MonitorFallback(changed, i) {
      var k :| k in changed.Keys * MONITOR_KEYS;
      assert MonitorCredential(k) && Due(s, i.data, k);
    }
  }

  lemma MismatchExactly(s: State, i: Input, changed: Vars)
    requires s.sts.Some? && s.secret.Some? && DueVars(s, i.data, changed)
    ensures AnyMismatch(s.pods, i.endpoints, changed, i.startupOnly) <==> NeedsStartup(s, i)
  {
    hide Push, Mismatched, VarsIn, Cnf.Lookup;
    DueListed(s, i.data, changed);
    hide Due;
    forall p | p in s.pods { MismatchedExactly(s.pods[p], changed, i.data, i.startupOnly); }
    if AnyMismatch(s.pods, i.endpoints, changed, i.startupOnly) {
      var p :| p in s.pods && p in i.endpoints && Mismatched(Push(s.pods[p], changed, i.startupOnly), changed) != {};
      var k :| k in changed && k in i.startupOnly && Cnf.Lookup(s.pods[p].runtime, k) != changed[k];
      assert Due(s, i.data, k);
    }
    if NeedsStartup(s, i) {
      var p, k :| p in i.endpoints && p in s.pods && Due(s, i.data, k) && k in i.startupOnly
                  && Cnf.Lookup(s.pods[p].runtime, k) != VarsIn(i.data)[k];
      assert k in changed && changed[k] == VarsIn(i.data)[k];
    }
  }

  lemma DueListed(s: State, data: Data, changed: Vars)
    requires s.sts.Some? && s.secret.Some? && DueVars(s, data, changed)
    ensures forall k | k in changed :: k in VarsIn(data)
  {
    hide VarsIn, VarsHash;
  }

  lemma PushDelivers(s: State, i: Input, changed: Vars, pod: Pod)
    requires s.sts.Some? && s.secret.Some? && DueVars(s, i.data, changed)
    ensures DeliveredTo(s, i, pod, Push(pod, changed, i.startupOnly))
  {
    hide Push, VarsIn, Cnf.Lookup;
    DueListed(s, i.data, changed);
    hide Due;
    PushSets(pod, changed, i.data, i.startupOnly);
  }

  lemma NothingDelivered(s: State, i: Input)
    requires s.sts.Some? && s.secret.Some? && forall k :: !Due(s, i.data, k)
    ensures forall after: State | after.pods == s.pods :: Delivered(s, i, after)
    ensures !CredentialsStranded(s, i) && !NeedsStartup(s, i)
  {
    hide Due, VarsIn, Cnf.Lookup;
  }

  /* ---- the effects ---- */

  /** The whole pass: it rolls the template exactly for a structural change, for stranded monitor
      credentials, and for a value that only a startup sets; only the last of these comes after a push. */
  lemma RollsExactly(s: State, i: Input)
    requires OtherTemplate(s, i)
    ensures var after := Step(s, Pass(i));
            && after.secret == Some(i.data)
            && (if !ValuesOnly(s, i.data) || CredentialsStranded(s, i) then
                  Rolled(s, i.data, after) && after.pods == s.pods
                else
                  Delivered(s, i, after)
                  && if NeedsStartup(s, i) then Rolled(s, i.data, after) else Kept(s, i.data, after))
  {
    hide CnfChecksum, VarsHash, VarsIn, StructuralHash, VerdictAt, Due, AnyMismatch, MonitorFallback,
         CredentialsStranded, NeedsStartup, PushAll, Delivered;
    StructuralVerdict(s, i.data);
    if ValuesOnly(s, i.data) {
      ValuesVerdict(s, i.data);
      match VerdictAt(s, i.data)
      case RuntimeTry(changed) =>
        FallbackExactly(s, i, changed);
        MismatchExactly(s, i, changed);
        RuntimeTryDelivers(s, i, changed);
      case _ => NothingDelivered(s, i);
    }
  }

  lemma RuntimeTryDelivers(s: State, i: Input, changed: Vars)
    requires s.sts.Some? && s.secret.Some? && DueVars(s, i.data, changed) && VerdictAt(s, i.data) == RuntimeTry(changed)
    ensures !MonitorFallback(changed, i) ==> Delivered(s, i, Step(s, Pass(i)))
    ensures i.endpoints == [] ==> !NeedsStartup(s, i)
  {
    hide CnfChecksum, VarsHash, VarsIn, StructuralHash, VerdictAt, DueVars, Due, AnyMismatch, MonitorFallback,
         DeliveredTo, Push, Cnf.Lookup;
    forall p | p in s.pods { PushDelivers(s, i, changed, s.pods[p]); }
  }

  /** An edit of a monitor credential while a replica is not ready rolls the template and pushes nothing. */
  lemma MonitorEditRolls(s: State, i: Input, k: string)
    requires OtherTemplate(s, i) && ValuesOnly(s, i.data) && |i.endpoints| < i.replicas
    requires k in {"mysql-monitor_username", "mysql-monitor_password", "pgsql-monitor_username",
                   "pgsql-monitor_password"}
    requires k in VarsIn(s.secret.value) && k in VarsIn(i.data) && VarsIn(s.secret.value)[k] != VarsIn(i.data)[k]
    ensures var after := Step(s, Pass(i));
            && after.sts.Some? && after.sts.value.rev == s.sts.value.rev + 1
            && after.sts.value.checksum == CnfChecksum(i.data) && after.pods == s.pods
  {
    hide CnfChecksum, VarsHash, VarsIn, StructuralHash, Step, Anchored;
    assert MonitorCredential(k) && Due(s, i.data, k);
    RollsExactly(s, i);
  }

  /** Any other edit of variables that take effect at runtime leaves the template alone, for every
      number of endpoints, and every dialed pod runs the edited values. */
  lemma RuntimeEditKeeps(s: State, i: Input)
    requires OtherTemplate(s, i) && ValuesOnly(s, i.data) && !CredentialsStranded(s, i)
    requires forall k | Due(s, i.data, k) :: k !in i.startupOnly
    ensures var after := Step(s, Pass(i));
            && after.sts.Some? && after.sts.value.rev == s.sts.value.rev
            && after.sts.value.checksum == s.sts.value.checksum
            && after.pods.Keys == s.pods.Keys
            && forall p, k | p in s.pods && p in i.endpoints && Due(s, i.data, k) ::
                 k in after.pods[p].runtime && after.pods[p].runtime[k] == VarsIn(i.data)[k]
  {
    hide CnfChecksum, VarsHash, VarsIn, StructuralHash, Step, Anchored, Due, CredentialsStranded, ValuesOnly;
    RollsExactly(s, i);
  }

  /* ---- a template that is up to date, and the first pass ---- */

  /** The variables a pass pushes while the template already carries this content. */
  ghost predicate Stale(s: State, data: Data)
    requires s.sts.Some? && s.secret.Some?
  {
    s.secret.value != map[] && s.sts.value.varsApplied != VarsHash(VarsIn(data))
  }

  /** Nothing rolls; a stale marker has all values pushed, unless they hold monitor credentials and
      a replica is not ready. */
  lemma UpToDateTemplate(s: State, i: Input)
    requires Anchored(s) && s.sts.Some? && s.secret.Some? && s.sts.value.checksum == CnfChecksum(i.data)
    ensures var after := Step(s, Pass(i));
            && after.secret == Some(i.data) && Kept(s, i.data, after) && after.pods.Keys == s.pods.Keys
            && forall p | p in s.pods ::
                 if p in i.endpoints && Stale(s, i.data)
                    && !(|i.endpoints| < i.replicas && exists k :: MonitorCredential(k) && k in VarsIn(i.data))
                 then AllSet(s.pods[p], after.pods[p], VarsIn(i.data), i.startupOnly)
                 else after.pods[p] == s.pods[p]
  {
    hide CnfChecksum, VarsHash, VarsIn, StructuralHash, AnyMismatch, MonitorFallback, Push, AllSet;
    var after, vars := Step(s, Pass(i)), VarsIn(i.data);
    CredentialsListed(vars, i);
    forall p | p in s.pods { PushedAll(s.pods[p], i.data, i.startupOnly); }
    assert VerdictAt(s, i.data) == if Stale(s, i.data) then RuntimeTry(vars) else BootHash;
    hide VerdictAt;
  }

  ghost predicate AllSet(pod: Pod, after: Pod, vars: Vars, startupOnly: set<string>) {
    && after.rev == pod.rev && after.booted == pod.booted && Agrees(after.memory, vars)
    && (forall k | k in vars && k !in startupOnly :: k in after.runtime && after.runtime[k] == vars[k])
    && (forall k | k in startupOnly :: Cnf.Lookup(after.runtime, k) == Cnf.Lookup(pod.runtime, k))
  }

  lemma PushedAll(pod: Pod, data: Data, startupOnly: set<string>)
    ensures AllSet(pod, Push(pod, VarsIn(data), startupOnly), VarsIn(data), startupOnly)
  {
    hide Push, VarsIn;
    PushSets(pod, VarsIn(data), data, startupOnly);
  }

  lemma CredentialsListed(vars: Vars, i: Input)
    ensures MonitorFallback(vars, i) <==> |i.endpoints| < i.replicas && exists k :: MonitorCredential(k) && k in vars
  {
    if k :| MonitorCredential(k) && k in vars {
      assert k in vars.Keys * MONITOR_KEYS;
    }
    if k :| k in vars.Keys * MONITOR_KEYS {
      assert MonitorCredential(k);
    }
  }

  lemma FirstPass(s: State, i: Input)
    requires s.sts.None?
    ensures Step(s, Pass(i)) ==
            State(Some(i.data),
                  Some(Sts(CnfChecksum(i.data), VarsHash(VarsIn(i.data)), StructuralHash(i.data), 0, i.data)), s.pods)
  {
    hide CnfChecksum, VarsHash, VarsIn, StructuralHash;
  }

  /** What a structural verdict reports: the differing other keys, and whether the change was left
      pending by an earlier pass. */
  lemma StructuralReport(s: State, data: Data)
    requires Anchored(s) && s.sts.Some? && s.secret.Some? && VerdictAt(s, data).Structural?
    ensures var v, was := VerdictAt(s, data), s.secret.value;
            && (v.pending <==> StructuralHash(was) == StructuralHash(data))
            && forall k :: k in v.keys <==>
                 k != "proxysql.cnf" && (k in was || k in data) && (k in was && k in data ==> was[k] != data[k])
  {
    hide CnfChecksum, VarsHash, VarsIn, Cnf.Changed, Cnf.Normalize, StructuralHash;
    var v, was := VerdictAt(s, data), s.secret.value;
    StructuralHashes(was, data);
    OnlyEmptyIsEmpty(CnfText(was));
    OnlyEmptyIsEmpty(CnfText(data));
    forall k ensures k in v.keys <==> k in DiffKeys(was, data) {
      assert k in v.keys <==> k in Elements(v.keys);
    }
  }

  /** A pass that breaks off moves no marker; the endpoints before the fault are where a whole pass
      takes them, and pods that are not dialed stay as they are. */
  lemma BrokenOff(s: State, i: Input, f: Fault)
    ensures var after := Step(s, Interrupted(i, f));
            && after.secret == Some(i.data) && after.sts == s.sts && after.pods.Keys == s.pods.Keys
            && (forall p | p in s.pods && p !in i.endpoints :: after.pods[p] == s.pods[p])
            && (forall p | p in s.pods && f.at <= |i.endpoints| && p in i.endpoints[..f.at]
                           && p !in i.endpoints[f.at..] ::
                  after.pods[p] == Step(s, Pass(i)).pods[p])
  {
    hide VerdictAt, MonitorFallback, Push, Load, Update, CnfChecksum, VarsHash, VarsIn, StructuralHash, NextChecksum;
    if f.at < |i.endpoints| {
      assert i.endpoints[f.at] in i.endpoints[f.at..];
    }
  }
}
