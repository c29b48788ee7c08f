/** The restart-or-runtime-apply decision: what a change of the cnf Secret needs in order to
    reach the running pods, and the pass that carries it out. */
module Restart {
  import opened Text
  import opened Sorting
  import opened Digest
  import Cnf

  type Vars = map<string, string>

  function CnfText(data: Data): (cnf: string) {
    if CNF_KEY in data then data[CNF_KEY] else ""
  }

  function VarsIn(data: Data): (vars: Vars) {
    Cnf.Parse(CnfText(data))
  }

  /* ---- classification ---- */

  datatype Verdict =
    | BootHash
    | KeepPrev
    | RuntimeTry(changed: Vars)
    | Structural(keys: seq<string>, pending: bool)

  /** The keys other than proxysql.cnf that differ between two Secrets. */
  function DiffKeys(oldData: Data, newData: Data): (keys: set<string>) {
    set k | k in oldData.Keys + newData.Keys && k != CNF_KEY
            && ((k in oldData) != (k in newData) || oldData[k] != newData[k])
  }

  method DiffNonCnfKeys(oldData: Data, newData: Data) returns (keys: seq<string>)
    ensures keys == SortedStrings(DiffKeys(oldData, newData))
  {
    var found := {};
    var todo := oldData.Keys + newData.Keys;
    while todo != {}
      invariant todo <= oldData.Keys + newData.Keys
      invariant found == DiffKeys(oldData, newData) - todo
      decreases todo
    {
      var k :| k in todo;
      todo := todo - {k};
      if k != CNF_KEY && ((k in oldData) != (k in newData) || oldData[k] != newData[k]) {
        found := found + {k};
      }
    }
    assert found == DiffKeys(oldData, newData);
    keys := SortStrings(found);
  }

  /** classifyCnfChange. `prev` is the template checksum before this pass. */
  ghost function Classify(oldData: Data, newData: Data, prev: Marker, appliedVars: Marker,
                          structuralApplied: Marker): (v: Verdict)
  {
    var newHash := CnfChecksum(newData);
    var newVars := VarsIn(newData);
    if prev == NoDigest then BootHash
    else if prev == newHash then
      if |oldData| > 0 && appliedVars != NoDigest && appliedVars != VarsHash(newVars) then RuntimeTry(newVars)
      else BootHash
    else if |oldData| == 0 || CnfText(oldData) == "" then BootHash
    else if DiffKeys(oldData, newData) != {} then Structural(SortedStrings(DiffKeys(oldData, newData)), false)
    else if Cnf.Normalize(CnfText(oldData)) != Cnf.Normalize(CnfText(newData)) then Structural([], false)
    else if structuralApplied != NoDigest && structuralApplied != StructuralHash(newData) then Structural([], true)
    else
      var changed := Cnf.Changed(VarsIn(oldData), newVars);
      if changed != map[] then RuntimeTry(changed)
      else if appliedVars == VarsHash(newVars) then KeepPrev
      else RuntimeTry(newVars)
  }

  method ClassifyCnfChange(oldData: Data, newData: Data, prev: Marker, newHash: Marker, appliedVars: Marker,
                           structuralApplied: Marker)
    returns (v: Verdict)
    requires newHash == CnfChecksum(newData)
    ensures v == Classify(oldData, newData, prev, appliedVars, structuralApplied)
  {
    var newVars := Cnf.ParseCnfVariables(CnfText(newData));
    if prev == NoDigest {
      return BootHash;
    }
    var newVarsHash := VarsDigest(newVars);
    if prev == newHash {
      if |oldData| > 0 && appliedVars != NoDigest && appliedVars != newVarsHash {
        return RuntimeTry(newVars);
      }
      return BootHash;
    }
    if |oldData| == 0 || CnfText(oldData) == "" {
      return BootHash;
    }
    var keys := DiffNonCnfKeys(oldData, newData);
    assert keys == [] <==> DiffKeys(oldData, newData) == {} by {
      assert forall k | k in keys :: k in Elements(keys);
      assert keys != [] ==> keys[0] in Elements(keys);
    }
    if keys != [] {
      return Structural(keys, false);
    }
    var oldNorm := Cnf.NormalizeCnf(CnfText(oldData));
    var newNorm := Cnf.NormalizeCnf(CnfText(newData));
    if oldNorm != newNorm {
      return Structural([], false);
    }
    var structural := StructuralDigest(newData);
    if structuralApplied != NoDigest && structuralApplied != structural {
      return Structural([], true);
    }
    var oldVars := Cnf.ParseCnfVariables(CnfText(oldData));
    var changed := ChangedVars(oldVars, newVars);
    if changed == map[] {
      if appliedVars == newVarsHash {
        return KeepPrev;
      }
      return RuntimeTry(newVars);
    }
    return RuntimeTry(changed);
  }

  method ChangedVars(oldVars: Vars, newVars: Vars) returns (changed: Vars)
    ensures changed == Cnf.Changed(oldVars, newVars)
  {
    changed := map[];
    var todo := newVars.Keys;
    while todo != {}
      invariant todo <= newVars.Keys
      invariant changed == map k | k in Cnf.Changed(oldVars, newVars) && k !in todo :: newVars[k]
      decreases todo
    {
      var k :| k in todo;
      todo := todo - {k};
      if Cnf.Lookup(oldVars, k) != newVars[k] {
        changed := changed[k := newVars[k]];
      }
    }
  }

  /* ---- pods and the runtime push ---- */

  /** A pod: the template revision and Secret content it booted with, its admin table
      global_variables (`memory`) and runtime_global_variables (`runtime`). */
  datatype Pod = Pod(rev: nat, booted: Data, memory: Vars, runtime: Vars)

  function Domain(name: string): (domain: Option<string>) {
    if "admin-" <= name then Some("ADMIN")
    else if "mysql-" <= name then Some("MYSQL")
    else if "pgsql-" <= name then Some("PGSQL")
    else None
  }

  /** UPDATE global_variables for `changed`, restricted to the names in `updated`. */
  function Update(pod: Pod, changed: Vars, updated: set<string>): (after: Pod)
    ensures after.rev == pod.rev && after.booted == pod.booted && after.runtime == pod.runtime
  {
    pod.(memory := pod.memory + map k | k in changed && k in updated && Domain(k).Some? :: changed[k])
  }

  /** The variables that LOAD ADMIN, MYSQL or PGSQL VARIABLES TO RUNTIME concerns. */
  predicate Concerned(domains: set<string>, name: string) {
    || ("ADMIN" in domains && "admin-" <= name)
    || ("MYSQL" in domains && "mysql-" <= name)
    || ("PGSQL" in domains && "pgsql-" <= name)
  }

  /** LOAD ... VARIABLES TO RUNTIME for some domains; startup-only variables do not move. */
  function Load(pod: Pod, domains: set<string>, startupOnly: set<string>): (after: Pod)
    ensures after.rev == pod.rev && after.booted == pod.booted && after.memory == pod.memory
  {
    pod.(runtime := pod.runtime +
      map k | k in pod.memory && k !in startupOnly && Concerned(domains, k) :: pod.memory[k])
  }

  function Domains(changed: Vars): (domains: set<string>) {
    set k | k in changed && Domain(k).Some? :: Domain(k).value
  }

  /** The whole push of `changed` to one pod: every domain that has a variable to set. */
  function Push(pod: Pod, changed: Vars, startupOnly: set<string>): (after: Pod) {
    Load(Update(pod, changed, changed.Keys), Domains(changed), startupOnly)
  }

  /** The read-back: the pushed names whose runtime value is not the pushed one. */
  function Mismatched(pod: Pod, changed: Vars): (names: set<string>) {
    set k | k in changed && Cnf.Lookup(pod.runtime, k) != changed[k]
  }

  lemma PushTwice(pod: Pod, changed: Vars, startupOnly: set<string>)
    ensures Push(Push(pod, changed, startupOnly), changed, startupOnly) == Push(pod, changed, startupOnly)
  {
    var once := Push(pod, changed, startupOnly);
    var twice := Push(once, changed, startupOnly);
    assert twice.memory == once.memory;
    assert twice.runtime == once.runtime;
  }

  type Pods = map<string, Pod>

  function PushAll(pods: Pods, endpoints: seq<string>, changed: Vars, startupOnly: set<string>): (after: Pods)
    ensures after.Keys == pods.Keys
  {
    map p | p in pods :: if p in endpoints then Push(pods[p], changed, startupOnly) else pods[p]
  }

  /** Some dialed pod reads back another value than the pushed one. */
  predicate AnyMismatch(pods: Pods, endpoints: seq<string>, changed: Vars, startupOnly: set<string>) {
    exists p :: p in pods && p in endpoints && Mismatched(Push(pods[p], changed, startupOnly), changed) != {}
  }

  /* ---- one pass over the cluster objects ---- */

  /** What the StatefulSet carries. `rev` counts template changes and `rolled` remembers the
      Secret content at the last one; the operator never reads these two. */
  datatype Sts = Sts(checksum: Marker, varsApplied: Marker, structuralApplied: Marker, rev: nat, rolled: Data)

  datatype State = State(secret: Option<Data>, sts: Option<Sts>, pods: Pods)

  /** What one reconcile works with: the freshly rendered Secret, the declared replica count,
      the ready pods in dialing order, and the variables ProxySQL honours at startup only. */
  datatype Input = Input(data: Data, replicas: nat, endpoints: seq<string>, startupOnly: set<string>)

  /** Where a push breaks off: the endpoint index, and how far it got on that endpoint. */
  datatype Fault = Fault(at: nat, updated: set<string>, loaded: set<string>)

  datatype Event =
    | Pass(input: Input)                      // runs to its StatefulSet write
    | Interrupted(input: Input, fault: Fault) // crash or push error: no marker moves
    | Boot(pod: string)                       // (re)created at the current template revision
    | Reread(pod: string)                     // container restart inside an existing pod
    | Remove(pod: string)

  const MONITOR_KEYS: set<string> := {
    "mysql-monitor_username", "mysql-monitor_password", "pgsql-monitor_username", "pgsql-monitor_password"
  }

  function OldData(s: State): (data: Data) {
    if s.secret.Some? then s.secret.value else map[]
  }

  ghost function VerdictAt(s: State, data: Data): (v: Verdict) {
    match s.sts
    case None => Classify(OldData(s), data, NoDigest, NoDigest, NoDigest)
    case Some(t) => Classify(OldData(s), data, t.checksum, t.varsApplied, t.structuralApplied)
  }

  predicate MonitorFallback(changed: Vars, i: Input) {
    changed.Keys * MONITOR_KEYS != {} && |i.endpoints| < i.replicas
  }

  /** With this verdict the pass dials endpoints and pushes to them. */
  predicate Dials(v: Verdict, i: Input) {
    v.RuntimeTry? && !MonitorFallback(v.changed, i) && i.endpoints != []
  }

  /** The template checksum that a verdict leads to. */
  function ChecksumFor(v: Verdict, pods: Pods, prev: Marker, newHash: Marker, i: Input): (checksum: Marker) {
    match v
    case BootHash => newHash
    case Structural(_, _) => newHash
    case KeepPrev => prev
    case RuntimeTry(changed) =>
      if MonitorFallback(changed, i) || (Dials(v, i) && AnyMismatch(pods, i.endpoints, changed, i.startupOnly))
      then newHash else prev
  }

  /** The pods once a verdict is carried out, in full or up to a fault. */
  function PodsFor(v: Verdict, pods: Pods, i: Input, fault: Option<Fault>): (after: Pods)
    ensures after.Keys == pods.Keys
  {
    if !Dials(v, i) then pods
    else if fault.None? || fault.value.at >= |i.endpoints| then PushAll(pods, i.endpoints, v.changed, i.startupOnly)
    else
      var f := fault.value;
      var done := PushAll(pods, i.endpoints[..f.at], v.changed, i.startupOnly);
      var p := i.endpoints[f.at];
      if p in done then done[p := Load(Update(done[p], v.changed, f.updated), f.loaded, i.startupOnly)] else done
  }

  function Prev(s: State): (prev: Marker) {
    if s.sts.Some? then s.sts.value.checksum else NoDigest
  }

  ghost function NextChecksum(s: State, i: Input): (checksum: Marker) {
    ChecksumFor(VerdictAt(s, i.data), s.pods, Prev(s), CnfChecksum(i.data), i)
  }

  /** ensureStatefulSet: checksum and both markers in one write; a changed checksum is a rollout. */
  ghost function Commit(sts: Option<Sts>, checksum: Marker, data: Data): (t: Sts) {
    var vars, structural := VarsHash(VarsIn(data)), StructuralHash(data);
    match sts
    case None => Sts(checksum, vars, structural, 0, data)
    case Some(t) =>
      if checksum == t.checksum then Sts(checksum, vars, structural, t.rev, t.rolled)
      else Sts(checksum, vars, structural, t.rev + 1, data)
  }

  /** Boot applies every cnf line over the persisted tables, and the cnf wins. */
  function BootOn(memory: Vars, rev: nat, data: Data): (pod: Pod) {
    Pod(rev, data, memory + VarsIn(data), memory + VarsIn(data))
  }

  ghost function Step(s: State, e: Event): (after: State) {
    match e
    case Pass(i) => State(Some(i.data), Some(Commit(s.sts, NextChecksum(s, i), i.data)),
                          PodsFor(VerdictAt(s, i.data), s.pods, i, None))
    case Interrupted(i, f) => State(Some(i.data), s.sts, PodsFor(VerdictAt(s, i.data), s.pods, i, Some(f)))
    case Boot(p) =>
      if s.sts.None? || s.secret.None? then s
      else
        var memory := if p in s.pods then s.pods[p].memory else map[];
        s.(pods := s.pods[p := BootOn(memory, s.sts.value.rev, s.secret.value)])
    case Reread(p) =>
      if p !in s.pods || s.secret.None? then s
      else s.(pods := s.pods[p := BootOn(s.pods[p].memory, s.pods[p].rev, s.secret.value)])
    case Remove(p) => s.(pods := s.pods - {p})
  }

  const FRESH: State := State(None, None, map[])

  ghost function Run(events: seq<Event>): (s: State) {
    if events == [] then FRESH else Step(Run(events[..|events| - 1]), events[|events| - 1])
  }

  /** The reconciler's view: three objects it reads and writes one at a time. */
  class Cluster {
    var secret: Option<Data>
    var sts: Option<Sts>
    var pods: Pods

    ghost function Abs(): (s: State)
      reads this
    {
      State(secret, sts, pods)
    }

    constructor ()
      ensures Abs() == FRESH
    {
      secret, sts, pods := None, None, map[];
    }

    /** Secret write, then resolveRestartChecksum, then the StatefulSet write - or none. */
    method Reconcile(i: Input, fault: Option<Fault>)
      requires forall p | p in i.endpoints :: p in pods
      modifies this
      ensures Abs() == Step(old(Abs()), if fault.None? then Pass(i) else Interrupted(i, fault.value))
    {
      ghost var s := Abs();
      var oldData := if secret.Some? then secret.value else map[];
      secret := Some(i.data);
      var newHash := Checksum(i.data);
      var cur := if sts.Some? then sts.value else Sts(NoDigest, NoDigest, NoDigest, 0, map[]);
      var verdict := ClassifyCnfChange(oldData, i.data, cur.checksum, newHash, cur.varsApplied, cur.structuralApplied);
      assert verdict == VerdictAt(s, i.data);
      var checksum := CarryOut(verdict, cur.checksum, newHash, i, fault);
      if fault.None? {
        WriteStatefulSet(checksum, i.data);
      }
    }

    /** The second half of resolveRestartChecksum: act on the verdict, choose the checksum. */
    method CarryOut(v: Verdict, prev: Marker, newHash: Marker, i: Input, fault: Option<Fault>)
      returns (checksum: Marker)
      requires forall p | p in i.endpoints :: p in pods
      modifies this`pods
      ensures pods == PodsFor(v, old(pods), i, fault)
      ensures fault.None? ==> checksum == ChecksumFor(v, old(pods), prev, newHash, i)
    {
      match v
      case BootHash => checksum := newHash;
      case Structural(_, _) => checksum := newHash;
      case KeepPrev => checksum := prev;
      case RuntimeTry(changed) =>
        if changed.Keys * MONITOR_KEYS != {} && |i.endpoints| < i.replicas {
          checksum := newHash;
        } else if i.endpoints == [] {
          checksum := prev;
        } else {
          var mismatch := PushEndpoints(i, changed, fault);
          checksum := if mismatch then newHash else prev;
        }
    }

    method WriteStatefulSet(checksum: Marker, data: Data)
      modifies this`sts
      ensures sts == Some(Commit(old(sts), checksum, data))
    {
      var parsed := Cnf.ParseCnfVariables(CnfText(data));
      var vars := VarsDigest(parsed);
      var structural := StructuralDigest(data);
      if sts.None? {
        sts := Some(Sts(checksum, vars, structural, 0, data));
      } else if checksum == sts.value.checksum {
        sts := Some(sts.value.(varsApplied := vars, structuralApplied := structural));
      } else {
        sts := Some(Sts(checksum, vars, structural, sts.value.rev + 1, data));
      }
    }

    /** Push to every endpoint in order and read each one back, unless a fault cuts it short. */
    method PushEndpoints(i: Input, changed: Vars, fault: Option<Fault>) returns (mismatch: bool)
      requires forall p | p in i.endpoints :: p in pods
      modifies this`pods
      ensures (fault.None? || fault.value.at >= |i.endpoints|) ==>
                && pods == PushAll(old(pods), i.endpoints, changed, i.startupOnly)
                && mismatch == AnyMismatch(old(pods), i.endpoints, changed, i.startupOnly)
      ensures fault.Some? && fault.value.at < |i.endpoints| ==>
                var done := PushAll(old(pods), i.endpoints[..fault.value.at], changed, i.startupOnly);
                var p := i.endpoints[fault.value.at];
                pods == done[p := Load(Update(done[p], changed, fault.value.updated), fault.value.loaded,
                                       i.startupOnly)]
    {
      mismatch := false;
      var n := 0;
      while n < |i.endpoints|
        invariant 0 <= n <= |i.endpoints| && (fault.Some? ==> n <= fault.value.at)
        invariant pods == PushAll(old(pods), i.endpoints[..n], changed, i.startupOnly)
        invariant mismatch == AnyMismatch(old(pods), i.endpoints[..n], changed, i.startupOnly)
      {
        var p := i.endpoints[n];
        if fault.Some? && fault.value.at == n {
          pods := pods[p := Load(Update(pods[p], changed, fault.value.updated), fault.value.loaded, i.startupOnly)];
          return;
        }
        PushNext(old(pods), i.endpoints, n, changed, i.startupOnly);
        pods := pods[p := Push(pods[p], changed, i.startupOnly)];
        if Mismatched(pods[p], changed) != {} {
          mismatch := true;
        }
        n := n + 1;
      }
      assert i.endpoints[..n] == i.endpoints;
    }
  }

  lemma PushNext(pods: Pods, endpoints: seq<string>, n: nat, changed: Vars, startupOnly: set<string>)
    requires n < |endpoints| && endpoints[n] in pods
    ensures var before := PushAll(pods, endpoints[..n], changed, startupOnly);
            var p := endpoints[n];
            && Push(before[p], changed, startupOnly) == Push(pods[p], changed, startupOnly)
            && before[p := Push(before[p], changed, startupOnly)] ==
               PushAll(pods, endpoints[..n + 1], changed, startupOnly)
    ensures AnyMismatch(pods, endpoints[..n + 1], changed, startupOnly) <==>
              || AnyMismatch(pods, endpoints[..n], changed, startupOnly)
              || Mismatched(Push(pods[endpoints[n]], changed, startupOnly), changed) != {}
  {
    TakeNext(endpoints, n);
    PushTwice(pods[endpoints[n]], changed, startupOnly);
  }

  method Checksum(data: Data) returns (h: Marker)
    ensures h == CnfChecksum(data)
  {
    var stream := WriteFramed(data);
    h := Sha256(stream);
  }
}
