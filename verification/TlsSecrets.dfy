/** Validate-and-hold: which TLS Secrets a StatefulSet template may mount, pass by pass. */
module TlsSecrets {
  import opened Text
  import opened Digest
  import opened TlsRotation

  const SERVING_KEYS: seq<string> := [CERT_KEY, PRIVATE_KEY, CA_KEY]
  const CLIENT_KEYS: seq<string> := [CERT_KEY, PRIVATE_KEY]

  datatype Backend = Backend(ca: string, client: string)

  datatype Tls = Tls(enabled: bool, secretName: string, issuer: string, backend: Option<Backend>)

  /** One Secret of the projected backend-tls volume and the keys it projects. */
  datatype Source = Source(secret: string, keys: seq<string>)

  /** The TLS wiring of a pod template: the tls volume, the tls-init container, the backend projection. */
  datatype Template = Template(volume: string, init: bool, sources: seq<Source>)

  const PLAIN := Template("", false, [])

  /** What a pass finds: the spec, the readable Secrets, and whether the Certificate object, the
      self-signed pair and the StatefulSet read succeeded. */
  datatype Input = Input(
    cluster: string, spec: Option<Tls>, secrets: map<string, Data>, certificate: bool, selfSigned: bool,
    stsReadable: bool)

  function ManagedName(cluster: string): (n: string)
    ensures n != ""
  {
    cluster + "-tls"
  }

  predicate HasKeys(secrets: map<string, Data>, name: string, keys: seq<string>) {
    name in secrets && forall k | k in keys :: ValueOf(secrets[name], k) != ""
  }

  method RequireSecretKeys(secrets: map<string, Data>, name: string, keys: seq<string>) returns (ok: bool)
    ensures ok <==> HasKeys(secrets, name, keys)
  {
    if name !in secrets {
      return false;
    }
    for i := 0 to |keys|
      invariant forall j | 0 <= j < i :: ValueOf(secrets[name], keys[j]) != ""
    {
      if ValueOf(secrets[name], keys[i]) == "" {
        assert keys[i] in keys;
        return false;
      }
    }
    return true;
  }

  /* ---- what a pass may wire ---- */

  predicate Enabled(spec: Option<Tls>) {
    spec.Some? && spec.value.enabled
  }

  /** The serving Secret of the selected tier, once validated (tiers 1 and 2) or minted (tier 3). */
  function Serving(input: Input): (name: Option<string>)
    requires Enabled(input.spec)
  {
    var tls, managed := input.spec.value, ManagedName(input.cluster);
    if tls.secretName != ""
    then (if HasKeys(input.secrets, tls.secretName, SERVING_KEYS) then Some(tls.secretName) else None)
    else if tls.issuer != ""
         then (if input.certificate && HasKeys(input.secrets, managed, SERVING_KEYS) then Some(managed) else None)
    else if input.selfSigned then Some(managed) else None
  }

  predicate Wired(live: Option<Template>) {
    live.Some? && live.value.init && live.value.volume != ""
  }

  predicate WantsBackend(spec: Option<Tls>) {
    Enabled(spec) && spec.value.backend.Some? && spec.value.backend.value.ca != ""
  }

  predicate BackendValid(input: Input, b: Backend) {
    HasKeys(input.secrets, b.ca, [CA_KEY]) && (b.client != "" ==> HasKeys(input.secrets, b.client, CLIENT_KEYS))
  }

  /** The projection of a backend: its CA, and its client pair when named. */
  function Sources(b: Option<Backend>): (sources: seq<Source>) {
    if b.None? || b.value.ca == "" then []
    else [Source(b.value.ca, [CA_KEY])] + if b.value.client == "" then [] else [Source(b.value.client, CLIENT_KEYS)]
  }

  /** The Secret whose key the projection shows, the last one where several do. */
  function Projecting(sources: seq<Source>, key: string): (name: string) {
    if sources == [] then ""
    else if key in sources[|sources| - 1].keys then sources[|sources| - 1].secret
    else Projecting(sources[..|sources| - 1], key)
  }

  /** A backend read back from its projection is the backend that was rendered. */
  lemma ProjectionReadsBack(b: Backend)
    requires b.ca != ""
    ensures Backend(Projecting(Sources(Some(b)), "ca.crt"), Projecting(Sources(Some(b)), "tls.crt")) == b
    ensures Projecting(Sources(Some(b)), "tls.key") == b.client
  {
    assert CA_KEY[0] != CERT_KEY[0] && CA_KEY[0] != PRIVATE_KEY[0];
    var ca := Source(b.ca, [CA_KEY]);
    assert CERT_KEY !in ca.keys && PRIVATE_KEY !in ca.keys && CA_KEY in ca.keys;
    if b.client == "" {
      assert Sources(Some(b)) == [ca] && [ca][..0] == [];
    } else {
      var pair := Source(b.client, CLIENT_KEYS);
      assert CLIENT_KEYS[0] == CERT_KEY && CLIENT_KEYS[1] == PRIVATE_KEY && CA_KEY !in pair.keys;
      assert Sources(Some(b)) == [ca, pair] && [ca, pair][..1] == [ca];
    }
  }

  /** The last-good backend of the live template. */
  function LiveBackend(live: Option<Template>): (b: Option<Backend>) {
    if live.None? || Projecting(live.value.sources, CA_KEY) == "" then None
    else Some(Backend(Projecting(live.value.sources, CA_KEY), Projecting(live.value.sources, CERT_KEY)))
  }

  /** The template a pass commits, or None when it ends before the StatefulSet write. */
  function Resolved(input: Input, live: Option<Template>): (t: Option<Template>) {
    if !Enabled(input.spec) then Some(PLAIN)
    else
      var name := Serving(input);
      if name.None? && !input.stsReadable then None
      else if name.None? && !Wired(live) then Some(PLAIN)
      else
        var volume := if name.Some? then name.value else live.value.volume;
        if !WantsBackend(input.spec) then Some(Template(volume, true, []))
        else if BackendValid(input, input.spec.value.backend.value)
             then Some(Template(volume, true, Sources(input.spec.value.backend)))
        else if !input.stsReadable then None
        else Some(Template(volume, true, Sources(LiveBackend(live))))
  }

  /* ---- the builder the reconciler flips step by step ---- */

  class Builder {
    const cluster: string
    var tls: Option<Tls>
    var mount: string

    constructor (input: Input)
      ensures cluster == input.cluster && tls == input.spec && mount == ""
    {
      cluster, tls, mount := input.cluster, input.spec, "";
    }

    /** ensureTLSSecrets. */
    method EnsureTLSSecrets(input: Input) returns (ready: bool)
      requires cluster == input.cluster && tls == input.spec && mount == ""
      modifies this`mount
      ensures ready <==> Enabled(input.spec) && Serving(input).Some?
      ensures mount == if ready then Serving(input).value else ""
    {
      if !Enabled(tls) {
        return false;
      }
      if tls.value.secretName != "" {
        ready := RequireSecretKeys(input.secrets, tls.value.secretName, SERVING_KEYS);
        if ready { mount := tls.value.secretName; }
      } else if tls.value.issuer != "" {
        ready := false;
        if input.certificate {
          ready := RequireSecretKeys(input.secrets, ManagedName(cluster), SERVING_KEYS);
        }
        if ready { mount := ManagedName(cluster); }
      } else {
        ready := input.selfSigned;
        if ready { mount := ManagedName(cluster); }
      }
    }

    /** holdTLSLastGood. */
    method HoldTLSLastGood(input: Input, live: Option<Template>) returns (ok: bool)
      modifies this
      ensures ok <==> input.stsReadable
      ensures ok ==> if Wired(live) then tls == old(tls) && mount == live.value.volume
              else tls == None && mount == old(mount)
      ensures !ok ==> tls == old(tls) && mount == old(mount)
    {
      if !input.stsReadable {
        return false;
      }
      if Wired(live) {
        mount := live.value.volume;
      } else {
        tls := None;
      }
      return true;
    }

    /** validateBackendTLSSecrets. */
    method ValidateBackend(input: Input) returns (ok: bool)
      ensures ok <==> (WantsBackend(tls) ==> BackendValid(input, tls.value.backend.value))
    {
      if !WantsBackend(tls) {
        return true;
      }
      var b := tls.value.backend.value;
      ok := RequireSecretKeys(input.secrets, b.ca, [CA_KEY]);
      if ok && b.client != "" {
        ok := RequireSecretKeys(input.secrets, b.client, CLIENT_KEYS);
      }
    }

    /** holdBackendTLSLastGood. */
    method HoldBackend(input: Input, live: Option<Template>) returns (ok: bool)
      requires tls.Some?
      modifies this`tls
      ensures ok <==> input.stsReadable
      ensures tls == if ok then Some(old(tls.value).(backend := LiveBackend(live))) else old(tls)
    {
      if !input.stsReadable {
        return false;
      }
      var ca, client := "", "";
      if live.Some? {
        ca := ProjectedBy(live.value.sources, CA_KEY);
        client := ProjectedBy(live.value.sources, CERT_KEY);
      }
      tls := Some(tls.value.(backend := if ca == "" then None else Some(Backend(ca, client))));
      return true;
    }

    function Render(): (t: Template)
      reads this
    {
      if !Enabled(tls) then PLAIN
      else Template(if mount != "" then mount else ManagedName(cluster), true, Sources(tls.value.backend))
    }
  }

  method ProjectedBy(sources: seq<Source>, key: string) returns (name: string)
    ensures name == Projecting(sources, key)
  {
    name := "";
    for i := 0 to |sources|
      invariant name == Projecting(sources[..i], key)
    {
      assert sources[..i + 1][..i] == sources[..i];
      if key in sources[i].keys {
        name := sources[i].secret;
      }
    }
    assert sources[..|sources|] == sources;
  }

  /** The TLS part of a reconcile, in its order. */
  method Reconcile(input: Input, live: Option<Template>) returns (t: Option<Template>)
    ensures t == Resolved(input, live)
  {
    hide HasKeys, Projecting;
    var b := new Builder(input);
    var ready := b.EnsureTLSSecrets(input);
    if Enabled(b.tls) && !ready {
      var held := b.HoldTLSLastGood(input, live);
      if !held {
        return None;
      }
    }
    var valid := b.ValidateBackend(input);
    if !valid {
      var held := b.HoldBackend(input, live);
      if !held {
        return None;
      }
    }
    t := Some(b.Render());
  }

  /* ---- every mounted name was validated when it came in ---- */

  datatype Role = ServingRole | CARole | ClientRole

  function Mounts(t: Template, role: Role): (name: string) {
    match role
    case ServingRole => t.volume
    case CARole => Projecting(t.sources, CA_KEY)
    case ClientRole => Projecting(t.sources, CERT_KEY)
  }

  /** The pass read the Secret and found its keys, or minted it as the tier 3 serving pair. */
  predicate Validated(input: Input, role: Role, name: string) {
    match role
    case ServingRole =>
      || HasKeys(input.secrets, name, ["tls.crt", "tls.key", "ca.crt"])
      || (Enabled(input.spec) && input.spec.value.secretName == "" && input.spec.value.issuer == "" && input.selfSigned
          && name == input.cluster + "-tls")
    case CARole => HasKeys(input.secrets, name, ["ca.crt"])
    case ClientRole => HasKeys(input.secrets, name, ["tls.crt", "tls.key"])
  }

  function MountsLive(live: Option<Template>, role: Role): (name: string) {
    if live.None? then "" else Mounts(live.value, role)
  }

  lemma SourcesMount(b: Option<Backend>, role: Role)
    requires !role.ServingRole?
    ensures var t := Template("", true, Sources(b));
            Mounts(t, role) == if b.None? || b.value.ca == "" then "" else if role.CARole? then b.value.ca
            else b.value.client
  {
    if b.Some? && b.value.ca != "" { ProjectionReadsBack(b.value); }
  }

  /** A name the template did not mount before is mounted only by a pass that validated it. */
  lemma IntroducedValidated(input: Input, live: Option<Template>, role: Role)
    requires Resolved(input, live).Some?
    ensures var name := Mounts(Resolved(input, live).value, role);
            name == "" || name == MountsLive(live, role) || Validated(input, role, name)
  {
    hide HasKeys, Projecting, Sources;
    if !role.ServingRole? {
      SourcesMount(None, role);
      assert Sources(None) == [] by { NoSources(); }
      SourcesMount(LiveBackend(live), role);
      if Enabled(input.spec) { SourcesMount(input.spec.value.backend, role); }
    }
  }

  lemma NoSources()
    ensures Sources(None) == []
  {
  }

  /** What resolves is wired: the user's Secret before the managed one, and, with that or a held one, a
      valid backend by its own names. */
  lemma ResolvedIsWired(input: Input, live: Option<Template>)
    requires Enabled(input.spec) && Resolved(input, live).Some? && Resolved(input, live).value.volume != ""
    ensures var tls, t := input.spec.value, Resolved(input, live).value;
            && t.init
            && (Serving(input).Some? ==>
                  t.volume == if tls.secretName != "" then tls.secretName else input.cluster + "-tls")
            && (WantsBackend(input.spec) && BackendValid(input, tls.backend.value) ==>
                  Backend(Mounts(t, CARole), Mounts(t, ClientRole)) == tls.backend.value)
            && (!WantsBackend(input.spec) ==> Mounts(t, CARole) == "" && Mounts(t, ClientRole) == "")
  {
    hide HasKeys, Projecting, Sources;
    NoSources();
    SourcesMount(None, CARole);
    SourcesMount(None, ClientRole);
    SourcesMount(input.spec.value.backend, CARole);
    SourcesMount(input.spec.value.backend, ClientRole);
  }

  /** While resolution fails, the wired serving name stays as it is, and an unwired template gets none. */
  lemma FailureHolds(input: Input, live: Option<Template>)
    requires Enabled(input.spec) && Serving(input).None?
    ensures Resolved(input, live).None? <==> !input.stsReadable
    ensures Resolved(input, live).Some? ==>
            if live.Some? && live.value.init && live.value.volume != ""
            then Resolved(input, live).value.volume == live.value.volume
            else Resolved(input, live).value == Template("", false, [])
  {
    hide HasKeys, Projecting, Sources;
  }

  /** A backend that does not validate leaves the live projection's names in place, both of them. */
  lemma BackendFailureHolds(input: Input, live: Option<Template>, role: Role)
    requires WantsBackend(input.spec) && !BackendValid(input, input.spec.value.backend.value) && !role.ServingRole?
    requires Resolved(input, live).Some? && Resolved(input, live).value.volume != ""
    requires MountsLive(live, CARole) == "" ==> MountsLive(live, ClientRole) == ""
    ensures Mounts(Resolved(input, live).value, role) == MountsLive(live, role)
  {
    hide HasKeys, Projecting, Sources;
    SourcesMount(LiveBackend(live), role);
  }

  /* ---- the exact conditions ---- */

  /** The Secret is readable and each of these keys holds something. */
  predicate Complete(secrets: map<string, Data>, name: string, keys: set<string>) {
    name in secrets && forall k | k in keys :: k in secrets[name] && secrets[name][k] != ""
  }

  /** A serving Secret resolves exactly when the user's has certificate, key and CA, or, without one, the
      managed Secret has them for a Certificate that was applied, or was minted. */
  lemma ServingExactly(input: Input)
    requires Enabled(input.spec)
    ensures var tls, managed, keys := input.spec.value, input.cluster + "-tls", {"tls.crt", "tls.key", "ca.crt"};
            Serving(input) ==
            if tls.secretName != "" then
              (if Complete(input.secrets, tls.secretName, keys) then Some(tls.secretName) else None)
            else if tls.issuer != "" then
              (if input.certificate && Complete(input.secrets, managed, keys) then Some(managed) else None)
            else if input.selfSigned then Some(managed) else None
  {
    KeysComplete(input.secrets, input.spec.value.secretName);
    KeysComplete(input.secrets, input.cluster + "-tls");
  }

  lemma KeysComplete(secrets: map<string, Data>, name: string)
    ensures HasKeys(secrets, name, SERVING_KEYS) <==> Complete(secrets, name, {"tls.crt", "tls.key", "ca.crt"})
    ensures HasKeys(secrets, name, [CA_KEY]) <==> Complete(secrets, name, {"ca.crt"})
    ensures HasKeys(secrets, name, CLIENT_KEYS) <==> Complete(secrets, name, {"tls.crt", "tls.key"})
  {
    assert SERVING_KEYS == ["tls.crt", "tls.key", "ca.crt"] && CLIENT_KEYS == ["tls.crt", "tls.key"];
    assert SERVING_KEYS[0] in SERVING_KEYS && SERVING_KEYS[1] in SERVING_KEYS && SERVING_KEYS[2] in SERVING_KEYS;
    assert CLIENT_KEYS[0] in CLIENT_KEYS && CLIENT_KEYS[1] in CLIENT_KEYS && [CA_KEY][0] in [CA_KEY];
  }

  /** A backend validates exactly when its CA Secret has a CA and a named client Secret its pair. */
  lemma BackendExactly(input: Input, b: Backend)
    ensures BackendValid(input, b) <==>
            Complete(input.secrets, b.ca, {"ca.crt"})
            && (b.client != "" ==> Complete(input.secrets, b.client, {"tls.crt", "tls.key"}))
  {
    hide HasKeys, Complete;
    KeysComplete(input.secrets, b.ca);
    KeysComplete(input.secrets, b.client);
  }

  /** Without TLS nothing is mounted; a pass ends without a write exactly when something does not
      resolve and the template to hold on to cannot be read. */
  lemma WriteExactly(input: Input, live: Option<Template>)
    ensures input.spec.None? || !input.spec.value.enabled ==> Resolved(input, live) == Some(Template("", false, []))
    ensures Resolved(input, live).None? <==>
            Enabled(input.spec) && !input.stsReadable
            && (Serving(input).None?
                || (WantsBackend(input.spec) && !BackendValid(input, input.spec.value.backend.value)))
  {
    hide HasKeys, Projecting, Sources;
  }

  /* ---- runs ---- */

  /** A pass whose StatefulSet write lands, or one that is lost. */
  datatype Event = Commit(input: Input) | Lost(input: Input)

  function Step(live: Option<Template>, e: Event): (next: Option<Template>) {
    if e.Commit? && Resolved(e.input, live).Some? then Resolved(e.input, live) else live
  }

  function Run(events: seq<Event>): (live: Option<Template>) {
    if events == [] then None else Step(Run(events[..|events| - 1]), events[|events| - 1])
  }

  /** The run mounts the name in this role from event `i` on, where it was validated. */
  ghost predicate MountedSince(events: seq<Event>, role: Role, name: string, i: nat) {
    && i < |events| && events[i].Commit? && Validated(events[i].input, role, name)
    && MountsLive(Run(events[..i]), role) != name
    && forall j | i < j <= |events| :: MountsLive(Run(events[..j]), role) == name
  }

  /** In every run from a cluster without a StatefulSet, each mounted name was validated by the very
      pass that introduced it and has been mounted ever since. */
  lemma {:induction false} MountedNamesValidated(events: seq<Event>, role: Role, name: string) returns (i: nat)
    requires name != "" && MountsLive(Run(events), role) == name
    ensures MountedSince(events, role, name, i)
    decreases |events|
  {
    hide Resolved, Validated, Mounts;
    assert events != [];
    var n := |events| - 1;
    var before := Run(events[..n]);
    assert events[..n + 1] == events;
    if MountsLive(before, role) == name {
      i := MountedNamesValidated(events[..n], role, name);
      assert events[..n][..i] == events[..i];
      forall j | i < j <= |events| ensures MountsLive(Run(events[..j]), role) == name {
        if j <= n { assert events[..n][..j] == events[..j]; }
      }
    } else {
      i := n;
      IntroducedValidated(events[n].input, before, role);
    }
  }

  /** The template's projection shows a client pair only beside a CA. */
  ghost predicate Projected(live: Option<Template>) {
    MountsLive(live, CARole) == "" ==> MountsLive(live, ClientRole) == ""
  }

  lemma StepProjected(live: Option<Template>, e: Event)
    requires Projected(live)
    ensures Projected(Step(live, e))
  {
    hide HasKeys, Projecting, Sources;
    NoSources();
    SourcesMount(None, CARole);
    SourcesMount(None, ClientRole);
    SourcesMount(LiveBackend(live), CARole);
    SourcesMount(LiveBackend(live), ClientRole);
    if Enabled(e.input.spec) {
      SourcesMount(e.input.spec.value.backend, CARole);
      SourcesMount(e.input.spec.value.backend, ClientRole);
    }
  }

  lemma {:induction false} RunProjected(events: seq<Event>)
    ensures Projected(Run(events))
    decreases |events|
  {
    hide Step, Mounts;
    if events != [] {
      RunProjected(events[..|events| - 1]);
      StepProjected(Run(events[..|events| - 1]), events[|events| - 1]);
    } else {
      assert Run([]) == None;
    }
  }

  /** In every run, a pass whose backend does not validate keeps the names the template mounts. */
  lemma BackendHeld(events: seq<Event>, input: Input, role: Role)
    requires WantsBackend(input.spec) && !BackendValid(input, input.spec.value.backend.value) && !role.ServingRole?
    requires Resolved(input, Run(events)).Some? && Resolved(input, Run(events)).value.volume != ""
    ensures MountsLive(Run(events + [Commit(input)]), role) == MountsLive(Run(events), role)
  {
    hide Mounts, Resolved, WantsBackend, BackendValid;
    RunProjected(events);
    BackendFailureHolds(input, Run(events), role);
    assert (events + [Commit(input)])[..|events|] == events;
  }
}
