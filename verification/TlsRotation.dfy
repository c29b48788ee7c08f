/** TLS rotation: reload and verify rotated certificates on every ready replica, with a persisted
    retry window and a rolling restart as the fallback. */
module TlsRotation {
  import opened Text
  import opened Digest
  import opened Timestamp

  /* ---- the content hash ---- */

  const CA_KEY: string := "ca.crt"
  const CERT_KEY: string := "tls.crt"
  const PRIVATE_KEY: string := "tls.key"

  function ValueOf(data: Data, k: string): (v: string) {
    if k in data then data[k] else ""
  }

  /** What tlsContentHash writes to the hash state: the three served keys, an absent one as empty. */
  function ContentStream(data: Data): (stream: string) {
    Framed([(CA_KEY, ValueOf(data, CA_KEY)), (CERT_KEY, ValueOf(data, CERT_KEY)),
            (PRIVATE_KEY, ValueOf(data, PRIVATE_KEY))])
  }

  /** Equal streams are equal served content; other keys of the Secret do not count. */
  lemma ContentStreamExact(a: Data, b: Data)
    ensures ContentStream(a) == ContentStream(b) <==>
            forall k | k in {"ca.crt", "tls.crt", "tls.key"} :: ValueOf(a, k) == ValueOf(b, k)
  {
    hide Framed;
    var ps := [(CA_KEY, ValueOf(a, CA_KEY)), (CERT_KEY, ValueOf(a, CERT_KEY)), (PRIVATE_KEY, ValueOf(a, PRIVATE_KEY))];
    var qs := [(CA_KEY, ValueOf(b, CA_KEY)), (CERT_KEY, ValueOf(b, CERT_KEY)), (PRIVATE_KEY, ValueOf(b, PRIVATE_KEY))];
    if ContentStream(a) == ContentStream(b) {
      FramedUnique(ps, qs);
      assert ps[0] == qs[0] && ps[1] == qs[1] && ps[2] == qs[2];
    }
  }

  predicate HexChar(c: char) {
    IsDigit(c) || 'a' <= c <= 'f'
  }

  /** A digest in hexadecimal; an annotation holds one, or "" for none. */
  type Hash = s: string | |s| == 64 && forall i | 0 <= i < 64 :: HexChar(s[i]) witness seq(64, _ => '0')

  /* ---- the window state ---- */

  const NANOS: nat := 1_000_000_000
  const DEFAULT_WINDOW: nat := 120 * NANOS

  function Window(configured: int): (w: nat) {
    if configured > 0 then configured else DEFAULT_WINDOW
  }

  /** formatTLSRotationState; `start` is in nanoseconds. */
  function FormatState(hash: Hash, start: nat): (state: string)
    requires Representable(start / NANOS)
  {
    hash + ['@'] + Format(start / NANOS)
  }

  /** The second at which the recorded window for this content opened. */
  function StartOf(state: string, hash: Hash): (t: Option<nat>) {
    var i := IndexOf(state, '@');
    if i < |state| && state[..i] == hash then Parse(state[i + 1..]) else None
  }

  /** parseTLSRotationState: a missing, foreign, malformed or future start counts as now. */
  function ParseState(state: string, hash: Hash, now: nat): (start: nat)
    ensures start <= now
  {
    match StartOf(state, hash)
    case Some(t) => if t * NANOS > now then now else t * NANOS
    case None => now
  }

  /** The state records second `t` for this content. */
  ghost predicate Records(state: string, hash: Hash, t: nat) {
    exists text :: state == hash + ['@'] + text && Parse(text) == Some(t)
  }

  lemma StartOfExactly(state: string, hash: Hash, t: nat)
    ensures StartOf(state, hash) == Some(t) <==> Records(state, hash, t)
  {
    assert '@' !in hash;
    hide Parse;
    if StartOf(state, hash) == Some(t) {
      var i := IndexOf(state, '@');
      assert state == hash + ['@'] + state[i + 1..];
    }
    if Records(state, hash, t) {
      var text :| state == hash + ['@'] + text && Parse(text) == Some(t);
      hide IndexOf;
      IndexOfCut(hash, '@', text);
      assert state[..|hash|] == hash && state[|hash| + 1..] == text;
    }
  }

  lemma StateRoundTrip(hash: Hash, start: nat)
    requires Representable(start / NANOS)
    ensures StartOf(FormatState(hash, start), hash) == Some(start / NANOS)
  {
    hide Representable;
    var text := Format(start / NANOS);
    assert '@' !in hash;
    FormatParse(start / NANOS);
    hide Format, Parse, IndexOf;
    IndexOfCut(hash, '@', text);
    var s := hash + ['@'] + text;
    assert s[..|hash|] == hash && s[|hash| + 1..] == text;
  }

  /* ---- one replica ---- */

  const VERIFY_ATTEMPTS: nat := 3

  /** What the dials to one replica give: handshake results in order, None for an error, and whether
      RELOAD TLS succeeded. A trace that ends early is a cancelled context. */
  datatype Replica = Replica(probes: seq<Option<string>>, reloaded: bool)

  predicate Serves(r: Replica, k: nat, fp: string) {
    k < |r.probes| && r.probes[k] == Some(fp)
  }

  /** Seen serving the expected leaf: before the reload, or within the bounded attempts after it. */
  ghost predicate Verified(r: Replica, fp: string) {
    Serves(r, 0, fp) || (r.reloaded && (Serves(r, 1, fp) || Serves(r, 2, fp) || Serves(r, 3, fp)))
  }

  method ReloadAndVerify(r: Replica, fp: string) returns (ok: bool)
    ensures ok <==> Verified(r, fp)
  {
    if Serves(r, 0, fp) {
      return true;
    }
    if !r.reloaded {
      return false;
    }
    for attempt := 0 to VERIFY_ATTEMPTS
      invariant forall k | 1 <= k <= attempt :: !Serves(r, k, fp)
    {
      if attempt + 1 >= |r.probes| {
        return false;
      }
      if Serves(r, attempt + 1, fp) {
        return true;
      }
    }
    return false;
  }

  /* ---- one pass ---- */

  datatype Annotations = Annotations(applied: string, state: string, restart: string)

  const NONE := Annotations("", "", "")

  /** The fetch of the mounted TLS Secret: its content hash, leaf fingerprint and whether ca.crt holds certificates. */
  datatype Fetch = Found(hash: Hash, leaf: Option<string>, caUsable: bool) | NotFound | FetchError

  /** Everything a pass learns from outside; `now` and `later` are the clock before and after the dials. */
  datatype Input = Input(enabled: bool, ready: bool, secret: Fetch, endpoints: Option<seq<Replica>>, now: nat,
                         later: nat, window: int)

  predicate Clocked(input: Input) {
    Representable(input.now / NANOS)
  }

  ghost predicate AllVerified(eps: seq<Replica>, fp: string) {
    forall i | 0 <= i < |eps| :: Verified(eps[i], fp)
  }

  datatype Outcome = Outcome(annotations: Annotations, failed: bool)

  ghost function Dialed(cur: Annotations, input: Input, hash: Hash, fp: string, eps: seq<Replica>): (out: Outcome)
    requires Clocked(input)
  {
    var start := ParseState(cur.state, hash, input.now);
    if AllVerified(eps, fp) then Outcome(Annotations(hash, "", cur.restart), false)
    else if input.later - start >= Window(input.window) then Outcome(Annotations(hash, "", hash), false)
    else
      StartRepresentable(cur.state, hash, input);
      Outcome(Annotations(cur.applied, FormatState(hash, start), cur.restart), true)
  }

  lemma StartRepresentable(state: string, hash: Hash, input: Input)
    requires Clocked(input)
    ensures Representable(ParseState(state, hash, input.now) / NANOS)
  {
    hide Representable, StartOf;
    EarlierRepresentable(ParseState(state, hash, input.now) / NANOS, input.now / NANOS);
  }

  ghost function Resolve(cur: Annotations, input: Input): (out: Outcome)
    requires Clocked(input)
  {
    if !input.enabled then Outcome(NONE, false)
    else if !input.ready then Outcome(cur, false)
    else match input.secret
      case NotFound => Outcome(cur, false)
      case FetchError => Outcome(cur, true)
      case Found(hash, leaf, caUsable) =>
        if cur.applied == "" || cur.applied == hash then Outcome(Annotations(hash, "", cur.restart), false)
        else match input.endpoints
          case None => Outcome(cur, true)
          case Some(eps) =>
            if eps == [] then Outcome(cur, false)
            else if leaf.None? || !caUsable then Outcome(cur, true)
            else Dialed(cur, input, hash, leaf.value, eps)
  }

  method ResolveTLSRotation(cur: Annotations, input: Input) returns (out: Outcome)
    requires Clocked(input)
    ensures out == Resolve(cur, input)
  {
    hide Representable, Format, StartOf;
    if !input.enabled {
      return Outcome(NONE, false);
    }
    if !input.ready || input.secret.NotFound? {
      return Outcome(cur, false);
    }
    if input.secret.FetchError? {
      return Outcome(cur, true);
    }
    var hash := input.secret.hash;
    if cur.applied == "" || cur.applied == hash {
      return Outcome(Annotations(hash, "", cur.restart), false);
    }
    if input.endpoints.None? {
      return Outcome(cur, true);
    }
    var eps := input.endpoints.value;
    if eps == [] {
      return Outcome(cur, false);
    }
    if input.secret.leaf.None? || !input.secret.caUsable {
      return Outcome(cur, true);
    }
    var fp := input.secret.leaf.value;
    var start := ParseState(cur.state, hash, input.now);
    var failures := 0;
    for i := 0 to |eps|
      invariant failures >= 0 && (failures == 0 <==> forall j | 0 <= j < i :: Verified(eps[j], fp))
    {
      var ok := ReloadAndVerify(eps[i], fp);
      if !ok {
        failures := failures + 1;
      }
    }
    if failures == 0 {
      return Outcome(Annotations(hash, "", cur.restart), false);
    }
    if input.later - start >= Window(input.window) {
      return Outcome(Annotations(hash, "", hash), false);
    }
    StartRepresentable(cur.state, hash, input);
    out := Outcome(Annotations(cur.applied, FormatState(hash, start), cur.restart), true);
  }
}
