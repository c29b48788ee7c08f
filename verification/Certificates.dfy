/** The self-signed tier: lifetimes of the CA and of the serving certificates it signs. Clock readings
    are in nanoseconds; a certificate holds whole seconds (section 4.1.2.5 of RFC 5280). */
module Certificates {
  import opened Text
  import opened TlsRotation

  const CA_LIFETIME: int := 5 * 365 * 24 * 3600 * NANOS

  /** A CA Secret with a parseable certificate: its identity, expiry, and whether its key parses. */
  datatype CA = CA(id: nat, notAfter: int, keyOk: bool)

  /** A complete serving Secret with a parseable certificate, and the CA it bundles. */
  datatype Serving = Serving(bundle: CA, notAfter: int, sans: set<string>)

  /** The two Secrets; None stands for absent, incomplete or unparseable data. */
  datatype Pki = Pki(ca: Option<CA>, serving: Option<Serving>)

  /** The second an instant falls in, as X.509 encodes it. */
  function Encoded(at: int): (second: int)
    ensures second * NANOS <= at < second * NANOS + NANOS
  {
    at / NANOS
  }

  /** NeedsRenewal on a parseable certificate. */
  predicate NeedsRenewal(notAfter: int, before: int, now: int) {
    notAfter * NANOS - now < before
  }

  /** One pass: the spec, the clock at its four readings, and the identity a fresh CA would get. */
  datatype Input = Input(duration: int, renewBefore: int, sans: set<string>, caCheck: int, mint: int, check: int,
                         issue: int, freshId: nat)

  predicate InOrder(input: Input) {
    input.caCheck <= input.mint <= input.check <= input.issue
  }

  function KeptOrMinted(pki: Pki, input: Input): (ca: CA) {
    if pki.ca.Some? && !NeedsRenewal(pki.ca.value.notAfter, input.duration + input.renewBefore, input.caCheck)
        then pki.ca.value
    else CA(input.freshId, Encoded(input.mint + CA_LIFETIME), true)
  }

  /** servingReissueNeeded. */
  predicate ReissueNeeded(serving: Option<Serving>, ca: CA, input: Input) {
    || serving.None?
    || serving.value.bundle != ca
    || NeedsRenewal(serving.value.notAfter, input.renewBefore, input.check)
    || !(input.sans <= serving.value.sans)
  }

  function Issued(ca: CA, input: Input): (s: Serving) {
    Serving(ca, Encoded(input.issue + input.duration), input.sans)
  }

  /** How far the pass gets: to the end, or only to the CA write. */
  datatype Event = Pass(input: Input) | DiesAfterCA(input: Input) | LosesCA | LosesServing

  function Step(pki: Pki, e: Event): (next: Pki) {
    match e
    case Pass(input) =>
      var ca := KeptOrMinted(pki, input);
      if !ReissueNeeded(pki.serving, ca, input) || !ca.keyOk then Pki(Some(ca), pki.serving)
      else Pki(Some(ca), Some(Issued(ca, input)))
    case DiesAfterCA(input) => Pki(Some(KeptOrMinted(pki, input)), pki.serving)
    case LosesCA => Pki(None, pki.serving)
    case LosesServing => Pki(pki.ca, None)
  }

  class Secrets {
    var pki: Pki

    /** ensureSelfSignedTLS. */
    method EnsureSelfSignedTLS(input: Input) returns (ok: bool)
      modifies this
      ensures pki == Step(old(pki), Pass(input))
      ensures ok <==> !(ReissueNeeded(old(pki.serving), KeptOrMinted(old(pki), input), input)
                        && !KeptOrMinted(old(pki), input).keyOk)
    {
      var ca := KeptOrMinted(pki, input);
      pki := pki.(ca := Some(ca));
      if !ReissueNeeded(pki.serving, ca, input) {
        return true;
      }
      if !ca.keyOk {
        return false;
      }
      pki := pki.(serving := Some(Issued(ca, input)));
      return true;
    }
  }

  /* ---- a serving certificate never outlives its CA ---- */

  /** The first whole second not before an instant. */
  function Ceil(at: int): (second: int)
    ensures (second - 1) * NANOS < at <= second * NANOS
  {
    (at + NANOS - 1) / NANOS
  }

  /** A certificate issued now ends no later than any CA the check lets pass, and than a fresh CA. */
  predicate Timely(input: Input) {
    && Encoded(input.issue + input.duration) <= Ceil(input.caCheck + input.duration + input.renewBefore)
    && Encoded(input.issue + input.duration) <= Encoded(input.mint + CA_LIFETIME)
  }

  /** A serving certificate expires no later than the CA it bundles, wherever that CA now is. */
  ghost predicate Within(pki: Pki) {
    pki.serving.Some? ==> pki.serving.value.notAfter <= pki.serving.value.bundle.notAfter
  }

  lemma IssuedWithin(pki: Pki, input: Input)
    requires Timely(input)
    ensures Issued(KeptOrMinted(pki, input), input).notAfter <= KeptOrMinted(pki, input).notAfter
  {
    if pki.ca.Some? && KeptOrMinted(pki, input) == pki.ca.value {
      var ca, least := pki.ca.value, input.caCheck + input.duration + input.renewBefore;
      assert ca.notAfter * NANOS >= least || ca == CA(input.freshId, Encoded(input.mint + CA_LIFETIME), true);
      assert (Ceil(least) - 1) * NANOS < least;
    }
  }

  /** A pass keeps every certificate within its CA, whatever Secrets it finds, if and only if its
      clock readings are timely. */
  lemma StaysWithinExactly(input: Input)
    ensures (forall pki | Within(pki) :: Within(Step(pki, Pass(input)))) <==> Timely(input)
  {
    if Timely(input) {
      forall pki | Within(pki) ensures Within(Step(pki, Pass(input))) { IssuedWithin(pki, input); }
    } else {
      var ca := CA(0, Ceil(input.caCheck + input.duration + input.renewBefore), true);
      var kept, none := Pki(Some(ca), None), Pki(None, None);
      assert Within(kept) && Within(none);
      assert Step(kept, Pass(input)).serving == Some(Issued(ca, input));
      assert Step(none, Pass(input)).serving == Some(Issued(KeptOrMinted(none, input), input));
      assert !Within(Step(kept, Pass(input))) || !Within(Step(none, Pass(input)));
    }
  }

  function Run(pki: Pki, events: seq<Event>): (end: Pki) {
    if events == [] then pki else Step(Run(pki, events[..|events| - 1]), events[|events| - 1])
  }

  /** In every run of timely passes, deletions and crashes, no certificate outlives its CA. */
  lemma {:induction false} NeverOutlivesCA(pki: Pki, events: seq<Event>)
    requires Within(pki) && forall e | e in events && e.Pass? :: Timely(e.input)
    ensures Within(Run(pki, events))
    decreases |events|
  {
    hide KeptOrMinted, ReissueNeeded, Timely;
    if events != [] {
      var n := |events| - 1;
      assert (forall e | e in events[..n] :: e in events) && events[n] in events;
      NeverOutlivesCA(pki, events[..n]);
      if events[n].Pass? { IssuedWithin(Run(pki, events[..n]), events[n].input); }
    }
  }

  predicate SoundSpec(input: Input) {
    0 < input.renewBefore < input.duration && input.duration + input.renewBefore <= CA_LIFETIME
  }

  /** A pass no slower than the renewal margin is timely under every sound spec; one that takes two
      seconds longer than the margin is not. */
  lemma PromptIsTimely(input: Input)
    requires InOrder(input) && SoundSpec(input)
    ensures input.issue - input.caCheck <= input.renewBefore ==> Timely(input)
    ensures input.issue - input.caCheck >= input.renewBefore + 2 * NANOS ==> !Timely(input)
  {
  }

  /** A pass that does not fail leaves a serving certificate that bundles the current CA, expires no
      later than it, covers the wanted names and, with a second to spare in the spec, is not due. */
  lemma PassSettles(pki: Pki, input: Input)
    requires Timely(input) && Within(pki) && KeptOrMinted(pki, input).keyOk
    ensures var after := Step(pki, Pass(input));
            && after.ca.Some? && after.serving.Some? && after.serving.value.bundle == after.ca.value
            && after.serving.value.notAfter <= after.ca.value.notAfter
            && input.sans <= after.serving.value.sans
            && (InOrder(input) && input.duration >= input.renewBefore + NANOS ==>
                  !NeedsRenewal(after.serving.value.notAfter, input.renewBefore, input.check))
  {
    IssuedWithin(pki, input);
    hide KeptOrMinted, Timely;
    assert Issued(KeptOrMinted(pki, input), input).notAfter * NANOS > input.issue + input.duration - NANOS;
  }

  /** The CA stays as long as it outlasts a certificate issued now by the renewal margin; else, and when
      there is none, a new one of five years takes its place. */
  lemma CAExactly(pki: Pki, input: Input)
    ensures var ca, least := Step(pki, Pass(input)).ca, input.caCheck + input.duration + input.renewBefore;
            if pki.ca.Some? && pki.ca.value.notAfter * 1_000_000_000 >= least then ca == pki.ca
            else ca.Some? && ca.value.id == input.freshId && ca.value.keyOk
                 && ca.value.notAfter == (input.mint + 157_680_000_000_000_000) / 1_000_000_000
    ensures Step(pki, DiesAfterCA(input)) == Pki(Step(pki, Pass(input)).ca, pki.serving)
  {
  }

  /** The certificate stays while it bundles the current CA, covers the names and is not due; else a new
      one for exactly these names takes its place, unless the CA key is unusable. */
  lemma ServingExactly(pki: Pki, input: Input)
    ensures var after := Step(pki, Pass(input));
            var fits := pki.serving.Some? && Some(pki.serving.value.bundle) == after.ca
                        && (forall n | n in input.sans :: n in pki.serving.value.sans)
                        && pki.serving.value.notAfter * 1_000_000_000 - input.check >= input.renewBefore;
            if fits || !after.ca.value.keyOk then after.serving == pki.serving
            else && after.serving.Some? && Some(after.serving.value.bundle) == after.ca
                 && after.serving.value.sans == input.sans
                 && after.serving.value.notAfter == (input.issue + input.duration) / 1_000_000_000
  {
  }

  /* ---- how often the CA and the certificate are replaced ---- */

  /** A CA just minted passes its own check exactly when duration and margin fit into its encoded
      lifetime; when they exceed the CA lifetime, no later check keeps it and every pass mints anew. */
  lemma MintedCAKept(input: Input, now: int)
    requires now >= input.mint
    ensures NeedsRenewal(Encoded(input.mint + CA_LIFETIME), input.duration + input.renewBefore, input.mint) <==>
            input.duration + input.renewBefore > CA_LIFETIME - (input.mint + CA_LIFETIME) % NANOS
    ensures input.duration + input.renewBefore > CA_LIFETIME ==>
            NeedsRenewal(Encoded(input.mint + CA_LIFETIME), input.duration + input.renewBefore, now)
  {
    var at := input.mint + CA_LIFETIME;
    assert Encoded(at) * NANOS == at - at % NANOS;
  }

  /** The next reissue for age alone comes more than duration - renewBefore less one second later. */
  lemma ReissueGap(input: Input, now: int, ca: CA)
    requires NeedsRenewal(Issued(ca, input).notAfter, input.renewBefore, now)
    ensures now - input.issue > input.duration - input.renewBefore - NANOS
  {
  }

  /** The full gap is kept at every instant exactly when the expiry falls on a whole second. */
  lemma FullGapExactly(input: Input, ca: CA)
    ensures (forall now :: NeedsRenewal(Issued(ca, input).notAfter, input.renewBefore, now) ==>
             now - input.issue > input.duration - input.renewBefore)
            <==> (input.issue + input.duration) % NANOS == 0
  {
    var at := input.issue + input.duration;
    var s := Issued(ca, input);
    assert s.notAfter * NANOS == at - at % NANOS;
    var soon := s.notAfter * NANOS - input.renewBefore + 1;
    assert NeedsRenewal(s.notAfter, input.renewBefore, soon);
  }

  /** With an unchanged CA, names and a complete Secret, age is the only reason to reissue. */
  lemma OnlyAgeReissues(serving: Serving, input: Input)
    requires input.sans <= serving.sans
    ensures ReissueNeeded(Some(serving), serving.bundle, input) <==>
            NeedsRenewal(serving.notAfter, input.renewBefore, input.check)
  {
  }

  /** Same spec, and the CA passes its check. */
  predicate Steady(input: Input, first: Input, ca: CA) {
    && input.duration == first.duration && input.renewBefore == first.renewBefore && input.sans == first.sans
    && !NeedsRenewal(ca.notAfter, input.duration + input.renewBefore, input.caCheck)
  }

  function Passes(inputs: seq<Input>): (events: seq<Event>)
    ensures |events| == |inputs| && forall i | 0 <= i < |inputs| :: events[i] == Pass(inputs[i])
  {
    seq(|inputs|, i requires 0 <= i < |inputs| => Pass(inputs[i]))
  }

  lemma {:induction false} QuietPasses(pki: Pki, first: Input, ca: CA, inputs: seq<Input>)
    requires pki == Pki(Some(ca), Some(Issued(ca, first)))
    requires forall i | i in inputs :: Steady(i, first, ca) && !ReissueNeeded(pki.serving, ca, i)
    ensures Run(pki, Passes(inputs)) == pki
    decreases |inputs|
  {
    hide ReissueNeeded, NeedsRenewal, Issued;
    if inputs != [] {
      var n := |inputs| - 1;
      assert Passes(inputs)[..n] == Passes(inputs[..n]);
      QuietPasses(pki, first, ca, inputs[..n]);
      assert inputs[n] in inputs;
    }
  }

  /** With unchanged spec and CA, consecutive reissues lie that far apart whatever passes lie between. */
  lemma ConsecutiveReissues(pki: Pki, first: Input, ca: CA, between: seq<Input>, next: Input)
    requires pki == Pki(Some(ca), Some(Issued(ca, first)))
    requires forall i | i in between :: Steady(i, first, ca) && !ReissueNeeded(pki.serving, ca, i)
    requires Steady(next, first, ca) && ReissueNeeded(Run(pki, Passes(between)).serving, ca, next)
    ensures next.check - first.issue > first.duration - first.renewBefore - NANOS
  {
    QuietPasses(pki, first, ca, between);
    OnlyAgeReissues(pki.serving.value, next);
    ReissueGap(first, next.check, ca);
  }
}
