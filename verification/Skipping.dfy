/** When a config pass that skips its work is right to do so, over runs in which status writes may be lost. */
module Skipping {
  import opened Text
  import opened Desired
  import opened Convergence

  /** A pass whose status write lands, or one that acts and then fails to record it. */
  datatype Event = Pass(input: Input) | Unrecorded(input: Input)

  /** The last pass that read back or pushed: its fingerprint, endpoints and converged ones. */
  datatype Acted = Acted(fingerprint: Fingerprint, endpoints: nat, synced: int)

  datatype History = History(status: Status, last: Option<Acted>)

  ghost function Record(h: History, e: Event): (r: History)
    requires Valid(e.input)
  {
    if Skips(h.status, e.input) then h
    else
      var after := Next(h.status, e.input);
      History(if e.Pass? then after else h.status,
              Some(Acted(FingerprintOf(e.input), |e.input.endpoints|, after.synced)))
  }

  ghost predicate AllValid(events: seq<Event>) {
    forall e | e in events :: Valid(e.input)
  }

  lemma PrefixValid(events: seq<Event>, k: nat)
    requires AllValid(events) && k <= |events|
    ensures AllValid(events[..k]) && (k < |events| ==> Valid(events[k].input))
  {
    hide Valid;
    assert (forall e | e in events[..k] :: e in events) && (k < |events| ==> events[k] in events);
  }

  ghost function Run(events: seq<Event>): (h: History)
    requires AllValid(events)
  {
    if events == [] then History(FRESH, None)
    else
      PrefixValid(events, |events| - 1);
      Record(Run(events[..|events| - 1]), events[|events| - 1])
  }

  /** The run before its event `k`. */
  ghost function Before(events: seq<Event>, k: nat): (h: History)
    requires AllValid(events) && k <= |events|
  {
    PrefixValid(events, k);
    Run(events[..k])
  }

  ghost predicate SkipsAt(events: seq<Event>, k: nat)
    requires AllValid(events) && k < |events|
  {
    Skips(Before(events, k).status, events[k].input)
  }

  /** Event `k` acts, and every later one skips. */
  ghost predicate ActsLast(events: seq<Event>, k: nat)
    requires AllValid(events)
  {
    k < |events| && !SkipsAt(events, k) && forall j | k < j < |events| :: SkipsAt(events, j)
  }

  lemma RunNext(events: seq<Event>, k: nat)
    requires AllValid(events) && k < |events|
    ensures Valid(events[k].input) && Before(events, k + 1) == Record(Before(events, k), events[k])
  {
    hide Valid, Record;
    PrefixValid(events, k);
    PrefixValid(events, k + 1);
    assert events[..k + 1][..k] == events[..k];
  }

  lemma BeforePrefix(events: seq<Event>, n: nat, k: nat)
    requires AllValid(events) && k <= n <= |events|
    ensures AllValid(events[..n]) && Before(events[..n], k) == Before(events, k)
  {
    hide Valid, Run;
    PrefixValid(events, n);
    assert events[..n][..k] == events[..k];
  }

  /** What the status says after the last acting pass, which it knows only if that was recorded. */
  ghost predicate Traces(events: seq<Event>, k: nat)
    requires AllValid(events) && k < |events|
  {
    && Valid(events[k].input)
    && var h, s, input := Run(events), Before(events, k).status, events[k].input;
       && h.last == Some(Acted(FingerprintOf(input), |input.endpoints|, Next(s, input).synced))
       && (events[k].Pass? ==> h.status == Next(s, input))
  }

  lemma {:induction false} LastActing(events: seq<Event>) returns (k: nat)
    requires AllValid(events) && Run(events).status.lastApplied.Some?
    ensures ActsLast(events, k) && Traces(events, k)
    decreases |events|
  {
    hide Valid, Next, Skips, FingerprintOf;
    assert events != [];
    var n := |events| - 1;
    assert events[..n + 1] == events;
    RunNext(events, n);
    if SkipsAt(events, n) {
      BeforePrefix(events, n, n);
      k := LastActing(events[..n]);
      PrefixValid(events, k);
      forall j | k <= j < n ensures SkipsAt(events, j) <==> SkipsAt(events[..n], j) { BeforePrefix(events, n, j); }
      BeforePrefix(events, n, k);
    } else {
      k := n;
    }
  }

  /** The runtime of every current replica was last seen in exactly this state. */
  ghost predicate Settled(h: History, input: Input) {
    h.last.Some? && h.last.value.fingerprint == FingerprintOf(input) && h.last.value.synced == h.last.value.endpoints
  }

  /** In every run, a skipped pass finds everything settled exactly when: after a recorded acting pass,
      the number of endpoints is that pass's; after an unrecorded one, that pass had the same content,
      version and addresses and each of its replicas ended well. */
  lemma SkipSoundExactly(events: seq<Event>, input: Input) returns (k: nat)
    requires AllValid(events) && Valid(input) && Skips(Run(events).status, input)
    ensures ActsLast(events, k) && Valid(events[k].input)
    ensures Settled(Run(events), input) <==>
            if events[k].Pass? then |input.endpoints| == |events[k].input.endpoints|
            else FingerprintOf(events[k].input) == FingerprintOf(input)
                 && AllEndWell(Before(events, k).status, events[k].input)
  {
    hide Run, Before, FingerprintOf, Valid, Next, AllEndWell, AllValid;
    k := LastActing(events);
    var s, acting := Before(events, k).status, events[k].input;
    Accounting(s, acting);
    SyncedExactly(s, acting);
  }

  /* ---- two runs in which a skip is wrong ---- */

  const ONE := Endpoint("proxysql-0", "10.0.0.1:6032")
  const TWO := Endpoint("proxysql-1", "10.0.0.2:6032")
  const GOOD := Push(true, InSync)
  const BAD := Push(false, Unreachable)

  /** A pass at one time and generation: the content changes through a sibling config or a user's
      password, not through an edit of the config itself. */
  function Attempt(content: Desired, endpoints: seq<Endpoint>, pushes: seq<Push>): (input: Input) {
    Input(content, 1, 1, 0, 120, endpoints, seq(|endpoints|, _ => InSync), seq(|endpoints|, _ => InSync), pushes)
  }

  lemma PushesAll(s: Status, input: Input)
    requires Valid(input) && !Unchanged(s, input)
    ensures !Skips(s, input) && Next(s, input).synced == Converging(Recorded(s, input))
    ensures forall i | 0 <= i < |input.endpoints| ::
              Recorded(s, input)[i].status.converged <==> input.pushes[i].ok && input.pushes[i].probe.InSync?
  {
    hide Unchanged, FingerprintOf, Converging;
  }

  /** The first pass: one replica, content a, converged. */
  lemma FirstPass(a: Desired)
    ensures var input := Attempt(a, [ONE], [GOOD]);
            && Valid(input) && !Skips(FRESH, input)
            && Skips(Next(FRESH, input), input) && Next(FRESH, input).lastApplied == Some(FingerprintOf(input))
  {
    var input := Attempt(a, [ONE], [GOOD]);
    PushesAll(FRESH, input);
    var os := Recorded(FRESH, input);
    hide Recorded;
    assert os[..0] == [] && Converging(os) == 1;
  }

  /** A second replica appears together with content b, which reaches only the first. */
  lemma SecondPass(s: Status, a: Desired, b: Desired)
    requires a != b && Skips(s, Attempt(a, [ONE], [GOOD]))
    ensures var input := Attempt(b, [ONE, TWO], [GOOD, BAD]);
            Valid(input) && !Skips(s, input) && Skips(Next(s, input), Attempt(a, [ONE], [GOOD]))
  {
    var input := Attempt(b, [ONE, TWO], [GOOD, BAD]);
    assert ONE.pod[9] != TWO.pod[9];
    assert FingerprintOf(input).content == b;
    PushesAll(s, input);
    var os := Recorded(s, input);
    hide Recorded, FingerprintOf;
    assert os[..1][..0] == [] && Converging(os[..1]) == 1 && Converging(os) == 1;
  }

  lemma RunTwo(e1: Event, e2: Event)
    requires Valid(e1.input) && Valid(e2.input)
    ensures AllValid([e1, e2]) && Run([e1, e2]) == Record(Record(History(FRESH, None), e1), e2)
  {
    hide Valid, Record;
    var events := [e1, e2];
    assert AllValid(events);
    assert events[..0] == [] && events[..2] == events;
    RunNext(events, 0);
    RunNext(events, 1);
  }

  /** The second replica goes away and content a returns: the pass is skipped although the remaining
      replica was last pushed content b. */
  lemma SkippedAfterScaleDown(a: Desired, b: Desired)
    requires a != b
    ensures var events := [Pass(Attempt(a, [ONE], [GOOD])), Pass(Attempt(b, [ONE, TWO], [GOOD, BAD]))];
            var input := Attempt(a, [ONE], [GOOD]);
            AllValid(events) && Valid(input) && Skips(Run(events).status, input) && !Settled(Run(events), input)
  {
    var e1, e2 := Pass(Attempt(a, [ONE], [GOOD])), Pass(Attempt(b, [ONE, TWO], [GOOD, BAD]));
    FirstPass(a);
    SecondPass(Next(FRESH, e1.input), a, b);
    assert FingerprintOf(e1.input).content == a && FingerprintOf(e2.input).content == b;
    hide Next, Valid, Skips, FingerprintOf, Run;
    RunTwo(e1, e2);
  }

  /** Content b reaches the replica, the status write is lost, and content a returns: with unchanged
      endpoints the pass is skipped although the replica was last pushed content b. */
  lemma SkippedAfterLostStatus(a: Desired, b: Desired)
    requires a != b
    ensures var events := [Pass(Attempt(a, [ONE], [GOOD])), Unrecorded(Attempt(b, [ONE], [GOOD]))];
            var input := Attempt(a, [ONE], [GOOD]);
            AllValid(events) && Valid(input) && Skips(Run(events).status, input) && !Settled(Run(events), input)
  {
    var e1, e2 := Pass(Attempt(a, [ONE], [GOOD])), Unrecorded(Attempt(b, [ONE], [GOOD]));
    FirstPass(a);
    FirstPass(b);
    assert FingerprintOf(e1.input).content == a && FingerprintOf(e2.input).content == b;
    var s := Next(FRESH, e1.input);
    assert !Skips(s, e2.input);
    hide Next, Valid, Skips, FingerprintOf, Run;
    RunTwo(e1, e2);
  }
}
