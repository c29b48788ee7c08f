/** When the TLS rotation engine acts: the fallback is neither early nor late, and a pass that cannot
    decide leaves everything as it is. */
module TlsTiming {
  import opened Text
  import opened Timestamp
  import opened TlsRotation
  import opened TlsWindow

  /** Two minutes, unless a positive window is configured. */
  function Allowed(input: Input): (w: int) {
    if input.window > 0 then input.window else 120_000_000_000
  }

  /** The state records a start for this content that does not lie in the future. */
  ghost predicate Open(state: string, hash: Hash, now: nat, t: nat) {
    Records(state, hash, t) && t * 1_000_000_000 <= now
  }

  ghost predicate Pending(cur: Annotations, input: Input, hash: Hash) {
    Failing(input, hash) && cur.applied != "" && cur.applied != hash
  }

  lemma RecordsOne(state: string, hash: Hash, t: nat, u: nat)
    requires Records(state, hash, t) && Records(state, hash, u)
    ensures t == u
  {
    hide Records;
    StartOfExactly(state, hash, t);
    StartOfExactly(state, hash, u);
  }

  lemma StateRecords(hash: Hash, start: nat)
    requires Representable(start / NANOS)
    ensures Records(FormatState(hash, start), hash, start / NANOS)
  {
    hide Records, StartOf, FormatState, Representable;
    StateRoundTrip(hash, start);
    StartOfExactly(FormatState(hash, start), hash, start / NANOS);
  }

  /* ---- one failing pass ---- */

  /** Without an open window the pass opens one at its own second, unless its dials alone outlast it. */
  lemma OpensWindow(cur: Annotations, input: Input, hash: Hash)
    requires Clocked(input) && Pending(cur, input, hash) && forall t :: !Open(cur.state, hash, input.now, t)
    ensures var out := Resolve(cur, input);
            if input.later - input.now >= Allowed(input) then out == Outcome(Annotations(hash, "", hash), false)
            else && out.failed && out.annotations.applied == cur.applied && out.annotations.restart == cur.restart
                 && Records(out.annotations.state, hash, input.now / 1_000_000_000)
  {
    hide Records, StartOf, FormatState, Representable, Verified;
    var found := StartOf(cur.state, hash);
    if found.Some? { StartOfExactly(cur.state, hash, found.value); }
    assert !(found.Some? && found.value * 1_000_000_000 <= input.now) by {
      assert found.Some? ==> !Open(cur.state, hash, input.now, found.value);
    }
    assert input.endpoints.value != [];
    StateRecords(hash, input.now);
  }

  /** With an open window the pass keeps its start, until the window is over. */
  lemma KeepsWindow(cur: Annotations, input: Input, hash: Hash, t: nat)
    requires Clocked(input) && Pending(cur, input, hash) && Open(cur.state, hash, input.now, t)
    ensures var out := Resolve(cur, input);
            if input.later - t * 1_000_000_000 >= Allowed(input) then out == Outcome(Annotations(hash, "", hash), false)
            else && out.failed && out.annotations.applied == cur.applied && out.annotations.restart == cur.restart
                 && Records(out.annotations.state, hash, t)
  {
    hide Records, StartOf, FormatState, Representable, Verified;
    StartOfExactly(cur.state, hash, t);
    StartRepresentable(cur.state, hash, input);
    assert input.endpoints.value != [];
    StateRecords(hash, t * NANOS);
  }

  /* ---- whole runs ---- */

  /** Event `k` is a failing pass on this content whose clock showed second `t`. */
  ghost predicate FailedAt(events: seq<Event>, k: nat, hash: Hash, t: nat) {
    k < |events| && events[k].Pass? && Failing(events[k].input, hash) && events[k].input.now / 1_000_000_000 == t
  }

  lemma StepRecords(cur: Annotations, e: Event, hash: Hash, t: nat)
    requires Clocked(e.input) && Records(Step(cur, e).state, hash, t)
    ensures Records(cur.state, hash, t) || FailedAt([e], 0, hash, t)
  {
    hide Records, Representable, Verified, Dialed;
    assert !Records("", hash, t) by { NothingRecorded(hash, t); }
    var input := e.input;
    if Step(cur, e).state != cur.state && Step(cur, e).state != "" {
      assert input.secret.Found?;
      var found := input.secret.hash;
      assert Step(cur, e) == Dialed(cur, input, found, input.secret.leaf.value, input.endpoints.value).annotations;
      DialedFails(cur, input, found);
      if t0 :| Open(cur.state, found, input.now, t0) {
        KeepsWindow(cur, input, found, t0);
        OneContent(Step(cur, e).state, found, t0, hash, t);
      } else {
        OpensWindow(cur, input, found);
        OneContent(Step(cur, e).state, found, input.now / 1_000_000_000, hash, t);
      }
    }
  }

  lemma NothingRecorded(hash: Hash, t: nat)
    ensures !Records("", hash, t)
  {
  }

  /** A state speaks of one content and one second. */
  lemma OneContent(state: string, a: Hash, t: nat, b: Hash, u: nat)
    requires Records(state, a, t) && Records(state, b, u)
    ensures a == b && t == u
  {
    var x :| state == a + ['@'] + x;
    var y :| state == b + ['@'] + y;
    assert state[..64] == a && state[..64] == b;
    RecordsOne(state, a, t, u);
  }

  lemma DialedFails(cur: Annotations, input: Input, hash: Hash)
    requires Clocked(input) && Resolve(cur, input).annotations.state != cur.state
             && Resolve(cur, input).annotations.state != "" && input.secret.Found? && input.secret.hash == hash
    ensures Pending(cur, input, hash)
  {
    hide Representable, Verified, FormatState, ParseState;
  }

  /** Whatever start a run has recorded is the clock of one of its failing passes on that content. */
  lemma {:induction false} WindowProvenance(events: seq<Event>, hash: Hash, t: nat) returns (k: nat)
    requires AllClocked(events) && Records(Run(NONE, events).state, hash, t)
    ensures FailedAt(events, k, hash, t)
    decreases |events|
  {
    hide Records, Step, Failing;
    NothingRecorded(hash, t);
    var n := |events| - 1;
    assert events != [];
    RunNext(NONE, events, n);
    assert events[..n + 1] == events;
    StepRecords(Run(NONE, events[..n]), events[n], hash, t);
    if Records(Run(NONE, events[..n]).state, hash, t) {
      k := WindowProvenance(events[..n], hash, t);
    } else {
      k := n;
    }
  }

  /** In every run a fallback comes a window length, up to the rounding of one second, after the clock
      reading of a failing pass on the same content. */
  lemma FallbackNeverEarly(events: seq<Event>, input: Input, hash: Hash) returns (since: Input)
    requires AllClocked(events) && Clocked(input) && FallsBack(Run(NONE, events), input, hash)
    ensures Failing(since, hash) && (since == input || exists k :: 0 <= k < |events| && events[k] == Pass(since))
    ensures input.later - since.now > Allowed(input) - 1_000_000_000
  {
    hide Records, Resolve, Failing, Run;
    var cur := Run(NONE, events);
    since := input;
    if t :| Open(cur.state, hash, input.now, t) {
      KeepsWindow(cur, input, hash, t);
      var k := WindowProvenance(events, hash, t);
      since := events[k].input;
      assert events[k] == Pass(since);
    } else {
      OpensWindow(cur, input, hash);
    }
  }

  /* ---- passes that decide nothing ---- */

  ghost predicate Undecided(cur: Annotations, input: Input) {
    && input.enabled
    && (!input.ready || !input.secret.Found?
        || (cur.applied != "" && cur.applied != input.secret.hash
            && (input.endpoints.None? || input.endpoints.value == [] || input.secret.leaf.None?
                || !input.secret.caUsable)))
  }

  /** Nothing changes; it is an error only if something could not be read. */
  lemma UndecidedKeeps(cur: Annotations, input: Input)
    requires Clocked(input) && Undecided(cur, input)
    ensures Resolve(cur, input).annotations == cur
    ensures Resolve(cur, input).failed <==>
            input.ready && (input.secret.FetchError? || (input.secret.Found? && input.endpoints != Some([])))
  {
    hide Dialed;
  }

  /** Switching TLS off clears all three; the first and the current content are taken as they are. */
  lemma Adopts(cur: Annotations, input: Input)
    requires Clocked(input)
    ensures !input.enabled ==> Resolve(cur, input) == Outcome(Annotations("", "", ""), false)
    ensures input.enabled && input.ready && input.secret.Found?
            && (cur.applied == "" || cur.applied == input.secret.hash) ==>
            Resolve(cur, input) == Outcome(Annotations(input.secret.hash, "", cur.restart), false)
  {
  }
}
