/** What the TLS rotation engine keeps over whole runs of passes, lost writes and clock jumps. */
module TlsWindow {
  import opened Text
  import opened Timestamp
  import opened TlsRotation

  /** A pass that commits its StatefulSet write, or one that dies before it. */
  datatype Event = Pass(input: Input) | Lost(input: Input)

  ghost predicate AllClocked(events: seq<Event>) {
    forall e | e in events :: Clocked(e.input)
  }

  ghost function Step(cur: Annotations, e: Event): (next: Annotations)
    requires Clocked(e.input)
  {
    if e.Pass? then Resolve(cur, e.input).annotations else cur
  }

  ghost function Run(cur: Annotations, events: seq<Event>): (end: Annotations)
    requires AllClocked(events)
  {
    if events == [] then cur
    else
      assert forall e | e in events[..|events| - 1] :: e in events;
      assert events[|events| - 1] in events;
      Step(Run(cur, events[..|events| - 1]), events[|events| - 1])
  }

  lemma RunNext(cur: Annotations, events: seq<Event>, k: nat)
    requires AllClocked(events) && k < |events|
    ensures AllClocked(events[..k]) && AllClocked(events[..k + 1]) && events[k] in events
    ensures Run(cur, events[..k + 1]) == Step(Run(cur, events[..k]), events[k])
  {
    hide Step;
    assert (forall e | e in events[..k] :: e in events) && forall e | e in events[..k + 1] :: e in events;
    assert events[..k + 1][..k] == events[..k];
  }

  /* ---- the window ---- */

  /** The Secret content is this one whenever a pass reads it, and TLS stays on. */
  predicate Holding(input: Input, hash: Hash) {
    input.enabled && (input.secret.Found? ==> input.secret.hash == hash)
  }

  /** Rotation to this content is open since no later than second `t`, or is settled. */
  ghost predicate OpenSince(cur: Annotations, hash: Hash, t: nat) {
    || cur.applied == hash
    || (cur.applied != "" && StartOf(cur.state, hash).Some? && StartOf(cur.state, hash).value <= t)
  }

  lemma DialedKeepsStart(cur: Annotations, input: Input, hash: Hash, fp: string, eps: seq<Replica>, t: nat)
    requires Clocked(input) && StartOf(cur.state, hash).Some? && StartOf(cur.state, hash).value <= t
             && cur.applied != ""
    ensures OpenSince(Dialed(cur, input, hash, fp, eps).annotations, hash, t)
  {
    hide AllVerified, StartOf, FormatState, Representable;
    var start := ParseState(cur.state, hash, input.now);
    assert start / NANOS <= StartOf(cur.state, hash).value;
    StartRepresentable(cur.state, hash, input);
    StateRoundTrip(hash, start);
  }

  /** Neither crashes, held passes, passes without endpoints nor clock jumps move the start later. */
  lemma StepKeepsStart(cur: Annotations, e: Event, hash: Hash, t: nat)
    requires Clocked(e.input) && Holding(e.input, hash) && OpenSince(cur, hash, t)
    ensures OpenSince(Step(cur, e), hash, t)
  {
    hide Dialed, StartOf, Representable;
    var input := e.input;
    if e.Pass? && input.ready && input.secret.Found? && cur.applied != hash && cur.applied != ""
       && input.endpoints.Some? && input.endpoints.value != [] && input.secret.leaf.Some? && input.secret.caUsable {
      DialedKeepsStart(cur, input, hash, input.secret.leaf.value, input.endpoints.value, t);
    }
  }

  lemma {:induction false} WindowNeverLater(cur: Annotations, events: seq<Event>, hash: Hash, t: nat)
    requires AllClocked(events) && OpenSince(cur, hash, t) && forall e | e in events :: Holding(e.input, hash)
    ensures OpenSince(Run(cur, events), hash, t)
    decreases |events|
  {
    hide OpenSince, Step, Holding;
    if events != [] {
      var n := |events| - 1;
      RunNext(cur, events, n);
      assert events[..n + 1] == events && forall e | e in events[..n] :: e in events;
      WindowNeverLater(cur, events[..n], hash, t);
      StepKeepsStart(Run(cur, events[..n]), events[n], hash, t);
    }
  }

  /** The pass reaches its replicas and one of them fails. */
  ghost predicate Failing(input: Input, hash: Hash) {
    && input.enabled && input.ready && input.secret.Found? && input.secret.hash == hash
    && input.secret.leaf.Some? && input.secret.caUsable
    && input.endpoints.Some? && !AllVerified(input.endpoints.value, input.secret.leaf.value)
  }

  lemma Expired(before: Annotations, input: Input, hash: Hash, t: nat)
    requires Clocked(input) && OpenSince(before, hash, t) && before.applied != hash && Failing(input, hash)
    requires input.later >= t * NANOS + Window(input.window)
    ensures Resolve(before, input).annotations == Annotations(hash, "", hash)
  {
    hide StartOf, Representable, Verified;
    var start := ParseState(before.state, hash, input.now);
    assert start <= StartOf(before.state, hash).value * NANOS <= t * NANOS;
    assert input.endpoints.value != [];
  }

  /** However the run got here, a failing pass a window length after the start commits the fallback. */
  lemma FallbackOnTime(cur: Annotations, events: seq<Event>, input: Input, hash: Hash, t: nat)
    requires AllClocked(events) && Clocked(input) && OpenSince(cur, hash, t) && forall e | e in events ::
             Holding(e.input, hash)
    requires Failing(input, hash) && input.later >= t * NANOS + Window(input.window)
    ensures var before := Run(cur, events); var after := Resolve(before, input).annotations;
            after.applied == hash && (before.applied != hash ==> after == Annotations(hash, "", hash))
  {
    WindowNeverLater(cur, events, hash, t);
    hide Run, AllClocked, Clocked;
    var before := Run(cur, events);
    if before.applied != hash {
      Expired(before, input, hash, t);
    }
  }

  /** A pass that reports an error changes neither marker nor restart value; one that reached its
      replicas without an error has settled the content it read. */
  lemma ErrorsKeepPending(cur: Annotations, input: Input)
    requires Clocked(input)
    ensures var out := Resolve(cur, input);
            && (out.failed ==>
                out.annotations.applied == cur.applied && out.annotations.restart == cur.restart && input.enabled
                && input.ready)
            && (!out.failed && Seen(input).Some? && input.endpoints.Some? && input.endpoints.value != [] ==>
                  out.annotations.applied == input.secret.hash && out.annotations.state == "")
  {
    hide ParseState, FormatState, AllVerified, Representable;
  }

  /** Content that every endpoint serves is settled at once, without a restart. */
  lemma ServedContentSettles(cur: Annotations, input: Input)
    requires Clocked(input) && Seen(input).Some? && input.secret.leaf.Some? && input.secret.caUsable
    requires input.endpoints.Some? && input.endpoints.value != []
             && AllVerified(input.endpoints.value, input.secret.leaf.value)
    ensures Resolve(cur, input) == Outcome(Annotations(input.secret.hash, "", cur.restart), false)
  {
    hide ParseState, FormatState, AllVerified, Representable;
  }

  /* ---- restarts against content changes ---- */

  /** A run with its bookkeeping: the content last read, how often it changed, how often a pass set
      a new restart value and how often one removed it. */
  datatype History = History(cur: Annotations, last: Option<Hash>, changes: nat, bumps: nat, removals: nat)

  const START := History(NONE, None, 0, 0, 0)

  function Seen(input: Input): (hash: Option<Hash>) {
    if input.enabled && input.ready && input.secret.Found? then Some(input.secret.hash) else None
  }

  ghost function Record(h: History, e: Event): (r: History)
    requires Clocked(e.input)
  {
    var seen, next := Seen(e.input), Step(h.cur, e);
    History(next,
            if seen.Some? then seen else h.last,
            h.changes + (if seen.Some? && h.last.Some? && seen != h.last then 1 else 0),
            h.bumps + (if next.restart != "" && next.restart != h.cur.restart then 1 else 0),
            h.removals + (if next.restart == "" && h.cur.restart != "" then 1 else 0))
  }

  ghost function RecordAll(events: seq<Event>): (r: History)
    requires AllClocked(events)
  {
    if events == [] then START
    else
      assert forall e | e in events[..|events| - 1] :: e in events;
      assert events[|events| - 1] in events;
      Record(RecordAll(events[..|events| - 1]), events[|events| - 1])
  }

  /** A restart not yet paid for by a content change needs the marker to be on other content. */
  ghost predicate Balanced(h: History) {
    && h.bumps <= h.changes && h.removals + (if h.cur.restart != "" then 1 else 0) <= h.bumps
    && (h.cur.applied != "" ==> h.last.Some?)
    && (h.cur.applied != "" && h.cur.applied != h.last.value ==> h.bumps < h.changes)
  }

  lemma RecordBalanced(h: History, e: Event)
    requires Clocked(e.input) && Balanced(h)
    ensures Balanced(Record(h, e))
  {
    hide ParseState, FormatState, AllVerified, Representable;
  }

  /** In every run from a fresh cluster, restart values are set at most once per content change, and
      removed at most as often. */
  lemma {:induction false} RestartsPerChange(events: seq<Event>)
    requires AllClocked(events)
    ensures var h := RecordAll(events); Balanced(h) && h.removals <= h.bumps <= h.changes
    decreases |events|
  {
    hide Record;
    if events != [] {
      var n := |events| - 1;
      assert forall e | e in events[..n] :: e in events;
      assert events[n] in events;
      RestartsPerChange(events[..n]);
      RecordBalanced(RecordAll(events[..n]), events[n]);
    }
  }

  /** A restart value is removed only by a pass with TLS off. */
  lemma RemovedWhenOff(cur: Annotations, e: Event)
    requires Clocked(e.input) && Step(cur, e).restart == "" && cur.restart != ""
    ensures e.Pass? && !e.input.enabled
  {
    hide ParseState, FormatState, AllVerified, Representable;
  }

  /* ---- the marker ---- */

  /** How a marker value is earned in one pass. */
  ghost predicate Earned(before: Annotations, input: Input, after: Annotations) {
    && input.secret.Found? && Seen(input) == Some(input.secret.hash) && after.applied == input.secret.hash
    && (|| before.applied == ""
        || (&& input.endpoints.Some? && input.endpoints.value != [] && input.secret.leaf.Some?
            && AllVerified(input.endpoints.value, input.secret.leaf.value))
        || after.restart == after.applied)
  }

  lemma StepEarns(cur: Annotations, e: Event)
    requires Clocked(e.input) && Step(cur, e).applied != "" && Step(cur, e).applied != cur.applied
    ensures e.Pass? && e.input.secret.Found? && Earned(cur, e.input, Step(cur, e))
  {
    hide ParseState, FormatState, AllVerified, Representable;
  }

  ghost predicate EarnedAt(cur: Annotations, events: seq<Event>, i: nat)
    requires AllClocked(events)
  {
    && i < |events| && events[i].Pass? && events[i].input.secret.Found?
    && AllClocked(events[..i]) && AllClocked(events[..i + 1])
    && Earned(Run(cur, events[..i]), events[i].input, Run(cur, events[..i + 1]))
  }

  /** Every marker value was adopted, seen served by all endpoints, or committed with its restart. */
  lemma {:induction false} MarkerProvenance(events: seq<Event>) returns (i: nat)
    requires AllClocked(events) && Run(NONE, events).applied != ""
    ensures EarnedAt(NONE, events, i) && AllClocked(events[..i + 1])
    ensures Run(NONE, events[..i + 1]).applied == Run(NONE, events).applied
    decreases |events|
  {
    hide Step, Earned;
    var n := |events| - 1;
    assert events != [];
    RunNext(NONE, events, n);
    assert events[..n + 1] == events;
    var before := Run(NONE, events[..n]);
    if Run(NONE, events).applied != before.applied {
      StepEarns(before, events[n]);
      i := n;
    } else {
      i := MarkerProvenance(events[..n]);
      assert events[..n][..i] == events[..i] && events[..n][..i + 1] == events[..i + 1];
    }
  }

  /* ---- a fallback that restarts nothing ---- */

  /** The pass takes the fallback: a replica failed, and yet the marker moves to the content. */
  ghost predicate FallsBack(cur: Annotations, input: Input, hash: Hash)
    requires Clocked(input)
  {
    Failing(input, hash) && cur.applied != "" && cur.applied != hash && Resolve(cur, input).annotations.applied == hash
  }

  /** The content of the most recent fallback since TLS was last off, or "". */
  ghost function LastFallback(events: seq<Event>): (content: string)
    requires AllClocked(events)
  {
    if events == [] then ""
    else
      var n := |events| - 1;
      RunNext(NONE, events, n);
      var input, earlier := events[n].input, LastFallback(events[..n]);
      if events[n].Lost? then earlier
      else if !input.enabled then ""
      else if input.secret.Found? && FallsBack(Run(NONE, events[..n]), input, input.secret.hash) then input.secret.hash
      else earlier
  }

  lemma StepRestart(cur: Annotations, e: Event)
    requires Clocked(e.input)
    ensures Step(cur, e).restart ==
            if e.Lost? then cur.restart
            else if !e.input.enabled then ""
            else if e.input.secret.Found? && FallsBack(cur, e.input, e.input.secret.hash) then e.input.secret.hash
            else cur.restart
  {
    hide ParseState, FormatState, Verified, Representable, Window;
  }

  /** In every run the restart value names the content of the last fallback. */
  lemma {:induction false} RestartIsLastFallback(events: seq<Event>)
    requires AllClocked(events)
    ensures Run(NONE, events).restart == LastFallback(events)
    decreases |events|
  {
    hide Step, FallsBack, Clocked;
    if events != [] {
      var n := |events| - 1;
      RunNext(NONE, events, n);
      assert events[..n + 1] == events;
      RestartIsLastFallback(events[..n]);
      StepRestart(Run(NONE, events[..n]), events[n]);
    }
  }

  /** In every run a fallback advances the marker, and it changes the pod template, and so restarts the
      pods, if and only if the last fallback since TLS was off was to other content. */
  lemma FallbackRestartsExactly(events: seq<Event>, input: Input, hash: Hash)
    requires AllClocked(events) && Clocked(input) && FallsBack(Run(NONE, events), input, hash)
    ensures var before := Run(NONE, events); var after := Resolve(before, input).annotations;
            after.applied == hash && (after.restart != before.restart <==> LastFallback(events) != hash)
  {
    hide Run, LastFallback, ParseState, Verified, Representable;
    RestartIsLastFallback(events);
    assert input.endpoints.value != [];
  }

  const LEAF: string := "leaf"
  const STALE := Replica([None], false)
  const SERVING := Replica([Some(LEAF)], false)

  /** One ready replica, seen serving the new leaf or not, at the start of time or a window later. */
  function Reading(hash: Hash, replica: Replica, later: nat): (input: Input) {
    Input(true, true, Found(hash, Some(LEAF), true), Some([replica]), 0, later, 0)
  }

  lemma Epoch(hash: Hash, replica: Replica, later: nat)
    ensures Clocked(Reading(hash, replica, later))
  {
    assert YearAt(0, 0) == 0;
  }

  lemma RunThree(e1: Event, e2: Event, e3: Event)
    requires Clocked(e1.input) && Clocked(e2.input) && Clocked(e3.input)
    ensures AllClocked([e1, e2, e3]) && Run(NONE, [e1, e2, e3]) == Step(Step(Step(NONE, e1), e2), e3)
  {
    hide Step, Clocked;
    var events := [e1, e2, e3];
    assert AllClocked(events);
    assert events[..0] == [] && events[..3] == events;
    RunNext(NONE, events, 0);
    RunNext(NONE, events, 1);
    RunNext(NONE, events, 2);
  }

  /** The engine takes a reading of served content as it is. */
  lemma Settles(cur: Annotations, hash: Hash)
    ensures Clocked(Reading(hash, SERVING, 0))
    ensures Step(cur, Pass(Reading(hash, SERVING, 0))) == Annotations(hash, "", cur.restart)
  {
    Epoch(hash, SERVING, 0);
    hide Representable, FormatState;
    assert Serves(SERVING, 0, LEAF);
    assert AllVerified([SERVING], LEAF);
  }

  lemma Expires(cur: Annotations, hash: Hash)
    requires cur.applied != "" && cur.applied != hash && cur.state == ""
    ensures Clocked(Reading(hash, STALE, DEFAULT_WINDOW))
    ensures Step(cur, Pass(Reading(hash, STALE, DEFAULT_WINDOW))) == Annotations(hash, "", hash)
  {
    Epoch(hash, STALE, DEFAULT_WINDOW);
    hide Representable, FormatState;
    assert !Serves(STALE, 0, LEAF);
    assert !Verified([STALE][0], LEAF);
    assert StartOf("", hash) == None;
  }

  /** Content a, then b by restart, back to a by reload, then b again: the second fallback to b
      finds the annotation already at b, so nothing restarts although no replica was seen serving b. */
  lemma ReturningContentNotRestarted(a: Hash, b: Hash)
    requires a != b
    ensures var adopt, expire, back :=
      Pass(Reading(a, SERVING, 0)), Pass(Reading(b, STALE, DEFAULT_WINDOW)), Pass(Reading(a, SERVING, 0));
            && AllClocked([adopt, expire, back]) && Clocked(expire.input)
            && Run(NONE, [adopt, expire, back]) == Annotations(a, "", b)
            && Step(Annotations(a, "", b), expire) == Annotations(b, "", b) && !Verified(STALE, LEAF)
  {
    assert !Serves(STALE, 0, LEAF) && !STALE.reloaded;
    hide Step, Serves, Representable;
    Settles(NONE, a);
    Expires(Annotations(a, "", ""), b);
    Settles(Annotations(b, "", b), a);
    Expires(Annotations(a, "", b), b);
    RunThree(Pass(Reading(a, SERVING, 0)), Pass(Reading(b, STALE, DEFAULT_WINDOW)), Pass(Reading(a, SERVING, 0)));
  }
}
