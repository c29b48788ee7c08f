/** Drift detection: the desired keys of a ProxySQL replica against a snapshot of its runtime tables. */
module Drift {
  import opened Text
  import opened Sorting
  import opened Replication
  import opened Desired
  import opened ServerKeys

  const ONLINE := "ONLINE"
  const SHUNNED := "SHUNNED"
  const OFFLINE_SOFT := "OFFLINE_SOFT"
  const OFFLINE_HARD := "OFFLINE_HARD"

  predicate AdminOffline(status: string) {
    status == OFFLINE_SOFT || status == OFFLINE_HARD
  }

  datatype RuntimeState = RuntimeState(
    mysqlServers: map<string, string>, mysqlUsers: set<string>, mysqlRules: set<string>,
    pgsqlServers: map<string, string>, pgsqlUsers: set<string>, pgsqlRules: set<string>)

  /* ---- rows collapsing onto canonical keys ---- */

  ghost function Displays(servers: seq<MySQLServer>): (ks: set<string>) {
    set s | s in servers :: Display(MySQLPlace(s))
  }

  ghost function PgDisplays(servers: seq<PgSQLServer>): (ks: set<string>) {
    set s | s in servers :: Display(PgSQLPlace(s))
  }

  ghost predicate Holds(rows: set<string>, c: string, classes: Classes) {
    exists k :: k in rows && TextCanon(k, classes) == c
  }

  /** The row that names its canonical key in messages: the smallest of those collapsing onto it. */
  ghost predicate Names(k: string, rows: set<string>, classes: Classes) {
    k in rows && forall j | j in rows && TextCanon(j, classes) == TextCanon(k, classes) :: j == k || Less(k, j)
  }

  ghost predicate Collapsed(keys: map<string, string>, rows: set<string>, classes: Classes) {
    && (forall c | c in keys :: Names(keys[c], rows, classes) && TextCanon(keys[c], classes) == c)
    && (forall k | k in rows :: TextCanon(k, classes) in keys)
  }

  /** One more row: it takes over the name of its key when it is smaller. */
  lemma CollapsedStep(keys: map<string, string>, rows: set<string>, classes: Classes, k: string,
                      next: map<string, string>)
    requires Collapsed(keys, rows, classes)
    requires var c := TextCanon(k, classes); next == if c !in keys || Less(k, keys[c]) then keys[c := k] else keys
    ensures Collapsed(next, rows + {k}, classes)
  {
    var canon := TextCanon(k, classes);
    hide TextCanon;
    forall c | c in next ensures Names(next[c], rows + {k}, classes) && TextCanon(next[c], classes) == c {
      if c == canon {
        if canon !in keys {
          assert forall j | j in rows :: TextCanon(j, classes) in keys;
        } else if Less(k, keys[c]) {
          forall j | j in rows && TextCanon(j, classes) == c ensures Less(k, j) {
            if j != keys[c] { LessTransitive(k, keys[c], j); }
          }
        } else {
          LessTotal(k, keys[c]);
        }
      }
    }
  }

  method MySQLServerKeys(servers: seq<MySQLServer>, classes: Classes) returns (keys: map<string, string>)
    ensures Collapsed(keys, Displays(servers), classes)
  {
    hide TextCanon, Names, Collapsed, Canon;
    keys := map[];
    assert Collapsed(keys, {}, classes) by { NoneCollapsed(classes); }
    assert Displays(servers[..0]) == {};
    for i := 0 to |servers|
      invariant Collapsed(keys, Displays(servers[..i]), classes)
    {
      var p := MySQLPlace(servers[i]);
      var display := Display(p);
      var canon := Canon(p, classes);
      ghost var before := keys;
      if canon !in keys || Less(display, keys[canon]) {
        keys := keys[canon := display];
      }
      TextCanonOfRow(p, classes);
      CollapsedStep(before, Displays(servers[..i]), classes, display, keys);
      TakeNext(servers, i);
      assert Displays(servers[..i + 1]) == Displays(servers[..i]) + {display};
    }
    assert servers[..|servers|] == servers;
  }

  lemma NoneCollapsed(classes: Classes)
    ensures Collapsed(map[], {}, classes)
  {
  }

  /* ---- desired administrative statuses ---- */

  ghost predicate At(s: MySQLServer, c: string, classes: Classes) {
    Canon(MySQLPlace(s), classes) == c
  }

  /** Every desired row of the key, and there is one, sets this one OFFLINE_* status. */
  ghost predicate Wants(servers: seq<MySQLServer>, c: string, status: string, classes: Classes) {
    && AdminOffline(status)
    && (exists s :: s in servers && At(s, c, classes))
    && (forall s | s in servers && At(s, c, classes) :: s.status == status)
  }

  ghost predicate StatusesOf(want: map<string, string>, servers: seq<MySQLServer>, classes: Classes) {
    && (forall c | c in want :: Wants(servers, c, want[c], classes))
    && (forall c, st | Wants(servers, c, st, classes) :: c in want && want[c] == st)
  }

  /** The loop's state: keys ruled out, and what the rows so far agree on. */
  ghost predicate Sifted(want: map<string, string>, mixed: set<string>, servers: seq<MySQLServer>, classes: Classes) {
    && (forall c | c in want :: c !in mixed && Wants(servers, c, want[c], classes))
    && (forall c, st | c in mixed :: !Wants(servers, c, st, classes))
    && (forall c | c in mixed :: exists s :: s in servers && At(s, c, classes))
    && (forall s | s in servers :: Canon(MySQLPlace(s), classes) in want.Keys + mixed)
  }

  lemma SiftedOther(want: map<string, string>, mixed: set<string>, servers: seq<MySQLServer>, classes: Classes,
                    s: MySQLServer, c: string, st: string)
    requires Sifted(want, mixed, servers, classes) && !At(s, c, classes)
    ensures Wants(servers + [s], c, st, classes) <==> Wants(servers, c, st, classes)
  {
    hide Canon, Sifted, AdminOffline;
    hide At;
    assert forall t :: t in servers + [s] <==> t in servers || t == s;
    if exists t :: t in servers && At(t, c, classes) {
      var t :| t in servers && At(t, c, classes);
      assert t in servers + [s];
    }
  }

  lemma SiftedHere(want: map<string, string>, mixed: set<string>, servers: seq<MySQLServer>, classes: Classes,
                   s: MySQLServer, st: string)
    requires Sifted(want, mixed, servers, classes)
    ensures var c := Canon(MySQLPlace(s), classes);
            Wants(servers + [s], c, st, classes) <==>
            s.status == st && AdminOffline(st) && c !in mixed && (c in want ==> want[c] == st)
  {
    var c := Canon(MySQLPlace(s), classes);
    assert At(s, c, classes) && s in servers + [s];
    assert forall t :: t in servers + [s] <==> t in servers || t == s;
    hide Canon;
    if c in mixed {
      var t :| t in servers && At(t, c, classes);
      assert !Wants(servers, c, st, classes);
      assert AdminOffline(st) ==> exists u :: u in servers && At(u, c, classes) && u.status != st;
    } else if c in want {
      assert Wants(servers, c, want[c], classes);
      var t :| t in servers && At(t, c, classes);
      assert t.status == want[c];
    } else {
      assert forall t | t in servers :: !At(t, c, classes);
    }
  }

  lemma SiftedWants(want: map<string, string>, mixed: set<string>, servers: seq<MySQLServer>, classes: Classes,
                    s: MySQLServer, c: string, st: string)
    requires Sifted(want, mixed, servers, classes)
    ensures Wants(servers + [s], c, st, classes) <==>
            if c == Canon(MySQLPlace(s), classes)
            then s.status == st && AdminOffline(st) && c !in mixed && (c in want ==> want[c] == st)
            else Wants(servers, c, st, classes)
  {
    hide Wants, AdminOffline, Canon, Sifted;
    if c == Canon(MySQLPlace(s), classes) {
      SiftedHere(want, mixed, servers, classes, s, st);
    } else {
      SiftedOther(want, mixed, servers, classes, s, c, st);
    }
  }

  lemma SiftedStep(want: map<string, string>, mixed: set<string>, servers: seq<MySQLServer>, classes: Classes,
                   s: MySQLServer,
                   want': map<string, string>, mixed': set<string>)
    requires Sifted(want, mixed, servers, classes)
    requires var c := Canon(MySQLPlace(s), classes);
             if c in mixed then want' == want && mixed' == mixed
             else if !AdminOffline(s.status) || (c in want && want[c] != s.status)
                  then want' == want - {c} && mixed' == mixed + {c}
             else want' == want[c := s.status] && mixed' == mixed
    ensures Sifted(want', mixed', servers + [s], classes)
  {
    hide Wants, AdminOffline, Canon;
    var all, canon := servers + [s], Canon(MySQLPlace(s), classes);
    assert forall t :: t in all <==> t in servers || t == s;
    forall c | c in want' ensures c !in mixed' && Wants(all, c, want'[c], classes) {
      SiftedWants(want, mixed, servers, classes, s, c, want'[c]);
    }
    forall c, st | c in mixed' ensures !Wants(all, c, st, classes) {
      SiftedWants(want, mixed, servers, classes, s, c, st);
    }
    forall c | c in mixed' ensures exists t :: t in all && At(t, c, classes) {
      if c in mixed {
        var t :| t in servers && At(t, c, classes);
        assert t in all;
      } else {
        assert At(s, c, classes);
      }
    }
  }

  lemma SiftedDone(want: map<string, string>, mixed: set<string>, servers: seq<MySQLServer>, classes: Classes)
    requires Sifted(want, mixed, servers, classes)
    ensures StatusesOf(want, servers, classes)
  {
    forall c, st | Wants(servers, c, st, classes) ensures c in want && want[c] == st {
      var s :| s in servers && At(s, c, classes);
      assert c in want.Keys + mixed;
    }
  }

  method MySQLDesiredStatuses(servers: seq<MySQLServer>, classes: Classes) returns (want: map<string, string>)
    ensures StatusesOf(want, servers, classes)
  {
    hide Canon, Sifted, StatusesOf, Wants;
    want := map[];
    var mixed: set<string> := {};
    NoneSifted(classes);
    for i := 0 to |servers|
      invariant Sifted(want, mixed, servers[..i], classes)
    {
      var s := servers[i];
      var canon := Canon(MySQLPlace(s), classes);
      ghost var want0, mixed0 := want, mixed;
      if canon !in mixed {
        if !AdminOffline(s.status) || (canon in want && want[canon] != s.status) {
          mixed := mixed + {canon};
          want := want - {canon};
        } else {
          want := want[canon := s.status];
        }
      }
      TakeNext(servers, i);
      SiftedStep(want0, mixed0, servers[..i], classes, s, want, mixed);
    }
    assert servers[..|servers|] == servers;
    SiftedDone(want, mixed, servers, classes);
  }

  lemma NoneSifted(classes: Classes)
    ensures Sifted(map[], {}, [], classes)
  {
  }

  /* ---- runtime rows by canonical key ---- */

  ghost function Rows(have: map<string, string>, c: string, status: string, classes: Classes): (ks: set<string>) {
    set k | k in have && TextCanon(k, classes) == c && have[k] == status
  }

  /** The statuses of the runtime rows of the key, one entry per row, in ascending order. */
  ghost predicate Listing(got: seq<string>, have: map<string, string>, c: string, classes: Classes) {
    && NonDescending(got)
    && (forall st :: multiset(got)[st] == |Rows(have, c, st, classes)|)
  }

  ghost predicate Gathered(statuses: map<string, seq<string>>, have: map<string, string>, classes: Classes) {
    && (forall c :: c in statuses <==> Holds(have.Keys, c, classes))
    && (forall c, st | c in statuses :: multiset(statuses[c])[st] == |Rows(have, c, st, classes)|)
  }

  lemma HoldsMore(rows: set<string>, k: string, c: string, classes: Classes)
    ensures Holds(rows + {k}, c, classes) <==> Holds(rows, c, classes) || TextCanon(k, classes) == c
  {
    hide TextCanon;
    if Holds(rows, c, classes) {
      var j :| j in rows && TextCanon(j, classes) == c;
      assert j in rows + {k};
    }
    assert k in rows + {k};
  }

  lemma RowsMore(have: map<string, string>, k: string, status: string, c: string, st: string, classes: Classes)
    requires k !in have
    ensures |Rows(have[k := status], c, st, classes)| ==
            |Rows(have, c, st, classes)| + if TextCanon(k, classes) == c && status == st then 1 else 0
  {
    hide TextCanon;
    var more := have[k := status];
    var here := TextCanon(k, classes) == c && status == st;
    var before, after := Rows(have, c, st, classes), Rows(more, c, st, classes);
    assert forall j | j != k :: j in more <==> j in have;
    assert k !in before;
    assert k in after <==> here;
    assert forall j | j != k :: j in after <==> j in before;
    hide Rows;
    assert after == if here then before + {k} else before;
  }

  lemma GatheredStep(statuses: map<string, seq<string>>, have: map<string, string>, classes: Classes, k: string,
                     status: string,
                     next: map<string, seq<string>>)
    requires Gathered(statuses, have, classes) && k !in have
    requires var c := TextCanon(k, classes);
             next == statuses[c := (if c in statuses then statuses[c] else []) + [status]]
    ensures Gathered(next, have[k := status], classes)
  {
    hide TextCanon, Holds, Rows;
    var canon, more := TextCanon(k, classes), have[k := status];
    assert more.Keys == have.Keys + {k};
    forall c ensures c in next <==> Holds(more.Keys, c, classes) {
      HoldsMore(have.Keys, k, c, classes);
    }
    forall c, st | c in next ensures multiset(next[c])[st] == |Rows(more, c, st, classes)| {
      RowsMore(have, k, status, c, st, classes);
      if c !in statuses {
        NotHeld(have, c, st, classes);
      }
    }
  }

  lemma NotHeld(have: map<string, string>, c: string, st: string, classes: Classes)
    requires !Holds(have.Keys, c, classes)
    ensures Rows(have, c, st, classes) == {}
  {
    hide TextCanon;
    assert forall k | k in have :: k in have.Keys;
  }

  lemma NoneGathered(classes: Classes)
    ensures Gathered(map[], map[], classes)
  {
  }

  /** The rows of `have` whose keys are in `ks`. */
  ghost function Restricted(have: map<string, string>, ks: set<string>): (part: map<string, string>) {
    map k | k in have && k in ks :: have[k]
  }

  method RuntimeServerStatuses(have: map<string, string>, classes: Classes)
    returns (keys: map<string, string>, statuses: map<string, seq<string>>)
    ensures Collapsed(keys, have.Keys, classes)
    ensures statuses.Keys == keys.Keys && forall c | c in statuses :: Listing(statuses[c], have, c, classes)
  {
    hide TextCanon, Collapsed, Gathered, Listing;
    var lists: map<string, seq<string>> := map[];
    keys := map[];
    NoneCollapsed(classes);
    NoneGathered(classes);
    var todo := have.Keys;
    assert Restricted(have, {}) == map[] && have.Keys - todo == {};
    while todo != {}
      invariant todo <= have.Keys
      invariant Collapsed(keys, have.Keys - todo, classes)
      invariant Gathered(lists, Restricted(have, have.Keys - todo), classes)
    {
      var k :| k in todo;
      var canon := TextCanon(k, classes);
      ghost var keys0, lists0, done := keys, lists, have.Keys - todo;
      if canon !in keys || Less(k, keys[canon]) {
        keys := keys[canon := k];
      }
      lists := lists[canon := (if canon in lists then lists[canon] else []) + [have[k]]];
      todo := todo - {k};
      CollapsedStep(keys0, done, classes, k, keys);
      GatheredStep(lists0, Restricted(have, done), classes, k, have[k], lists);
      assert have.Keys - todo == done + {k};
      assert Restricted(have, done + {k}) == Restricted(have, done)[k := have[k]];
    }
    assert have.Keys - todo == have.Keys && Restricted(have, have.Keys) == have;
    statuses := SortEach(lists);
    GatheredListing(lists, statuses, keys, have, classes);
  }

  method SortEach(lists: map<string, seq<string>>) returns (sorted: map<string, seq<string>>)
    ensures sorted.Keys == lists.Keys
    ensures forall c | c in lists :: NonDescending(sorted[c]) && multiset(sorted[c]) == multiset(lists[c])
  {
    hide NonDescending;
    sorted := map[];
    var todo := lists.Keys;
    while todo != {}
      invariant todo <= lists.Keys && sorted.Keys == lists.Keys - todo
      invariant forall c | c in sorted :: NonDescending(sorted[c]) && multiset(sorted[c]) == multiset(lists[c])
    {
      var c :| c in todo;
      var list := SortList(lists[c]);
      sorted := sorted[c := list];
      todo := todo - {c};
    }
  }

  lemma GatheredListing(lists: map<string, seq<string>>, statuses: map<string, seq<string>>, keys: map<string, string>,
                        have: map<string, string>, classes: Classes)
    requires Gathered(lists, have, classes) && Collapsed(keys, have.Keys, classes) && statuses.Keys == lists.Keys
    requires forall c | c in lists :: NonDescending(statuses[c]) && multiset(statuses[c]) == multiset(lists[c])
    ensures statuses.Keys == keys.Keys && forall c | c in statuses :: Listing(statuses[c], have, c, classes)
  {
    hide TextCanon, NonDescending, Rows;
    forall c ensures c in statuses <==> c in keys {
      if c in keys { assert keys[c] in have.Keys; }
    }
  }

  /* ---- messages ---- */

  /** The keys whose name makes this message. */
  ghost function Saying(prefix: string, names: map<string, string>, m: string): (cs: set<string>) {
    set c | c in names && m == prefix + names[c]
  }

  lemma SayingMore(prefix: string, names: map<string, string>, c: string, name: string, m: string)
    requires c !in names
    ensures |Saying(prefix, names[c := name], m)| == |Saying(prefix, names, m)| + if m == prefix + name then 1 else 0
  {
    var more := names[c := name];
    assert Saying(prefix, more, m) == if m == prefix + name then Saying(prefix, names, m) + {c}
           else Saying(prefix, names, m);
  }

  /** One message per key, whatever order the map delivers the keys in. */
  method Report(prefix: string, names: map<string, string>) returns (diffs: seq<string>)
    ensures forall m :: multiset(diffs)[m] == |Saying(prefix, names, m)|
    ensures diffs == [] <==> names == map[]
  {
    hide Saying;
    diffs := [];
    var todo := names.Keys;
    ghost var done: map<string, string> := map[];
    NothingSaid(prefix);
    while todo != {}
      invariant todo <= names.Keys && done.Keys == names.Keys - todo && forall c | c in done :: done[c] == names[c]
      invariant forall m :: multiset(diffs)[m] == |Saying(prefix, done, m)|
      invariant diffs == [] <==> done == map[]
    {
      var c :| c in todo;
      forall m ensures |Saying(prefix, done[c := names[c]], m)| ==
                       |Saying(prefix, done, m)| + if m == prefix + names[c] then 1 else 0 {
        SayingMore(prefix, done, c, names[c], m);
      }
      diffs := diffs + [prefix + names[c]];
      todo := todo - {c};
      done := done[c := names[c]];
      assert c in done;
    }
    assert done == names;
  }

  lemma NothingSaid(prefix: string)
    ensures forall m :: |Saying(prefix, map[], m)| == 0
  {
    forall m ensures |Saying(prefix, map[], m)| == 0 { assert Saying(prefix, map[], m) == {}; }
  }

  function Selves(ks: set<string>): (names: map<string, string>) {
    map k | k in ks :: k
  }

  /** How many keys are due this message in a table compared by plain keys. */
  ghost function KeyCount(m: string, table: string, want: set<string>, have: set<string>): (n: nat) {
    |Saying(table + ": missing ", Selves(want - have), m)| + |Saying(table + ": extra ", Selves(have - want), m)|
  }

  method DiffKeys(table: string, want: set<string>, have: set<string>) returns (diffs: seq<string>)
    ensures forall m :: multiset(diffs)[m] == KeyCount(m, table, want, have)
    ensures diffs == [] <==> want == have
  {
    hide Saying;
    var missing := Report(table + ": missing ", Selves(want - have));
    var extra := Report(table + ": extra ", Selves(have - want));
    diffs := missing + extra;
    assert Selves(want - have).Keys == want - have && Selves(have - want).Keys == have - want;
  }

  function Without(names: map<string, string>, other: set<string>): (rest: map<string, string>) {
    map c | c in names && c !in other :: names[c]
  }

  lemma NothingLeft(names: map<string, string>, other: set<string>)
    ensures Without(names, other) == map[] <==> names.Keys <= other
  {
    assert forall c :: c in Without(names, other) <==> c in names && c !in other;
  }

  method DiffServers(table: string, want: map<string, string>, have: map<string, string>, known: map<string, string>)
    returns (diffs: seq<string>)
    ensures forall m :: multiset(diffs)[m] ==
                        |Saying(table + ": missing ", Without(want, have.Keys), m)|
                        + |Saying(table + ": extra ", Without(have, known.Keys), m)|
    ensures diffs == [] <==> want.Keys <= have.Keys <= known.Keys
  {
    hide Saying;
    var missing := Report(table + ": missing ", Without(want, have.Keys));
    var extra := Report(table + ": extra ", Without(have, known.Keys));
    diffs := missing + extra;
    NothingLeft(want, have.Keys);
    NothingLeft(have, known.Keys);
  }

  /** Runtime rows contradict an explicit OFFLINE_* status. */
  predicate Contradicts(status: string, got: seq<string>) {
    status == OFFLINE_SOFT ==> OFFLINE_SOFT !in got
  }

  function StatusText(display: string, status: string, got: seq<string>): (m: string) {
    "mysql_servers: status " + display + " want " + status + " have " + if got == [] then "" else Join(got, ',')
  }

  /** The contradicted keys with the rest of their messages. */
  function Contradicted(display: map<string, string>, want: map<string, string>,
                        have: map<string, seq<string>>): (texts: map<string, string>)
    requires want.Keys <= display.Keys
  {
    map c | c in want && c in have && Contradicts(want[c], have[c]) :: StatusText(display[c], want[c], have[c])
  }

  method MySQLStatusDrift(display: map<string, string>, want: map<string, string>, have: map<string, seq<string>>)
    returns (diffs: seq<string>)
    requires want.Keys <= display.Keys && forall c | c in want :: AdminOffline(want[c])
    ensures forall m :: multiset(diffs)[m] == |Saying("", Contradicted(display, want, have), m)|
    ensures diffs == [] <==> forall c | c in want && c in have :: !Contradicts(want[c], have[c])
  {
    hide StatusText, AdminOffline, Saying;
    var texts := Contradicted(display, want, have);
    diffs := Report("", texts);
    assert forall c | c in want && c in have && Contradicts(want[c], have[c]) :: c in texts;
  }

  /* ---- what is due ---- */

  ghost function UserNames(users: seq<MySQLUser>): (names: set<string>) {
    set u | u in users :: u.username
  }

  ghost function PgUserNames(users: seq<PgSQLUser>): (names: set<string>) {
    set u | u in users :: u.username
  }

  ghost function RuleKeys(rules: seq<QueryRule>): (ids: set<string>) {
    set r | r in rules :: Itoa(r.ruleID)
  }

  /** The row names its canonical key. */
  ghost predicate Calls(k: string, c: string, rows: set<string>, classes: Classes) {
    Names(k, rows, classes) && TextCanon(k, classes) == c
  }

  /** A desired server in no hostgroup of its class, unless it is to be OFFLINE_HARD. */
  ghost predicate MissingAt(m: string, c: string, d: Desired, rs: RuntimeState, classes: Classes) {
    && !Wants(d.mysqlServers, c, OFFLINE_HARD, classes) && !Holds(rs.mysqlServers.Keys, c, classes)
    && exists k :: Calls(k, c, Displays(d.mysqlServers), classes) && m == "mysql_servers: missing " + k
  }

  /** A runtime server that nothing desired accounts for. */
  ghost predicate ExtraAt(m: string, c: string, d: Desired, rs: RuntimeState, classes: Classes) {
    && !Holds(Displays(d.mysqlServers), c, classes)
    && exists k :: Calls(k, c, rs.mysqlServers.Keys, classes) && m == "mysql_servers: extra " + k
  }

  /** A present server whose rows contradict the status all its desired rows set. */
  ghost predicate MisplacedAt(m: string, c: string, d: Desired, rs: RuntimeState, classes: Classes) {
    && Holds(rs.mysqlServers.Keys, c, classes)
    && exists k, status, got ::
         && Calls(k, c, Displays(d.mysqlServers), classes)
         && Wants(d.mysqlServers, c, status, classes)
         && Listing(got, rs.mysqlServers, c, classes)
         && Contradicts(status, got)
         && m == StatusText(k, status, got)
  }

  ghost function Canons(rows: set<string>, classes: Classes): (cs: set<string>) {
    set k | k in rows :: TextCanon(k, classes)
  }

  ghost function MissingSet(m: string, d: Desired, rs: RuntimeState, classes: Classes): (cs: set<string>) {
    set c | c in Canons(Displays(d.mysqlServers), classes) && MissingAt(m, c, d, rs, classes)
  }

  ghost function ExtraSet(m: string, d: Desired, rs: RuntimeState, classes: Classes): (cs: set<string>) {
    set c | c in Canons(rs.mysqlServers.Keys, classes) && ExtraAt(m, c, d, rs, classes)
  }

  ghost function MisplacedSet(m: string, d: Desired, rs: RuntimeState, classes: Classes): (cs: set<string>) {
    set c | c in Canons(Displays(d.mysqlServers), classes) && MisplacedAt(m, c, d, rs, classes)
  }

  /** How many servers are due this message. */
  ghost function ServerCount(m: string, d: Desired, rs: RuntimeState, classes: Classes): (n: nat) {
    |MissingSet(m, d, rs, classes)| + |ExtraSet(m, d, rs, classes)| + |MisplacedSet(m, d, rs, classes)|
  }

  ghost function KeyCounts(m: string, d: Desired, rs: RuntimeState): (n: nat) {
    KeyCount(m, "mysql_users", UserNames(d.mysqlUsers), rs.mysqlUsers)
    + KeyCount(m, "mysql_query_rules", RuleKeys(d.mysqlRules), rs.mysqlRules)
    + KeyCount(m, "pgsql_servers", PgDisplays(d.pgsqlServers), rs.pgsqlServers.Keys)
    + KeyCount(m, "pgsql_users", PgUserNames(d.pgsqlUsers), rs.pgsqlUsers)
    + KeyCount(m, "pgsql_query_rules", RuleKeys(d.pgsqlRules), rs.pgsqlRules)
  }

  /** Each message exactly as often as it is due, in ascending order. */
  ghost predicate Reports(diffs: seq<string>, d: Desired, rs: RuntimeState, classes: Classes) {
    NonDescending(diffs) && forall m :: multiset(diffs)[m] == ServerCount(m, d, rs, classes) + KeyCounts(m, d, rs)
  }

  lemma CollapsedNames(keys: map<string, string>, rows: set<string>, classes: Classes, k: string)
    requires Collapsed(keys, rows, classes)
    ensures Names(k, rows, classes) <==> TextCanon(k, classes) in keys && keys[TextCanon(k, classes)] == k
  {
    hide TextCanon;
    var c := TextCanon(k, classes);
    if Names(k, rows, classes) && keys[c] != k {
      assert Less(k, keys[c]) && Less(keys[c], k);
      LessTransitive(k, keys[c], k);
      LessIrreflexive(k);
    }
  }

  lemma CollapsedHolds(keys: map<string, string>, rows: set<string>, classes: Classes, c: string)
    requires Collapsed(keys, rows, classes)
    ensures c in keys <==> Holds(rows, c, classes)
  {
    hide TextCanon;
    if c in keys { assert keys[c] in rows; }
  }

  /** What the collapsed maps of the desired and the runtime servers say. */
  ghost predicate Prepared(d: Desired, rs: RuntimeState, classes: Classes, want: map<string, string>,
                           have: map<string, string>,
                           status: map<string, string>, got: map<string, seq<string>>) {
    && Collapsed(want, Displays(d.mysqlServers), classes)
    && Collapsed(have, rs.mysqlServers.Keys, classes)
    && StatusesOf(status, d.mysqlServers, classes)
    && got.Keys == have.Keys && (forall c | c in got :: Listing(got[c], rs.mysqlServers, c, classes))
  }

  ghost function Membership(want: map<string, string>, status: map<string, string>): (member: map<string, string>) {
    map c | c in want && !(c in status && status[c] == OFFLINE_HARD) :: want[c]
  }

  lemma HardExempt(d: Desired, classes: Classes, status: map<string, string>, c: string)
    requires StatusesOf(status, d.mysqlServers, classes)
    ensures Wants(d.mysqlServers, c, OFFLINE_HARD, classes) <==> c in status && status[c] == OFFLINE_HARD
  {
    hide Wants;
  }

  lemma CanonsHold(rows: set<string>, classes: Classes, c: string)
    ensures c in Canons(rows, classes) <==> Holds(rows, c, classes)
  {
    hide TextCanon;
  }

  /** The name of a canonical key is its one entry in the collapsed map. */
  lemma Called(keys: map<string, string>, rows: set<string>, classes: Classes, k: string, c: string)
    requires Collapsed(keys, rows, classes)
    ensures Calls(k, c, rows, classes) <==> c in keys && keys[c] == k
  {
    hide TextCanon, Names;
    CollapsedNames(keys, rows, classes, k);
  }

  lemma MissingExact(m: string, d: Desired, rs: RuntimeState, classes: Classes, want: map<string, string>,
                     have: map<string, string>,
                     status: map<string, string>, got: map<string, seq<string>>)
    requires Prepared(d, rs, classes, want, have, status, got)
    ensures MissingSet(m, d, rs, classes) ==
            Saying("mysql_servers: missing ", Without(Membership(want, status), have.Keys), m)
  {
    hide TextCanon, Calls, Wants, Holds, Collapsed, StatusesOf, Listing, Canons;
    forall c ensures c in MissingSet(m, d, rs, classes) <==>
                     c in Saying("mysql_servers: missing ", Without(Membership(want, status), have.Keys), m) {
      CanonsHold(Displays(d.mysqlServers), classes, c);
      CollapsedHolds(want, Displays(d.mysqlServers), classes, c);
      CollapsedHolds(have, rs.mysqlServers.Keys, classes, c);
      HardExempt(d, classes, status, c);
      forall k ensures Calls(k, c, Displays(d.mysqlServers), classes) <==> c in want && want[c] == k {
        Called(want, Displays(d.mysqlServers), classes, k, c);
      }
    }
  }

  lemma ExtraExact(m: string, d: Desired, rs: RuntimeState, classes: Classes, want: map<string, string>,
                   have: map<string, string>,
                   status: map<string, string>, got: map<string, seq<string>>)
    requires Prepared(d, rs, classes, want, have, status, got)
    ensures ExtraSet(m, d, rs, classes) == Saying("mysql_servers: extra ", Without(have, want.Keys), m)
  {
    hide TextCanon, Calls, Wants, Holds, Collapsed, StatusesOf, Listing, Canons;
    forall c ensures c in ExtraSet(m, d, rs, classes) <==>
        c in Saying("mysql_servers: extra ", Without(have, want.Keys), m) {
      CanonsHold(rs.mysqlServers.Keys, classes, c);
      CollapsedHolds(want, Displays(d.mysqlServers), classes, c);
      CollapsedHolds(have, rs.mysqlServers.Keys, classes, c);
      forall k ensures Calls(k, c, rs.mysqlServers.Keys, classes) <==> c in have && have[c] == k {
        Called(have, rs.mysqlServers.Keys, classes, k, c);
      }
    }
  }

  lemma ListingUnique(a: seq<string>, b: seq<string>, have: map<string, string>, c: string, classes: Classes)
    requires Listing(a, have, c, classes) && Listing(b, have, c, classes)
    ensures a == b
  {
    hide TextCanon, NonDescending, Rows;
    assert multiset(a) == multiset(b);
    NonDescendingUnique(a, b);
  }

  lemma MisplacedExact(m: string, d: Desired, rs: RuntimeState, classes: Classes, want: map<string, string>,
                       have: map<string, string>,
                       status: map<string, string>, got: map<string, seq<string>>)
    requires Prepared(d, rs, classes, want, have, status, got) && status.Keys <= want.Keys
    ensures MisplacedSet(m, d, rs, classes) == Saying("", Contradicted(want, status, got), m)
  {
    hide TextCanon, Calls, Wants, Holds, Collapsed, Listing, StatusText, Contradicts, Canons;
    forall c ensures c in MisplacedSet(m, d, rs, classes) <==> c in Saying("", Contradicted(want, status, got), m) {
      MisplacedHere(m, c, d, rs, classes, want, have, status, got);
      CanonsHold(Displays(d.mysqlServers), classes, c);
      CollapsedHolds(want, Displays(d.mysqlServers), classes, c);
    }
  }

  lemma MisplacedHere(m: string, c: string, d: Desired, rs: RuntimeState, classes: Classes, want: map<string, string>,
                      have: map<string, string>, status: map<string, string>, got: map<string, seq<string>>)
    requires Prepared(d, rs, classes, want, have, status, got) && status.Keys <= want.Keys
    ensures MisplacedAt(m, c, d, rs, classes) <==>
            c in status && c in got && Contradicts(status[c], got[c])
            && m == "" + StatusText(want[c], status[c], got[c])
  {
    hide TextCanon, Calls, Wants, Holds, Collapsed, Listing, StatusText, Contradicts;
    CollapsedHolds(have, rs.mysqlServers.Keys, classes, c);
    if MisplacedAt(m, c, d, rs, classes) {
      var k, st, g :| && Calls(k, c, Displays(d.mysqlServers), classes)
                      && Wants(d.mysqlServers, c, st, classes)
                      && Listing(g, rs.mysqlServers, c, classes)
                      && Contradicts(st, g)
                      && m == StatusText(k, st, g);
      Called(want, Displays(d.mysqlServers), classes, k, c);
      ListingUnique(g, got[c], rs.mysqlServers, c, classes);
    }
    if c in status && c in got && Contradicts(status[c], got[c]) && m == StatusText(want[c], status[c], got[c]) {
      Called(want, Displays(d.mysqlServers), classes, want[c], c);
      assert Wants(d.mysqlServers, c, status[c], classes) && Listing(got[c], rs.mysqlServers, c, classes);
    }
  }

  /** A wanted status belongs to a wanted key. */
  lemma StatusKnown(d: Desired, classes: Classes, want: map<string, string>, status: map<string, string>)
    requires Collapsed(want, Displays(d.mysqlServers), classes) && StatusesOf(status, d.mysqlServers, classes)
    ensures status.Keys <= want.Keys && forall c | c in status :: AdminOffline(status[c])
  {
    hide TextCanon, Names;
    forall c | c in status ensures c in want && AdminOffline(status[c]) {
      var s :| s in d.mysqlServers && At(s, c, classes);
      TextCanonOfRow(MySQLPlace(s), classes);
      assert Display(MySQLPlace(s)) in Displays(d.mysqlServers);
    }
  }

  /* ---- when nothing is due ---- */

  /** A desired server agrees: held unless it is to be OFFLINE_HARD, and OFFLINE_SOFT on some row if it
      is to be. */
  ghost predicate Agrees(d: Desired, rs: RuntimeState, classes: Classes, c: string) {
    && (Holds(rs.mysqlServers.Keys, c, classes) <==> !Wants(d.mysqlServers, c, OFFLINE_HARD, classes))
    && (Wants(d.mysqlServers, c, OFFLINE_SOFT, classes) ==> Rows(rs.mysqlServers, c, OFFLINE_SOFT, classes) != {})
  }

  /** Agreement of the MySQL servers on canonical keys. */
  ghost predicate ServersInSync(d: Desired, rs: RuntimeState, classes: Classes) {
    && (forall k | k in Displays(d.mysqlServers) :: Agrees(d, rs, classes, TextCanon(k, classes)))
    && (forall k | k in rs.mysqlServers.Keys :: Holds(Displays(d.mysqlServers), TextCanon(k, classes), classes))
  }

  lemma NotEmptySet(s: set<string>)
    ensures s != {} <==> |s| > 0
  {
  }

  lemma SoftShown(d: Desired, rs: RuntimeState, classes: Classes, got: seq<string>, c: string)
    requires Listing(got, rs.mysqlServers, c, classes)
    ensures OFFLINE_SOFT in got <==> Rows(rs.mysqlServers, c, OFFLINE_SOFT, classes) != {}
  {
    hide Rows, NonDescending;
    NotEmptySet(Rows(rs.mysqlServers, c, OFFLINE_SOFT, classes));
    assert OFFLINE_SOFT in got <==> OFFLINE_SOFT in multiset(got);
  }

  /** No message is due for this canonical key of the desired servers. */
  ghost predicate Quiet(want: map<string, string>, have: map<string, string>, status: map<string, string>,
                        got: map<string, seq<string>>, c: string) {
    (c in Membership(want, status) ==> c in have) && (c in status && c in got ==> !Contradicts(status[c], got[c]))
  }

  lemma KeyInSync(d: Desired, rs: RuntimeState, classes: Classes, want: map<string, string>, have: map<string, string>,
                  status: map<string, string>, got: map<string, seq<string>>, c: string)
    requires Prepared(d, rs, classes, want, have, status, got) && c in want
    ensures Quiet(want, have, status, got, c) <==> Agrees(d, rs, classes, c)
  {
    hide Wants, Holds, Collapsed, Listing, Rows;
    assert OFFLINE_SOFT[8] != OFFLINE_HARD[8];
    CollapsedHolds(have, rs.mysqlServers.Keys, classes, c);
    HardExempt(d, classes, status, c);
    SoftWanted(d, classes, status, c);
    if c in got { SoftShown(d, rs, classes, got[c], c); }
    if c in status { WantedOffline(d, classes, status, c); }
  }

  lemma SoftWanted(d: Desired, classes: Classes, status: map<string, string>, c: string)
    requires StatusesOf(status, d.mysqlServers, classes)
    ensures Wants(d.mysqlServers, c, OFFLINE_SOFT, classes) <==> c in status && status[c] == OFFLINE_SOFT
  {
    hide Wants;
  }

  lemma WantedOffline(d: Desired, classes: Classes, status: map<string, string>, c: string)
    requires StatusesOf(status, d.mysqlServers, classes) && c in status
    ensures status[c] == OFFLINE_SOFT || status[c] == OFFLINE_HARD
  {
    assert Wants(d.mysqlServers, c, status[c], classes);
  }

  lemma NamedBy(keys: map<string, string>, rows: set<string>, classes: Classes, c: string)
    requires Collapsed(keys, rows, classes) && c in keys
    ensures keys[c] in rows && TextCanon(keys[c], classes) == c
  {
    hide TextCanon;
  }

  lemma CanonKnown(keys: map<string, string>, rows: set<string>, classes: Classes, k: string)
    requires Collapsed(keys, rows, classes) && k in rows
    ensures TextCanon(k, classes) in keys
  {
    hide TextCanon, Names;
  }

  /** Nothing is due for the servers exactly when they agree. */
  lemma NothingDue(d: Desired, rs: RuntimeState, classes: Classes, want: map<string, string>, have: map<string, string>,
                   status: map<string, string>, got: map<string, seq<string>>)
    requires Prepared(d, rs, classes, want, have, status, got)
    ensures (forall c | c in want :: Quiet(want, have, status, got, c)) && have.Keys <= want.Keys <==>
            ServersInSync(d, rs, classes)
  {
    hide TextCanon, Holds, Collapsed, Listing, StatusesOf, Quiet, Agrees, Displays;
    var rows := Displays(d.mysqlServers);
    if ServersInSync(d, rs, classes) {
      forall c | c in want ensures Quiet(want, have, status, got, c) {
        NamedBy(want, rows, classes, c);
        KeyInSync(d, rs, classes, want, have, status, got, c);
      }
      forall c | c in have ensures c in want {
        NamedBy(have, rs.mysqlServers.Keys, classes, c);
        CollapsedHolds(want, rows, classes, c);
      }
    }
    if (forall c | c in want :: Quiet(want, have, status, got, c)) && have.Keys <= want.Keys {
      forall k | k in rows ensures Agrees(d, rs, classes, TextCanon(k, classes)) {
        CanonKnown(want, rows, classes, k);
        KeyInSync(d, rs, classes, want, have, status, got, TextCanon(k, classes));
      }
      forall k | k in rs.mysqlServers.Keys ensures Holds(rows, TextCanon(k, classes), classes) {
        CanonKnown(have, rs.mysqlServers.Keys, classes, k);
        CollapsedHolds(want, rows, classes, TextCanon(k, classes));
      }
    }
  }

  /** Exact agreement of the tables compared by plain keys. */
  ghost predicate KeysInSync(d: Desired, rs: RuntimeState) {
    && UserNames(d.mysqlUsers) == rs.mysqlUsers
    && RuleKeys(d.mysqlRules) == rs.mysqlRules
    && PgDisplays(d.pgsqlServers) == rs.pgsqlServers.Keys
    && PgUserNames(d.pgsqlUsers) == rs.pgsqlUsers
    && RuleKeys(d.pgsqlRules) == rs.pgsqlRules
  }

  /* ---- the comparison ---- */

  method MySQLServerDrift(d: Desired, rs: RuntimeState, classes: Classes) returns (diffs: seq<string>)
    ensures forall m :: multiset(diffs)[m] == ServerCount(m, d, rs, classes)
    ensures diffs == [] <==> ServersInSync(d, rs, classes)
  {
    hide Collapsed, StatusesOf, Listing, MissingSet, ExtraSet, MisplacedSet, AdminOffline, ServersInSync, Saying,
         Contradicts, StatusText;
    var want := MySQLServerKeys(d.mysqlServers, classes);
    var have, got := RuntimeServerStatuses(rs.mysqlServers, classes);
    var status := MySQLDesiredStatuses(d.mysqlServers, classes);
    StatusKnown(d, classes, want, status);
    var member := map c | c in want && !(c in status && status[c] == OFFLINE_HARD) :: want[c];
    assert member == Membership(want, status);
    var rows := DiffServers("mysql_servers", member, have, want);
    var statuses := MySQLStatusDrift(want, status, got);
    diffs := rows + statuses;
    hide Membership, Without, Contradicted;
    forall m ensures multiset(diffs)[m] == ServerCount(m, d, rs, classes) {
      ServerCounted(m, d, rs, classes, want, have, status, got);
    }
    NothingDue(d, rs, classes, want, have, status, got);
    AllQuiet(want, have, status, got);
  }

  lemma ServerCounted(m: string, d: Desired, rs: RuntimeState, classes: Classes, want: map<string, string>,
                      have: map<string, string>, status: map<string, string>, got: map<string, seq<string>>)
    requires Prepared(d, rs, classes, want, have, status, got) && status.Keys <= want.Keys
    ensures ServerCount(m, d, rs, classes) ==
            |Saying("mysql_servers" + ": missing ", Without(Membership(want, status), have.Keys), m)|
            + |Saying("mysql_servers" + ": extra ", Without(have, want.Keys), m)|
            + |Saying("", Contradicted(want, status, got), m)|
  {
    hide Prepared, MissingSet, ExtraSet, MisplacedSet, Saying, Membership, Without, Contradicted;
    assert "mysql_servers" + ": missing " == "mysql_servers: missing ";
    assert "mysql_servers" + ": extra " == "mysql_servers: extra ";
    MissingExact(m, d, rs, classes, want, have, status, got);
    ExtraExact(m, d, rs, classes, want, have, status, got);
    MisplacedExact(m, d, rs, classes, want, have, status, got);
  }

  lemma AllQuiet(want: map<string, string>, have: map<string, string>, status: map<string, string>,
                 got: map<string, seq<string>>)
    requires status.Keys <= want.Keys
    ensures (forall c | c in want :: Quiet(want, have, status, got, c)) <==>
            Membership(want, status).Keys <= have.Keys && forall c | c in status && c in got ::
            !Contradicts(status[c], got[c])
  {
    hide Contradicts;
    assert forall c | c in status :: c in want;
  }

  method KeyTablesDrift(d: Desired, rs: RuntimeState) returns (diffs: seq<string>)
    ensures forall m :: multiset(diffs)[m] == KeyCounts(m, d, rs)
    ensures diffs == [] <==> KeysInSync(d, rs)
  {
    hide KeyCount, Display, Itoa, PgSQLPlace;
    var names, ids := set u | u in d.mysqlUsers :: u.username, set r | r in d.mysqlRules :: Itoa(r.ruleID);
    var pgPlaces := set s | s in d.pgsqlServers :: Display(PgSQLPlace(s));
    var pgNames, pgIds := set u | u in d.pgsqlUsers :: u.username, set r | r in d.pgsqlRules :: Itoa(r.ruleID);
    assert names == UserNames(d.mysqlUsers) && ids == RuleKeys(d.mysqlRules) && pgPlaces == PgDisplays(d.pgsqlServers);
    assert pgNames == PgUserNames(d.pgsqlUsers) && pgIds == RuleKeys(d.pgsqlRules);
    hide UserNames, PgUserNames, RuleKeys, PgDisplays;
    var users := DiffKeys("mysql_users", names, rs.mysqlUsers);
    var rules := DiffKeys("mysql_query_rules", ids, rs.mysqlRules);
    var pgServers := DiffKeys("pgsql_servers", pgPlaces, rs.pgsqlServers.Keys);
    var pgUsers := DiffKeys("pgsql_users", pgNames, rs.pgsqlUsers);
    var pgRules := DiffKeys("pgsql_query_rules", pgIds, rs.pgsqlRules);
    diffs := users + rules + pgServers + pgUsers + pgRules;
  }

  method Drift(d: Desired, rs: RuntimeState) returns (diffs: seq<string>)
    ensures exists classes :: Exact(classes, d.replicationHostgroups)
    ensures forall classes | Exact(classes, d.replicationHostgroups) :: Reports(diffs, d, rs, classes)
    ensures forall classes | Exact(classes, d.replicationHostgroups) :: diffs == [] <==>
            ServersInSync(d, rs, classes) && KeysInSync(d, rs)
  {
    hide Exact, ServerCount, KeyCounts, NonDescending, ServersInSync, KeysInSync;
    var classes := ReplicationClasses(d.replicationHostgroups);
    var servers := MySQLServerDrift(d, rs, classes);
    var keys := KeyTablesDrift(d, rs);
    diffs := SortList(servers + keys);
    assert |diffs| == |multiset(diffs)| && |servers + keys| == |multiset(servers + keys)|;
    forall cs | Exact(cs, d.replicationHostgroups) ensures cs == classes {
      ExactUnique(cs, classes, d.replicationHostgroups);
    }
  }

  /* ---- what the messages say ---- */

  lemma KeyNamed(table: string, want: set<string>, have: set<string>, k: string)
    ensures k in want && k !in have ==> KeyCount(table + ": missing " + k, table, want, have) > 0
    ensures k in have && k !in want ==> KeyCount(table + ": extra " + k, table, want, have) > 0
  {
    if k in want && k !in have {
      assert k in Saying(table + ": missing ", Selves(want - have), table + ": missing " + k);
    }
    if k in have && k !in want {
      assert k in Saying(table + ": extra ", Selves(have - want), table + ": extra " + k);
    }
  }

  lemma Counted(diffs: seq<string>, d: Desired, rs: RuntimeState, classes: Classes, m: string)
    requires Reports(diffs, d, rs, classes)
    ensures KeyCounts(m, d, rs) > 0 ==> m in diffs
  {
    hide KeyCounts, ServerCount, NonDescending;
    assert multiset(diffs)[m] > 0 ==> m in diffs;
  }

  lemma UserLabels()
    ensures "mysql_users" + ": missing " == "mysql_users: missing "
            && "mysql_users" + ": extra " == "mysql_users: extra "
    ensures "pgsql_users" + ": missing " == "pgsql_users: missing "
            && "pgsql_users" + ": extra " == "pgsql_users: extra "
  {
  }

  /** Users are reported by name: missing when only desired, extra when only at runtime. */
  lemma UserReported(diffs: seq<string>, d: Desired, rs: RuntimeState, classes: Classes, n: string)
    requires Reports(diffs, d, rs, classes)
    ensures (exists u :: u in d.mysqlUsers && u.username == n) && n !in rs.mysqlUsers ==>
            "mysql_users: missing " + n in diffs
    ensures (exists u :: u in d.pgsqlUsers && u.username == n) && n !in rs.pgsqlUsers ==>
            "pgsql_users: missing " + n in diffs
    ensures n in rs.mysqlUsers && (forall u | u in d.mysqlUsers :: u.username != n) ==>
            "mysql_users: extra " + n in diffs
    ensures n in rs.pgsqlUsers && (forall u | u in d.pgsqlUsers :: u.username != n) ==>
            "pgsql_users: extra " + n in diffs
  {
    hide KeyCount, Reports, RuleKeys, PgDisplays;
    UserLabels();
    KeyNamed("mysql_users", UserNames(d.mysqlUsers), rs.mysqlUsers, n);
    KeyNamed("pgsql_users", PgUserNames(d.pgsqlUsers), rs.pgsqlUsers, n);
    Counted(diffs, d, rs, classes, "mysql_users: missing " + n);
    Counted(diffs, d, rs, classes, "mysql_users: extra " + n);
    Counted(diffs, d, rs, classes, "pgsql_users: missing " + n);
    Counted(diffs, d, rs, classes, "pgsql_users: extra " + n);
  }

  lemma MySQLRuleLabels()
    ensures "mysql_query_rules" + ": missing " == "mysql_query_rules: missing "
    ensures "mysql_query_rules" + ": extra " == "mysql_query_rules: extra "
  {
  }

  lemma PgSQLRuleLabels()
    ensures "pgsql_query_rules" + ": missing " == "pgsql_query_rules: missing "
    ensures "pgsql_query_rules" + ": extra " == "pgsql_query_rules: extra "
  {
  }

  /** Rules are reported by number. */
  lemma RuleReported(diffs: seq<string>, d: Desired, rs: RuntimeState, classes: Classes, id: Int32)
    requires Reports(diffs, d, rs, classes)
    ensures (exists r :: r in d.mysqlRules && r.ruleID == id) && Itoa(id) !in rs.mysqlRules ==>
            "mysql_query_rules: missing " + Itoa(id) in diffs
    ensures (exists r :: r in d.pgsqlRules && r.ruleID == id) && Itoa(id) !in rs.pgsqlRules ==>
            "pgsql_query_rules: missing " + Itoa(id) in diffs
    ensures Itoa(id) in rs.mysqlRules && (forall r | r in d.mysqlRules :: r.ruleID != id) ==>
            "mysql_query_rules: extra " + Itoa(id) in diffs
    ensures Itoa(id) in rs.pgsqlRules && (forall r | r in d.pgsqlRules :: r.ruleID != id) ==>
            "pgsql_query_rules: extra " + Itoa(id) in diffs
  {
    hide KeyCount, Reports, UserNames, PgUserNames, PgDisplays, Itoa, RuleKeys;
    var n := Itoa(id);
    MySQLRuleLabels();
    PgSQLRuleLabels();
    RuleListed(d.mysqlRules, id);
    RuleListed(d.pgsqlRules, id);
    KeyNamed("mysql_query_rules", RuleKeys(d.mysqlRules), rs.mysqlRules, n);
    KeyNamed("pgsql_query_rules", RuleKeys(d.pgsqlRules), rs.pgsqlRules, n);
    Counted(diffs, d, rs, classes, "mysql_query_rules: missing " + n);
    Counted(diffs, d, rs, classes, "mysql_query_rules: extra " + n);
    Counted(diffs, d, rs, classes, "pgsql_query_rules: missing " + n);
    Counted(diffs, d, rs, classes, "pgsql_query_rules: extra " + n);
  }

  lemma RuleListed(rules: seq<QueryRule>, id: Int32)
    ensures Itoa(id) in RuleKeys(rules) <==> exists r :: r in rules && r.ruleID == id
  {
    hide Itoa;
    if Itoa(id) in RuleKeys(rules) {
      var r :| r in rules && Itoa(r.ruleID) == Itoa(id);
      ItoaInjective(r.ruleID, id);
    }
  }

  lemma PgServerLabels()
    ensures "pgsql_servers" + ": missing " == "pgsql_servers: missing "
    ensures "pgsql_servers" + ": extra " == "pgsql_servers: extra "
  {
  }

  /** PostgreSQL servers are reported as hostgroup, host and port, the default port filled in. */
  lemma PgServerReported(diffs: seq<string>, d: Desired, rs: RuntimeState, classes: Classes, g: Int32, host: string,
                         port: Int32)
    requires Reports(diffs, d, rs, classes)
    ensures var k := Itoa(g) + [':'] + (host + ([':'] + Itoa(port)));
            var wanted := exists s :: s in d.pgsqlServers && s.hostgroup == g && s.hostname == host
                                      && port == if s.port == 0 then 5432 else s.port;
            && (wanted && k !in rs.pgsqlServers ==> "pgsql_servers: missing " + k in diffs)
            && (k in rs.pgsqlServers && !wanted ==> "pgsql_servers: extra " + k in diffs)
  {
    hide KeyCount, Reports, UserNames, PgUserNames, RuleKeys, Itoa, PgDisplays;
    var k := HostKey(g, host, port);
    PgServerLabels();
    PgServerListed(d.pgsqlServers, g, host, port);
    KeyNamed("pgsql_servers", PgDisplays(d.pgsqlServers), rs.pgsqlServers.Keys, k);
    Counted(diffs, d, rs, classes, "pgsql_servers: missing " + k);
    Counted(diffs, d, rs, classes, "pgsql_servers: extra " + k);
  }

  lemma PgServerListed(servers: seq<PgSQLServer>, g: Int32, host: string, port: Int32)
    ensures HostKey(g, host, port) in PgDisplays(servers) <==>
            exists s :: s in servers && s.hostgroup == g && s.hostname == host
                        && port == if s.port == 0 then 5432 else s.port
  {
    hide HostKey;
    var p := Place(g, host, port);
    if HostKey(g, host, port) in PgDisplays(servers) {
      var s :| s in servers && Display(PgSQLPlace(s)) == Display(p);
      DisplayInjective(PgSQLPlace(s), p);
    }
    if s :| s in servers && s.hostgroup == g && s.hostname == host && port == if s.port == 0 then 5432 else s.port {
      assert PgSQLPlace(s) == p;
    }
  }

  /** The row's name stands for its canonical key: no other of these rows with that key comes first. */
  ghost predicate First(k: string, rows: set<string>, classes: Classes) {
    k in rows && forall j | j in rows && j != k && TextCanon(j, classes) == TextCanon(k, classes) :: !Less(j, k)
  }

  /** A MySQL server is reported missing, by the first row of its class, when no row of the class runs,
      unless all are to be OFFLINE_HARD. */
  lemma MissingReported(diffs: seq<string>, d: Desired, rs: RuntimeState, classes: Classes, k: string, s: MySQLServer)
    requires Reports(diffs, d, rs, classes) && First(k, Displays(d.mysqlServers), classes)
    requires forall j | j in rs.mysqlServers :: TextCanon(j, classes) != TextCanon(k, classes)
    requires s in d.mysqlServers && At(s, TextCanon(k, classes), classes) && s.status != "OFFLINE_HARD"
    ensures "mysql_servers: missing " + k in diffs
  {
    hide TextCanon, KeyCounts, NonDescending, Displays, At, ExtraSet, MisplacedSet, MissingAt;
    var c, m := TextCanon(k, classes), "mysql_servers: missing " + k;
    MissingDue(d, rs, classes, k, s);
    assert c in MissingSet(m, d, rs, classes);
    NotEmptySet(MissingSet(m, d, rs, classes));
    hide MissingSet;
    assert multiset(diffs)[m] > 0;
  }

  lemma MissingDue(d: Desired, rs: RuntimeState, classes: Classes, k: string, s: MySQLServer)
    requires First(k, Displays(d.mysqlServers), classes)
    requires forall j | j in rs.mysqlServers :: TextCanon(j, classes) != TextCanon(k, classes)
    requires s in d.mysqlServers && At(s, TextCanon(k, classes), classes) && s.status != "OFFLINE_HARD"
    ensures MissingAt("mysql_servers: missing " + k, TextCanon(k, classes), d, rs, classes)
  {
    hide TextCanon, Displays, At;
    FirstNames(k, Displays(d.mysqlServers), classes);
    assert Calls(k, TextCanon(k, classes), Displays(d.mysqlServers), classes);
  }

  /** And extra, by the first running row, when none of the class is desired. */
  lemma ExtraReported(diffs: seq<string>, d: Desired, rs: RuntimeState, classes: Classes, k: string)
    requires Reports(diffs, d, rs, classes) && First(k, rs.mysqlServers.Keys, classes)
    requires forall j | j in Displays(d.mysqlServers) :: TextCanon(j, classes) != TextCanon(k, classes)
    ensures "mysql_servers: extra " + k in diffs
  {
    hide TextCanon, KeyCounts, NonDescending, Displays, MissingSet, MisplacedSet;
    var c, m := TextCanon(k, classes), "mysql_servers: extra " + k;
    FirstNames(k, rs.mysqlServers.Keys, classes);
    assert ExtraAt(m, c, d, rs, classes);
    assert c in ExtraSet(m, d, rs, classes);
    NotEmptySet(ExtraSet(m, d, rs, classes));
    hide ExtraSet;
    assert multiset(diffs)[m] > 0;
  }

  lemma FirstNames(k: string, rows: set<string>, classes: Classes)
    ensures First(k, rows, classes) ==> Names(k, rows, classes)
  {
    hide TextCanon;
    if First(k, rows, classes) {
      forall j | j in rows && TextCanon(j, classes) == TextCanon(k, classes) ensures j == k || Less(k, j) {
        LessTotal(j, k);
      }
    }
  }

  /** A contradicted status is reported with what is wanted and what the rows show. */
  lemma StatusSays(display: string)
    ensures StatusText(display, "OFFLINE_SOFT", ["ONLINE", "SHUNNED"]) ==
            "mysql_servers: status " + display + " want " + "OFFLINE_SOFT" + " have " + "ONLINE,SHUNNED"
  {
    assert Join(["SHUNNED"], ',') == "SHUNNED" && ["ONLINE", "SHUNNED"][1..] == ["SHUNNED"];
    assert Join(["ONLINE", "SHUNNED"], ',') == "ONLINE,SHUNNED";
  }
}
