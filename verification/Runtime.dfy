/** The runtime_* tables of a ProxySQL replica, how a snapshot reads them, and what it means for
    them to have converged to a desired state. */
module Runtime {
  import opened Text
  import opened Replication
  import opened Desired
  import opened ServerKeys
  import opened Drift

  type Servers = map<Place, string>

  datatype Runtime = Runtime(
    mysqlServers: Servers, mysqlUsers: set<string>, mysqlRules: set<Int32>,
    pgsqlServers: Servers, pgsqlUsers: set<string>, pgsqlRules: set<Int32>)

  /* ---- reading ---- */

  type Row = seq<string>

  function ServerRow(p: Place, status: string): (r: Row) {
    [Itoa(p.hostgroup), p.host, Itoa(p.port), status]
  }

  /** The answer to the SELECT on a runtime servers table: its rows, in any order. */
  ghost predicate ListsServers(rows: seq<Row>, table: Servers) {
    && (forall r | r in rows :: exists p :: p in table && r == ServerRow(p, table[p]))
    && (forall p | p in table :: ServerRow(p, table[p]) in rows)
  }

  /** The answer to a one-column SELECT: rows may repeat and may carry further columns. */
  ghost predicate ListsKeys(rows: seq<Row>, keys: set<string>) {
    && (forall r | r in rows :: |r| >= 1 && r[0] in keys)
    && (forall k | k in keys :: exists r :: r in rows && |r| >= 1 && r[0] == k)
  }

  ghost function Ids(rules: set<Int32>): (keys: set<string>) {
    set id | id in rules :: Itoa(id)
  }

  ghost predicate ServersRead(have: map<string, string>, table: Servers) {
    && (forall p | p in table :: Display(p) in have && have[Display(p)] == table[p])
    && (forall k | k in have :: exists p :: p in table && Display(p) == k)
  }

  /** A snapshot holds the runtime tables, row by row. */
  ghost predicate Snapshot(rs: RuntimeState, rt: Runtime) {
    && ServersRead(rs.mysqlServers, rt.mysqlServers)
    && rs.mysqlUsers == rt.mysqlUsers
    && rs.mysqlRules == Ids(rt.mysqlRules)
    && ServersRead(rs.pgsqlServers, rt.pgsqlServers)
    && rs.pgsqlUsers == rt.pgsqlUsers
    && rs.pgsqlRules == Ids(rt.pgsqlRules)
  }

  /** The answers to the six queries; a failed query has none. */
  datatype Answers = Answers(
    mysqlServers: Option<seq<Row>>, mysqlUsers: Option<seq<Row>>, mysqlRules: Option<seq<Row>>,
    pgsqlServers: Option<seq<Row>>, pgsqlUsers: Option<seq<Row>>, pgsqlRules: Option<seq<Row>>)
  {
    predicate Complete() {
      mysqlServers.Some? && mysqlUsers.Some? && mysqlRules.Some? && pgsqlServers.Some? && pgsqlUsers.Some?
      && pgsqlRules.Some?
    }

    ghost predicate From(rt: Runtime)
      requires Complete()
    {
      && ListsServers(mysqlServers.value, rt.mysqlServers)
      && ListsKeys(mysqlUsers.value, rt.mysqlUsers)
      && ListsKeys(mysqlRules.value, Ids(rt.mysqlRules))
      && ListsServers(pgsqlServers.value, rt.pgsqlServers)
      && ListsKeys(pgsqlUsers.value, rt.pgsqlUsers)
      && ListsKeys(pgsqlRules.value, Ids(rt.pgsqlRules))
    }
  }

  method ReadServers(rows: seq<Row>) returns (dst: map<string, string>)
    ensures forall table | ListsServers(rows, table) :: ServersRead(dst, table)
  {
    dst := map[];
    for i := 0 to |rows|
      invariant forall k | k in dst :: FromRow(rows[..i], k, dst[k])
      invariant forall r | r in rows[..i] && |r| >= 4 :: RowKey(r) in dst
    {
      TakeNext(rows, i);
      var r := rows[i];
      ghost var before := dst;
      if |r| >= 4 {
        dst := dst[RowKey(r) := r[3]];
      }
      forall k | k in dst ensures FromRow(rows[..i + 1], k, dst[k]) {
        if |r| >= 4 && k == RowKey(r) {
          assert r in rows[..i + 1];
        } else {
          var q :| q in rows[..i] && |q| >= 4 && RowKey(q) == k && q[3] == before[k];
          assert q in rows[..i + 1];
        }
      }
    }
    assert rows[..|rows|] == rows;
    forall table | ListsServers(rows, table) ensures ServersRead(dst, table) { ReadExact(rows, dst, table); }
  }

  function RowKey(r: Row): (k: string)
    requires |r| >= 4
  {
    r[0] + [':'] + (r[1] + ([':'] + r[2]))
  }

  ghost predicate FromRow(rows: seq<Row>, k: string, status: string) {
    exists r :: r in rows && |r| >= 4 && RowKey(r) == k && r[3] == status
  }

  lemma ReadFrom(rows: seq<Row>, dst: map<string, string>, table: Servers, k: string) returns (p: Place)
    requires k in dst && FromRow(rows, k, dst[k]) && ListsServers(rows, table)
    ensures p in table && Display(p) == k && dst[k] == table[p]
  {
    hide Itoa;
    var r :| r in rows && |r| >= 4 && RowKey(r) == k && r[3] == dst[k];
    p :| p in table && r == ServerRow(p, table[p]);
    assert Display(p) == k;
  }

  lemma ReadWhole(rows: seq<Row>, dst: map<string, string>, table: Servers, p: Place)
    requires forall k | k in dst :: FromRow(rows, k, dst[k])
    requires forall r | r in rows && |r| >= 4 :: RowKey(r) in dst
    requires ListsServers(rows, table) && p in table
    ensures Display(p) in dst && dst[Display(p)] == table[p]
  {
    hide Itoa, FromRow;
    var r := ServerRow(p, table[p]);
    assert r in rows;
    assert RowKey(r) == Display(p);
    hide ListsServers, Display, RowKey;
    var q := ReadFrom(rows, dst, table, Display(p));
    DisplayInjective(p, q);
  }

  lemma ReadExact(rows: seq<Row>, dst: map<string, string>, table: Servers)
    requires forall k | k in dst :: FromRow(rows, k, dst[k])
    requires forall r | r in rows && |r| >= 4 :: RowKey(r) in dst
    requires ListsServers(rows, table)
    ensures ServersRead(dst, table)
  {
    hide Itoa, FromRow, ListsServers, Display, RowKey;
    forall k | k in dst ensures exists p :: p in table && Display(p) == k {
      var p := ReadFrom(rows, dst, table, k);
    }
    forall p | p in table ensures Display(p) in dst && dst[Display(p)] == table[p] {
      ReadWhole(rows, dst, table, p);
    }
  }

  method ReadKeys(rows: seq<Row>) returns (dst: set<string>)
    ensures forall keys | ListsKeys(rows, keys) :: dst == keys
  {
    dst := {};
    for i := 0 to |rows|
      invariant forall k :: k in dst <==> exists r :: r in rows[..i] && |r| >= 1 && r[0] == k
    {
      TakeNext(rows, i);
      ghost var before := dst;
      if |rows[i]| >= 1 {
        dst := dst + {rows[i][0]};
      }
      forall k ensures k in dst <==> exists r :: r in rows[..i + 1] && |r| >= 1 && r[0] == k {
        if k in before {
          var r :| r in rows[..i] && |r| >= 1 && r[0] == k;
          assert r in rows[..i + 1];
        } else if k in dst {
          assert rows[i] in rows[..i + 1];
        }
      }
    }
    assert rows[..|rows|] == rows;
  }

  /** ReadRuntime: any failed query aborts the read. */
  method ReadRuntime(q: Answers) returns (rs: Option<RuntimeState>)
    ensures rs.Some? <==> q.Complete()
    ensures forall rt | rs.Some? && q.From(rt) :: Snapshot(rs.value, rt)
  {
    hide ListsServers, ListsKeys, ServersRead, Ids;
    if !q.Complete() {
      return None;
    }
    var mysqlServers := ReadServers(q.mysqlServers.value);
    var mysqlUsers := ReadKeys(q.mysqlUsers.value);
    var mysqlRules := ReadKeys(q.mysqlRules.value);
    var pgsqlServers := ReadServers(q.pgsqlServers.value);
    var pgsqlUsers := ReadKeys(q.pgsqlUsers.value);
    var pgsqlRules := ReadKeys(q.pgsqlRules.value);
    rs := Some(RuntimeState(mysqlServers, mysqlUsers, mysqlRules, pgsqlServers, pgsqlUsers, pgsqlRules));
  }

  /* ---- convergence ---- */

  /** The runtime holds a row of the server in some hostgroup of its replication class. */
  ghost predicate Live(rows: Servers, pairs: Topology, p: Place) {
    exists q :: q in rows && SameServer(pairs, p, q)
  }

  ghost predicate LiveAs(rows: Servers, pairs: Topology, p: Place, status: string) {
    exists q :: q in rows && SameServer(pairs, p, q) && rows[q] == status
  }

  ghost predicate Listed(servers: seq<MySQLServer>, pairs: Topology, q: Place) {
    exists s :: s in servers && SameServer(pairs, q, MySQLPlace(s))
  }

  /** Every desired row of the server sets this status. */
  ghost predicate AllSet(servers: seq<MySQLServer>, pairs: Topology, p: Place, status: string) {
    forall s | s in servers && SameServer(pairs, p, MySQLPlace(s)) :: s.status == status
  }

  /** MySQL servers agree as sets modulo replication class; a server wholly OFFLINE_HARD is absent,
      one wholly OFFLINE_SOFT shows that status on some row, any other status is not compared. */
  ghost predicate ServersConverged(servers: seq<MySQLServer>, pairs: Topology, rows: Servers) {
    && (forall s | s in servers :: Live(rows, pairs, MySQLPlace(s)) <==>
        !AllSet(servers, pairs, MySQLPlace(s), OFFLINE_HARD))
    && (forall s | s in servers && AllSet(servers, pairs, MySQLPlace(s), OFFLINE_SOFT) ::
        LiveAs(rows, pairs, MySQLPlace(s), OFFLINE_SOFT))
    && (forall q | q in rows :: Listed(servers, pairs, q))
  }

  ghost predicate KeysConverged(d: Desired, rt: Runtime) {
    && rt.mysqlUsers == (set u | u in d.mysqlUsers :: u.username)
    && rt.mysqlRules == (set r | r in d.mysqlRules :: r.ruleID)
    && rt.pgsqlServers.Keys == (set s | s in d.pgsqlServers :: PgSQLPlace(s))
    && rt.pgsqlUsers == (set u | u in d.pgsqlUsers :: u.username)
    && rt.pgsqlRules == (set r | r in d.pgsqlRules :: r.ruleID)
  }

  ghost predicate Converged(d: Desired, rt: Runtime) {
    ServersConverged(d.mysqlServers, d.replicationHostgroups, rt.mysqlServers) && KeysConverged(d, rt)
  }

  lemma HoldsExact(have: map<string, string>, rows: Servers, classes: Classes, pairs: Topology, p: Place)
    requires ServersRead(have, rows) && Exact(classes, pairs)
    ensures Holds(have.Keys, Canon(p, classes), classes) <==> Live(rows, pairs, p)
  {
    hide TextCanon, Canon, Display, Exact, SameServer;
    if Holds(have.Keys, Canon(p, classes), classes) {
      var k :| k in have.Keys && TextCanon(k, classes) == Canon(p, classes);
      var q :| q in rows && Display(q) == k;
      TextCanonOfRow(q, classes);
      CanonExact(classes, pairs, p, q);
    }
    if Live(rows, pairs, p) {
      var q :| q in rows && SameServer(pairs, p, q);
      TextCanonOfRow(q, classes);
      CanonExact(classes, pairs, p, q);
      assert Display(q) in have.Keys;
    }
  }

  lemma RowsExact(have: map<string, string>, rows: Servers, classes: Classes, pairs: Topology, p: Place,
                  status: string)
    requires ServersRead(have, rows) && Exact(classes, pairs)
    ensures Rows(have, Canon(p, classes), status, classes) != {} <==> LiveAs(rows, pairs, p, status)
  {
    hide TextCanon, Canon, Display, Exact, SameServer;
    if Rows(have, Canon(p, classes), status, classes) != {} {
      var k :| k in Rows(have, Canon(p, classes), status, classes);
      var q :| q in rows && Display(q) == k;
      TextCanonOfRow(q, classes);
      CanonExact(classes, pairs, p, q);
    }
    if LiveAs(rows, pairs, p, status) {
      var q :| q in rows && SameServer(pairs, p, q) && rows[q] == status;
      TextCanonOfRow(q, classes);
      CanonExact(classes, pairs, p, q);
      assert Display(q) in Rows(have, Canon(p, classes), status, classes);
    }
  }

  lemma ListedExact(servers: seq<MySQLServer>, classes: Classes, pairs: Topology, q: Place)
    requires Exact(classes, pairs)
    ensures Holds(Displays(servers), Canon(q, classes), classes) <==> Listed(servers, pairs, q)
  {
    hide TextCanon, Canon, Display, Exact, SameServer;
    if Holds(Displays(servers), Canon(q, classes), classes) {
      var k :| k in Displays(servers) && TextCanon(k, classes) == Canon(q, classes);
      var s :| s in servers && Display(MySQLPlace(s)) == k;
      TextCanonOfRow(MySQLPlace(s), classes);
      CanonExact(classes, pairs, q, MySQLPlace(s));
    }
    if Listed(servers, pairs, q) {
      var s :| s in servers && SameServer(pairs, q, MySQLPlace(s));
      TextCanonOfRow(MySQLPlace(s), classes);
      CanonExact(classes, pairs, q, MySQLPlace(s));
      assert Display(MySQLPlace(s)) in Displays(servers);
    }
  }

  lemma WantsExact(servers: seq<MySQLServer>, classes: Classes, pairs: Topology, s: MySQLServer, status: string)
    requires Exact(classes, pairs) && s in servers && AdminOffline(status)
    ensures Wants(servers, Canon(MySQLPlace(s), classes), status, classes) <==>
            AllSet(servers, pairs, MySQLPlace(s), status)
  {
    hide Canon, Exact, SameServer, AdminOffline;
    var p := MySQLPlace(s);
    assert At(s, Canon(p, classes), classes);
    forall t ensures At(t, Canon(p, classes), classes) <==> SameServer(pairs, p, MySQLPlace(t)) {
      CanonExact(classes, pairs, p, MySQLPlace(t));
    }
  }

  lemma ServersExact(d: Desired, rs: RuntimeState, rows: Servers, classes: Classes)
    requires Exact(classes, d.replicationHostgroups) && ServersRead(rs.mysqlServers, rows)
    ensures ServersInSync(d, rs, classes) <==> ServersConverged(d.mysqlServers, d.replicationHostgroups, rows)
  {
    hide TextCanon, Canon, Display, Exact, Holds, Wants, Rows, Live, LiveAs, Listed, AllSet, MySQLPlace;
    var servers, pairs := d.mysqlServers, d.replicationHostgroups;
    forall s | s in servers ensures DesiredExact(rs, rows, servers, pairs, classes, s) {
      DesiredRow(rs, rows, servers, pairs, classes, s);
    }
    forall q | q in rows
      ensures Holds(Displays(servers), TextCanon(Display(q), classes), classes) <==> Listed(servers, pairs, q) {
      TextCanonOfRow(q, classes);
      ListedExact(servers, classes, pairs, q);
    }
    if ServersInSync(d, rs, classes) {
      forall s | s in servers
        ensures Live(rows, pairs, MySQLPlace(s)) <==> !AllSet(servers, pairs, MySQLPlace(s), OFFLINE_HARD)
        ensures AllSet(servers, pairs, MySQLPlace(s), OFFLINE_SOFT) ==>
                LiveAs(rows, pairs, MySQLPlace(s), OFFLINE_SOFT) {
        assert DesiredExact(rs, rows, servers, pairs, classes, s);
        assert Display(MySQLPlace(s)) in Displays(servers);
      }
      forall q | q in rows ensures Listed(servers, pairs, q) { assert Display(q) in rs.mysqlServers.Keys; }
    }
    if ServersConverged(servers, pairs, rows) {
      forall k | k in Displays(servers)
        ensures exists s ::
                s in servers && Display(MySQLPlace(s)) == k && DesiredExact(rs, rows, servers, pairs, classes, s) {
        var s :| s in servers && Display(MySQLPlace(s)) == k;
        assert DesiredExact(rs, rows, servers, pairs, classes, s);
      }
      forall k | k in rs.mysqlServers.Keys ensures Holds(Displays(servers), TextCanon(k, classes), classes) {
        var q :| q in rows && Display(q) == k;
      }
    }
  }

  /** The comparisons made for one desired row, in both vocabularies. */
  ghost predicate DesiredExact(rs: RuntimeState, rows: Servers, servers: seq<MySQLServer>, pairs: Topology,
                               classes: Classes, s: MySQLServer) {
    var p, c := MySQLPlace(s), TextCanon(Display(MySQLPlace(s)), classes);
    && (Holds(rs.mysqlServers.Keys, c, classes) <==> Live(rows, pairs, p))
    && (Rows(rs.mysqlServers, c, OFFLINE_SOFT, classes) != {} <==> LiveAs(rows, pairs, p, OFFLINE_SOFT))
    && (Wants(servers, c, OFFLINE_HARD, classes) <==> AllSet(servers, pairs, p, OFFLINE_HARD))
    && (Wants(servers, c, OFFLINE_SOFT, classes) <==> AllSet(servers, pairs, p, OFFLINE_SOFT))
  }

  lemma DesiredRow(rs: RuntimeState, rows: Servers, servers: seq<MySQLServer>, pairs: Topology, classes: Classes,
                   s: MySQLServer)
    requires Exact(classes, pairs) && ServersRead(rs.mysqlServers, rows) && s in servers
    ensures DesiredExact(rs, rows, servers, pairs, classes, s)
  {
    hide TextCanon, Canon, Display, Exact, Holds, Wants, Rows, Live, LiveAs, Listed, AllSet, MySQLPlace, ServersRead;
    var p := MySQLPlace(s);
    TextCanonOfRow(p, classes);
    HoldsExact(rs.mysqlServers, rows, classes, pairs, p);
    RowsExact(rs.mysqlServers, rows, classes, pairs, p, OFFLINE_SOFT);
    WantsExact(servers, classes, pairs, s, OFFLINE_HARD);
    WantsExact(servers, classes, pairs, s, OFFLINE_SOFT);
  }

  lemma IdsExact(rules: seq<QueryRule>, ids: set<Int32>)
    ensures RuleKeys(rules) == Ids(ids) <==> ids == set r | r in rules :: r.ruleID
  {
    var want := set r | r in rules :: r.ruleID;
    hide Itoa;
    forall k ensures k in RuleKeys(rules) <==> k in Ids(want) {
      if k in RuleKeys(rules) {
        var r :| r in rules && Itoa(r.ruleID) == k;
        assert r.ruleID in want;
      }
    }
    assert RuleKeys(rules) == Ids(want);
    if Ids(want) == Ids(ids) {
      forall i: Int32 ensures i in want <==> i in ids {
        IdRead(want, i);
        IdRead(ids, i);
      }
    }
  }

  lemma IdRead(ids: set<Int32>, i: Int32)
    ensures Itoa(i) in Ids(ids) <==> i in ids
  {
    if Itoa(i) in Ids(ids) {
      var j :| j in ids && Itoa(j) == Itoa(i);
      ItoaInjective(i, j);
    }
  }

  lemma PlacesExact(servers: seq<PgSQLServer>, have: map<string, string>, table: Servers)
    requires ServersRead(have, table)
    ensures PgDisplays(servers) == have.Keys <==> table.Keys == set s | s in servers :: PgSQLPlace(s)
  {
    hide Display, PgSQLPlace;
    var want := set s | s in servers :: PgSQLPlace(s);
    forall p ensures Display(p) in PgDisplays(servers) <==> p in want {
      if Display(p) in PgDisplays(servers) {
        var s :| s in servers && Display(PgSQLPlace(s)) == Display(p);
        DisplayInjective(PgSQLPlace(s), p);
      }
    }
    forall p ensures Display(p) in have.Keys <==> p in table {
      if Display(p) in have.Keys {
        var q :| q in table && Display(q) == Display(p);
        DisplayInjective(p, q);
      }
    }
    if table.Keys == want {
      forall k ensures k in PgDisplays(servers) <==> k in have.Keys {
        if k in have { var p :| p in table && Display(p) == k; }
        if k in PgDisplays(servers) {
          var s :| s in servers && Display(PgSQLPlace(s)) == k;
          assert PgSQLPlace(s) in want;
        }
      }
    }
    if PgDisplays(servers) == have.Keys {
      forall p ensures p in table <==> p in want {
        assert Display(p) in have.Keys <==> Display(p) in PgDisplays(servers);
      }
    }
  }

  /** On a snapshot, drift detection finds nothing exactly when the replica has converged. */
  lemma InSyncExactly(d: Desired, rs: RuntimeState, rt: Runtime, classes: Classes)
    requires Exact(classes, d.replicationHostgroups) && Snapshot(rs, rt)
    ensures ServersInSync(d, rs, classes) && KeysInSync(d, rs) <==> Converged(d, rt)
  {
    ServersExact(d, rs, rt.mysqlServers, classes);
    hide Exact, ServersInSync, ServersConverged, ServersRead, Ids, RuleKeys, PgDisplays;
    IdsExact(d.mysqlRules, rt.mysqlRules);
    IdsExact(d.pgsqlRules, rt.pgsqlRules);
    PlacesExact(d.pgsqlServers, rs.pgsqlServers, rt.pgsqlServers);
  }

  /** The read-back of one replica: snapshot, then drift. */
  method ReadBack(d: Desired, q: Answers) returns (diffs: Option<seq<string>>)
    ensures diffs.Some? <==> q.Complete()
    ensures forall rt | diffs.Some? && q.From(rt) :: diffs.value == [] <==> Converged(d, rt)
  {
    hide Exact, ServersInSync, KeysInSync, Snapshot, Converged, Reports;
    var rs := ReadRuntime(q);
    if rs.None? {
      return None;
    }
    var found := Drift.Drift(d, rs.value);
    ghost var classes :| Exact(classes, d.replicationHostgroups);
    forall rt | q.From(rt) ensures found == [] <==> Converged(d, rt) {
      InSyncExactly(d, rs.value, rt, classes);
    }
    diffs := Some(found);
  }
}
