/** A replica that took a whole push stays in sync: no re-push loop. */
module Resync {
  import opened Text
  import opened Sql
  import opened Replication
  import opened Desired
  import opened ServerKeys
  import opened Drift
  import opened Runtime
  import opened Union
  import opened AdminDb
  import opened Sync
  import opened Monitor

  /* ---- keyed tables ---- */

  ghost predicate Keyed<K(!new), V>(m: map<K, V>, rows: seq<V>, key: V -> K) {
    && (forall r | r in rows :: key(r) in m && m[key(r)] == r)
    && (forall k | k in m :: m[k] in rows && key(m[k]) == k)
  }

  lemma ClashTail<K(!new), V>(rows: seq<V>, key: V -> K, n: nat)
    requires !Clash(map[], rows, key) && n <= |rows|
    ensures !Clash(map[], rows[..n], key)
  {
    var rest := rows[..n];
    forall i, j | 0 <= i < j < n ensures key(rest[i]) != key(rest[j]) { assert key(rows[i]) != key(rows[j]); }
  }

  lemma LastKeyFresh<K(!new), V>(rows: seq<V>, key: V -> K)
    requires !Clash(map[], rows, key) && rows != []
    ensures forall r | r in rows[..|rows| - 1] :: key(r) != key(rows[|rows| - 1])
  {
    var n := |rows| - 1;
    forall r | r in rows[..n] ensures key(r) != key(rows[n]) {
      var i :| 0 <= i < n && rows[..n][i] == r;
      assert key(rows[i]) != key(rows[n]);
    }
  }

  lemma KeyedNext<K(!new), V>(m: map<K, V>, rows: seq<V>, key: V -> K, last: V)
    requires Keyed(m, rows, key) && forall r | r in rows :: key(r) != key(last)
    ensures Keyed(m[key(last) := last], rows + [last], key)
  {
    assert forall r :: r in rows + [last] <==> r in rows || r == last;
  }

  /** Rows with distinct keys are all found again under their keys. */
  lemma {:induction false} KeyedRows<K(!new), V>(rows: seq<V>, key: V -> K)
    requires !Clash(map[], rows, key)
    ensures Keyed(Overwritten(map[], rows, key), rows, key)
    decreases |rows|
  {
    if rows != [] {
      var n := |rows| - 1;
      ClashTail(rows, key, n);
      LastKeyFresh(rows, key);
      hide Clash, Keyed;
      KeyedRows(rows[..n], key);
      KeyedNext(Overwritten(map[], rows[..n], key), rows[..n], key, rows[n]);
      assert rows == rows[..n] + [rows[n]];
    }
  }

  /* ---- users and rules ---- */

  /** Each user is on file under its quoted name, and nothing else is. */
  ghost predicate Filed<V(!new)>(m: map<string, V>, users: seq<V>, name: V -> string, active: V -> Option<bool>) {
    && (forall u | u in users :: StripControl(name(u)) in m && active(m[StripControl(name(u))]) == active(u))
    && (forall n | n in m :: exists u :: u in users && n == StripControl(name(u)) && active(m[n]) == active(u))
  }

  lemma UsersFiled<V(!new)>(m: map<string, V>, users: seq<V>, stored: V -> V, name: V -> string,
                            active: V -> Option<bool>)
    requires Keyed(m, Each(users, stored), name)
    requires forall u :: name(stored(u)) == StripControl(name(u)) && active(stored(u)) == active(u)
    ensures Filed(m, users, name, active)
  {
    hide StripControl;
    var rows := Each(users, stored);
    forall u | u in users ensures StripControl(name(u)) in m && active(m[StripControl(name(u))]) == active(u) {
      var i :| 0 <= i < |users| && users[i] == u;
      assert rows[i] in rows;
      assert name(stored(u)) == StripControl(name(u));
    }
    forall n | n in m ensures exists u :: u in users && n == StripControl(name(u)) && active(m[n]) == active(u) {
      var i :| 0 <= i < |rows| && rows[i] == m[n];
      assert users[i] in users && name(stored(users[i])) == StripControl(name(users[i]));
    }
  }

  /** Users come back under their names exactly when those survive quoting and the rows are visible. */
  lemma UsersShown<V(!new)>(m: map<string, V>, users: seq<V>, name: V -> string, active: V -> Option<bool>,
                            shows: bool, shown: set<string>)
    requires Filed(m, users, name, active) && shown == set n | n in m && Visible(active(m[n]), shows)
    ensures shown == (set u | u in users :: name(u)) <==>
            forall u | u in users :: ControlFree(name(u)) && Visible(active(u), shows)
  {
    hide Visible;
    var names := set u | u in users :: name(u);
    if shown == names {
      forall u | u in users ensures ControlFree(name(u)) && Visible(active(u), shows) {
        assert name(u) in shown;
        var v :| v in users && name(u) == StripControl(name(v)) && active(m[name(u)]) == active(v);
        assert StripControl(name(u)) == name(u);
      }
    }
    if forall u | u in users :: ControlFree(name(u)) && Visible(active(u), shows) {
      forall n | n in shown ensures n in names {
        var u :| u in users && n == StripControl(name(u)) && active(m[n]) == active(u);
        assert StripControl(name(u)) == name(u);
      }
      forall n | n in names ensures n in shown {
        var u :| u in users && name(u) == n;
        assert StripControl(name(u)) == name(u);
      }
    }
  }

  lemma RulesShown(rules: seq<QueryRule>, shows: bool, m: map<Int32, QueryRule>, shown: set<Int32>)
    requires Keyed(m, rules, RuleKey) && shown == set i | i in m && Visible(m[i].active, shows)
    ensures shown == (set r | r in rules :: r.ruleID) <==> forall r | r in rules :: Visible(r.active, shows)
  {
    hide Visible;
    var ids := set r | r in rules :: r.ruleID;
    forall r | r in rules ensures r.ruleID in m && m[r.ruleID] == r { assert RuleKey(r) in m; }
    assert m.Keys == ids;
    if forall r | r in rules :: Visible(r.active, shows) {
      assert shown == ids;
    }
    if shown == ids {
      forall r | r in rules ensures Visible(r.active, shows) { assert r.ruleID in shown; }
    }
  }

  /* ---- PostgreSQL servers ---- */

  function PgQuotedPlace(s: PgSQLServer): (p: Place) {
    PgSQLPlace(s).(host := StripControl(s.hostname))
  }

  ghost predicate PgFiled(m: map<Place, PgSQLServer>, servers: seq<PgSQLServer>) {
    && (forall s | s in servers :: PgQuotedPlace(s) in m)
    && (forall p | p in m :: exists s :: s in servers && p == PgQuotedPlace(s))
  }

  lemma PgSQLFiled(servers: seq<PgSQLServer>, m: map<Place, PgSQLServer>)
    requires Keyed(m, Each(servers, StoredPgSQLServer), PgSQLPlace)
    ensures PgFiled(m, servers)
  {
    hide StripControl;
    var rows := Each(servers, StoredPgSQLServer);
    forall s | s in servers ensures PgQuotedPlace(s) in m {
      var i :| 0 <= i < |servers| && servers[i] == s;
      assert rows[i] in rows && PgSQLPlace(rows[i]) in m;
    }
    forall p | p in m ensures exists s :: s in servers && p == PgQuotedPlace(s) {
      var i :| 0 <= i < |rows| && rows[i] == m[p];
      assert servers[i] in servers;
    }
  }

  lemma PgQuotedSame(s: PgSQLServer)
    ensures PgQuotedPlace(s) == PgSQLPlace(s) <==> ControlFree(s.hostname)
    ensures ControlFree(PgQuotedPlace(s).host) && PgSQLPlace(s).host == s.hostname
  {
  }

  lemma PgShownPlain(servers: seq<PgSQLServer>, m: map<Place, PgSQLServer>, s: PgSQLServer)
    requires PgFiled(m, servers) && PgSQLPlace(s) in m
    ensures ControlFree(s.hostname)
  {
    hide PgQuotedPlace, PgSQLPlace, ControlFree;
    var t :| t in servers && PgSQLPlace(s) == PgQuotedPlace(t);
    PgQuotedSame(t);
    PgQuotedSame(s);
  }

  lemma PgPlainShown(servers: seq<PgSQLServer>, m: map<Place, PgSQLServer>)
    requires PgFiled(m, servers) && forall s | s in servers :: ControlFree(s.hostname)
    ensures m.Keys == set s | s in servers :: PgSQLPlace(s)
  {
    hide PgQuotedPlace, PgSQLPlace, ControlFree;
    forall s | s in servers ensures PgQuotedPlace(s) == PgSQLPlace(s) { PgQuotedSame(s); }
    forall p | p in m ensures exists s :: s in servers && p == PgSQLPlace(s) {
      var s :| s in servers && p == PgQuotedPlace(s);
    }
  }

  lemma PgSQLShown(servers: seq<PgSQLServer>, m: map<Place, PgSQLServer>)
    requires Keyed(m, Each(servers, StoredPgSQLServer), PgSQLPlace)
    ensures m.Keys == (set s | s in servers :: PgSQLPlace(s)) <==> forall s | s in servers :: ControlFree(s.hostname)
  {
    hide PgSQLPlace, ControlFree, Keyed, PgFiled;
    PgSQLFiled(servers, m);
    var places := set s | s in servers :: PgSQLPlace(s);
    if m.Keys == places {
      forall s | s in servers ensures ControlFree(s.hostname) {
        assert PgSQLPlace(s) in places;
        PgShownPlain(servers, m, s);
      }
    }
    if forall s | s in servers :: ControlFree(s.hostname) { PgPlainShown(servers, m); }
  }

  /* ---- MySQL servers ---- */

  /** The status values the configuration schema admits. */
  predicate KnownStatus(status: string) {
    status == "" || status == ONLINE || status == OFFLINE_SOFT || status == OFFLINE_HARD
  }

  function ShownStatus(status: string): (r: string) {
    if status == "" then ONLINE else status
  }

  function QuotedPlace(s: MySQLServer): (p: Place) {
    MySQLPlace(s).(host := StripControl(s.hostname))
  }

  lemma PlainStatuses()
    ensures ControlFree(ONLINE) && ControlFree(OFFLINE_SOFT) && ControlFree(OFFLINE_HARD)
    ensures ONLINE != OFFLINE_HARD && |OFFLINE_HARD| > 0
  {
  }

  lemma StatusKept(s: MySQLServer)
    requires KnownStatus(s.status)
    ensures StoredMySQLServer(s).status == ShownStatus(s.status) && MySQLPlace(StoredMySQLServer(s)) == QuotedPlace(s)
    ensures ShownStatus(s.status) == OFFLINE_HARD <==> s.status == OFFLINE_HARD
  {
    PlainStatuses();
    hide ControlFree, StripControl;
  }

  /** What LOAD shows: every row not OFFLINE_HARD, under its quoted host name. */
  ghost predicate Visibly(live: Servers, servers: seq<MySQLServer>) {
    && (forall s | s in servers && s.status != OFFLINE_HARD ::
        QuotedPlace(s) in live && live[QuotedPlace(s)] == ShownStatus(s.status))
    && (forall p | p in live :: exists s ::
        s in servers && s.status != OFFLINE_HARD && p == QuotedPlace(s) && live[p] == ShownStatus(s.status))
  }

  lemma ServersVisible(m: map<Place, MySQLServer>, servers: seq<MySQLServer>)
    requires Keyed(m, Each(servers, StoredMySQLServer), MySQLPlace) && forall s | s in servers :: KnownStatus(s.status)
    ensures Visibly(MySQLLive(m), servers)
  {
    hide QuotedPlace, StoredMySQLServer, ShownStatus, KnownStatus, MySQLPlace;
    var rows := Each(servers, StoredMySQLServer);
    forall s | s in servers && s.status != OFFLINE_HARD
      ensures QuotedPlace(s) in MySQLLive(m) && MySQLLive(m)[QuotedPlace(s)] == ShownStatus(s.status) {
      var i :| 0 <= i < |servers| && servers[i] == s;
      StatusKept(s);
      assert rows[i] in rows;
    }
    forall p | p in MySQLLive(m)
      ensures exists s ::
              s in servers && s.status != OFFLINE_HARD && p == QuotedPlace(s)
              && MySQLLive(m)[p] == ShownStatus(s.status) {
      var i :| 0 <= i < |rows| && rows[i] == m[p];
      StatusKept(servers[i]);
      assert servers[i] in servers;
    }
  }

  /** A host name matters only for a server that is to be live. */
  ghost predicate TidyHosts(servers: seq<MySQLServer>, pairs: Topology) {
    forall s | s in servers && !AllSet(servers, pairs, MySQLPlace(s), OFFLINE_HARD) :: ControlFree(s.hostname)
  }

  lemma NotAllHard(servers: seq<MySQLServer>, pairs: Topology, s: MySQLServer)
    requires s in servers && s.status != OFFLINE_HARD
    ensures !AllSet(servers, pairs, MySQLPlace(s), OFFLINE_HARD)
  {
    hide SameServer, MySQLPlace;
    SameServerLaws(pairs, MySQLPlace(s), MySQLPlace(s), MySQLPlace(s));
  }

  lemma QuotedSame(s: MySQLServer)
    requires ControlFree(s.hostname)
    ensures QuotedPlace(s) == MySQLPlace(s)
  {
  }

  /** Where a live row comes from. */
  lemma Origin(servers: seq<MySQLServer>, pairs: Topology, loaded: Servers, live: Servers, q: Place)
    returns (t: MySQLServer)
    requires Visibly(loaded, servers) && Moved(pairs, loaded, live) && TidyHosts(servers, pairs) && q in live
    ensures t in servers && t.status != OFFLINE_HARD && SameServer(pairs, q, MySQLPlace(t))
    ensures live[q] == ShownStatus(t.status) || (Health(live[q]) && Health(ShownStatus(t.status)))
  {
    hide SameServer, QuotedPlace, MySQLPlace, AllSet, ShownStatus, Health, ControlFree;
    var p :| p in loaded && SameServer(pairs, q, p) && (live[q] == loaded[p] || (Health(live[q]) && Health(loaded[p])));
    t :| t in servers && t.status != OFFLINE_HARD && p == QuotedPlace(t) && loaded[p] == ShownStatus(t.status);
    NotAllHard(servers, pairs, t);
    QuotedSame(t);
  }

  lemma StaysLive(servers: seq<MySQLServer>, pairs: Topology, loaded: Servers, live: Servers, s: MySQLServer)
    requires Visibly(loaded, servers) && Moved(pairs, loaded, live) && TidyHosts(servers, pairs) && s in servers
    ensures Live(live, pairs, MySQLPlace(s)) <==> !AllSet(servers, pairs, MySQLPlace(s), OFFLINE_HARD)
  {
    hide SameServer, QuotedPlace, MySQLPlace, ShownStatus, Health, ControlFree, Visibly, Moved, TidyHosts;
    if Live(live, pairs, MySQLPlace(s)) {
      var q :| q in live && SameServer(pairs, MySQLPlace(s), q);
      var t := Origin(servers, pairs, loaded, live, q);
      SameServerLaws(pairs, MySQLPlace(s), q, MySQLPlace(t));
    }
    if !AllSet(servers, pairs, MySQLPlace(s), OFFLINE_HARD) {
      var t :| t in servers && SameServer(pairs, MySQLPlace(s), MySQLPlace(t)) && t.status != OFFLINE_HARD;
      StillThere(servers, pairs, loaded, live, t);
      var q :| q in live && SameServer(pairs, MySQLPlace(t), q);
      SameServerLaws(pairs, MySQLPlace(s), MySQLPlace(t), q);
    }
  }

  lemma StillThere(servers: seq<MySQLServer>, pairs: Topology, loaded: Servers, live: Servers, t: MySQLServer)
    requires Visibly(loaded, servers) && Moved(pairs, loaded, live) && TidyHosts(servers, pairs)
    requires t in servers && t.status != OFFLINE_HARD
    ensures Live(live, pairs, MySQLPlace(t))
  {
    hide SameServer, QuotedPlace, MySQLPlace, AllSet, ShownStatus, ControlFree, Live, Carried;
    NotAllHard(servers, pairs, t);
    QuotedSame(t);
  }

  lemma StaysSoft(servers: seq<MySQLServer>, pairs: Topology, loaded: Servers, live: Servers, s: MySQLServer)
    requires Visibly(loaded, servers) && Moved(pairs, loaded, live) && TidyHosts(servers, pairs) && s in servers
    requires AllSet(servers, pairs, MySQLPlace(s), OFFLINE_SOFT)
    ensures LiveAs(live, pairs, MySQLPlace(s), OFFLINE_SOFT)
  {
    hide SameServer, QuotedPlace, MySQLPlace, ControlFree, Visibly, Moved, TidyHosts;
    SameServerLaws(pairs, MySQLPlace(s), MySQLPlace(s), MySQLPlace(s));
    assert s.status == OFFLINE_SOFT && OFFLINE_SOFT[8] != OFFLINE_HARD[8] && OFFLINE_SOFT[0] == ONLINE[0]
           && OFFLINE_SOFT[1] != ONLINE[1] && OFFLINE_SOFT[0] != SHUNNED[0];
    StillThere(servers, pairs, loaded, live, s);
    var q :| q in live && SameServer(pairs, MySQLPlace(s), q);
    var t := Origin(servers, pairs, loaded, live, q);
    SameServerLaws(pairs, MySQLPlace(s), q, MySQLPlace(t));
  }

  lemma QuotedHost(servers: seq<MySQLServer>, pairs: Topology, loaded: Servers, live: Servers, q: Place)
    requires Visibly(loaded, servers) && Moved(pairs, loaded, live) && q in live
    ensures ControlFree(q.host)
  {
    hide MySQLPlace, ShownStatus, Health, ControlFree, Connected;
    var p :| p in loaded && SameServer(pairs, q, p);
    var t :| t in servers && p == QuotedPlace(t);
  }

  /** Whatever the monitor does, MySQL servers agree exactly when the live ones have plain host names. */
  lemma ServersStay(servers: seq<MySQLServer>, pairs: Topology, loaded: Servers, live: Servers)
    requires Visibly(loaded, servers) && Moved(pairs, loaded, live)
    ensures ServersConverged(servers, pairs, live) <==> TidyHosts(servers, pairs)
  {
    hide QuotedPlace, ShownStatus, Health, ControlFree, Visibly, Moved, AllSet, Connected, LiveAs;
    if TidyHosts(servers, pairs) {
      forall s | s in servers
        ensures Live(live, pairs, MySQLPlace(s)) <==> !AllSet(servers, pairs, MySQLPlace(s), OFFLINE_HARD) {
        StaysLive(servers, pairs, loaded, live, s);
      }
      forall s | s in servers && AllSet(servers, pairs, MySQLPlace(s), OFFLINE_SOFT)
        ensures LiveAs(live, pairs, MySQLPlace(s), OFFLINE_SOFT) {
        StaysSoft(servers, pairs, loaded, live, s);
      }
      forall q | q in live ensures Listed(servers, pairs, q) {
        var t := Origin(servers, pairs, loaded, live, q);
      }
    }
    if ServersConverged(servers, pairs, live) {
      forall s | s in servers && !AllSet(servers, pairs, MySQLPlace(s), OFFLINE_HARD) ensures ControlFree(s.hostname) {
        var q :| q in live && SameServer(pairs, MySQLPlace(s), q);
        QuotedHost(servers, pairs, loaded, live, q);
      }
    }
  }

  /* ---- the whole desired state ---- */

  /** The replica runs exactly the desired rows, as quoted, with distinct keys. */
  ghost predicate Pushed(d: Desired, db: Db) {
    forall t: Table :: ViewOf(db, t) == Published(RowsFor(d, t)) && !Refused(NO_TABLES, RowsFor(d, t))
  }

  lemma SyncPushes(d: Desired, db: Db, script: seq<Reply>)
    requires d.sqlStatements == []
    requires FirstFailure(None, Steps(d, false), RunSteps(db, Steps(d, false), script).oks)
    ensures Pushed(d, RunSteps(db, Steps(d, false), script).db)
  {
    StepCount(d);
    hide RunSteps, Steps, ViewOf, Published, RowsFor, Refused;
    forall t: Table
      ensures ViewOf(RunSteps(db, Steps(d, false), script).db, t) == Published(RowsFor(d, t))
              && !Refused(NO_TABLES, RowsFor(d, t)) {
      SectionsIndependent(d, t, db, script);
    }
  }

  lemma PushedServers(d: Desired, db: Db)
    requires Pushed(d, db) && forall s | s in d.mysqlServers :: KnownStatus(s.status)
    ensures Visibly(db.mysqlLive, d.mysqlServers) && ListsPairs(d.replicationHostgroups, db.loaded.replication)
  {
    hide Overwritten, MySQLLive, Visibly, ListsPairs, Clash, KnownStatus;
    assert ViewOf(db, MySQLServersTable) == Published(RowsFor(d, MySQLServersTable))
           && !Refused(NO_TABLES, RowsFor(d, MySQLServersTable));
    assert ViewOf(db, ReplicationTable) == Published(RowsFor(d, ReplicationTable))
           && !Refused(NO_TABLES, RowsFor(d, ReplicationTable));
    KeyedRows(Each(d.mysqlServers, StoredMySQLServer), MySQLPlace);
    ServersVisible(Overwritten(map[], Each(d.mysqlServers, StoredMySQLServer), MySQLPlace), d.mysqlServers);
    KeyedRows(d.replicationHostgroups, WriterKey);
    PairsListed(d, Overwritten(map[], d.replicationHostgroups, WriterKey));
  }

  lemma PairsListed(d: Desired, m: map<Int32, ReplicationHostgroup>)
    requires Keyed(m, d.replicationHostgroups, WriterKey)
    ensures ListsPairs(d.replicationHostgroups, m)
  {
    var hs := d.replicationHostgroups;
    forall p | p in d.replicationHostgroups ensures exists w :: w in m && p == m[w] {
      var i :| 0 <= i < |hs| && d.replicationHostgroups[i] == p;
      assert hs[i] in hs && WriterKey(hs[i]) in m;
    }
    forall w | w in m ensures m[w] in d.replicationHostgroups {
      var i :| 0 <= i < |hs| && hs[i] == m[w];
    }
  }

  function MySQLActive(u: MySQLUser): (a: Option<bool>) { u.active }
  function PgSQLActive(u: PgSQLUser): (a: Option<bool>) { u.active }

  ghost predicate TidyMySQL(d: Desired, shows: bool) {
    && (forall u | u in d.mysqlUsers :: ControlFree(u.username) && Visible(u.active, shows))
    && (forall r | r in d.mysqlRules :: Visible(r.active, shows))
  }

  ghost predicate TidyPgSQL(d: Desired, shows: bool) {
    && (forall s | s in d.pgsqlServers :: ControlFree(s.hostname))
    && (forall u | u in d.pgsqlUsers :: ControlFree(u.username) && Visible(u.active, shows))
    && (forall r | r in d.pgsqlRules :: Visible(r.active, shows))
  }

  /** The condition a caller can check: plain names, and rows the replica shows. */
  ghost predicate Tidy(d: Desired, shows: bool) {
    TidyHosts(d.mysqlServers, d.replicationHostgroups) && TidyMySQL(d, shows) && TidyPgSQL(d, shows)
  }

  lemma PushedMySQLUsers(d: Desired, db: Db, shows: bool)
    requires Pushed(d, db)
    ensures MySQLUsersShown(db.loaded, shows) == (set u | u in d.mysqlUsers :: u.username) <==>
            forall u | u in d.mysqlUsers :: ControlFree(u.username) && Visible(u.active, shows)
  {
    hide Overwritten, Clash, Visible, Keyed, Filed, StripControl, ControlFree;
    assert ViewOf(db, MySQLUsersTable) == Published(RowsFor(d, MySQLUsersTable))
           && !Refused(NO_TABLES, RowsFor(d, MySQLUsersTable));
    hide Pushed;
    KeyedRows(Each(d.mysqlUsers, StoredMySQLUser), MySQLUserKey);
    UsersFiled(db.loaded.mysqlUsers, d.mysqlUsers, StoredMySQLUser, MySQLUserKey, MySQLActive);
    UsersShown(db.loaded.mysqlUsers, d.mysqlUsers, MySQLUserKey, MySQLActive, shows, MySQLUsersShown(db.loaded, shows));
    assert (set u | u in d.mysqlUsers :: MySQLUserKey(u)) == set u | u in d.mysqlUsers :: u.username;
  }

  lemma PushedPgSQLUsers(d: Desired, db: Db, shows: bool)
    requires Pushed(d, db)
    ensures PgSQLUsersShown(db.loaded, shows) == (set u | u in d.pgsqlUsers :: u.username) <==>
            forall u | u in d.pgsqlUsers :: ControlFree(u.username) && Visible(u.active, shows)
  {
    hide Overwritten, Clash, Visible, Keyed, Filed, StripControl, ControlFree;
    assert ViewOf(db, PgSQLUsersTable) == Published(RowsFor(d, PgSQLUsersTable))
           && !Refused(NO_TABLES, RowsFor(d, PgSQLUsersTable));
    hide Pushed;
    KeyedRows(Each(d.pgsqlUsers, StoredPgSQLUser), PgSQLUserKey);
    UsersFiled(db.loaded.pgsqlUsers, d.pgsqlUsers, StoredPgSQLUser, PgSQLUserKey, PgSQLActive);
    UsersShown(db.loaded.pgsqlUsers, d.pgsqlUsers, PgSQLUserKey, PgSQLActive, shows, PgSQLUsersShown(db.loaded, shows));
    assert (set u | u in d.pgsqlUsers :: PgSQLUserKey(u)) == set u | u in d.pgsqlUsers :: u.username;
  }

  lemma PushedMySQLRules(d: Desired, db: Db, shows: bool)
    requires Pushed(d, db)
    ensures MySQLRulesShown(db.loaded, shows) == (set r | r in d.mysqlRules :: r.ruleID) <==>
            forall r | r in d.mysqlRules :: Visible(r.active, shows)
  {
    hide Overwritten, Clash, Visible, Keyed;
    assert ViewOf(db, MySQLRulesTable) == Published(RowsFor(d, MySQLRulesTable))
           && !Refused(NO_TABLES, RowsFor(d, MySQLRulesTable));
    hide Pushed;
    KeyedRows(d.mysqlRules, RuleKey);
    RulesShown(d.mysqlRules, shows, db.loaded.mysqlRules, MySQLRulesShown(db.loaded, shows));
  }

  lemma PushedPgSQLRules(d: Desired, db: Db, shows: bool)
    requires Pushed(d, db)
    ensures PgSQLRulesShown(db.loaded, shows) == (set r | r in d.pgsqlRules :: r.ruleID) <==>
            forall r | r in d.pgsqlRules :: Visible(r.active, shows)
  {
    hide Overwritten, Clash, Visible, Keyed;
    assert ViewOf(db, PgSQLRulesTable) == Published(RowsFor(d, PgSQLRulesTable))
           && !Refused(NO_TABLES, RowsFor(d, PgSQLRulesTable));
    hide Pushed;
    KeyedRows(d.pgsqlRules, RuleKey);
    RulesShown(d.pgsqlRules, shows, db.loaded.pgsqlRules, PgSQLRulesShown(db.loaded, shows));
  }

  lemma PushedPgSQLServers(d: Desired, db: Db)
    requires Pushed(d, db)
    ensures db.pgsqlLive.Keys == (set s | s in d.pgsqlServers :: PgSQLPlace(s)) <==>
            forall s | s in d.pgsqlServers :: ControlFree(s.hostname)
  {
    hide Overwritten, Clash, Keyed, StripControl, ControlFree, PgSQLPlace;
    assert ViewOf(db, PgSQLServersTable) == Published(RowsFor(d, PgSQLServersTable))
           && !Refused(NO_TABLES, RowsFor(d, PgSQLServersTable));
    hide Pushed;
    KeyedRows(Each(d.pgsqlServers, StoredPgSQLServer), PgSQLPlace);
    PgSQLShown(d.pgsqlServers, db.loaded.pgsqlServers);
  }

  lemma PushedKeys(d: Desired, pushed: Db, after: Db, shows: bool)
    requires Pushed(d, pushed) && after.loaded == pushed.loaded && after.pgsqlLive.Keys == pushed.pgsqlLive.Keys
    ensures KeysConverged(d, RuntimeOf(after, shows)) <==> TidyMySQL(d, shows) && TidyPgSQL(d, shows)
  {
    hide Pushed, ControlFree, Visible, PgSQLPlace, MySQLUsersShown, MySQLRulesShown, PgSQLUsersShown, PgSQLRulesShown;
    PushedMySQLUsers(d, pushed, shows);
    PushedMySQLRules(d, pushed, shows);
    PushedPgSQLServers(d, pushed);
    PushedPgSQLUsers(d, pushed, shows);
    PushedPgSQLRules(d, pushed, shows);
  }

  /** After an error-free push and any monitor activity, the replica reads back as converged exactly
      when the desired state is tidy; an untidy one reads back as drifted after every push. */
  lemma NoRepushLoop(d: Desired, db: Db, script: seq<Reply>, steps: seq<MonitorStep>, shows: bool)
    requires d.sqlStatements == [] && forall s | s in d.mysqlServers :: KnownStatus(s.status)
    requires FirstFailure(None, Steps(d, false), RunSteps(db, Steps(d, false), script).oks)
    ensures Converged(d, RuntimeOf(Monitored(RunSteps(db, Steps(d, false), script).db, steps), shows)) <==>
            Tidy(d, shows)
  {
    hide RunSteps, Steps, Pushed, ServersConverged, KeysConverged, TidyHosts, TidyMySQL, TidyPgSQL, Visibly,
         Moved, ListsPairs, KnownStatus;
    var pushed := RunSteps(db, Steps(d, false), script).db;
    var after := Monitored(pushed, steps);
    SyncPushes(d, db, script);
    PushedServers(d, pushed);
    MonitoredKeeps(pushed, steps, d.replicationHostgroups);
    ServersStay(d.mysqlServers, d.replicationHostgroups, pushed.mysqlLive, after.mysqlLive);
    PushedKeys(d, pushed, after, shows);
  }

  /** The runtime after the monitor moved one server to another hostgroup. */
  ghost function Switched(db: Db, p: Place, to: Int32): (r: Db)
    requires p in db.mysqlLive
  {
    db.(mysqlLive := (db.mysqlLive - {p})[p.(hostgroup := to) := db.mysqlLive[p]])
  }

  /** A switchover within a desired writer and reader pair does not look like drift. */
  lemma SwitchoverStays(d: Desired, db: Db, script: seq<Reply>, h: ReplicationHostgroup, p: Place, to: Int32,
                        shows: bool)
    requires d.sqlStatements == [] && forall s | s in d.mysqlServers :: KnownStatus(s.status)
    requires FirstFailure(None, Steps(d, false), RunSteps(db, Steps(d, false), script).oks)
    requires h in d.replicationHostgroups && p in RunSteps(db, Steps(d, false), script).db.mysqlLive
    requires (p.hostgroup == h.reader && to == h.writer) || (p.hostgroup == h.writer && to == h.reader)
    ensures Converged(d, RuntimeOf(Switched(RunSteps(db, Steps(d, false), script).db, p, to), shows)) <==>
            Tidy(d, shows)
  {
    hide RunSteps, Steps, Tidy, Converged, KnownStatus, ListsPairs, Connected, Visibly, Pushed;
    var pushed := RunSteps(db, Steps(d, false), script).db;
    SyncPushes(d, db, script);
    PushedServers(d, pushed);
    RowsConnect(d.replicationHostgroups, h.writer, h.reader);
    assert SameTopology(pushed, p.hostgroup, to);
    assert [Move(p, to)][..0] == [];
    assert Monitored(pushed, [Move(p, to)]) == Switched(pushed, p, to);
    NoRepushLoop(d, db, script, [Move(p, to)], shows);
  }

  /** Without replication hostgroups a server found where it is not desired is drift. */
  lemma StrayIsDrift(d: Desired, rt: Runtime, p: Place)
    requires d.replicationHostgroups == [] && p in rt.mysqlServers
    requires forall s | s in d.mysqlServers ::
               (s.hostgroup, s.hostname, if s.port == 0 then 3306 else s.port) != (p.hostgroup, p.host, p.port)
    ensures !Converged(d, rt)
  {
    hide Connected, Live, LiveAs, AllSet, KeysConverged;
    forall s | s in d.mysqlServers ensures !SameServer(d.replicationHostgroups, p, MySQLPlace(s)) {
      RowsConnect(d.replicationHostgroups, p.hostgroup, s.hostgroup);
    }
    assert !Listed(d.mysqlServers, d.replicationHostgroups, p);
  }

  /** One replica's push and read-back, the answers `q` coming from its tables after the monitor acted. */
  method PushAndReadBack(c: Connection, d: Desired, q: Answers, ghost steps: seq<MonitorStep>, ghost shows: bool)
    returns (err: Option<string>, diffs: Option<seq<string>>)
    modifies c
    ensures diffs.Some? ==> err.None? && q.Complete()
    ensures diffs.Some? && d.sqlStatements == [] && (forall s | s in d.mysqlServers :: KnownStatus(s.status))
            && q.From(RuntimeOf(Monitored(c.db, steps), shows))
            ==> (diffs.value == [] <==> Tidy(d, shows))
  {
    ghost var db, script := c.db, c.script;
    hide RunSteps, Steps, Tidy, Converged, RuntimeOf, Monitored, KnownStatus;
    err := c.Sync(d, false);
    if err.Some? {
      return err, None;
    }
    diffs := ReadBack(d, q);
    if d.sqlStatements == [] && forall s | s in d.mysqlServers :: KnownStatus(s.status) {
      NoRepushLoop(d, db, script, steps, shows);
    }
  }
}
