/** What an error-free sync leaves on a replica, table by table and variable by variable, told from the
    desired rows. */
module SyncContents {
  import opened Text
  import opened Sorting
  import opened Sql
  import opened Replication
  import opened Desired
  import opened ServerKeys
  import opened Union
  import opened AdminDb
  import opened Sync
  import opened Resync

  /** The table holds the row of each desired entry under its primary key, and nothing else. */
  ghost predicate Stores<K(!new), V(!new)>(m: map<K, V>, vs: seq<V>, row: V -> V, key: V -> K) {
    && (forall v | v in vs :: key(row(v)) in m && m[key(row(v))] == row(v))
    && (forall k | k in m :: exists v :: v in vs && m[k] == row(v) && k == key(row(v)))
  }

  lemma KeyedStores<K(!new), V(!new)>(m: map<K, V>, rows: seq<V>, vs: seq<V>, stored: V -> V, at: V -> K, row: V -> V,
                                      key: V -> K)
    requires |rows| == |vs| && (forall i | 0 <= i < |vs| :: rows[i] == stored(vs[i])) && Keyed(m, rows, at)
    requires forall v :: stored(v) == row(v) && at(stored(v)) == key(row(v))
    ensures Stores(m, vs, row, key)
  {
    forall v | v in vs ensures key(row(v)) in m && m[key(row(v))] == row(v) {
      var i :| 0 <= i < |vs| && vs[i] == v;
      assert rows[i] in rows && stored(v) == row(v);
    }
    forall k | k in m ensures exists v :: v in vs && m[k] == row(v) && k == key(row(v)) {
      var i :| 0 <= i < |rows| && rows[i] == m[k];
      assert vs[i] in vs && stored(vs[i]) == row(vs[i]);
    }
  }

  function Itself<V>(v: V): (r: V) { v }

  /* ---- rows and keys ---- */

  function MySQLServersRow(s: MySQLServer): (r: MySQLServer) {
    s.(hostname := StripControl(s.hostname), port := if s.port == 0 then 3306 else s.port,
       status := StripControl(if s.status == "" then "ONLINE" else s.status))
  }

  function MySQLUsersRow(s: MySQLUser): (r: MySQLUser) {
    s.(username := StripControl(s.username))
  }

  function PgSQLServersRow(s: PgSQLServer): (r: PgSQLServer) {
    s.(hostname := StripControl(s.hostname), port := if s.port == 0 then 5432 else s.port)
  }

  function PgSQLUsersRow(s: PgSQLUser): (r: PgSQLUser) {
    s.(username := StripControl(s.username))
  }

  function PeersRow(s: ProxySQLServer): (r: ProxySQLServer) {
    s.(hostname := StripControl(s.hostname), port := if s.port == 0 then 6032 else s.port)
  }

  function MySQLServersId(r: MySQLServer): (k: Place) { Place(r.hostgroup, r.hostname, r.port) }
  function ReplicationId(r: ReplicationHostgroup): (k: Int32) { r.writer }
  function AttributesId(r: HostgroupAttributes): (k: Int32) { r.hostgroup }
  function MySQLUsersId(r: MySQLUser): (k: string) { r.username }
  function IdOf(r: QueryRule): (k: Int32) { r.ruleID }
  function PgSQLServersId(r: PgSQLServer): (k: Place) { Place(r.hostgroup, r.hostname, r.port) }
  function PgSQLUsersId(r: PgSQLUser): (k: string) { r.username }
  function PeersId(r: ProxySQLServer): (k: Peer) { (r.hostname, r.port) }

  lemma MySQLServersSynced(d: Desired, db: Db)
    requires Pushed(d, db)
    ensures Stores(db.loaded.mysqlServers, d.mysqlServers, MySQLServersRow, MySQLServersId)
    ensures Stores(db.disk.mysqlServers, d.mysqlServers, MySQLServersRow, MySQLServersId)
  {
    hide Overwritten, Clash, Keyed, StripControl, Stores;
    assert ViewOf(db, MySQLServersTable) == Published(RowsFor(d, MySQLServersTable))
           && !Refused(NO_TABLES, RowsFor(d, MySQLServersTable));
    hide Pushed;
    KeyedRows(Each(d.mysqlServers, StoredMySQLServer), MySQLPlace);
    KeyedStores(db.loaded.mysqlServers, Each(d.mysqlServers, StoredMySQLServer), d.mysqlServers, StoredMySQLServer,
                MySQLPlace, MySQLServersRow, MySQLServersId);
  }

  lemma ReplicationSynced(d: Desired, db: Db)
    requires Pushed(d, db)
    ensures Stores(db.loaded.replication, d.replicationHostgroups, Itself, ReplicationId)
    ensures Stores(db.disk.replication, d.replicationHostgroups, Itself, ReplicationId)
  {
    hide Overwritten, Clash, Keyed, StripControl, Stores;
    assert ViewOf(db, ReplicationTable) == Published(RowsFor(d, ReplicationTable))
           && !Refused(NO_TABLES, RowsFor(d, ReplicationTable));
    hide Pushed;
    KeyedRows(d.replicationHostgroups, WriterKey);
    KeyedStores(db.loaded.replication, d.replicationHostgroups, d.replicationHostgroups, Itself, WriterKey, Itself,
                ReplicationId);
  }

  lemma AttributesSynced(d: Desired, db: Db)
    requires Pushed(d, db)
    ensures Stores(db.loaded.attributes, d.hostgroupAttributes, Itself, AttributesId)
    ensures Stores(db.disk.attributes, d.hostgroupAttributes, Itself, AttributesId)
  {
    hide Overwritten, Clash, Keyed, StripControl, Stores;
    assert ViewOf(db, AttributesTable) == Published(RowsFor(d, AttributesTable))
           && !Refused(NO_TABLES, RowsFor(d, AttributesTable));
    hide Pushed;
    KeyedRows(d.hostgroupAttributes, AttributesKey);
    KeyedStores(db.loaded.attributes, d.hostgroupAttributes, d.hostgroupAttributes, Itself, AttributesKey, Itself,
                AttributesId);
  }

  lemma MySQLUsersSynced(d: Desired, db: Db)
    requires Pushed(d, db)
    ensures Stores(db.loaded.mysqlUsers, d.mysqlUsers, MySQLUsersRow, MySQLUsersId)
    ensures Stores(db.disk.mysqlUsers, d.mysqlUsers, MySQLUsersRow, MySQLUsersId)
  {
    hide Overwritten, Clash, Keyed, StripControl, Stores;
    assert ViewOf(db, MySQLUsersTable) == Published(RowsFor(d, MySQLUsersTable))
           && !Refused(NO_TABLES, RowsFor(d, MySQLUsersTable));
    hide Pushed;
    KeyedRows(Each(d.mysqlUsers, StoredMySQLUser), MySQLUserKey);
    KeyedStores(db.loaded.mysqlUsers, Each(d.mysqlUsers, StoredMySQLUser), d.mysqlUsers, StoredMySQLUser, MySQLUserKey,
                MySQLUsersRow, MySQLUsersId);
  }

  lemma MySQLRulesSynced(d: Desired, db: Db)
    requires Pushed(d, db)
    ensures Stores(db.loaded.mysqlRules, d.mysqlRules, Itself, IdOf)
    ensures Stores(db.disk.mysqlRules, d.mysqlRules, Itself, IdOf)
  {
    hide Overwritten, Clash, Keyed, StripControl, Stores;
    assert ViewOf(db, MySQLRulesTable) == Published(RowsFor(d, MySQLRulesTable))
           && !Refused(NO_TABLES, RowsFor(d, MySQLRulesTable));
    hide Pushed;
    KeyedRows(d.mysqlRules, RuleKey);
    KeyedStores(db.loaded.mysqlRules, d.mysqlRules, d.mysqlRules, Itself, RuleKey, Itself, IdOf);
  }

  lemma PgSQLServersSynced(d: Desired, db: Db)
    requires Pushed(d, db)
    ensures Stores(db.loaded.pgsqlServers, d.pgsqlServers, PgSQLServersRow, PgSQLServersId)
    ensures Stores(db.disk.pgsqlServers, d.pgsqlServers, PgSQLServersRow, PgSQLServersId)
  {
    hide Overwritten, Clash, Keyed, StripControl, Stores;
    assert ViewOf(db, PgSQLServersTable) == Published(RowsFor(d, PgSQLServersTable))
           && !Refused(NO_TABLES, RowsFor(d, PgSQLServersTable));
    hide Pushed;
    KeyedRows(Each(d.pgsqlServers, StoredPgSQLServer), PgSQLPlace);
    KeyedStores(db.loaded.pgsqlServers, Each(d.pgsqlServers, StoredPgSQLServer), d.pgsqlServers, StoredPgSQLServer,
                PgSQLPlace, PgSQLServersRow, PgSQLServersId);
  }

  lemma PgSQLUsersSynced(d: Desired, db: Db)
    requires Pushed(d, db)
    ensures Stores(db.loaded.pgsqlUsers, d.pgsqlUsers, PgSQLUsersRow, PgSQLUsersId)
    ensures Stores(db.disk.pgsqlUsers, d.pgsqlUsers, PgSQLUsersRow, PgSQLUsersId)
  {
    hide Overwritten, Clash, Keyed, StripControl, Stores;
    assert ViewOf(db, PgSQLUsersTable) == Published(RowsFor(d, PgSQLUsersTable))
           && !Refused(NO_TABLES, RowsFor(d, PgSQLUsersTable));
    hide Pushed;
    KeyedRows(Each(d.pgsqlUsers, StoredPgSQLUser), PgSQLUserKey);
    KeyedStores(db.loaded.pgsqlUsers, Each(d.pgsqlUsers, StoredPgSQLUser), d.pgsqlUsers, StoredPgSQLUser, PgSQLUserKey,
                PgSQLUsersRow, PgSQLUsersId);
  }

  lemma PgSQLRulesSynced(d: Desired, db: Db)
    requires Pushed(d, db)
    ensures Stores(db.loaded.pgsqlRules, d.pgsqlRules, Itself, IdOf)
    ensures Stores(db.disk.pgsqlRules, d.pgsqlRules, Itself, IdOf)
  {
    hide Overwritten, Clash, Keyed, StripControl, Stores;
    assert ViewOf(db, PgSQLRulesTable) == Published(RowsFor(d, PgSQLRulesTable))
           && !Refused(NO_TABLES, RowsFor(d, PgSQLRulesTable));
    hide Pushed;
    KeyedRows(d.pgsqlRules, RuleKey);
    KeyedStores(db.loaded.pgsqlRules, d.pgsqlRules, d.pgsqlRules, Itself, RuleKey, Itself, IdOf);
  }

  lemma PeersSynced(d: Desired, db: Db)
    requires Pushed(d, db)
    ensures Stores(db.loaded.proxysqlServers, d.proxysqlServers, PeersRow, PeersId)
    ensures Stores(db.disk.proxysqlServers, d.proxysqlServers, PeersRow, PeersId)
  {
    hide Overwritten, Clash, Keyed, StripControl, Stores;
    assert ViewOf(db, ProxySQLServersTable) == Published(RowsFor(d, ProxySQLServersTable))
           && !Refused(NO_TABLES, RowsFor(d, ProxySQLServersTable));
    hide Pushed;
    KeyedRows(Each(d.proxysqlServers, StoredProxySQLServer), PeerKey);
    KeyedStores(db.loaded.proxysqlServers, Each(d.proxysqlServers, StoredProxySQLServer), d.proxysqlServers,
                StoredProxySQLServer, PeerKey, PeersRow, PeersId);
  }

  /** All nine tables. */
  ghost predicate AllStored(ts: Tables, d: Desired) {
    && Stores(ts.mysqlServers, d.mysqlServers, MySQLServersRow, MySQLServersId)
    && Stores(ts.replication, d.replicationHostgroups, Itself, ReplicationId)
    && Stores(ts.attributes, d.hostgroupAttributes, Itself, AttributesId)
    && Stores(ts.mysqlUsers, d.mysqlUsers, MySQLUsersRow, MySQLUsersId)
    && Stores(ts.mysqlRules, d.mysqlRules, Itself, IdOf)
    && Stores(ts.pgsqlServers, d.pgsqlServers, PgSQLServersRow, PgSQLServersId)
    && Stores(ts.pgsqlUsers, d.pgsqlUsers, PgSQLUsersRow, PgSQLUsersId)
    && Stores(ts.pgsqlRules, d.pgsqlRules, Itself, IdOf)
    && Stores(ts.proxysqlServers, d.proxysqlServers, PeersRow, PeersId)
  }

  /** After an error-free sync the replica runs, and has on disk, exactly the desired rows: every column as
      desired, with control characters gone from key columns and the default port and status filled in. */
  lemma TablesSynced(d: Desired, db: Db, script: seq<Reply>)
    requires d.sqlStatements == []
    requires FirstFailure(None, Steps(d, false), RunSteps(db, Steps(d, false), script).oks)
    ensures var after := RunSteps(db, Steps(d, false), script).db;
            AllStored(after.loaded, d) && AllStored(after.disk, d)
  {
    hide RunSteps, Steps, Pushed, Stores;
    var after := RunSteps(db, Steps(d, false), script).db;
    SyncPushes(d, db, script);
    MySQLServersSynced(d, after);
    ReplicationSynced(d, after);
    AttributesSynced(d, after);
    MySQLUsersSynced(d, after);
    MySQLRulesSynced(d, after);
    PgSQLServersSynced(d, after);
    PgSQLUsersSynced(d, after);
    PgSQLRulesSynced(d, after);
    PeersSynced(d, after);
  }

  /* ---- the names of the steps ---- */

  function TableName(t: Table): (name: string) {
    match t
    case MySQLServersTable => "mysql_servers"
    case ReplicationTable => "mysql_replication_hostgroups"
    case AttributesTable => "mysql_hostgroup_attributes"
    case MySQLUsersTable => "mysql_users"
    case MySQLRulesTable => "mysql_query_rules"
    case PgSQLServersTable => "pgsql_servers"
    case PgSQLUsersTable => "pgsql_users"
    case PgSQLRulesTable => "pgsql_query_rules"
    case ProxySQLServersTable => "proxysql_servers"
  }

  function SectionName(t: Table): (name: string) {
    match t
    case MySQLServersTable => "mysql_servers_apply"
    case ReplicationTable => "mysql_servers_apply"
    case AttributesTable => "mysql_servers_apply"
    case MySQLUsersTable => "mysql_users_apply"
    case MySQLRulesTable => "mysql_query_rules_apply"
    case PgSQLServersTable => "pgsql_servers_apply"
    case PgSQLUsersTable => "pgsql_users_apply"
    case PgSQLRulesTable => "pgsql_query_rules_apply"
    case ProxySQLServersTable => "proxysql_servers_apply"
  }

  /** The step that writes a table has its name; the one that applies it, that of its section. */
  lemma StepNames(d: Desired, t: Table)
    ensures |Steps(d, false)| == 20
    ensures Steps(d, false)[WriteIndex(t)].name == TableName(t)
    ensures Steps(d, false)[ApplyIndex(t)].name == SectionName(t)
  {
    hide RowsFor;
    var my, other := MySQLSteps(d), OtherSteps(d);
    assert Steps(d, false) == my + other;
    if WriteIndex(t) >= 6 { assert Steps(d, false)[WriteIndex(t)] == other[WriteIndex(t) - 6]; }
    if ApplyIndex(t) >= 6 { assert Steps(d, false)[ApplyIndex(t)] == other[ApplyIndex(t) - 6]; }
  }

  /* ---- variables ---- */

  function SetOne(m: Vars, name: string, value: string): (r: Vars) {
    if name in m then m[name := value] else m
  }

  ghost function SetAll(m: Vars, vars: Vars, names: seq<string>): (r: Vars)
    requires forall n | n in names :: n in vars
    decreases |names|
  {
    if names == [] then m
    else SetAll(SetOne(m, StripControl(names[0]), StripControl(vars[names[0]])), vars, names[1..])
  }

  /** A clean run of the updates sets them all, and goes on with the rest. */
  lemma {:induction false} RunSets(db: Db, vars: Vars, names: seq<string>, rest: seq<Stmt>, script: seq<Reply>)
    requires forall n | n in names :: n in vars
    requires Run(db, VariableStmts(vars, names) + rest, script).ok
    ensures |names| <= |script|
    ensures Run(db, VariableStmts(vars, names) + rest, script) ==
            Run(db.(vars := SetAll(db.vars, vars, names)), rest, script[|names|..])
    decreases |names|
  {
    hide StripControl, Refused;
    if names == [] {
      assert VariableStmts(vars, names) + rest == rest;
      assert db.(vars := db.vars) == db;
    } else {
      var first := SetVariable(StripControl(names[0]), StripControl(vars[names[0]]));
      var tail := VariableStmts(vars, names[1..]) + rest;
      assert VariableStmts(vars, names) == [first] + VariableStmts(vars, names[1..]);
      assert VariableStmts(vars, names) + rest == [first] + tail;
      if script == [] || Fails(db, first, script[0]) {
        RunUnheard(db, first, tail, script);
      } else {
        RunHeard(db, first, tail, script);
        RunSets(Exec(db, first, script[0]), vars, names[1..], rest, script[1..]);
        assert script[1..][|names| - 1..] == script[|names|..];
      }
    }
  }

  /** No other name of the map turns into this one when quoted. */
  ghost predicate Alone(vars: Vars, k: string) {
    forall n | n in vars && StripControl(n) == k :: n == k
  }

  lemma {:induction false} SetAllAt(m: Vars, vars: Vars, names: seq<string>, k: string)
    requires (forall n | n in names :: n in vars) && Alone(vars, k) && ControlFree(k)
    ensures SetAll(m, vars, names).Keys == m.Keys
    ensures k in m ==> SetAll(m, vars, names)[k] == if k in names then StripControl(vars[k]) else m[k]
    decreases |names|
  {
    hide StripControl, ControlFree;
    PlainName(k);
    if names != [] {
      var next := SetOne(m, StripControl(names[0]), StripControl(vars[names[0]]));
      SetAllAt(next, vars, names[1..], k);
      assert k in names <==> k == names[0] || k in names[1..];
      assert StripControl(names[0]) == k <==> names[0] == k;
    }
  }

  lemma PlainName(k: string)
    ensures ControlFree(k) ==> StripControl(k) == k
  {
  }

  /** A clean variables step: what it does to one variable in memory and at runtime. */
  lemma VariablesStep(db: Db, name: string, vars: Vars, domain: string, script: seq<Reply>, k: string)
    requires Run(db, Stmts(PushVariables(name, vars, domain)), script).ok
    requires Alone(vars, k) && ControlFree(k) && k in db.vars && k !in db.pinned
    requires PrefixOf(domain).Some?
    ensures var after := Run(db, Stmts(PushVariables(name, vars, domain)), script).db;
            && after.pinned == db.pinned && after.vars.Keys == db.vars.Keys
            && after.vars[k] == (if k in vars then StripControl(vars[k]) else db.vars[k])
            && (k in vars && PrefixOf(domain).value <= k ==> k in after.running && after.running[k] == after.vars[k])
            && (!(PrefixOf(domain).value <= k) ==>
                  (k in after.running <==> k in db.running)
                  && (k in db.running ==> after.running[k] == db.running[k]))
  {
    hide StripControl, ControlFree, Run, Alone, SetAll;
    if vars == map[] {
      RunNone(db, script);
    } else {
      var names := SortedStrings(vars.Keys);
      assert forall n :: n in names <==> n in Elements(names);
      var load, save := Load(Variables(domain)), Save(Variables(domain));
      RunSets(db, vars, names, [load, save], script);
      SetAllAt(db.vars, vars, names, k);
      var mid, rest := db.(vars := SetAll(db.vars, vars, names)), script[|names|..];
      assert Run(mid, [load, save], rest).ok;
      RunTwo(mid, load, save, rest);
      RunOne(Exec(mid, load, rest[0]), save, rest[1..]);
    }
  }

  /** Steps that write and apply tables leave variables alone. */
  lemma {:induction false} TableRunKeeps(db: Db, stmts: seq<Stmt>, script: seq<Reply>)
    requires forall s | s in stmts :: AboutTables(s)
    ensures SameVars(db, Run(db, stmts, script).db)
    decreases |stmts|
  {
    hide Refused, Emptied, AdminDb.Inserted, Copied;
    if stmts != [] && script != [] {
      assert stmts[0] in stmts && forall s | s in stmts[1..] :: s in stmts;
      TableRunKeeps(Exec(db, stmts[0], script[0]), stmts[1..], script[1..]);
    }
  }

  ghost predicate SameVars(a: Db, b: Db) {
    a.vars == b.vars && a.running == b.running && a.pinned == b.pinned
  }

  lemma {:induction false} TableStepsKeep(db: Db, d: Desired, script: seq<Reply>, k: nat)
    requires k <= 16
    ensures |Steps(d, false)| == 20 && SameVars(db, Prefix(db, Steps(d, false), script, k).db)
    decreases k
  {
    hide RunSteps, Run, Steps, Stmts;
    StepCount(d);
    var steps := Steps(d, false);
    if k == 0 {
      PrefixNone(db, steps, script);
    } else {
      TableStepsKeep(db, d, script, k - 1);
      PrefixNext(db, steps, script, k - 1);
      var before := Prefix(db, steps, script, k - 1);
      TableStep(d, k - 1);
      TableStmts(steps[k - 1]);
      TableRunKeeps(before.db, Stmts(steps[k - 1]), before.script);
    }
  }

  predicate AboutTables(stmt: Stmt) {
    stmt.Delete? || stmt.Insert? || stmt.Save? || (stmt.Load? && !stmt.s.Variables?)
  }

  predicate WritesOrApplies(step: Step) {
    step.WriteTable? || (step.Apply? && !step.s.Variables?)
  }

  lemma TableStep(d: Desired, k: nat)
    requires k < 16 && |Steps(d, false)| == 20
    ensures WritesOrApplies(Steps(d, false)[k])
  {
    hide RowsFor;
    var my, other := MySQLSteps(d), OtherSteps(d);
    assert Steps(d, false) == my + other;
    if k >= 6 { assert Steps(d, false)[k] == other[k - 6]; }
  }

  lemma TableStmts(step: Step)
    requires WritesOrApplies(step)
    ensures forall s | s in Stmts(step) :: AboutTables(s)
  {
  }

  /** The four last steps. */
  lemma LastSteps(d: Desired)
    ensures |Steps(d, false)| == 20
    ensures Steps(d, false)[16] == PushVariables("mysql_variables", d.mysqlVars, "MYSQL")
    ensures Steps(d, false)[17] == PushVariables("pgsql_variables", d.pgsqlVars, "PGSQL")
    ensures Steps(d, false)[18] == PushVariables("admin_variables", d.adminVars, "ADMIN")
    ensures Steps(d, false)[19] == RunStatements("sql_statements", d.sqlStatements)
  {
    hide RowsFor;
  }

  /** After an error-free sync every desired variable that the replica knows and can take at runtime
      runs its value, whatever the other two maps hold. */
  lemma VariablesSynced(d: Desired, db: Db, script: seq<Reply>, k: string)
    requires d.sqlStatements == []
    requires FirstFailure(None, Steps(d, false), RunSteps(db, Steps(d, false), script).oks)
    requires k in db.vars && k !in db.pinned && ControlFree(k)
    requires Alone(d.mysqlVars, k) && Alone(d.pgsqlVars, k) && Alone(d.adminVars, k)
    ensures var running := RunSteps(db, Steps(d, false), script).db.running;
            && ("mysql-" <= k && k in d.mysqlVars ==> k in running && running[k] == StripControl(d.mysqlVars[k]))
            && ("pgsql-" <= k && k in d.pgsqlVars ==> k in running && running[k] == StripControl(d.pgsqlVars[k]))
            && ("admin-" <= k && k in d.adminVars ==> k in running && running[k] == StripControl(d.adminVars[k]))
  {
    hide RunSteps, Run, Steps, Stmts, StripControl, ControlFree, Alone;
    LastSteps(d);
    OnePrefix(k);
    var steps := Steps(d, false);
    TableStepsKeep(db, d, script, 16);
    var s16 := Prefix(db, steps, script, 16);
    OkAt(db, steps, script, 16);
    PrefixNext(db, steps, script, 16);
    VariablesStep(s16.db, "mysql_variables", d.mysqlVars, "MYSQL", s16.script, k);
    var s17 := Prefix(db, steps, script, 17);
    OkAt(db, steps, script, 17);
    PrefixNext(db, steps, script, 17);
    VariablesStep(s17.db, "pgsql_variables", d.pgsqlVars, "PGSQL", s17.script, k);
    var s18 := Prefix(db, steps, script, 18);
    OkAt(db, steps, script, 18);
    PrefixNext(db, steps, script, 18);
    VariablesStep(s18.db, "admin_variables", d.adminVars, "ADMIN", s18.script, k);
    var s19 := Prefix(db, steps, script, 19);
    PrefixNext(db, steps, script, 19);
    NoStatements(s19.db, s19.script);
    assert steps[..20] == steps;
  }

  lemma OnePrefix(k: string)
    ensures !("mysql-" <= k && "pgsql-" <= k) && !("mysql-" <= k && "admin-" <= k) && !("pgsql-" <= k && "admin-" <= k)
  {
    assert "mysql-" <= k ==> k[0] == 'm';
    assert "pgsql-" <= k ==> k[0] == 'p';
    assert "admin-" <= k ==> k[0] == 'a';
  }

  lemma NoStatements(db: Db, script: seq<Reply>)
    ensures Run(db, Stmts(RunStatements("sql_statements", [])), script).db == db
  {
  }
}
