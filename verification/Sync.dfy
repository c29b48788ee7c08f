/** Sync: pushing a whole desired state through one admin connection, section by section. */
module Sync {
  import opened Text
  import opened Sorting
  import opened Sql
  import opened Replication
  import opened Desired
  import opened ServerKeys
  import opened Drift
  import opened AdminDb

  /* ---- rows as the database stores them ---- */

  const ADMIN_PORT: Int32 := 6032

  function StoredMySQLServer(s: MySQLServer): (r: MySQLServer) {
    s.(hostname := StripControl(s.hostname), port := PortOr(s.port, MYSQL_PORT),
       status := StripControl(if s.status == "" then ONLINE else s.status))
  }

  function StoredMySQLUser(u: MySQLUser): (r: MySQLUser) {
    u.(username := StripControl(u.username))
  }

  function StoredPgSQLServer(s: PgSQLServer): (r: PgSQLServer) {
    s.(hostname := StripControl(s.hostname), port := PortOr(s.port, PGSQL_PORT))
  }

  function StoredPgSQLUser(u: PgSQLUser): (r: PgSQLUser) {
    u.(username := StripControl(u.username))
  }

  function StoredProxySQLServer(s: ProxySQLServer): (r: ProxySQLServer) {
    s.(hostname := StripControl(s.hostname), port := PortOr(s.port, ADMIN_PORT))
  }

  function Each<A, B>(xs: seq<A>, f: A -> B): (ys: seq<B>)
    ensures |ys| == |xs| && forall i | 0 <= i < |xs| :: ys[i] == f(xs[i])
  {
    seq(|xs|, i requires 0 <= i < |xs| => f(xs[i]))
  }

  function RowsFor(d: Desired, t: Table): (rows: Rows)
    ensures rows.Target() == t
  {
    match t
    case MySQLServersTable => MySQLServerRows(Each(d.mysqlServers, StoredMySQLServer))
    case ReplicationTable => ReplicationRows(d.replicationHostgroups)
    case AttributesTable => AttributesRows(d.hostgroupAttributes)
    case MySQLUsersTable => MySQLUserRows(Each(d.mysqlUsers, StoredMySQLUser))
    case MySQLRulesTable => MySQLRuleRows(d.mysqlRules)
    case PgSQLServersTable => PgSQLServerRows(Each(d.pgsqlServers, StoredPgSQLServer))
    case PgSQLUsersTable => PgSQLUserRows(Each(d.pgsqlUsers, StoredPgSQLUser))
    case PgSQLRulesTable => PgSQLRuleRows(d.pgsqlRules)
    case ProxySQLServersTable => ProxySQLServerRows(Each(d.proxysqlServers, StoredProxySQLServer))
  }

  /* ---- steps ---- */

  datatype Step =
    | WriteTable(name: string, rows: Rows)
    | Apply(name: string, s: Section)
    | PushVariables(name: string, vars: Vars, domain: string)
    | RunStatements(name: string, sqls: seq<string>)

  function MySQLSteps(d: Desired): (steps: seq<Step>) {
    [WriteTable("mysql_servers", RowsFor(d, MySQLServersTable)),
     WriteTable("mysql_replication_hostgroups", RowsFor(d, ReplicationTable)),
     WriteTable("mysql_hostgroup_attributes", RowsFor(d, AttributesTable)),
     Apply("mysql_servers_apply", MySQLServers),
     WriteTable("mysql_users", RowsFor(d, MySQLUsersTable)),
     Apply("mysql_users_apply", MySQLUsers)]
  }

  function OtherSteps(d: Desired): (steps: seq<Step>) {
    [WriteTable("mysql_query_rules", RowsFor(d, MySQLRulesTable)),
     Apply("mysql_query_rules_apply", MySQLQueryRules),
     WriteTable("pgsql_servers", RowsFor(d, PgSQLServersTable)),
     Apply("pgsql_servers_apply", PgSQLServers),
     WriteTable("pgsql_users", RowsFor(d, PgSQLUsersTable)),
     Apply("pgsql_users_apply", PgSQLUsers),
     WriteTable("pgsql_query_rules", RowsFor(d, PgSQLRulesTable)),
     Apply("pgsql_query_rules_apply", PgSQLQueryRules),
     WriteTable("proxysql_servers", RowsFor(d, ProxySQLServersTable)),
     Apply("proxysql_servers_apply", ProxySQLServers),
     PushVariables("mysql_variables", d.mysqlVars, "MYSQL"),
     PushVariables("pgsql_variables", d.pgsqlVars, "PGSQL"),
     PushVariables("admin_variables", d.adminVars, "ADMIN"),
     RunStatements("sql_statements", d.sqlStatements)]
  }

  function Steps(d: Desired, awsDBProxy: bool): (steps: seq<Step>) {
    (if awsDBProxy then [] else MySQLSteps(d)) + OtherSteps(d)
  }

  ghost function VariableStmts(vars: Vars, names: seq<string>): (stmts: seq<Stmt>)
    requires forall n | n in names :: n in vars
  {
    seq(|names|, i requires 0 <= i < |names| =>
      SetVariable(StripControl(names[i]), StripControl(vars[names[i]])))
  }

  function RawStmts(sqls: seq<string>): (stmts: seq<Stmt>) {
    seq(|sqls|, i requires 0 <= i < |sqls| => Raw(sqls[i]))
  }

  ghost function Stmts(step: Step): (stmts: seq<Stmt>) {
    match step
    case WriteTable(_, rows) => [Delete(rows.Target())] + if rows.None() then [] else [Insert(rows)]
    case Apply(_, s) => [Load(s), Save(s)]
    case PushVariables(_, vars, domain) =>
      if vars == map[] then []
      else
        assert forall n | n in SortedStrings(vars.Keys) :: n in Elements(SortedStrings(vars.Keys));
        VariableStmts(vars, SortedStrings(vars.Keys)) + [Load(Variables(domain)), Save(Variables(domain))]
    case RunStatements(_, sqls) => RawStmts(sqls)
  }

  /* ---- running them ---- */

  /** A run of statements stops at its first failure; a silent replica is a failure. */
  datatype Ran = Ran(db: Db, script: seq<Reply>, ok: bool)

  function Run(db: Db, stmts: seq<Stmt>, script: seq<Reply>): (r: Ran)
    decreases |stmts|
  {
    if stmts == [] then Ran(db, script, true)
    else if script == [] then Ran(db, [], false)
    else
      var after := Exec(db, stmts[0], script[0]);
      if Fails(db, stmts[0], script[0]) then Ran(after, script[1..], false)
      else Run(after, stmts[1..], script[1..])
  }

  /** Every step runs whatever became of the others; `oks` has one flag per step. */
  datatype Synced = Synced(db: Db, script: seq<Reply>, oks: seq<bool>)

  ghost function RunSteps(db: Db, steps: seq<Step>, script: seq<Reply>): (r: Synced)
    ensures |r.oks| == |steps|
  {
    if steps == [] then Synced(db, script, [])
    else
      var before := RunSteps(db, steps[..|steps| - 1], script);
      var last := Run(before.db, Stmts(steps[|steps| - 1]), before.script);
      Synced(last.db, last.script, before.oks + [last.ok])
  }

  ghost predicate FirstFailure(err: Option<string>, steps: seq<Step>, oks: seq<bool>)
    requires |oks| == |steps|
  {
    match err
    case None => forall i | 0 <= i < |oks| :: oks[i]
    case Some(name) => exists i | 0 <= i < |oks| :: !oks[i] && name == steps[i].name && forall j | 0 <= j < i :: oks[j]
  }

  class Connection {
    var db: Db
    var script: seq<Reply>

    method Execute(stmt: Stmt) returns (ok: bool)
      modifies this
      ensures Ran(db, script, ok) == Run(old(db), [stmt], old(script))
    {
      if script == [] {
        return false;
      }
      ok := !Fails(db, stmt, script[0]);
      db, script := Exec(db, stmt, script[0]), script[1..];
    }

    method ExecuteAll(stmts: seq<Stmt>) returns (ok: bool)
      modifies this
      ensures Ran(db, script, ok) == Run(old(db), stmts, old(script))
    {
      hide Exec, Fails;
      ok := true;
      for i := 0 to |stmts|
        invariant ok && Run(db, stmts[i..], script) == Run(old(db), stmts, old(script))
      {
        assert stmts[i..][1..] == stmts[i + 1..];
        ok := Execute(stmts[i]);
        if !ok {
          return;
        }
      }
    }

    method RunStep(step: Step) returns (ok: bool)
      modifies this
      ensures Ran(db, script, ok) == Run(old(db), Stmts(step), old(script))
    {
      hide Run;
      var stmts := StepStatements(step);
      ok := ExecuteAll(stmts);
    }

    method Sync(d: Desired, awsDBProxy: bool) returns (err: Option<string>)
      modifies this
      ensures var r := RunSteps(old(db), Steps(d, awsDBProxy), old(script));
              db == r.db && script == r.script && FirstFailure(err, Steps(d, awsDBProxy), r.oks)
    {
      hide Run, Stmts, RunSteps, FirstFailure, Steps;
      var steps := Steps(d, awsDBProxy);
      err := None;
      ghost var oks: seq<bool> := [];
      PrefixNone(db, steps, script);
      for i := 0 to |steps|
        invariant Prefix(old(db), steps, old(script), i) == Synced(db, script, oks) && |oks| == i
        invariant FirstFailure(err, steps[..i], oks)
      {
        var ok := RunStep(steps[i]);
        ghost var before, was := err, oks;
        if !ok && err.None? {
          err := Some(steps[i].name);
        }
        oks := oks + [ok];
        PrefixNext(old(db), steps, old(script), i);
        assert steps[..i + 1][..i] == steps[..i];
        FirstFailureNext(before, err, steps[..i + 1], was, ok);
      }
      assert steps[..|steps|] == steps;
    }
  }

  lemma FirstFailureNext(before: Option<string>, after: Option<string>, steps: seq<Step>, oks: seq<bool>, ok: bool)
    requires |steps| == |oks| + 1 && FirstFailure(before, steps[..|oks|], oks)
    requires after == if !ok && before.None? then Some(steps[|oks|].name) else before
    ensures FirstFailure(after, steps, oks + [ok])
  {
    var all := oks + [ok];
    if before.Some? {
      var i :| 0 <= i < |oks| && !oks[i] && before.value == steps[..|oks|][i].name && forall j | 0 <= j < i :: oks[j];
      assert !all[i] && before.value == steps[i].name && forall j | 0 <= j < i :: all[j];
    } else if !ok {
      assert !all[|oks|] && after.value == steps[|oks|].name && forall j | 0 <= j < |oks| :: all[j];
    }
  }

  method StepStatements(step: Step) returns (stmts: seq<Stmt>)
    ensures stmts == Stmts(step)
  {
    match step
    case WriteTable(_, rows) => stmts := [Delete(rows.Target())] + if rows.None() then [] else [Insert(rows)];
    case Apply(_, s) => stmts := [Load(s), Save(s)];
    case PushVariables(_, vars, domain) =>
      if vars == map[] {
        return [];
      }
      var names := SortStrings(vars.Keys);
      assert forall n | n in names :: n in Elements(names);
      stmts := [];
      for i := 0 to |names|
        invariant stmts == VariableStmts(vars, names[..i])
      {
        stmts := stmts + [SetVariable(StripControl(names[i]), StripControl(vars[names[i]]))];
      }
      assert names[..|names|] == names;
      stmts := stmts + [Load(Variables(domain)), Save(Variables(domain))];
    case RunStatements(_, sqls) => stmts := RawStmts(sqls);
  }

  /* ---- sections are independent ---- */

  predicate Touches(step: Step, t: Table) {
    match step
    case WriteTable(_, rows) => rows.Target() == t
    case Apply(_, s) => s.Covers(t)
    case PushVariables(_, _, _) => false
    case RunStatements(_, sqls) => sqls != []
  }

  lemma {:induction false} RunFrame(db: Db, stmts: seq<Stmt>, script: seq<Reply>, t: Table)
    ensures (forall s | s in stmts :: !Writes(s, t)) ==>
            ContentOf(Run(db, stmts, script).db.memory, t) == ContentOf(db.memory, t)
    ensures (forall s | s in stmts :: !Publishes(s, t)) ==> ViewOf(Run(db, stmts, script).db, t) == ViewOf(db, t)
    decreases |stmts|
  {
    hide Exec, Fails, Writes, Publishes, ContentOf, ViewOf;
    if stmts != [] && script != [] {
      ExecFrame(db, stmts[0], script[0], t);
      RunFrame(Exec(db, stmts[0], script[0]), stmts[1..], script[1..], t);
      assert forall s | s in stmts[1..] :: s in stmts;
    }
  }

  lemma StepFrame(db: Db, step: Step, script: seq<Reply>, t: Table)
    requires !Touches(step, t)
    ensures var after := Run(db, Stmts(step), script).db;
            ContentOf(after.memory, t) == ContentOf(db.memory, t) && ViewOf(after, t) == ViewOf(db, t)
  {
    hide Run, ContentOf, ViewOf, SortedStrings;
    RunFrame(db, Stmts(step), script, t);
  }

  ghost function Prefix(db: Db, steps: seq<Step>, script: seq<Reply>, k: nat): (r: Synced)
    requires k <= |steps|
  {
    RunSteps(db, steps[..k], script)
  }

  lemma PrefixNone(db: Db, steps: seq<Step>, script: seq<Reply>)
    ensures Prefix(db, steps, script, 0) == Synced(db, script, []) && FirstFailure(None, steps[..0], [])
  {
    hide Run, Stmts;
  }

  lemma PrefixNext(db: Db, steps: seq<Step>, script: seq<Reply>, k: nat)
    requires k < |steps|
    ensures var before := Prefix(db, steps, script, k);
            var here := Run(before.db, Stmts(steps[k]), before.script);
            Prefix(db, steps, script, k + 1) == Synced(here.db, here.script, before.oks + [here.ok])
  {
    hide Run, Stmts;
    assert steps[..k + 1][..k] == steps[..k];
  }

  lemma {:induction false} OksPrefix(db: Db, steps: seq<Step>, script: seq<Reply>, j: nat, k: nat)
    requires j <= k <= |steps|
    ensures Prefix(db, steps, script, k).oks[..j] == Prefix(db, steps, script, j).oks
    decreases k - j
  {
    hide RunSteps, Run, Stmts;
    if j < k {
      OksPrefix(db, steps, script, j, k - 1);
      PrefixNext(db, steps, script, k - 1);
      assert |Prefix(db, steps, script, k - 1).oks| == k - 1;
    }
  }

  lemma OkAt(db: Db, steps: seq<Step>, script: seq<Reply>, k: nat)
    requires k < |steps|
    ensures var before := Prefix(db, steps, script, k);
            RunSteps(db, steps, script).oks[k] == Run(before.db, Stmts(steps[k]), before.script).ok
  {
    hide Run, Stmts;
    assert steps[..|steps|] == steps;
    OksPrefix(db, steps, script, k + 1, |steps|);
    PrefixNext(db, steps, script, k);
    var all := RunSteps(db, steps, script).oks;
    assert all[k] == all[..k + 1][k];
  }

  lemma {:induction false} StepsFrame(db: Db, steps: seq<Step>, script: seq<Reply>, j: nat, k: nat, t: Table)
    requires j <= k <= |steps| && forall i | j <= i < k :: !Touches(steps[i], t)
    ensures var a, b := Prefix(db, steps, script, j).db, Prefix(db, steps, script, k).db;
            ContentOf(a.memory, t) == ContentOf(b.memory, t) && ViewOf(a, t) == ViewOf(b, t)
    decreases k - j
  {
    hide RunSteps, Run, Stmts, ContentOf, ViewOf, Touches;
    if j < k {
      StepsFrame(db, steps, script, j, k - 1, t);
      PrefixNext(db, steps, script, k - 1);
      var before := Prefix(db, steps, script, k - 1);
      StepFrame(before.db, steps[k - 1], before.script, t);
    }
  }

  lemma RunOne(db: Db, stmt: Stmt, script: seq<Reply>)
    requires Run(db, [stmt], script).ok
    ensures script != [] && !Fails(db, stmt, script[0]) && Run(db, [stmt], script).db == Exec(db, stmt, script[0])
  {
    hide Exec, Fails;
    assert [stmt][1..] == [];
  }

  lemma RunTwo(db: Db, first: Stmt, second: Stmt, script: seq<Reply>)
    requires Run(db, [first, second], script).ok
    ensures script != [] && !Fails(db, first, script[0])
    ensures var mid := Exec(db, first, script[0]);
            Run(mid, [second], script[1..]).ok
            && Run(db, [first, second], script).db == Run(mid, [second], script[1..]).db
  {
    hide Exec, Fails;
    assert [first, second][1..] == [second];
  }

  /* ---- what a table step leaves behind ---- */

  predicate Took(script: seq<Reply>, i: nat) {
    i < |script| && (script[i].ok || script[i].applied)
  }

  /** The DELETE was acknowledged, and the INSERT, if there are rows, took effect. */
  predicate Filled(rows: Rows, script: seq<Reply>) {
    script != [] && script[0].ok && (rows.None() || (Took(script, 1) && !Refused(NO_TABLES, rows)))
  }

  /** The earlier content, the desired rows, or nothing. */
  function Left(before: Content, rows: Rows, script: seq<Reply>): (c: Content) {
    if !Took(script, 0) then before else if Filled(rows, script) then Holding(rows)
    else ContentOf(NO_TABLES, rows.Target())
  }

  lemma RunUnheard(db: Db, first: Stmt, rest: seq<Stmt>, script: seq<Reply>)
    requires script == [] || Fails(db, first, script[0])
    ensures var r := Run(db, [first] + rest, script);
            !r.ok && r.db == if script == [] then db else Exec(db, first, script[0])
  {
    hide Exec, Fails;
    assert ([first] + rest)[0] == first;
  }

  lemma RunHeard(db: Db, first: Stmt, rest: seq<Stmt>, script: seq<Reply>)
    requires script != [] && !Fails(db, first, script[0])
    ensures Run(db, [first] + rest, script) == Run(Exec(db, first, script[0]), rest, script[1..])
  {
    hide Exec, Fails;
    assert ([first] + rest)[0] == first && ([first] + rest)[1..] == rest;
  }

  lemma InsertLeaves(db: Db, rows: Rows, script: seq<Reply>)
    requires ContentOf(db.memory, rows.Target()) == ContentOf(NO_TABLES, rows.Target())
    ensures var r := Run(db, [Insert(rows)], script);
            var done := Took(script, 0) && !Refused(NO_TABLES, rows);
            && ContentOf(r.db.memory, rows.Target()) ==
               (if done then Holding(rows) else ContentOf(NO_TABLES, rows.Target()))
            && (r.ok ==> done)
  {
    hide Run, ContentOf, Holding, Refused, AdminDb.Inserted;
    assert [Insert(rows)] == [Insert(rows)] + [];
    RefusedAlike(db.memory, rows);
    if script != [] && Took(script, 0) && !Refused(NO_TABLES, rows) { InsertHolds(db, rows, script[0]); }
    if script == [] || Fails(db, Insert(rows), script[0]) {
      RunUnheard(db, Insert(rows), [], script);
    } else {
      RunHeard(db, Insert(rows), [], script);
      RunNone(Exec(db, Insert(rows), script[0]), script[1..]);
    }
  }

  lemma RunNone(db: Db, script: seq<Reply>)
    ensures Run(db, [], script) == Ran(db, script, true)
  {
  }

  /** Whatever the replies, a table step leaves the earlier content, the desired rows or nothing,
      depending only on which of its statements took effect. */
  lemma WriteLeaves(db: Db, name: string, rows: Rows, script: seq<Reply>)
    ensures var r := Run(db, Stmts(WriteTable(name, rows)), script);
            && ContentOf(r.db.memory, rows.Target()) == Left(ContentOf(db.memory, rows.Target()), rows, script)
            && (r.ok ==> Took(script, 0) && Filled(rows, script) && !Refused(NO_TABLES, rows))
  {
    hide Run, ContentOf, Holding, Refused, Emptied;
    var t := rows.Target();
    var rest := if rows.None() then [] else [Insert(rows)];
    assert Stmts(WriteTable(name, rows)) == [Delete(t)] + rest;
    NoRows(rows);
    if script != [] && Took(script, 0) { DeleteEmpties(db, t, script[0]); }
    if script == [] || !script[0].ok {
      RunUnheard(db, Delete(t), rest, script);
    } else {
      RunHeard(db, Delete(t), rest, script);
      var mid := Exec(db, Delete(t), script[0]);
      if rows.None() {
        RunNone(mid, script[1..]);
      } else {
        InsertLeaves(mid, rows, script[1..]);
        assert Took(script[1..], 0) <==> Took(script, 1);
      }
    }
  }

  lemma ApplyOk(db: Db, name: string, s: Section, t: Table, script: seq<Reply>)
    requires Run(db, Stmts(Apply(name, s)), script).ok && s.Covers(t)
    ensures ViewOf(Run(db, Stmts(Apply(name, s)), script).db, t) == Showing(ContentOf(db.memory, t))
  {
    hide Run, Exec, ContentOf, ViewOf, MySQLLive, PgSQLLive;
    RunTwo(db, Load(s), Save(s), script);
    LoadShows(db, s, t, script[0]);
    var mid := Exec(db, Load(s), script[0]);
    RunOne(mid, Save(s), script[1..]);
    SaveShows(mid, s, t, script[1..][0]);
  }

  /** The general form: one step writes the table, a later one applies it, no other touches it. */
  lemma TableApplied(db: Db, steps: seq<Step>, script: seq<Reply>, i: nat, j: nat, rows: Rows)
    requires i < j < |steps| && steps[i].WriteTable? && steps[i].rows == rows
    requires steps[j].Apply? && steps[j].s.Covers(rows.Target())
    requires forall k | 0 <= k < |steps| && k != i && k != j :: !Touches(steps[k], rows.Target())
    requires RunSteps(db, steps, script).oks[j]
    ensures var left := Left(ContentOf(db.memory, rows.Target()), rows, Prefix(db, steps, script, i).script);
            && ViewOf(RunSteps(db, steps, script).db, rows.Target()) == Showing(left)
            && (RunSteps(db, steps, script).oks[i] ==> left == Holding(rows) && !Refused(NO_TABLES, rows))
  {
    hide RunSteps, Run, Stmts, ContentOf, ViewOf, Showing, Holding, Touches, Refused;
    var t := rows.Target();
    PrefixNone(db, steps, script);
    StepsFrame(db, steps, script, 0, i, t);
    OkAt(db, steps, script, i);
    OkAt(db, steps, script, j);
    var w, a := Prefix(db, steps, script, i), Prefix(db, steps, script, j);
    WriteLeaves(w.db, steps[i].name, rows, w.script);
    PrefixNext(db, steps, script, i);
    StepsFrame(db, steps, script, i + 1, j, t);
    ApplyOk(a.db, steps[j].name, steps[j].s, t, a.script);
    PrefixNext(db, steps, script, j);
    StepsFrame(db, steps, script, j + 1, |steps|, t);
    assert steps[..|steps|] == steps;
  }

  function WriteIndex(t: Table): (i: nat)
    ensures i < 15
  {
    match t
    case MySQLServersTable => 0 case ReplicationTable => 1 case AttributesTable => 2 case MySQLUsersTable => 4
    case MySQLRulesTable => 6 case PgSQLServersTable => 8 case PgSQLUsersTable => 10 case PgSQLRulesTable => 12
    case ProxySQLServersTable => 14
  }

  function ApplyIndex(t: Table): (j: nat)
    ensures WriteIndex(t) < j < 16
  {
    match t
    case MySQLServersTable => 3 case ReplicationTable => 3 case AttributesTable => 3 case MySQLUsersTable => 5
    case MySQLRulesTable => 7 case PgSQLServersTable => 9 case PgSQLUsersTable => 11 case PgSQLRulesTable => 13
    case ProxySQLServersTable => 15
  }

  lemma StepCount(d: Desired)
    ensures |Steps(d, false)| == 20
  {
    hide RowsFor;
  }

  lemma WriteStep(d: Desired, t: Table)
    requires |Steps(d, false)| == 20
    ensures var step := Steps(d, false)[WriteIndex(t)]; step.WriteTable? && step.rows == RowsFor(d, t)
  {
    hide RowsFor;
  }

  lemma ApplyStep(d: Desired, t: Table)
    requires |Steps(d, false)| == 20
    ensures var step := Steps(d, false)[ApplyIndex(t)]; step.Apply? && step.s.Covers(t)
  {
    hide RowsFor;
  }

  lemma MySQLStepsElsewhere(d: Desired, t: Table, k: nat)
    requires k < 6 && k != WriteIndex(t) && k != ApplyIndex(t)
    ensures !Touches(MySQLSteps(d)[k], t)
  {
    hide RowsFor;
  }

  lemma OtherStepsElsewhere(d: Desired, t: Table, k: nat)
    requires k < 14 && d.sqlStatements == [] && k + 6 != WriteIndex(t) && k + 6 != ApplyIndex(t)
    ensures !Touches(OtherSteps(d)[k], t)
  {
    hide RowsFor;
  }

  lemma StepsElsewhere(d: Desired, t: Table, k: nat)
    requires |Steps(d, false)| == 20 && d.sqlStatements == [] && k < 20 && k != WriteIndex(t) && k != ApplyIndex(t)
    ensures !Touches(Steps(d, false)[k], t)
  {
    assert |MySQLSteps(d)| == 6 && |OtherSteps(d)| == 14;
    hide MySQLSteps, OtherSteps, Touches, WriteIndex, ApplyIndex;
    if k < 6 {
      MySQLStepsElsewhere(d, t, k);
    } else {
      OtherStepsElsewhere(d, t, k - 6);
    }
  }

  /** The replies from the step that writes a table on. */
  ghost function RepliesAt(d: Desired, t: Table, db: Db, script: seq<Reply>): (rest: seq<Reply>) {
    StepCount(d);
    Prefix(db, Steps(d, false), script, WriteIndex(t)).script
  }

  /** For every pattern of replies, a table whose apply step succeeds runs the earlier memory content,
      exactly the desired rows, or nothing, according to which of its own statements took effect. */
  lemma RunsWhatWasLeft(d: Desired, t: Table, db: Db, script: seq<Reply>)
    requires d.sqlStatements == []
    requires var oks := RunSteps(db, Steps(d, false), script).oks; |oks| == 20 && oks[ApplyIndex(t)]
    ensures var r := RunSteps(db, Steps(d, false), script);
            var left := Left(ContentOf(db.memory, t), RowsFor(d, t), RepliesAt(d, t, db, script));
            && ViewOf(r.db, t) == Showing(left)
            && (r.oks[WriteIndex(t)] ==> left == Holding(RowsFor(d, t)) && !Refused(NO_TABLES, RowsFor(d, t)))
  {
    hide RunSteps, Steps, Touches, RowsFor, ViewOf, Showing, Holding, WriteIndex, ApplyIndex, Refused, Left, ContentOf;
    StepCount(d);
    WriteStep(d, t);
    ApplyStep(d, t);
    forall k: nat | k < 20 && k != WriteIndex(t) && k != ApplyIndex(t) ensures !Touches(Steps(d, false)[k], t) {
      StepsElsewhere(d, t, k);
    }
    TableApplied(db, Steps(d, false), script, WriteIndex(t), ApplyIndex(t), RowsFor(d, t));
  }

  /** Each section stands alone: a table whose own two steps succeed ends up at runtime with exactly
      the desired rows, whatever failed elsewhere and at whatever point. */
  lemma SectionsIndependent(d: Desired, t: Table, db: Db, script: seq<Reply>)
    requires d.sqlStatements == []
    requires var oks := RunSteps(db, Steps(d, false), script).oks;
             |oks| == 20 && oks[WriteIndex(t)] && oks[ApplyIndex(t)]
    ensures ViewOf(RunSteps(db, Steps(d, false), script).db, t) == Published(RowsFor(d, t))
    ensures !Refused(NO_TABLES, RowsFor(d, t))
  {
    hide RunSteps, Steps, RowsFor, ViewOf, Showing, Holding, WriteIndex, ApplyIndex, Refused, Left, ContentOf;
    RunsWhatWasLeft(d, t, db, script);
  }

  /** A DELETE that took effect without its INSERT is published all the same: the replica then runs an
      empty table until a later push succeeds. */
  lemma RejectedInsertEmpties(d: Desired, t: Table, db: Db, script: seq<Reply>)
    requires d.sqlStatements == []
    requires var oks := RunSteps(db, Steps(d, false), script).oks; |oks| == 20 && oks[ApplyIndex(t)]
    requires var replies := RepliesAt(d, t, db, script); Took(replies, 0) && !Filled(RowsFor(d, t), replies)
    ensures ViewOf(RunSteps(db, Steps(d, false), script).db, t) == Showing(ContentOf(NO_TABLES, t))
  {
    hide RunSteps, Steps, RowsFor, ViewOf, Showing, Holding, WriteIndex, ApplyIndex, Refused, ContentOf, Took, Filled;
    RunsWhatWasLeft(d, t, db, script);
  }

  /** With the AWS plugin in charge, Sync leaves the MySQL server and user tables as they are. */
  lemma PluginTablesUntouched(d: Desired, t: Table, db: Db, script: seq<Reply>)
    requires d.sqlStatements == []
             && (t.MySQLServersTable? || t.ReplicationTable? || t.AttributesTable? || t.MySQLUsersTable?)
    ensures var after := RunSteps(db, Steps(d, true), script).db;
            ContentOf(after.memory, t) == ContentOf(db.memory, t) && ViewOf(after, t) == ViewOf(db, t)
  {
    var steps := Steps(d, true);
    forall k: nat | k < |steps| ensures !Touches(steps[k], t) { PluginSteps(d, t, k); }
    hide Run, Steps, Touches, ContentOf, ViewOf;
    StepsFrame(db, steps, script, 0, |steps|, t);
    assert steps[..|steps|] == steps && steps[..0] == [];
  }

  lemma PluginSteps(d: Desired, t: Table, k: nat)
    requires d.sqlStatements == []
             && (t.MySQLServersTable? || t.ReplicationTable? || t.AttributesTable? || t.MySQLUsersTable?)
    requires k < |Steps(d, true)|
    ensures !Touches(Steps(d, true)[k], t)
  {
    hide RowsFor;
    assert [] + OtherSteps(d) == OtherSteps(d);
  }

  /* ---- a desired state that empties its table on a healthy replica ---- */

  ghost predicate AllHeard(script: seq<Reply>) {
    forall i | 0 <= i < |script| :: script[i].ok
  }

  lemma {:induction false} RunConsumes(db: Db, stmts: seq<Stmt>, script: seq<Reply>)
    requires AllHeard(script) && |stmts| <= |script|
    ensures var r := Run(db, stmts, script); AllHeard(r.script) && |r.script| + |stmts| >= |script|
    decreases |stmts|
  {
    hide Exec, Fails;
    if stmts != [] && !Fails(db, stmts[0], script[0]) {
      RunConsumes(Exec(db, stmts[0], script[0]), stmts[1..], script[1..]);
    }
  }

  lemma {:induction false} PrefixConsumes(db: Db, steps: seq<Step>, script: seq<Reply>, k: nat)
    requires k <= |steps| && AllHeard(script) && |script| >= 2 * k
    requires forall i | 0 <= i < k :: |Stmts(steps[i])| <= 2
    ensures var r := Prefix(db, steps, script, k); AllHeard(r.script) && |r.script| + 2 * k >= |script|
    decreases k
  {
    hide Run, Stmts, RunSteps, AllHeard;
    if k == 0 {
      PrefixNone(db, steps, script);
    } else {
      PrefixConsumes(db, steps, script, k - 1);
      PrefixNext(db, steps, script, k - 1);
      var before := Prefix(db, steps, script, k - 1);
      RunConsumes(before.db, Stmts(steps[k - 1]), before.script);
    }
  }

  lemma ApplyHeard(db: Db, name: string, s: Section, script: seq<Reply>)
    requires AllHeard(script) && |script| >= 2
    ensures Run(db, Stmts(Apply(name, s)), script).ok
  {
    hide Exec;
    var mid := Exec(db, Load(s), script[0]);
    assert Stmts(Apply(name, s)) == [Load(s)] + [Save(s)] && [Save(s)] == [Save(s)] + [];
    RunHeard(db, Load(s), [Save(s)], script);
    RunHeard(mid, Save(s), [], script[1..]);
  }

  lemma ShortSteps(d: Desired, k: nat)
    requires k < 16 && |Steps(d, false)| == 20
    ensures |Stmts(Steps(d, false)[k])| <= 2
  {
    hide RowsFor;
  }

  /** With every reply positive, rows that share a primary key still leave the replica with an empty table. */
  lemma SharedKeyEmpties(d: Desired, t: Table, db: Db, script: seq<Reply>)
    requires d.sqlStatements == [] && AllHeard(script) && |script| >= 32 && Refused(NO_TABLES, RowsFor(d, t))
    ensures ViewOf(RunSteps(db, Steps(d, false), script).db, t) == Showing(ContentOf(NO_TABLES, t))
  {
    hide RunSteps, Steps, RowsFor, ViewOf, Showing, Holding, Refused, ContentOf, Run, Stmts, WriteIndex, ApplyIndex,
         AllHeard;
    StepCount(d);
    var steps := Steps(d, false);
    forall k: nat | k < 16 ensures |Stmts(steps[k])| <= 2 { ShortSteps(d, k); }
    PrefixConsumes(db, steps, script, WriteIndex(t));
    PrefixConsumes(db, steps, script, ApplyIndex(t));
    ApplyStep(d, t);
    var a := Prefix(db, steps, script, ApplyIndex(t));
    ApplyHeard(a.db, steps[ApplyIndex(t)].name, steps[ApplyIndex(t)].s, a.script);
    OkAt(db, steps, script, ApplyIndex(t));
    NoRows(RowsFor(d, t));
    FirstHeard(RepliesAt(d, t, db, script));
    RejectedInsertEmpties(d, t, db, script);
  }

  lemma FirstHeard(script: seq<Reply>)
    requires AllHeard(script) && script != []
    ensures Took(script, 0)
  {
  }

  /** Two servers share a row key once their ports are defaulted and their host names quoted. */
  predicate SameRow(s: MySQLServer, t: MySQLServer) {
    && s.hostgroup == t.hostgroup && StripControl(s.hostname) == StripControl(t.hostname)
    && PortOr(s.port, MYSQL_PORT) == PortOr(t.port, MYSQL_PORT)
  }

  /** The INSERT of the servers is refused if and only if two of them share a row. */
  lemma ServersRefusedExactly(d: Desired)
    ensures Refused(NO_TABLES, RowsFor(d, MySQLServersTable)) <==>
            exists i, j :: 0 <= i < j < |d.mysqlServers| && SameRow(d.mysqlServers[i], d.mysqlServers[j])
  {
    hide StripControl;
    var rows := Each(d.mysqlServers, StoredMySQLServer);
    assert RowsFor(d, MySQLServersTable) == MySQLServerRows(rows);
    forall i, j | 0 <= i < j < |rows|
      ensures MySQLPlace(rows[i]) == MySQLPlace(rows[j]) <==> SameRow(d.mysqlServers[i], d.mysqlServers[j]) {
      assert rows[i] == StoredMySQLServer(d.mysqlServers[i]) && rows[j] == StoredMySQLServer(d.mysqlServers[j]);
    }
  }

  /** Such as one server at port 0 and at the default port. */
  lemma DefaultPortTwiceEmpties(d: Desired, s: MySQLServer, db: Db, script: seq<Reply>)
    requires d.mysqlServers == [s.(port := 0), s.(port := MYSQL_PORT)]
    requires d.sqlStatements == [] && AllHeard(script) && |script| >= 32
    ensures ViewOf(RunSteps(db, Steps(d, false), script).db, MySQLServersTable) ==
            Showing(ContentOf(NO_TABLES, MySQLServersTable))
  {
    hide RunSteps, Steps, RowsFor, ViewOf, Showing, Refused, ContentOf, AllHeard, StripControl;
    assert SameRow(d.mysqlServers[0], d.mysqlServers[1]);
    ServersRefusedExactly(d);
    SharedKeyEmpties(d, MySQLServersTable, db, script);
  }
}
