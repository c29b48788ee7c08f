/** The ProxySQL monitor moves and shuns servers after a push; none of it may look like drift, or the
    operator would re-push in a loop. */
module Monitor {
  import opened Text
  import opened Replication
  import opened ServerKeys
  import opened Drift
  import opened Runtime
  import opened AdminDb

  /* ---- what the runtime tables show ---- */

  /** Whether rows with active=0 reach the runtime tables is the replica's affair. */
  predicate Visible(active: Option<bool>, showsInactive: bool) {
    showsInactive || active != Some(false)
  }

  function MySQLUsersShown(ts: Tables, shows: bool): (names: set<string>) {
    set n | n in ts.mysqlUsers && Visible(ts.mysqlUsers[n].active, shows)
  }

  function MySQLRulesShown(ts: Tables, shows: bool): (ids: set<Int32>) {
    set i | i in ts.mysqlRules && Visible(ts.mysqlRules[i].active, shows)
  }

  function PgSQLUsersShown(ts: Tables, shows: bool): (names: set<string>) {
    set n | n in ts.pgsqlUsers && Visible(ts.pgsqlUsers[n].active, shows)
  }

  function PgSQLRulesShown(ts: Tables, shows: bool): (ids: set<Int32>) {
    set i | i in ts.pgsqlRules && Visible(ts.pgsqlRules[i].active, shows)
  }

  function RuntimeOf(db: Db, shows: bool): (rt: Runtime) {
    Runtime(db.mysqlLive, MySQLUsersShown(db.loaded, shows), MySQLRulesShown(db.loaded, shows),
            db.pgsqlLive, PgSQLUsersShown(db.loaded, shows), PgSQLRulesShown(db.loaded, shows))
  }

  /* ---- monitor steps ---- */

  datatype MonitorStep =
    | Move(p: Place, to: Int32)
    | Mirror(p: Place, to: Int32)
    | Flip(p: Place)
    | PgFlip(p: Place)

  ghost predicate ListsPairs(pairs: Topology, m: map<Int32, ReplicationHostgroup>) {
    forall p :: p in pairs <==> exists w :: w in m && p == m[w]
  }

  /** The monitor acts within the classes of the loaded mysql_replication_hostgroups. */
  ghost predicate SameTopology(db: Db, a: Int32, b: Int32) {
    exists pairs :: ListsPairs(pairs, db.loaded.replication) && Connected(pairs, a, b)
  }

  predicate Health(status: string) {
    status == ONLINE || status == SHUNNED
  }

  function Flipped(status: string): (r: string) {
    if status == ONLINE then SHUNNED else if status == SHUNNED then ONLINE else status
  }

  ghost function After(db: Db, step: MonitorStep): (r: Db) {
    match step
    case Move(p, to) =>
      if p in db.mysqlLive && SameTopology(db, p.hostgroup, to) then
        db.(mysqlLive := (db.mysqlLive - {p})[p.(hostgroup := to) := db.mysqlLive[p]])
      else db
    case Mirror(p, to) =>
      if p in db.mysqlLive && SameTopology(db, p.hostgroup, to) then
        db.(mysqlLive := db.mysqlLive[p.(hostgroup := to) := db.mysqlLive[p]])
      else db
    case Flip(p) => if p in db.mysqlLive then db.(mysqlLive := db.mysqlLive[p := Flipped(db.mysqlLive[p])]) else db
    case PgFlip(p) => if p in db.pgsqlLive then db.(pgsqlLive := db.pgsqlLive[p := Flipped(db.pgsqlLive[p])]) else db
  }

  ghost function Monitored(db: Db, steps: seq<MonitorStep>): (r: Db) {
    if steps == [] then db else After(Monitored(db, steps[..|steps| - 1]), steps[|steps| - 1])
  }

  /* ---- what monitor steps keep ---- */

  ghost predicate Carried(pairs: Topology, a: Servers, q: Place, status: string) {
    exists p :: p in a && SameServer(pairs, q, p) && (status == a[p] || (Health(status) && Health(a[p])))
  }

  /** Every server stays in its class, and no administrative status appears or is lost. */
  ghost predicate Moved(pairs: Topology, a: Servers, b: Servers) {
    && (forall q | q in a :: Live(b, pairs, q))
    && (forall q | q in b :: Carried(pairs, a, q, b[q]))
  }

  lemma SameServerLaws(pairs: Topology, p: Place, q: Place, r: Place)
    ensures SameServer(pairs, p, p)
    ensures SameServer(pairs, p, q) ==> SameServer(pairs, q, p)
    ensures SameServer(pairs, p, q) && SameServer(pairs, q, r) ==> SameServer(pairs, p, r)
  {
    hide Connected;
    ConnectedReflexive(pairs, p.hostgroup);
    if SameServer(pairs, p, q) {
      ConnectedBack(pairs, p.hostgroup, q.hostgroup);
      if SameServer(pairs, q, r) {
        ConnectedTransitive(pairs, p.hostgroup, q.hostgroup, r.hostgroup);
      }
    }
  }

  lemma MovedReflexive(pairs: Topology, a: Servers)
    ensures Moved(pairs, a, a)
  {
    hide SameServer;
    forall q | q in a ensures Live(a, pairs, q) && Carried(pairs, a, q, a[q]) { SameServerLaws(pairs, q, q, q); }
  }

  lemma MovedTransitive(pairs: Topology, a: Servers, b: Servers, c: Servers)
    requires Moved(pairs, a, b) && Moved(pairs, b, c)
    ensures Moved(pairs, a, c)
  {
    hide SameServer, Health;
    forall q | q in a ensures Live(c, pairs, q) {
      var r :| r in b && SameServer(pairs, q, r);
      var s :| s in c && SameServer(pairs, r, s);
      SameServerLaws(pairs, q, r, s);
    }
    forall q | q in c ensures Carried(pairs, a, q, c[q]) {
      var r :| r in b && SameServer(pairs, q, r) && (c[q] == b[r] || (Health(c[q]) && Health(b[r])));
      var s :| s in a && SameServer(pairs, r, s) && (b[r] == a[s] || (Health(b[r]) && Health(a[s])));
      SameServerLaws(pairs, q, r, s);
    }
  }

  lemma PlacedAgain(pairs: Topology, a: Servers, p: Place, to: Int32, b: Servers)
    requires p in a && Connected(pairs, p.hostgroup, to)
    requires b == (a - {p})[p.(hostgroup := to) := a[p]] || b == a[p.(hostgroup := to) := a[p]]
    ensures Moved(pairs, a, b)
  {
    hide Connected, Health;
    var moved := p.(hostgroup := to);
    assert SameServer(pairs, p, moved);
    SameServerLaws(pairs, p, moved, p);
    forall q | q in a ensures Live(b, pairs, q) {
      SameServerLaws(pairs, q, q, q);
      if q == p { assert moved in b; } else { assert q in b; }
    }
    forall q | q in b ensures Carried(pairs, a, q, b[q]) {
      SameServerLaws(pairs, q, q, q);
      if q == moved { assert SameServer(pairs, q, p) && b[q] == a[p]; } else { assert q in a && b[q] == a[q]; }
    }
  }

  lemma FlippedAgain(pairs: Topology, a: Servers, p: Place)
    requires p in a
    ensures Moved(pairs, a, a[p := Flipped(a[p])])
  {
    var b := a[p := Flipped(a[p])];
    hide SameServer;
    forall q | q in a ensures Live(b, pairs, q) { SameServerLaws(pairs, q, q, q); assert q in b; }
    forall q | q in b ensures Carried(pairs, a, q, b[q]) { SameServerLaws(pairs, q, q, q); assert q in a; }
  }

  lemma {:induction false} WalkElsewhere(pairs: Topology, again: Topology, p: seq<Int32>, a: Int32, b: Int32)
    requires Joins(pairs, p, a, b) && forall e :: e in pairs <==> e in again
    ensures Joins(again, p, a, b)
  {
    forall i | 0 <= i < |p| - 1 ensures Edge(again, p[i], p[i + 1]) { assert Edge(pairs, p[i], p[i + 1]); }
  }

  lemma TopologyOf(db: Db, pairs: Topology, a: Int32, b: Int32)
    requires ListsPairs(pairs, db.loaded.replication) && SameTopology(db, a, b)
    ensures Connected(pairs, a, b)
  {
    var again :| ListsPairs(again, db.loaded.replication) && Connected(again, a, b);
    forall e ensures e in again <==> e in pairs {
      assert e in pairs <==> exists w :: w in db.loaded.replication && e == db.loaded.replication[w];
    }
    var p :| Joins(again, p, a, b);
    hide Walk, ListsPairs;
    WalkElsewhere(again, pairs, p, a, b);
  }

  lemma AfterKeeps(db: Db, step: MonitorStep, pairs: Topology)
    requires ListsPairs(pairs, db.loaded.replication)
    ensures var after := After(db, step);
            after.loaded == db.loaded && Moved(pairs, db.mysqlLive, after.mysqlLive)
            && after.pgsqlLive.Keys == db.pgsqlLive.Keys
  {
    hide ListsPairs, Moved, Connected, SameTopology, Flipped;
    MovedReflexive(pairs, db.mysqlLive);
    match step
    case Move(p, to) =>
      if p in db.mysqlLive && SameTopology(db, p.hostgroup, to) {
        TopologyOf(db, pairs, p.hostgroup, to);
        PlacedAgain(pairs, db.mysqlLive, p, to, After(db, step).mysqlLive);
      }
    case Mirror(p, to) =>
      if p in db.mysqlLive && SameTopology(db, p.hostgroup, to) {
        TopologyOf(db, pairs, p.hostgroup, to);
        PlacedAgain(pairs, db.mysqlLive, p, to, After(db, step).mysqlLive);
      }
    case Flip(p) => if p in db.mysqlLive { FlippedAgain(pairs, db.mysqlLive, p); }
    case PgFlip(p) =>
  }

  lemma {:induction false} MonitoredKeeps(db: Db, steps: seq<MonitorStep>, pairs: Topology)
    requires ListsPairs(pairs, db.loaded.replication)
    ensures var after := Monitored(db, steps);
            after.loaded == db.loaded && Moved(pairs, db.mysqlLive, after.mysqlLive)
            && after.pgsqlLive.Keys == db.pgsqlLive.Keys
    decreases |steps|
  {
    hide ListsPairs, Moved, After;
    if steps == [] {
      MovedReflexive(pairs, db.mysqlLive);
    } else {
      var n := |steps| - 1;
      MonitoredKeeps(db, steps[..n], pairs);
      var mid := Monitored(db, steps[..n]);
      AfterKeeps(mid, steps[n], pairs);
      MovedTransitive(pairs, db.mysqlLive, mid.mysqlLive, After(mid, steps[n]).mysqlLive);
    }
  }
}
