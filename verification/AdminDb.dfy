/** The admin database of a ProxySQL replica: keyed tables in memory, on disk and loaded to runtime,
    and the statements the operator executes against them. */
module AdminDb {
  import opened Text
  import opened Replication
  import opened Desired
  import opened ServerKeys
  import opened Drift
  import opened Union

  type Peer = (string, Int32)

  function PeerKey(s: ProxySQLServer): (k: Peer) {
    (s.hostname, s.port)
  }

  datatype Table =
    | MySQLServersTable | ReplicationTable | AttributesTable | MySQLUsersTable | MySQLRulesTable
    | PgSQLServersTable | PgSQLUsersTable | PgSQLRulesTable | ProxySQLServersTable

  datatype Tables = Tables(
    mysqlServers: map<Place, MySQLServer>, replication: map<Int32, ReplicationHostgroup>,
    attributes: map<Int32, HostgroupAttributes>, mysqlUsers: map<string, MySQLUser>, mysqlRules: map<Int32, QueryRule>,
    pgsqlServers: map<Place, PgSQLServer>, pgsqlUsers: map<string, PgSQLUser>, pgsqlRules: map<Int32, QueryRule>,
    proxysqlServers: map<Peer, ProxySQLServer>)

  /** The rows of one INSERT. */
  datatype Rows =
    | MySQLServerRows(mysqlServers: seq<MySQLServer>)
    | ReplicationRows(replication: seq<ReplicationHostgroup>)
    | AttributesRows(attributes: seq<HostgroupAttributes>)
    | MySQLUserRows(mysqlUsers: seq<MySQLUser>)
    | MySQLRuleRows(mysqlRules: seq<QueryRule>)
    | PgSQLServerRows(pgsqlServers: seq<PgSQLServer>)
    | PgSQLUserRows(pgsqlUsers: seq<PgSQLUser>)
    | PgSQLRuleRows(pgsqlRules: seq<QueryRule>)
    | ProxySQLServerRows(proxysqlServers: seq<ProxySQLServer>)
  {
    function Target(): (t: Table) {
      match this
      case MySQLServerRows(_) => MySQLServersTable
      case ReplicationRows(_) => ReplicationTable
      case AttributesRows(_) => AttributesTable
      case MySQLUserRows(_) => MySQLUsersTable
      case MySQLRuleRows(_) => MySQLRulesTable
      case PgSQLServerRows(_) => PgSQLServersTable
      case PgSQLUserRows(_) => PgSQLUsersTable
      case PgSQLRuleRows(_) => PgSQLRulesTable
      case ProxySQLServerRows(_) => ProxySQLServersTable
    }

    predicate None() {
      match this
      case MySQLServerRows(rs) => rs == []
      case ReplicationRows(rs) => rs == []
      case AttributesRows(rs) => rs == []
      case MySQLUserRows(rs) => rs == []
      case MySQLRuleRows(rs) => rs == []
      case PgSQLServerRows(rs) => rs == []
      case PgSQLUserRows(rs) => rs == []
      case PgSQLRuleRows(rs) => rs == []
      case ProxySQLServerRows(rs) => rs == []
    }
  }

  function Emptied(ts: Tables, t: Table): (r: Tables) {
    match t
    case MySQLServersTable => ts.(mysqlServers := map[])
    case ReplicationTable => ts.(replication := map[])
    case AttributesTable => ts.(attributes := map[])
    case MySQLUsersTable => ts.(mysqlUsers := map[])
    case MySQLRulesTable => ts.(mysqlRules := map[])
    case PgSQLServersTable => ts.(pgsqlServers := map[])
    case PgSQLUsersTable => ts.(pgsqlUsers := map[])
    case PgSQLRulesTable => ts.(pgsqlRules := map[])
    case ProxySQLServersTable => ts.(proxysqlServers := map[])
  }

  /** A row repeats a primary key, of the table or of the same statement. */
  predicate Clash<K(==), V>(m: map<K, V>, rows: seq<V>, key: V -> K) {
    || (exists i | 0 <= i < |rows| :: key(rows[i]) in m)
    || (exists i, j | 0 <= i < j < |rows| :: key(rows[i]) == key(rows[j]))
  }

  predicate Refused(ts: Tables, rows: Rows) {
    match rows
    case MySQLServerRows(rs) => Clash(ts.mysqlServers, rs, MySQLPlace)
    case ReplicationRows(rs) => Clash(ts.replication, rs, WriterKey)
    case AttributesRows(rs) => Clash(ts.attributes, rs, AttributesKey)
    case MySQLUserRows(rs) => Clash(ts.mysqlUsers, rs, MySQLUserKey)
    case MySQLRuleRows(rs) => Clash(ts.mysqlRules, rs, RuleKey)
    case PgSQLServerRows(rs) => Clash(ts.pgsqlServers, rs, PgSQLPlace)
    case PgSQLUserRows(rs) => Clash(ts.pgsqlUsers, rs, PgSQLUserKey)
    case PgSQLRuleRows(rs) => Clash(ts.pgsqlRules, rs, RuleKey)
    case ProxySQLServerRows(rs) => Clash(ts.proxysqlServers, rs, PeerKey)
  }

  function Inserted(ts: Tables, rows: Rows): (r: Tables) {
    match rows
    case MySQLServerRows(rs) => ts.(mysqlServers := Overwritten(ts.mysqlServers, rs, MySQLPlace))
    case ReplicationRows(rs) => ts.(replication := Overwritten(ts.replication, rs, WriterKey))
    case AttributesRows(rs) => ts.(attributes := Overwritten(ts.attributes, rs, AttributesKey))
    case MySQLUserRows(rs) => ts.(mysqlUsers := Overwritten(ts.mysqlUsers, rs, MySQLUserKey))
    case MySQLRuleRows(rs) => ts.(mysqlRules := Overwritten(ts.mysqlRules, rs, RuleKey))
    case PgSQLServerRows(rs) => ts.(pgsqlServers := Overwritten(ts.pgsqlServers, rs, PgSQLPlace))
    case PgSQLUserRows(rs) => ts.(pgsqlUsers := Overwritten(ts.pgsqlUsers, rs, PgSQLUserKey))
    case PgSQLRuleRows(rs) => ts.(pgsqlRules := Overwritten(ts.pgsqlRules, rs, RuleKey))
    case ProxySQLServerRows(rs) => ts.(proxysqlServers := Overwritten(ts.proxysqlServers, rs, PeerKey))
  }

  /** The tables one LOAD or SAVE command covers. */
  datatype Section =
    | MySQLServers | MySQLUsers | MySQLQueryRules | PgSQLServers | PgSQLUsers | PgSQLQueryRules | ProxySQLServers
    | Variables(domain: string)
  {
    predicate Covers(t: Table) {
      match this
      case MySQLServers => t.MySQLServersTable? || t.ReplicationTable? || t.AttributesTable?
      case MySQLUsers => t.MySQLUsersTable?
      case MySQLQueryRules => t.MySQLRulesTable?
      case PgSQLServers => t.PgSQLServersTable?
      case PgSQLUsers => t.PgSQLUsersTable?
      case PgSQLQueryRules => t.PgSQLRulesTable?
      case ProxySQLServers => t.ProxySQLServersTable?
      case Variables(_) => false
    }
  }

  function Copied(from: Tables, to: Tables, s: Section): (r: Tables) {
    match s
    case MySQLServers => to.(mysqlServers := from.mysqlServers, replication := from.replication,
                             attributes := from.attributes)
    case MySQLUsers => to.(mysqlUsers := from.mysqlUsers)
    case MySQLQueryRules => to.(mysqlRules := from.mysqlRules)
    case PgSQLServers => to.(pgsqlServers := from.pgsqlServers)
    case PgSQLUsers => to.(pgsqlUsers := from.pgsqlUsers)
    case PgSQLQueryRules => to.(pgsqlRules := from.pgsqlRules)
    case ProxySQLServers => to.(proxysqlServers := from.proxysqlServers)
    case Variables(_) => to
  }

  /** `mysqlLive` and `pgsqlLive` are runtime_mysql_servers and runtime_pgsql_servers: what LOAD
      put there and the monitor has since changed. `vars` and `running` are global_variables and
      runtime_global_variables, `pinned` the variables that only a startup sets. */
  datatype Db = Db(memory: Tables, disk: Tables, loaded: Tables, mysqlLive: map<Place, string>,
                   pgsqlLive: map<Place, string>, vars: Vars, running: Vars, pinned: set<string>)

  /** LOAD ADMIN, MYSQL or PGSQL VARIABLES concerns the variables of this prefix. */
  function PrefixOf(domain: string): (prefix: Option<string>) {
    if domain == "ADMIN" then Some("admin-")
    else if domain == "MYSQL" then Some("mysql-")
    else if domain == "PGSQL" then Some("pgsql-")
    else None
  }

  function LoadedVars(db: Db, domain: string): (running: Vars) {
    match PrefixOf(domain)
    case None => db.running
    case Some(prefix) => db.running + map k | k in db.vars && prefix <= k && k !in db.pinned :: db.vars[k]
  }

  /** LOAD omits OFFLINE_HARD rows from the runtime table. */
  function MySQLLive(m: map<Place, MySQLServer>): (live: map<Place, string>) {
    map p | p in m && m[p].status != OFFLINE_HARD :: m[p].status
  }

  function PgSQLLive(m: map<Place, PgSQLServer>): (live: map<Place, string>) {
    map p | p in m :: ONLINE
  }

  function Loaded(db: Db, s: Section): (r: Db) {
    db.(loaded := Copied(db.memory, db.loaded, s),
        mysqlLive := if s.MySQLServers? then MySQLLive(db.memory.mysqlServers) else db.mysqlLive,
        pgsqlLive := if s.PgSQLServers? then PgSQLLive(db.memory.pgsqlServers) else db.pgsqlLive,
        running := if s.Variables? then LoadedVars(db, s.domain) else db.running)
  }

  datatype Stmt =
    | Delete(t: Table) | Insert(rows: Rows) | Load(s: Section) | Save(s: Section)
    | SetVariable(name: string, value: string) | Raw(sql: string)

  /** How the replica answers a statement: whether it took effect, whether the client heard success,
      and the state a raw statement leaves behind. */
  datatype Reply = Reply(applied: bool, ok: bool, raw: Db)

  function Effect(db: Db, stmt: Stmt, raw: Db): (r: Db) {
    match stmt
    case Delete(t) => db.(memory := Emptied(db.memory, t))
    case Insert(rows) => db.(memory := Inserted(db.memory, rows))
    case Load(s) => Loaded(db, s)
    case Save(s) => db.(disk := Copied(db.memory, db.disk, s))
    case SetVariable(name, value) => if name in db.vars then db.(vars := db.vars[name := value]) else db
    case Raw(_) => raw
  }

  predicate Fails(db: Db, stmt: Stmt, reply: Reply) {
    !reply.ok || (stmt.Insert? && Refused(db.memory, stmt.rows))
  }

  function Exec(db: Db, stmt: Stmt, reply: Reply): (r: Db) {
    if stmt.Insert? && Refused(db.memory, stmt.rows) then db
    else if reply.ok || reply.applied then Effect(db, stmt, reply.raw)
    else db
  }

  /* ---- one table at a time ---- */

  datatype Content =
    | MySQLServerContent(map<Place, MySQLServer>) | ReplicationContent(map<Int32, ReplicationHostgroup>)
    | AttributesContent(map<Int32, HostgroupAttributes>) | MySQLUserContent(map<string, MySQLUser>)
    | RuleContent(map<Int32, QueryRule>) | PgSQLServerContent(map<Place, PgSQLServer>)
    | PgSQLUserContent(map<string, PgSQLUser>) | PeerContent(map<Peer, ProxySQLServer>)

  function ContentOf(ts: Tables, t: Table): (c: Content) {
    match t
    case MySQLServersTable => MySQLServerContent(ts.mysqlServers)
    case ReplicationTable => ReplicationContent(ts.replication)
    case AttributesTable => AttributesContent(ts.attributes)
    case MySQLUsersTable => MySQLUserContent(ts.mysqlUsers)
    case MySQLRulesTable => RuleContent(ts.mysqlRules)
    case PgSQLServersTable => PgSQLServerContent(ts.pgsqlServers)
    case PgSQLUsersTable => PgSQLUserContent(ts.pgsqlUsers)
    case PgSQLRulesTable => RuleContent(ts.pgsqlRules)
    case ProxySQLServersTable => PeerContent(ts.proxysqlServers)
  }

  /** A table as the replica runs it: loaded rows and, for servers, the visible rows with status; and
      the rows on disk. */
  datatype View = View(loaded: Content, live: map<Place, string>, saved: Content)

  function ViewOf(db: Db, t: Table): (v: View) {
    View(ContentOf(db.loaded, t),
         if t.MySQLServersTable? then db.mysqlLive else if t.PgSQLServersTable? then db.pgsqlLive else map[],
         ContentOf(db.disk, t))
  }

  const NO_TABLES := Tables(map[], map[], map[], map[], map[], map[], map[], map[], map[])

  /** The table holding exactly these rows. */
  function Holding(rows: Rows): (c: Content) {
    ContentOf(Inserted(NO_TABLES, rows), rows.Target())
  }

  /** A table right after it was loaded and saved with this content. */
  function Showing(c: Content): (v: View) {
    View(c, match c
            case MySQLServerContent(m) => MySQLLive(m)
            case PgSQLServerContent(m) => PgSQLLive(m)
            case _ => map[],
         c)
  }

  function Published(rows: Rows): (v: View) {
    Showing(Holding(rows))
  }

  predicate Writes(stmt: Stmt, t: Table) {
    match stmt
    case Delete(u) => u == t
    case Insert(rows) => rows.Target() == t
    case Raw(_) => true
    case _ => false
  }

  predicate Publishes(stmt: Stmt, t: Table) {
    match stmt
    case Load(s) => s.Covers(t)
    case Save(s) => s.Covers(t)
    case Raw(_) => true
    case _ => false
  }

  lemma EmptiedFrame(ts: Tables, u: Table, t: Table)
    requires u != t
    ensures ContentOf(Emptied(ts, u), t) == ContentOf(ts, t)
  {
  }

  lemma InsertedFrame(ts: Tables, rows: Rows, t: Table)
    requires rows.Target() != t
    ensures ContentOf(Inserted(ts, rows), t) == ContentOf(ts, t)
  {
    hide Overwritten;
  }

  lemma CopiedFrame(from: Tables, to: Tables, s: Section, t: Table)
    requires !s.Covers(t)
    ensures ContentOf(Copied(from, to, s), t) == ContentOf(to, t)
  {
  }

  lemma ExecFrame(db: Db, stmt: Stmt, reply: Reply, t: Table)
    ensures !Writes(stmt, t) ==> ContentOf(Exec(db, stmt, reply).memory, t) == ContentOf(db.memory, t)
    ensures !Publishes(stmt, t) ==> ViewOf(Exec(db, stmt, reply), t) == ViewOf(db, t)
  {
    hide ContentOf, Emptied, Inserted, Copied, Refused, MySQLLive, PgSQLLive, LoadedVars;
    match stmt
    case Delete(u) => if u != t { EmptiedFrame(db.memory, u, t); }
    case Insert(rows) => if rows.Target() != t { InsertedFrame(db.memory, rows, t); }
    case Load(s) => if !s.Covers(t) { CopiedFrame(db.memory, db.loaded, s, t); }
    case Save(s) => if !s.Covers(t) { CopiedFrame(db.memory, db.disk, s, t); }
    case SetVariable(_, _) =>
    case Raw(_) =>
  }

  lemma LoadShows(db: Db, s: Section, t: Table, reply: Reply)
    requires s.Covers(t) && reply.ok
    ensures var after, now := Exec(db, Load(s), reply), ContentOf(db.memory, t);
            ViewOf(after, t) == Showing(now).(saved := ViewOf(db, t).saved) && after.memory == db.memory
  {
    hide MySQLLive, PgSQLLive, LoadedVars;
  }

  lemma SaveShows(db: Db, s: Section, t: Table, reply: Reply)
    requires s.Covers(t) && reply.ok
    ensures ViewOf(Exec(db, Save(s), reply), t) == ViewOf(db, t).(saved := ContentOf(db.memory, t))
  {
  }

  lemma DeleteEmpties(db: Db, t: Table, reply: Reply)
    requires reply.ok || reply.applied
    ensures ContentOf(Exec(db, Delete(t), reply).memory, t) == ContentOf(NO_TABLES, t)
  {
  }

  /** Into an emptied table, the rows and nothing else: nine tables, one statement each. */
  lemma InsertedHolds(ts: Tables, rows: Rows)
    requires ContentOf(ts, rows.Target()) == ContentOf(NO_TABLES, rows.Target())
    ensures ContentOf(Inserted(ts, rows), rows.Target()) == Holding(rows)
  {
    hide Overwritten;
  }

  lemma RefusedAlike(ts: Tables, rows: Rows)
    requires ContentOf(ts, rows.Target()) == ContentOf(NO_TABLES, rows.Target())
    ensures Refused(ts, rows) <==> Refused(NO_TABLES, rows)
  {
    hide Clash;
  }

  lemma InsertHolds(db: Db, rows: Rows, reply: Reply)
    requires ContentOf(db.memory, rows.Target()) == ContentOf(NO_TABLES, rows.Target())
    requires !Refused(NO_TABLES, rows) && (reply.ok || reply.applied)
    ensures ContentOf(Exec(db, Insert(rows), reply).memory, rows.Target()) == Holding(rows)
  {
    hide ContentOf, Holding, Refused, Inserted;
    InsertedHolds(db.memory, rows);
    RefusedAlike(db.memory, rows);
  }

  lemma NoRows(rows: Rows)
    ensures rows.None() ==> Holding(rows) == ContentOf(NO_TABLES, rows.Target()) && !Refused(NO_TABLES, rows)
  {
  }
}
