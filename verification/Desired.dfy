/** The resolved desired state of a cluster, one record per admin table row. */
module Desired {
  import opened Text
  import opened Replication

  datatype MySQLServer = MySQLServer(
    hostgroup: Int32, hostname: string, port: Int32, weight: Option<Int32>, maxConnections: Option<Int32>,
    maxReplicationLag: Option<Int32>, useSSL: Option<bool>, status: string, comment: string)

  datatype MySQLUser = MySQLUser(
    username: string, password: string, defaultHostgroup: Int32, active: Option<bool>, maxConnections: Option<Int32>,
    useSSL: Option<bool>, defaultSchema: string, transactionPersistent: Option<bool>, comment: string)

  /** The matching, rewriting, caching and routing columns of a query rule. */
  datatype RuleBody = RuleBody(
    username: string, schemaName: string, flagIn: Option<Int32>, matchPattern: string, matchDigest: string,
    flagOut: Option<Int32>, replacePattern: string, destinationHostgroup: Option<Int32>, cacheTTL: Option<Int32>,
    cacheEmptyResult: Option<bool>, timeout: Option<Int32>, delay: Option<Int32>, mirrorHostgroup: Option<Int32>,
    errorMessage: string, log: Option<bool>, apply: Option<bool>, comment: string)

  /** A row of mysql_query_rules or pgsql_query_rules. */
  datatype QueryRule = QueryRule(ruleID: Int32, active: Option<bool>, body: RuleBody)

  datatype HostgroupAttributes = HostgroupAttributes(
    hostgroup: Int32, maxNumOnlineServers: Option<Int32>, autocommit: Option<Int32>, freeConnectionsPct: Option<Int32>,
    initConnect: string, multiplex: Option<bool>, connectionWarming: Option<bool>,
    throttleConnectionsPerSec: Option<Int32>, ignoreSessionVariables: string, comment: string)

  datatype PgSQLServer = PgSQLServer(
    hostgroup: Int32, hostname: string, port: Int32, weight: Option<Int32>, maxConnections: Option<Int32>,
    useSSL: Option<bool>, comment: string)

  datatype PgSQLUser = PgSQLUser(
    username: string, password: string, defaultHostgroup: Int32, active: Option<bool>, comment: string)

  datatype ProxySQLServer = ProxySQLServer(hostname: string, port: Int32, weight: Int32, comment: string)

  type Vars = map<string, string>

  datatype Desired = Desired(
    mysqlServers: seq<MySQLServer>, mysqlUsers: seq<MySQLUser>, mysqlRules: seq<QueryRule>,
    replicationHostgroups: seq<ReplicationHostgroup>, hostgroupAttributes: seq<HostgroupAttributes>,
    pgsqlServers: seq<PgSQLServer>, pgsqlUsers: seq<PgSQLUser>, pgsqlRules: seq<QueryRule>,
    proxysqlServers: seq<ProxySQLServer>,
    adminVars: Vars, mysqlVars: Vars, pgsqlVars: Vars, sqlStatements: seq<string>)

  /* ---- merge keys ---- */

  function HostPort(host: string, port: int): (k: string) {
    host + ([':'] + Itoa(port))
  }

  /** hostKey: "hostgroup:hostname:port". */
  function HostKey(hg: int, host: string, port: int): (k: string) {
    Itoa(hg) + [':'] + HostPort(host, port)
  }

  lemma HostPortInjective(h: string, p: int, h': string, p': int)
    requires HostPort(h, p) == HostPort(h', p')
    ensures h == h' && p == p'
  {
    assert ':' !in Itoa(p) && ':' !in Itoa(p');
    hide Itoa;
    assert HostPort(h, p) == h + [':'] + Itoa(p) && HostPort(h', p') == h' + [':'] + Itoa(p');
    CutLastUnique(h, Itoa(p), h', Itoa(p'), ':');
    ItoaInjective(p, p');
  }

  /** Host names may hold colons (IPv6); the first and the last colon still tell the parts. */
  lemma HostKeyInjective(g: int, h: string, p: int, g': int, h': string, p': int)
    requires HostKey(g, h, p) == HostKey(g', h', p')
    ensures g == g' && h == h' && p == p'
  {
    assert ':' !in Itoa(g) && ':' !in Itoa(g');
    hide Itoa;
    CutUnique(Itoa(g), HostPort(h, p), Itoa(g'), HostPort(h', p'), ':');
    ItoaInjective(g, g');
    HostPortInjective(h, p, h', p');
  }
}
