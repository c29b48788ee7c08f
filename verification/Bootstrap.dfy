/** BootstrapCnf: the sections the operator renders for a cluster, and the round trip of the
    rendered text through ParseCnfVariables. */
module Bootstrap {
  import opened Text
  import opened Render
  import Cnf

  datatype Passwords = Passwords(
    admin: string, radmin: string, monitor: string, monitorUsername: string, extraUser: string, extraPassword: string)

  /** The defaulted spec as far as the cnf depends on it; a disabled listener is None. */
  datatype Builder = Builder(
    name: string, aws: bool, pw: Passwords, adminPort: nat,
    mysqlPort: Option<nat>, pgsqlPort: Option<nat>, metricsPort: Option<nat>, webPort: Option<nat>,
    queryLog: bool, backendCa: bool, backendClientCert: bool,
    adminVars: map<string, string>, mysqlVars: map<string, string>, pgsqlVars: map<string, string>)

  type Vars = map<string, string>

  /* ---- operator defaults ---- */

  function AdminDefaults(b: Builder, sync: bool): (d: Vars) {
    (if b.metricsPort.Some? then map["restapi_enabled" := "true", "restapi_port" := Itoa(b.metricsPort.value)]
     else map[]) +
    (if b.webPort.Some? then map["web_enabled" := "true", "web_port" := Itoa(b.webPort.value)] else map[]) +
    (if sync then CLUSTER_DEFAULTS else map[])
  }

  const SAVE: string := "_save_to_disk"
  const DIFFS: string := "_diffs_before_sync"

  const CLUSTER_DEFAULTS: Vars := map[
    "cluster_check_interval_ms" := "200",
    "cluster_check_status_frequency" := "100",
    "cluster_mysql_query_rules" + SAVE := "true",
    "cluster_mysql_servers" + SAVE := "true",
    "cluster_mysql_users" + SAVE := "true",
    "cluster_proxysql_servers" + SAVE := "true",
    "cluster_mysql_query_rules" + DIFFS := "3",
    "cluster_mysql_servers" + DIFFS := "3",
    "cluster_mysql_users" + DIFFS := "3",
    "cluster_proxysql_servers" + DIFFS := "3"
  ]

  const QUERY_LOG: Vars := map[
    "eventslog_filename" := "/var/log/proxysql/queries",
    "eventslog_default_log" := "1",
    "eventslog_format" := "2",
    "eventslog_filesize" := "52428800"
  ]

  function BackendTls(b: Builder): (d: Vars) {
    if !b.backendCa then map[]
    else
      map["ssl_p2s_ca" := "/etc/proxysql/backend-tls/ca.crt"] +
      if b.backendClientCert
      then map["ssl_p2s_cert" := "/etc/proxysql/backend-tls/tls.crt",
               "ssl_p2s_key" := "/etc/proxysql/backend-tls/tls.key"]
      else map[]
  }

  function MySQLDefaults(b: Builder): (d: Vars) {
    map["threads" := "4"] + (if b.queryLog then QUERY_LOG else map[]) + BackendTls(b)
  }

  function PgSQLDefaults(b: Builder): (d: Vars) {
    map["threads" := "4"] + BackendTls(b)
  }

  /* ---- the template ---- */

  function Credentials(pw: Passwords): (v: string) {
    "admin:" + pw.admin + ";radmin:" + pw.radmin +
    if pw.extraUser != "" then ";" + pw.extraUser + ":" + pw.extraPassword else ""
  }

  function AdminSection(b: Builder, sync: bool, overlay: Vars): (s: Section) {
    Section("admin",
      [Entry("admin_credentials", Credentials(b.pw)), Entry("mysql_ifaces", "0.0.0.0:" + Itoa(b.adminPort))] +
      (if sync then [Entry("cluster_username", "radmin"), Entry("cluster_password", b.pw.radmin)] else []),
      AdminDefaults(b, sync), overlay)
  }

  function DataLiterals(port: nat, pw: Passwords): (es: seq<Entry>) {
    [Entry("interfaces", "0.0.0.0:" + Itoa(port)),
     Entry("monitor_username", pw.monitorUsername), Entry("monitor_password", pw.monitor)]
  }

  function DataSection(prefix: string, port: nat, pw: Passwords, defaults: Vars, overlay: Vars): (s: Section) {
    Section(prefix, DataLiterals(port, pw), defaults, overlay)
  }

  /** The user's variables of the three sections under their bare names. */
  datatype Overlays = Overlays(admin: Vars, mysql: Vars, pgsql: Vars)

  ghost predicate OverlaysOf(o: Overlays, b: Builder) {
    Strips(o.admin, b.adminVars, "admin-") && Strips(o.mysql, b.mysqlVars, "mysql-")
    && Strips(o.pgsql, b.pgsqlVars, "pgsql-")
  }

  function Sections(b: Builder, sync: bool, o: Overlays): (ss: seq<Section>) {
    [AdminSection(b, sync, o.admin)] +
    (if b.mysqlPort.Some? then [DataSection("mysql", b.mysqlPort.value, b.pw, MySQLDefaults(b), o.mysql)] else []) +
    (if b.pgsqlPort.Some? then [DataSection("pgsql", b.pgsqlPort.value, b.pw, PgSQLDefaults(b), o.pgsql)] else [])
  }

  const TITLE: string := "# Operator-managed bootstrap " + "config for ProxySQLCluster "
  const NOTE: string := "# Backends, users, query rules, " + ("and runtime tuning are pushed " + "via ProxySQLConfig.")
  const DATADIR: string := "datadir=\"/var/lib/proxysql\""
  const PLUGINS: string := "plugins=(\"/usr/lib/proxysql/" + "ProxySQL_Aws_Plugin.so\");"
  const WEB_PLUGIN: string := "web_interface_plugin=\"" + ("/usr/lib/proxysql/" + "Web_Interface_plugin.so\";")
  const AWS_MANAGED: string := "aws_managed=true;"

  function Header(b: Builder): (lines: seq<string>) {
    [TITLE + b.name + ".", NOTE, DATADIR] + if b.aws then [PLUGINS, WEB_PLUGIN, AWS_MANAGED] else []
  }

  function ServerLine(b: Builder, server: string, last: bool): (line: string) {
    "  { hostname=\"" + server + "\", port=" + Itoa(b.adminPort) + ", weight=0, comment=\"\" }" + if last then ""
    else ","
  }

  function ServerLines(b: Builder, servers: seq<string>): (lines: seq<string>) {
    if servers == [] then []
    else
      ["", "proxysql_servers=", "("] +
      seq(|servers|, i requires 0 <= i < |servers| => ServerLine(b, servers[i], i == |servers| - 1)) + [")"]
  }

  /** The rendered proxysql.cnf. */
  ghost function Rendered(b: Builder, servers: seq<string>, o: Overlays): (cnf: string) {
    Join(Header(b) + AllSectionLines(Sections(b, servers != [], o)) + (ServerLines(b, servers) + [""]), '\n')
  }

  predicate AllPrefixed(b: Builder) {
    Prefixed(b.adminVars, "admin-") && Prefixed(b.mysqlVars, "mysql-") && Prefixed(b.pgsqlVars, "pgsql-")
  }

  predicate UsernameChar(c: char) {
    'A' <= c <= 'Z' || 'a' <= c <= 'z' || '0' <= c <= '9' || c == '_' || c == '.' || c == '-'
  }

  /** What BootstrapCnf itself rejects. */
  predicate Accepted(b: Builder) {
    && b.pw.monitorUsername != ""
    && (forall i | 0 <= i < |b.pw.monitorUsername| :: UsernameChar(b.pw.monitorUsername[i]))
    && ValidVars(b.adminVars, "admin-") && ValidVars(b.mysqlVars, "mysql-") && ValidVars(b.pgsqlVars, "pgsql-")
  }

  method BootstrapCnf(b: Builder, servers: seq<string>) returns (cnf: Option<string>, ghost o: Overlays)
    ensures cnf.Some? <==> Accepted(b)
    ensures cnf.Some? ==> OverlaysOf(o, b) && cnf.value == Rendered(b, servers, o)
  {
    hide ValidVars, UsernameChar, OverlaysOf, Sections, AllSectionLines, Header, ServerLines, Join;
    o := Overlays(map[], map[], map[]);
    if b.pw.monitorUsername == "" || exists i ::
        0 <= i < |b.pw.monitorUsername| && !UsernameChar(b.pw.monitorUsername[i]) {
      return None, o;
    }
    var adminOk := ValidateCnfVars(b.adminVars, "admin-");
    var mysqlOk := ValidateCnfVars(b.mysqlVars, "mysql-");
    var pgsqlOk := ValidateCnfVars(b.pgsqlVars, "pgsql-");
    if !adminOk || !mysqlOk || !pgsqlOk {
      return None, o;
    }
    var lines;
    lines, o := RenderSections(b, servers != []);
    return Some(Join(Header(b) + lines + (ServerLines(b, servers) + [""]), '\n')), o;
  }

  method RenderSection(prefix: string, literals: seq<Entry>, defaults: Vars, user: Vars)
    returns (lines: seq<string>, ghost overlay: Vars)
    ensures Strips(overlay, user, prefix + "-") && lines == SectionLines(Section(prefix, literals, defaults, overlay))
  {
    hide Strips, EntriesOf, EntryLines;
    var merged;
    merged, overlay := MergedCnfVars(defaults, user, prefix + "-");
    lines := ["", prefix + "_variables=", "{"] + EntryLines(literals + merged) + ["}"];
  }

  method RenderSections(b: Builder, sync: bool) returns (lines: seq<string>, ghost o: Overlays)
    ensures OverlaysOf(o, b) && lines == AllSectionLines(Sections(b, sync, o))
  {
    hide Strips, SectionLines, AllSectionLines, Sections, AdminDefaults, MySQLDefaults, PgSQLDefaults, Credentials,
         Itoa, DataLiterals;
    assert "admin" + "-" == "admin-" && "mysql" + "-" == "mysql-" && "pgsql" + "-" == "pgsql-";
    var mysqlPort := if b.mysqlPort.Some? then b.mysqlPort.value else 0;
    var pgsqlPort := if b.pgsqlPort.Some? then b.pgsqlPort.value else 0;
    var mysql, pgsql;
    ghost var adminOver, mysqlOver, pgsqlOver;
    lines, adminOver :=
      RenderSection("admin", AdminSection(b, sync, map[]).literals, AdminDefaults(b, sync), b.adminVars);
    mysql, mysqlOver := RenderSection("mysql", DataLiterals(mysqlPort, b.pw), MySQLDefaults(b), b.mysqlVars);
    pgsql, pgsqlOver := RenderSection("pgsql", DataLiterals(pgsqlPort, b.pw), PgSQLDefaults(b), b.pgsqlVars);
    o := Overlays(adminOver, mysqlOver, pgsqlOver);
    SectionsText(b, sync, o);
    lines := lines + (if b.mysqlPort.Some? then mysql else []) + (if b.pgsqlPort.Some? then pgsql else []);
  }

  /** The template's section blocks, one after the other. */
  lemma SectionsText(b: Builder, sync: bool, o: Overlays)
    ensures AllSectionLines(Sections(b, sync, o)) ==
            SectionLines(AdminSection(b, sync, o.admin)) +
            (if b.mysqlPort.Some?
             then SectionLines(DataSection("mysql", b.mysqlPort.value, b.pw, MySQLDefaults(b), o.mysql)) else []) +
            (if b.pgsqlPort.Some?
             then SectionLines(DataSection("pgsql", b.pgsqlPort.value, b.pw, PgSQLDefaults(b), o.pgsql)) else [])
  {
    hide SectionLines, AdminSection, DataSection, MySQLDefaults, PgSQLDefaults;
    var ss := Sections(b, sync, o);
    assert AllSectionLines([]) == [];
    assert ss[..1][..0] == [] && AllSectionLines(ss[..1]) == SectionLines(ss[0]);
    if |ss| == 1 {
      assert ss[..1] == ss;
    } else if |ss| == 2 {
      assert ss[..2] == ss && ss[..2][..1] == ss[..1];
    } else {
      assert ss[..2][..1] == ss[..1] && AllSectionLines(ss[..2]) == SectionLines(ss[0]) + SectionLines(ss[1]);
    }
  }

  /* ---- round trip ---- */

  /** What a section means: literal lines and the defaults overlaid by the user's values,
      under their full names. */
  ghost function Meaning(s: Section): (vars: Vars) {
    Qualified(s.prefix, EntryMap(s.literals) + Merged(s))
  }

  ghost function MeaningOfAll(ss: seq<Section>): (vars: Vars) {
    if ss == [] then map[] else MeaningOfAll(ss[..|ss| - 1]) + Meaning(ss[|ss| - 1])
  }

  ghost predicate SoundSection(s: Section) {
    Cnf.IsDomain(s.prefix) && forall i | 0 <= i < |Entries(s)| :: GoodEntry(Entries(s)[i])
  }

  ghost predicate AllSound(ss: seq<Section>) {
    forall i | 0 <= i < |ss| :: SoundSection(ss[i])
  }

  lemma SoundScanned(s: Section)
    requires SoundSection(s)
    ensures Cnf.SettingsOf(Cnf.Scan(Cnf.Outside, SectionLines(s))) == Meaning(s)
    ensures Cnf.SectionAt(Cnf.Outside, SectionLines(s), |SectionLines(s)|) == Cnf.Outside
  {
    hide SectionLines, Qualified, EntryMap, Merged, Entries, Cnf.Scan, Cnf.SettingsOf, Cnf.SectionAt;
    SectionScanned(s);
    SectionMap(s);
  }

  lemma NothingScanned()
    ensures Cnf.SettingsOf(Cnf.Scan(Cnf.Outside, [])) == map[] && Cnf.SectionAt(Cnf.Outside, [], 0) == Cnf.Outside
  {
  }

  lemma {:induction false} SectionsScanned(ss: seq<Section>)
    requires AllSound(ss)
    ensures Cnf.SettingsOf(Cnf.Scan(Cnf.Outside, AllSectionLines(ss))) == MeaningOfAll(ss)
    ensures Cnf.SectionAt(Cnf.Outside, AllSectionLines(ss), |AllSectionLines(ss)|) == Cnf.Outside
    decreases |ss|
  {
    hide SectionLines, Meaning, Cnf.Scan, Cnf.SettingsOf, Cnf.SectionAt, SoundSection;
    NothingScanned();
    if ss != [] {
      var n := |ss| - 1;
      SectionsScanned(ss[..n]);
      SoundScanned(ss[n]);
      var before, last := AllSectionLines(ss[..n]), SectionLines(ss[n]);
      ScanConcat(Cnf.Outside, before, last);
      VarsConcat(Cnf.Scan(Cnf.Outside, before), Cnf.Scan(Cnf.Outside, last));
    }
  }

  ghost predicate OneLine(lines: seq<string>) {
    forall i | 0 <= i < |lines| :: '\n' !in lines[i]
  }

  lemma {:induction false} SectionsOneLine(ss: seq<Section>)
    requires AllSound(ss)
    ensures OneLine(AllSectionLines(ss))
    decreases |ss|
  {
    if ss != [] {
      var n := |ss| - 1;
      SectionsOneLine(ss[..n]);
      SectionOneLine(ss[n]);
    }
  }

  lemma SectionOneLine(s: Section)
    requires SoundSection(s)
    ensures OneLine(SectionLines(s))
  {
    hide Merged, Entries, GoodEntry, EntryLine;
    var es := Entries(s);
    forall i | 0 <= i < |es| ensures '\n' !in EntryLines(es)[i] { EntryScanned(s.prefix, es[i]); }
    assert '\n' !in "_variables=" && '\n' !in s.prefix;
    NotInConcat('\n', s.prefix, "_variables=");
  }

  /** The rendered text parses to exactly what its sections mean, for sound sections between
      lines that hold no section. */
  lemma RoundTripOf(header: seq<string>, ss: seq<Section>, footer: seq<string>)
    requires |header| > 0 && OneLine(header) && OneLine(footer) && Inert(header) && Inert(footer)
    requires AllSound(ss)
    ensures Cnf.Settings(Join(header + AllSectionLines(ss) + footer, '\n')) == MeaningOfAll(ss)
  {
    hide AllSectionLines, MeaningOfAll, Cnf.Scan, Cnf.SettingsOf, Cnf.SectionAt, Join, Split, Inert, Names, Entries,
         Merged, Distinct;
    var body := AllSectionLines(ss);
    var lines := header + body + footer;
    SectionsOneLine(ss);
    SectionsScanned(ss);
    InertScanned(header);
    InertScanned(footer);
    assert OneLine(lines);
    SplitJoin(lines, '\n');
    ScanConcat(Cnf.Outside, header, body);
    ScanConcat(Cnf.Outside, header + body, footer);
    VarsConcat(Cnf.Scan(Cnf.Outside, header), Cnf.Scan(Cnf.Outside, body));
    VarsConcat(Cnf.Scan(Cnf.Outside, header + body), Cnf.Scan(Cnf.Outside, footer));
    assert map[] + MeaningOfAll(ss) == MeaningOfAll(ss) && MeaningOfAll(ss) + map[] == MeaningOfAll(ss);
  }

  /* ---- every cluster has sound sections ---- */

  /** Credentials as the auth Secret validation admits them; names come from Kubernetes. */
  ghost predicate CnfValid(b: Builder, servers: seq<string>) {
    && '\n' !in b.pw.admin && '\n' !in b.pw.radmin && '\n' !in b.pw.monitor
    && '\n' !in b.pw.extraUser && '\n' !in b.pw.extraPassword
    && '\n' !in b.name && OneLine(servers)
  }

  ghost predicate GoodVars(vars: Vars) {
    forall n | n in vars :: GoodEntry(Entry(n, vars[n]))
  }

  ghost predicate GoodEntries(es: seq<Entry>) {
    forall i | 0 <= i < |es| :: GoodEntry(es[i])
  }

  /** The literal lines are reserved names, each once, and no default has one of them. */
  ghost predicate Templated(s: Section) {
    && Distinct(s.literals) && Names(s.literals) !! s.defaults.Keys
    && forall n | n in Names(s.literals) :: s.prefix + "-" + n in RESERVED
  }

  lemma OverlayGood(overlay: Vars, user: Vars, prefix: string)
    requires Strips(overlay, user, prefix) && ValidVars(user, prefix)
    ensures GoodVars(overlay)
  {
    hide RESERVED, TrimPrefix;
    forall n | n in overlay ensures GoodEntry(Entry(n, overlay[n])) {
      var k :| k in user && TrimPrefix(k, prefix) == n && overlay[n] == user[k];
      assert ValidVar(k, user[k], prefix);
    }
  }

  /** Good literals, defaults and accepted variables make a section sound. */
  lemma SectionSound(s: Section, user: Vars)
    requires Strips(s.overlay, user, s.prefix + "-") && ValidVars(user, s.prefix + "-")
    requires Cnf.IsDomain(s.prefix) && GoodEntries(s.literals) && GoodVars(s.defaults)
    ensures SoundSection(s)
  {
    hide EntriesOf, GoodEntry, ValidVars, Strips;
    OverlayGood(s.overlay, user, s.prefix + "-");
    var vars, es := Merged(s), Entries(s);
    forall i | 0 <= i < |es| ensures GoodEntry(es[i]) {
      if i >= |s.literals| {
        var j := i - |s.literals|;
        EntriesOfAt(vars, j);
        assert es[i] == Entry(EntriesOf(vars)[j].name, vars[EntriesOf(vars)[j].name]);
      }
    }
  }

  lemma KeyConcat(a: string, b: string)
    requires Cnf.IsKey(a) && Cnf.IsKey(b)
    ensures Cnf.IsKey(a + b)
  {
  }

  /** The pieces the cluster-sync names are put together from. */
  lemma ClusterPieces()
    ensures Cnf.IsKey("cluster_mysql_query_rules") && Cnf.IsKey("cluster_mysql_servers")
    ensures Cnf.IsKey("cluster_mysql_users") && Cnf.IsKey("cluster_proxysql_servers")
  {
  }

  lemma ClusterKeys()
    ensures Cnf.IsKey("cluster_check_interval_ms") && Cnf.IsKey("cluster_check_status_frequency")
    ensures Cnf.IsKey(SAVE) && Cnf.IsKey(DIFFS)
  {
  }

  lemma ClusterKey(table: string)
    requires table in {"cluster_mysql_query_rules", "cluster_mysql_servers", "cluster_mysql_users",
                       "cluster_proxysql_servers"}
    ensures Cnf.IsKey(table + SAVE) && Cnf.IsKey(table + DIFFS)
  {
    hide Cnf.IsKey;
    ClusterPieces();
    ClusterKeys();
    KeyConcat(table, SAVE);
    KeyConcat(table, DIFFS);
  }

  lemma ClusterDefaultsGood()
    ensures GoodVars(CLUSTER_DEFAULTS) && forall n | n in CLUSTER_DEFAULTS :: |n| > 17
  {
    hide Cnf.IsKey;
    ClusterKeys();
    ClusterKey("cluster_mysql_query_rules");
    ClusterKey("cluster_mysql_servers");
    ClusterKey("cluster_mysql_users");
    ClusterKey("cluster_proxysql_servers");
    assert '\n' !in "200" && '\n' !in "100" && '\n' !in "true" && '\n' !in "3";
  }

  /** Joining good variable sets keeps them good. */
  lemma GoodUnion(a: Vars, b: Vars)
    requires GoodVars(a) && GoodVars(b)
    ensures GoodVars(a + b)
  {
    hide GoodEntry;
  }

  lemma RestGood(port: nat)
    ensures GoodVars(map["restapi_enabled" := "true", "restapi_port" := Itoa(port)])
    ensures GoodVars(map["web_enabled" := "true", "web_port" := Itoa(port)])
  {
    NumberGood(port);
    hide Itoa;
    assert Cnf.IsKey("restapi_enabled") && Cnf.IsKey("restapi_port") && Cnf.IsKey("web_enabled")
           && Cnf.IsKey("web_port");
  }

  lemma NumberGood(n: int)
    ensures '\n' !in Itoa(n)
  {
  }

  const ADMIN_LITERALS: set<string> := {"admin_credentials", "mysql_ifaces", "cluster_username", "cluster_password"}
  const DATA_LITERALS: set<string> := {"interfaces", "monitor_username", "monitor_password"}

  lemma AdminDefaultsGood(b: Builder, sync: bool)
    ensures GoodVars(AdminDefaults(b, sync)) && ADMIN_LITERALS !! AdminDefaults(b, sync).Keys
  {
    hide CLUSTER_DEFAULTS, Itoa, GoodVars;
    ClusterDefaultsGood();
    NoVarsGood();
    var rest: Vars := if b.metricsPort.Some?
    then map["restapi_enabled" := "true", "restapi_port" := Itoa(b.metricsPort.value)] else map[];
    var web: Vars := if b.webPort.Some? then map["web_enabled" := "true", "web_port" := Itoa(b.webPort.value)]
    else map[];
    var cluster: Vars := if sync then CLUSTER_DEFAULTS else map[];
    if b.metricsPort.Some? { RestGood(b.metricsPort.value); }
    if b.webPort.Some? { RestGood(b.webPort.value); }
    GoodUnion(rest, web);
    GoodUnion(rest + web, cluster);
    forall n | n in ADMIN_LITERALS ensures n !in rest && n !in web && n !in cluster { AdminLiteral(n); }
  }

  lemma NoVarsGood()
    ensures GoodVars(map[])
  {
  }

  lemma AdminLiteral(n: string)
    requires n in ADMIN_LITERALS
    ensures |n| <= 17 && n !in {"restapi_enabled", "restapi_port", "web_enabled", "web_port"}
  {
    assert n[0] == 'a' || n[0] == 'm' || n[0] == 'c';
  }

  lemma TlsKeysGood()
    ensures Cnf.IsKey("ssl_p2s_ca") && Cnf.IsKey("ssl_p2s_cert") && Cnf.IsKey("ssl_p2s_key")
  {
  }

  lemma TlsPathsGood()
    ensures '\n' !in "/etc/proxysql/backend-tls/ca.crt" && '\n' !in "/etc/proxysql/backend-tls/tls.crt"
            && '\n' !in "/etc/proxysql/backend-tls/tls.key"
  {
  }

  lemma BackendTlsGood(b: Builder)
    ensures GoodVars(BackendTls(b)) && forall n | n in BackendTls(b) :: |n| > 0 && n[0] == 's'
  {
    hide Cnf.IsKey;
    TlsKeysGood();
    TlsPathsGood();
  }

  lemma QueryLogKeys()
    ensures Cnf.IsKey("eventslog_filename") && Cnf.IsKey("eventslog_default_log")
    ensures Cnf.IsKey("eventslog_format") && Cnf.IsKey("eventslog_filesize")
  {
  }

  lemma QueryLogGood()
    ensures GoodVars(QUERY_LOG) && forall n | n in QUERY_LOG :: |n| > 0 && n[0] == 'e'
  {
    hide Cnf.IsKey;
    QueryLogKeys();
    assert '\n' !in "/var/log/proxysql/queries" && '\n' !in "1" && '\n' !in "2" && '\n' !in "52428800";
  }

  lemma ThreadsGood()
    ensures GoodVars(map["threads" := "4"])
  {
    assert Cnf.IsKey("threads");
  }

  lemma DataLiteral(n: string)
    requires n in DATA_LITERALS
    ensures |n| > 7 && n[0] != 's' && n[0] != 'e'
  {
  }

  lemma DataDefaultsGood(b: Builder)
    ensures GoodVars(MySQLDefaults(b)) && DATA_LITERALS !! MySQLDefaults(b).Keys
    ensures GoodVars(PgSQLDefaults(b)) && DATA_LITERALS !! PgSQLDefaults(b).Keys
  {
    hide BackendTls, QUERY_LOG, GoodVars;
    BackendTlsGood(b);
    QueryLogGood();
    ThreadsGood();
    NoVarsGood();
    var threads: Vars := map["threads" := "4"];
    var log: Vars := if b.queryLog then QUERY_LOG else map[];
    GoodUnion(threads, log);
    GoodUnion(threads + log, BackendTls(b));
    GoodUnion(threads, BackendTls(b));
    forall n | n in DATA_LITERALS ensures n !in threads && n !in log && n !in BackendTls(b) { DataLiteral(n); }
  }

  lemma AdminReserved()
    ensures "admin" + "-" + "admin_credentials" in RESERVED && "admin" + "-" + "mysql_ifaces" in RESERVED
    ensures "admin" + "-" + "cluster_username" in RESERVED && "admin" + "-" + "cluster_password" in RESERVED
  {
    assert "admin" + "-" + "admin_credentials" == "admin-admin_credentials";
    assert "admin" + "-" + "mysql_ifaces" == "admin-mysql_ifaces";
    assert "admin" + "-" + "cluster_username" == "admin-cluster_username";
    assert "admin" + "-" + "cluster_password" == "admin-cluster_password";
  }

  lemma DataReserved(p: string)
    requires p == "mysql" || p == "pgsql"
    ensures p + "-" + "interfaces" in RESERVED && p + "-" + "monitor_username" in RESERVED
            && p + "-" + "monitor_password" in RESERVED
  {
    if p == "mysql" {
      MySQLReserved();
    } else {
      PgSQLReserved();
    }
  }

  lemma MySQLReserved()
    ensures "mysql" + "-" + "interfaces" in RESERVED && "mysql" + "-" + "monitor_username" in RESERVED
            && "mysql" + "-" + "monitor_password" in RESERVED
  {
    assert "mysql" + "-" + "interfaces" == "mysql-interfaces";
    assert "mysql" + "-" + "monitor_username" == "mysql-monitor_username";
    assert "mysql" + "-" + "monitor_password" == "mysql-monitor_password";
  }

  lemma PgSQLReserved()
    ensures "pgsql" + "-" + "interfaces" in RESERVED && "pgsql" + "-" + "monitor_username" in RESERVED
            && "pgsql" + "-" + "monitor_password" in RESERVED
  {
    assert "pgsql" + "-" + "interfaces" == "pgsql-interfaces";
    assert "pgsql" + "-" + "monitor_username" == "pgsql-monitor_username";
    assert "pgsql" + "-" + "monitor_password" == "pgsql-monitor_password";
  }

  lemma LiteralNames()
    ensures forall n | n in ADMIN_LITERALS :: Cnf.IsKey(n)
    ensures forall n | n in DATA_LITERALS :: Cnf.IsKey(n)
  {
    assert Cnf.IsKey("admin_credentials") && Cnf.IsKey("mysql_ifaces");
    assert Cnf.IsKey("cluster_username") && Cnf.IsKey("cluster_password");
    assert Cnf.IsKey("interfaces") && Cnf.IsKey("monitor_username") && Cnf.IsKey("monitor_password");
  }

  lemma AddressGood(port: nat)
    ensures '\n' !in "0.0.0.0:" + Itoa(port)
  {
    NumberGood(port);
    hide Itoa;
    NotInConcat('\n', "0.0.0.0:", Itoa(port));
  }

  lemma CredentialsGood(pw: Passwords)
    requires '\n' !in pw.admin && '\n' !in pw.radmin && '\n' !in pw.extraUser && '\n' !in pw.extraPassword
    ensures '\n' !in Credentials(pw)
  {
    var extra := if pw.extraUser != "" then ";" + pw.extraUser + ":" + pw.extraPassword else "";
    NotInConcat('\n', "admin:", pw.admin);
    NotInConcat('\n', "admin:" + pw.admin, ";radmin:");
    NotInConcat('\n', "admin:" + pw.admin + ";radmin:", pw.radmin);
    NotInConcat('\n', "admin:" + pw.admin + ";radmin:" + pw.radmin, extra);
    NotInConcat('\n', ";", pw.extraUser);
    NotInConcat('\n', ";" + pw.extraUser, ":");
    NotInConcat('\n', ";" + pw.extraUser + ":", pw.extraPassword);
  }

  lemma AdminSound(b: Builder, servers: seq<string>, overlay: Vars)
    requires Strips(overlay, b.adminVars, "admin-") && Accepted(b) && CnfValid(b, servers)
    ensures SoundSection(AdminSection(b, servers != [], overlay)) && Templated(AdminSection(b, servers != [], overlay))
  {
    hide RESERVED, AdminDefaults, Itoa, Credentials, Cnf.IsKey, ValidVars, UsernameChar, OneLine, Strips, SoundSection;
    var s := AdminSection(b, servers != [], overlay);
    assert "admin" + "-" == "admin-";
    AdminDefaultsGood(b, servers != []);
    CredentialsGood(b.pw);
    AddressGood(b.adminPort);
    AdminReserved();
    LiteralNames();
    assert '\n' !in "radmin";
    AdminDistinct(s.literals);
    SectionSound(s, b.adminVars);
  }

  lemma AdminDistinct(es: seq<Entry>)
    requires |es| == 2 || |es| == 4
    requires es[0].name == "admin_credentials" && es[1].name == "mysql_ifaces"
    requires |es| == 4 ==> es[2].name == "cluster_username" && es[3].name == "cluster_password"
    ensures Distinct(es)
  {
    assert "cluster_username"[8] != "cluster_password"[8];
  }

  lemma DataSound(p: string, port: nat, pw: Passwords, defaults: Vars, overlay: Vars, user: Vars)
    requires p == "mysql" || p == "pgsql"
    requires Strips(overlay, user, p + "-") && ValidVars(user, p + "-") && GoodVars(defaults)
             && DATA_LITERALS !! defaults.Keys
    requires '\n' !in pw.monitor && '\n' !in pw.monitorUsername
    ensures SoundSection(DataSection(p, port, pw, defaults, overlay))
            && Templated(DataSection(p, port, pw, defaults, overlay))
  {
    hide RESERVED, Itoa, Cnf.IsKey, ValidVars, Strips, SoundSection;
    AddressGood(port);
    DataReserved(p);
    LiteralNames();
    var s := DataSection(p, port, pw, defaults, overlay);
    assert "monitor_username"[8] != "monitor_password"[8];
    SectionSound(s, user);
  }

  lemma MonitorNameGood(b: Builder)
    requires Accepted(b)
    ensures '\n' !in b.pw.monitorUsername
  {
    hide ValidVars;
  }

  /** The user's variables a section takes. */
  function UserOf(b: Builder, prefix: string): (user: Vars) {
    if prefix == "admin" then b.adminVars else if prefix == "mysql" then b.mysqlVars else b.pgsqlVars
  }

  /** A section as the template writes it for these variables. */
  ghost predicate Proper(b: Builder, s: Section) {
    SoundSection(s) && Templated(s) && Strips(s.overlay, UserOf(b, s.prefix), s.prefix + "-")
    && ValidVars(UserOf(b, s.prefix), s.prefix + "-")
  }

  ghost predicate AllProper(b: Builder, ss: seq<Section>) {
    forall i | 0 <= i < |ss| :: Proper(b, ss[i])
  }

  lemma AllSectionsProper(b: Builder, servers: seq<string>, o: Overlays)
    requires OverlaysOf(o, b) && Accepted(b) && CnfValid(b, servers)
    ensures AllProper(b, Sections(b, servers != [], o))
  {
    hide RESERVED, SoundSection, Templated, DataLiterals, MySQLDefaults, PgSQLDefaults, ValidVars, UsernameChar,
         OneLine, Strips,
         AdminDefaults, Credentials;
    assert "admin" + "-" == "admin-" && "mysql" + "-" == "mysql-" && "pgsql" + "-" == "pgsql-";
    MonitorNameGood(b);
    AdminSound(b, servers, o.admin);
    DataDefaultsGood(b);
    if b.mysqlPort.Some? { DataSound("mysql", b.mysqlPort.value, b.pw, MySQLDefaults(b), o.mysql, b.mysqlVars); }
    if b.pgsqlPort.Some? { DataSound("pgsql", b.pgsqlPort.value, b.pw, PgSQLDefaults(b), o.pgsql, b.pgsqlVars); }
  }

  lemma HeaderInert(b: Builder)
    requires '\n' !in b.name
    ensures OneLine(Header(b)) && Inert(Header(b))
  {
    TitleText(b.name);
    NoteText();
    DataDirText();
    PluginText();
    WebPluginText();
    hide TITLE, NOTE, DATADIR, PLUGINS, WEB_PLUGIN, AWS_MANAGED, Cnf.SectionStart;
  }

  lemma TitleText(name: string)
    requires '\n' !in name
    ensures '\n' !in TITLE + name + "." && Cnf.SectionStart(TITLE + name + ".") == None
  {
    hide Cnf.SectionStart;
    NotInConcat('\n', "# Operator-managed bootstrap ", "config for ProxySQLCluster ");
    NotInConcat('\n', TITLE, name);
    NotInConcat('\n', TITLE + name, ".");
    NotSection(TITLE + name + ".");
  }

  lemma NoteText()
    ensures '\n' !in NOTE && Cnf.SectionStart(NOTE) == None
  {
    hide Cnf.SectionStart;
    NotInConcat('\n', "and runtime tuning are pushed ", "via ProxySQLConfig.");
    NotInConcat('\n', "# Backends, users, query rules, ", "and runtime tuning are pushed " + "via ProxySQLConfig.");
    NotSection(NOTE);
  }

  lemma DataDirText()
    ensures '\n' !in DATADIR && Cnf.SectionStart(DATADIR) == None
  {
    hide Cnf.SectionStart;
    NotSection(DATADIR);
  }

  lemma PluginText()
    ensures '\n' !in PLUGINS && Cnf.SectionStart(PLUGINS) == None
    ensures '\n' !in AWS_MANAGED && Cnf.SectionStart(AWS_MANAGED) == None
  {
    hide Cnf.SectionStart;
    NotInConcat('\n', "plugins=(\"/usr/lib/proxysql/", "ProxySQL_Aws_Plugin.so\");");
    NotSection(PLUGINS);
    NotSection(AWS_MANAGED);
  }

  lemma WebPluginText()
    ensures '\n' !in WEB_PLUGIN && Cnf.SectionStart(WEB_PLUGIN) == None
  {
    hide Cnf.SectionStart;
    NotInConcat('\n', "/usr/lib/proxysql/", "Web_Interface_plugin.so\";");
    NotInConcat('\n', "web_interface_plugin=\"", "/usr/lib/proxysql/" + "Web_Interface_plugin.so\";");
    NotSection(WEB_PLUGIN);
  }

  /** Section lines start with one of a, m and p and end in "_variables=". */
  lemma NotSection(line: string)
    requires |line| != 16 || (line[0] != 'a' && line[0] != 'm' && line[0] != 'p')
    ensures Cnf.SectionStart(line) == None
  {
  }

  lemma FooterInert(b: Builder, servers: seq<string>)
    requires OneLine(servers)
    ensures OneLine(ServerLines(b, servers) + [""]) && Inert(ServerLines(b, servers) + [""])
  {
    hide ServerLine;
    forall i | 0 <= i < |servers|
      ensures var l := ServerLine(b, servers[i], i == |servers| - 1); '\n' !in l && Cnf.SectionStart(l) == None {
      ServerInert(b, servers[i], i == |servers| - 1);
    }
    NotSection("(");
    NotSection(")");
    NotSection("");
    assert "proxysql_servers=" != "pgsql_variables=" && '\n' !in "proxysql_servers=";
  }

  lemma ServerInert(b: Builder, server: string, last: bool)
    requires '\n' !in server
    ensures '\n' !in ServerLine(b, server, last) && Cnf.SectionStart(ServerLine(b, server, last)) == None
  {
    hide Cnf.SectionStart, Itoa;
    var open, mid, close := "  { hostname=\"", "\", port=", ", weight=0, comment=\"\" }";
    assert '\n' !in open && '\n' !in mid && '\n' !in close;
    NumberGood(b.adminPort);
    NotInConcat('\n', open, server);
    NotInConcat('\n', open + server, mid);
    NotInConcat('\n', open + server + mid, Itoa(b.adminPort));
    NotInConcat('\n', open + server + mid + Itoa(b.adminPort), close);
    var body := open + server + mid + Itoa(b.adminPort) + close;
    NotInConcat('\n', body, if last then "" else ",");
    assert ServerLine(b, server, last)[0] == ' ';
    NotSection(ServerLine(b, server, last));
  }

  /** The round trip: whatever the operator accepts, scanning the rendered text gives the defaults and
      the operator-owned lines overlaid by the user's values, and parsing it the same without the
      restart-only lines. */
  lemma RoundTrip(b: Builder, servers: seq<string>, o: Overlays)
    requires OverlaysOf(o, b) && Accepted(b) && CnfValid(b, servers)
    ensures Cnf.Settings(Rendered(b, servers, o)) == MeaningOfAll(Sections(b, servers != [], o))
    ensures Cnf.Parse(Rendered(b, servers, o)) == Cnf.Settings(Rendered(b, servers, o)) - Cnf.STRUCTURAL
  {
    hide Sections, Header, ServerLines, AllSectionLines, MeaningOfAll, Join, Accepted, OverlaysOf, SoundSection,
         Templated;
    AllSectionsProper(b, servers, o);
    HeaderInert(b);
    FooterInert(b, servers);
    assert |Header(b)| > 0 by { HeaderNotEmpty(b); }
    RoundTripOf(Header(b), Sections(b, servers != [], o), ServerLines(b, servers) + [""]);
    Cnf.RuntimeSettings(Cnf.ScanCnf(Rendered(b, servers, o)));
  }

  /** And each section holds each key once if and only if no variable is a literal line's bare name,
      which the admission rule guarantees. */
  lemma KeysOnce(b: Builder, servers: seq<string>, o: Overlays, s: Section)
    requires OverlaysOf(o, b) && Accepted(b) && CnfValid(b, servers) && s in Sections(b, servers != [], o)
    ensures !Distinct(Entries(s)) <==>
            exists n :: n in Names(s.literals) && n in UserOf(b, s.prefix) && !(s.prefix + "-" <= n)
    ensures AllPrefixed(b) ==> Distinct(Entries(s))
  {
    hide Sections, Accepted, OverlaysOf, SoundSection, Names, Distinct, Entries, RESERVED, Strips, ValidVars, CnfValid;
    AllSectionsProper(b, servers, o);
    var ss := Sections(b, servers != [], o);
    var i :| 0 <= i < |ss| && ss[i] == s;
    assert Proper(b, ss[i]);
    RepeatsExactly(s, UserOf(b, s.prefix));
    if AllPrefixed(b) {
      PrefixedNames(b, servers, o, s);
    }
  }

  lemma PrefixedNames(b: Builder, servers: seq<string>, o: Overlays, s: Section)
    requires AllPrefixed(b) && s in Sections(b, servers != [], o)
    ensures Prefixed(UserOf(b, s.prefix), s.prefix + "-")
  {
    hide Prefixed, DataLiterals, MySQLDefaults, PgSQLDefaults, AdminDefaults, Credentials;
    assert "admin" + "-" == "admin-" && "mysql" + "-" == "mysql-" && "pgsql" + "-" == "pgsql-";
  }

  lemma HeaderNotEmpty(b: Builder)
    ensures |Header(b)| > 0
  {
  }
}
