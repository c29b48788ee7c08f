/** What stands in the rendered proxysql.cnf, setting by setting, told from the cluster's own fields. */
module BootstrapContents {
  import opened Text
  import opened Render
  import opened Bootstrap
  import Cnf

  function Get(vars: Vars, k: string): (v: Option<string>) {
    if k in vars then Some(vars[k]) else None
  }

  function When(on: bool, v: string): (r: Option<string>) {
    if on then Some(v) else None
  }

  /** The cluster tuning that peers bring along. */
  function TuningSetting(n: string): (v: Option<string>) {
    if n == "cluster_check_interval_ms" then Some("200")
    else if n == "cluster_check_status_frequency" then Some("100")
    else if n == "cluster_mysql_query_rules_save_to_disk" || n == "cluster_mysql_servers_save_to_disk"
            || n == "cluster_mysql_users_save_to_disk" || n == "cluster_proxysql_servers_save_to_disk"
    then Some("true")
    else if n == "cluster_mysql_query_rules_diffs_before_sync" || n == "cluster_mysql_servers_diffs_before_sync"
            || n == "cluster_mysql_users_diffs_before_sync" || n == "cluster_proxysql_servers_diffs_before_sync"
    then Some("3")
    else None
  }

  /** The admin setting of a bare name: lines the operator owns, else the user's value, else a default. */
  function AdminSetting(b: Builder, peers: bool, n: string): (v: Option<string>) {
    if n == "admin_credentials" then
      Some("admin:" + b.pw.admin + ";radmin:" + b.pw.radmin +
           if b.pw.extraUser == "" then "" else ";" + b.pw.extraUser + ":" + b.pw.extraPassword)
    else if n == "mysql_ifaces" then Some("0.0.0.0:" + Itoa(b.adminPort))
    else if n == "cluster_username" then When(peers, "radmin")
    else if n == "cluster_password" then When(peers, b.pw.radmin)
    else if n == "restapi_enabled" then When(b.metricsPort.Some?, "true")
    else if n == "restapi_port" then if b.metricsPort.Some? then Some(Itoa(b.metricsPort.value)) else None
    else if n == "web_enabled" then When(b.webPort.Some?, "true")
    else if n == "web_port" then if b.webPort.Some? then Some(Itoa(b.webPort.value)) else None
    else if "admin-" + n in b.adminVars then Some(b.adminVars["admin-" + n])
    else if peers then TuningSetting(n) else None
  }

  /** The settings that the MySQL and the PostgreSQL section share. */
  function ListenerSetting(b: Builder, port: nat, n: string): (v: Option<string>) {
    if n == "interfaces" then Some("0.0.0.0:" + Itoa(port))
    else if n == "monitor_username" then Some(b.pw.monitorUsername)
    else if n == "monitor_password" then Some(b.pw.monitor)
    else if n == "ssl_p2s_ca" then When(b.backendCa, "/etc/proxysql/backend-tls/ca.crt")
    else if n == "ssl_p2s_cert" then When(b.backendCa && b.backendClientCert, "/etc/proxysql/backend-tls/tls.crt")
    else if n == "ssl_p2s_key" then When(b.backendCa && b.backendClientCert, "/etc/proxysql/backend-tls/tls.key")
    else None
  }

  predicate OwnedByOperator(n: string) {
    n == "interfaces" || n == "monitor_username" || n == "monitor_password" || n == "ssl_p2s_ca"
    || n == "ssl_p2s_cert" || n == "ssl_p2s_key"
  }

  function QueryLogSetting(n: string): (v: Option<string>) {
    if n == "eventslog_filename" then Some("/var/log/proxysql/queries")
    else if n == "eventslog_default_log" then Some("1")
    else if n == "eventslog_format" then Some("2")
    else if n == "eventslog_filesize" then Some("52428800")
    else None
  }

  function MySQLSetting(b: Builder, n: string): (v: Option<string>) {
    if b.mysqlPort.None? then None
    else if OwnedByOperator(n) then ListenerSetting(b, b.mysqlPort.value, n)
    else if "mysql-" + n in b.mysqlVars then Some(b.mysqlVars["mysql-" + n])
    else if n == "threads" then Some("4")
    else if b.queryLog then QueryLogSetting(n) else None
  }

  function PgSQLSetting(b: Builder, n: string): (v: Option<string>) {
    if b.pgsqlPort.None? then None
    else if OwnedByOperator(n) then ListenerSetting(b, b.pgsqlPort.value, n)
    else if "pgsql-" + n in b.pgsqlVars then Some(b.pgsqlVars["pgsql-" + n])
    else When(n == "threads", "4")
  }

  /* ---- one section ---- */

  /** A literal line, else the user's value, else a default. */
  lemma MeaningAt(s: Section, user: Vars, n: string)
    requires Strips(s.overlay, user, s.prefix + "-") && Prefixed(user, s.prefix + "-") && Distinct(s.literals)
    ensures Get(Meaning(s), s.prefix + "-" + n) ==
            if s.prefix + "-" + n in user then Some(user[s.prefix + "-" + n])
            else if n in s.defaults then Some(s.defaults[n])
            else Get(EntryMap(s.literals), n)
  {
    hide Strips, EntryMap, Qualified, Distinct;
    StripsExact(s.overlay, user, s.prefix + "-", n);
    QualifiedExact(s.prefix, EntryMap(s.literals) + Merged(s), n);
    assert n in user && !(s.prefix + "-" <= n) ==> n in user && s.prefix + "-" <= n;
  }

  lemma OwnedNotGiven(user: Vars, prefix: string, n: string)
    requires ValidVars(user, prefix) && prefix + n in RESERVED
    ensures prefix + n !in user
  {
    hide RESERVED;
    assert prefix + n in user ==> ValidVar(prefix + n, user[prefix + n], prefix);
  }

  /* ---- the admin section ---- */

  lemma QueryRulesNames()
    ensures "cluster_mysql_query_rules" + SAVE == "cluster_mysql_query_rules_save_to_disk"
    ensures "cluster_mysql_query_rules" + DIFFS == "cluster_mysql_query_rules_diffs_before_sync"
  {
  }

  lemma ServersNames()
    ensures "cluster_mysql_servers" + SAVE == "cluster_mysql_servers_save_to_disk"
    ensures "cluster_mysql_servers" + DIFFS == "cluster_mysql_servers_diffs_before_sync"
  {
  }

  lemma UsersNames()
    ensures "cluster_mysql_users" + SAVE == "cluster_mysql_users_save_to_disk"
    ensures "cluster_mysql_users" + DIFFS == "cluster_mysql_users_diffs_before_sync"
  {
  }

  lemma PeersNames()
    ensures "cluster_proxysql_servers" + SAVE == "cluster_proxysql_servers_save_to_disk"
    ensures "cluster_proxysql_servers" + DIFFS == "cluster_proxysql_servers_diffs_before_sync"
  {
  }

  lemma AdminLiteralsAt(b: Builder, peers: bool, overlay: Vars, n: string)
    ensures Distinct(AdminSection(b, peers, overlay).literals)
    ensures Get(EntryMap(AdminSection(b, peers, overlay).literals), n) ==
            if n in {"admin_credentials", "mysql_ifaces", "cluster_username", "cluster_password"}
            then AdminSetting(b, peers, n) else None
  {
    hide Itoa, AdminDefaults;
    var es := AdminSection(b, peers, overlay).literals;
    AdminDistinct(es);
    EntryMapKeys(es);
    EntryMapAt(es, 0);
    EntryMapAt(es, 1);
    if peers {
      EntryMapAt(es, 2);
      EntryMapAt(es, 3);
    }
  }

  lemma ClusterDefaultsAt(n: string)
    ensures Get(CLUSTER_DEFAULTS, n) == TuningSetting(n)
  {
    QueryRulesNames();
    ServersNames();
    UsersNames();
    PeersNames();
    hide SAVE, DIFFS;
  }

  lemma AdminDefaultsAt(b: Builder, peers: bool, n: string)
    ensures Get(AdminDefaults(b, peers), n) ==
            if n in {"restapi_enabled", "restapi_port", "web_enabled", "web_port"} then AdminSetting(b, peers, n)
            else if peers then TuningSetting(n) else None
  {
    hide Itoa, CLUSTER_DEFAULTS, TuningSetting;
    ClusterDefaultsAt(n);
    var rest: Vars := if b.metricsPort.Some?
    then map["restapi_enabled" := "true", "restapi_port" := Itoa(b.metricsPort.value)] else map[];
    var web: Vars := if b.webPort.Some? then map["web_enabled" := "true", "web_port" := Itoa(b.webPort.value)]
    else map[];
    RestAt(b, peers, n, rest);
    WebAt(b, peers, n, web);
    if n in {"restapi_enabled", "restapi_port", "web_enabled", "web_port"} { OwnedNotTuning(n); }
  }

  lemma RestAt(b: Builder, peers: bool, n: string, rest: Vars)
    requires rest == if b.metricsPort.Some?
                     then map["restapi_enabled" := "true", "restapi_port" := Itoa(b.metricsPort.value)] else map[]
    ensures Get(rest, n) == if n in {"restapi_enabled", "restapi_port"} then AdminSetting(b, peers, n) else None
  {
    hide Itoa, TuningSetting;
  }

  lemma WebAt(b: Builder, peers: bool, n: string, web: Vars)
    requires web == if b.webPort.Some? then map["web_enabled" := "true", "web_port" := Itoa(b.webPort.value)] else map[]
    ensures Get(web, n) == if n in {"web_enabled", "web_port"} then AdminSetting(b, peers, n) else None
  {
    hide Itoa, TuningSetting;
  }

  lemma AdminOwned(b: Builder, n: string)
    requires Accepted(b)
    requires n in {"admin_credentials", "mysql_ifaces", "cluster_username", "cluster_password", "restapi_enabled",
                   "restapi_port", "web_enabled", "web_port"}
    ensures "admin-" + n !in b.adminVars
  {
    hide ValidVars, RESERVED;
    AdminOwnedReserved(n);
    OwnedNotGiven(b.adminVars, "admin-", n);
  }

  lemma AdminOwnedReserved(n: string)
    requires n in {"admin_credentials", "mysql_ifaces", "cluster_username", "cluster_password", "restapi_enabled",
                   "restapi_port", "web_enabled", "web_port"}
    ensures "admin-" + n in RESERVED
  {
    CredentialNames();
    ToggleNames();
  }

  lemma CredentialNames()
    ensures "admin-" + "admin_credentials" == "admin-admin_credentials"
    ensures "admin-" + "mysql_ifaces" == "admin-mysql_ifaces"
    ensures "admin-" + "cluster_username" == "admin-cluster_username"
    ensures "admin-" + "cluster_password" == "admin-cluster_password"
  {
  }

  lemma ToggleNames()
    ensures "admin-" + "restapi_enabled" == "admin-restapi_enabled"
    ensures "admin-" + "restapi_port" == "admin-restapi_port"
    ensures "admin-" + "web_enabled" == "admin-web_enabled"
    ensures "admin-" + "web_port" == "admin-web_port"
  {
  }

  lemma AdminMeans(b: Builder, peers: bool, overlay: Vars, n: string)
    requires Strips(overlay, b.adminVars, "admin-") && Accepted(b) && AllPrefixed(b)
    ensures Get(Meaning(AdminSection(b, peers, overlay)), "admin-" + n) == AdminSetting(b, peers, n)
  {
    hide Strips, Meaning, Itoa, CLUSTER_DEFAULTS, AdminDefaults, Distinct, EntryMap, Prefixed, TuningSetting, Accepted;
    assert "admin" + "-" == "admin-";
    AdminLiteralsAt(b, peers, overlay, n);
    AdminDefaultsAt(b, peers, n);
    MeaningAt(AdminSection(b, peers, overlay), b.adminVars, n);
    if n in {"admin_credentials", "mysql_ifaces", "cluster_username", "cluster_password", "restapi_enabled",
             "restapi_port", "web_enabled", "web_port"} {
      AdminOwned(b, n);
      OwnedNotTuning(n);
    }
  }

  lemma OwnedNotTuning(n: string)
    requires n in {"admin_credentials", "mysql_ifaces", "cluster_username", "cluster_password", "restapi_enabled",
                   "restapi_port", "web_enabled", "web_port"}
    ensures TuningSetting(n) == None
  {
    hide TuningSetting;
    assert |n| <= 17;
    ShortNotTuning(n);
  }

  lemma ShortNotTuning(n: string)
    requires |n| <= 17
    ensures TuningSetting(n) == None
  {
  }

  /* ---- the data sections ---- */

  lemma DataLiteralsAt(b: Builder, port: nat, n: string)
    ensures Distinct(DataLiterals(port, b.pw))
    ensures Get(EntryMap(DataLiterals(port, b.pw)), n) ==
            if n in {"interfaces", "monitor_username", "monitor_password"} then ListenerSetting(b, port, n) else None
  {
    hide Itoa;
    var es := DataLiterals(port, b.pw);
    assert "monitor_username"[8] != "monitor_password"[8];
    EntryMapKeys(es);
    EntryMapAt(es, 0);
    EntryMapAt(es, 1);
    EntryMapAt(es, 2);
  }

  lemma BackendTlsAt(b: Builder, port: nat, n: string)
    ensures Get(BackendTls(b), n) ==
            if n in {"ssl_p2s_ca", "ssl_p2s_cert", "ssl_p2s_key"} then ListenerSetting(b, port, n) else None
  {
  }

  lemma QueryLogAt(n: string)
    ensures Get(QUERY_LOG, n) == QueryLogSetting(n)
  {
  }

  lemma MySQLDefaultsAt(b: Builder, port: nat, n: string)
    ensures Get(MySQLDefaults(b), n) ==
            if n in {"ssl_p2s_ca", "ssl_p2s_cert", "ssl_p2s_key"} then ListenerSetting(b, port, n)
            else if n == "threads" then Some("4")
            else if b.queryLog then QueryLogSetting(n) else None
  {
    hide QUERY_LOG, BackendTls, ListenerSetting, QueryLogSetting;
    QueryLogAt(n);
    BackendTlsAt(b, port, n);
    if n in {"ssl_p2s_ca", "ssl_p2s_cert", "ssl_p2s_key"} || n == "threads" { NotLogged(n); }
  }

  lemma NotLogged(n: string)
    requires n in {"ssl_p2s_ca", "ssl_p2s_cert", "ssl_p2s_key"} || n == "threads" || OwnedByOperator(n)
    ensures QueryLogSetting(n) == None
  {
  }

  lemma PgSQLDefaultsAt(b: Builder, port: nat, n: string)
    ensures Get(PgSQLDefaults(b), n) ==
            if n in {"ssl_p2s_ca", "ssl_p2s_cert", "ssl_p2s_key"} then ListenerSetting(b, port, n)
            else When(n == "threads", "4")
  {
    hide BackendTls, ListenerSetting;
    BackendTlsAt(b, port, n);
  }

  lemma MySQLOwned(n: string)
    requires OwnedByOperator(n)
    ensures "mysql-" + n in RESERVED
  {
    assert "mysql-" + "interfaces" == "mysql-interfaces";
    assert "mysql-" + "monitor_username" == "mysql-monitor_username";
    assert "mysql-" + "monitor_password" == "mysql-monitor_password";
    assert "mysql-" + "ssl_p2s_ca" == "mysql-ssl_p2s_ca";
    assert "mysql-" + "ssl_p2s_cert" == "mysql-ssl_p2s_cert";
    assert "mysql-" + "ssl_p2s_key" == "mysql-ssl_p2s_key";
  }

  lemma PgSQLOwned(n: string)
    requires OwnedByOperator(n)
    ensures "pgsql-" + n in RESERVED
  {
    assert "pgsql-" + "interfaces" == "pgsql-interfaces";
    assert "pgsql-" + "monitor_username" == "pgsql-monitor_username";
    assert "pgsql-" + "monitor_password" == "pgsql-monitor_password";
    assert "pgsql-" + "ssl_p2s_ca" == "pgsql-ssl_p2s_ca";
    assert "pgsql-" + "ssl_p2s_cert" == "pgsql-ssl_p2s_cert";
    assert "pgsql-" + "ssl_p2s_key" == "pgsql-ssl_p2s_key";
  }

  lemma MySQLMeans(b: Builder, overlay: Vars, n: string)
    requires Strips(overlay, b.mysqlVars, "mysql-") && Accepted(b) && AllPrefixed(b) && b.mysqlPort.Some?
    ensures Get(Meaning(DataSection("mysql", b.mysqlPort.value, b.pw, MySQLDefaults(b), overlay)), "mysql-" + n) ==
            MySQLSetting(b, n)
  {
    hide Strips, Meaning, MySQLDefaults, Distinct, EntryMap, Prefixed, QueryLogSetting, DataLiterals, ValidVars,
         RESERVED, UsernameChar, ListenerSetting;
    assert "mysql" + "-" == "mysql-";
    var port := b.mysqlPort.value;
    DataLiteralsAt(b, port, n);
    MySQLDefaultsAt(b, port, n);
    MeaningAt(DataSection("mysql", port, b.pw, MySQLDefaults(b), overlay), b.mysqlVars, n);
    if OwnedByOperator(n) {
      NotLogged(n);
      MySQLOwned(n);
      OwnedNotGiven(b.mysqlVars, "mysql-", n);
    }
  }

  lemma PgSQLMeans(b: Builder, overlay: Vars, n: string)
    requires Strips(overlay, b.pgsqlVars, "pgsql-") && Accepted(b) && AllPrefixed(b) && b.pgsqlPort.Some?
    ensures Get(Meaning(DataSection("pgsql", b.pgsqlPort.value, b.pw, PgSQLDefaults(b), overlay)), "pgsql-" + n) ==
            PgSQLSetting(b, n)
  {
    hide Strips, Meaning, PgSQLDefaults, Distinct, EntryMap, Prefixed, DataLiterals, ValidVars, RESERVED, UsernameChar,
         ListenerSetting;
    assert "pgsql" + "-" == "pgsql-";
    var port := b.pgsqlPort.value;
    DataLiteralsAt(b, port, n);
    PgSQLDefaultsAt(b, port, n);
    MeaningAt(DataSection("pgsql", port, b.pw, PgSQLDefaults(b), overlay), b.pgsqlVars, n);
    if OwnedByOperator(n) {
      PgSQLOwned(n);
      OwnedNotGiven(b.pgsqlVars, "pgsql-", n);
    }
  }

  /* ---- the whole file ---- */

  /** A section speaks of names under its own prefix only. */
  lemma MeaningNames(s: Section, k: string)
    requires k in Meaning(s)
    ensures exists n :: k == s.prefix + "-" + n
  {
    var n := QualifiedNames(s.prefix, EntryMap(s.literals) + Merged(s), k);
  }

  ghost predicate Under(vars: Vars, prefix: string) {
    forall k | k in vars :: exists n :: k == prefix + n
  }

  lemma Elsewhere(vars: Vars, prefix: string, n: string, other: string)
    requires Under(vars, prefix) && |prefix| == 6 == |other| && prefix[0] != other[0]
    ensures Get(vars, other + n) == None
  {
    assert (other + n)[0] == other[0];
  }

  /** The three sections as one map. */
  lemma Joined(b: Builder, peers: bool, o: Overlays, admin: Vars, mysql: Vars, pgsql: Vars)
    requires admin == Meaning(AdminSection(b, peers, o.admin))
    requires mysql == if b.mysqlPort.Some?
                      then Meaning(DataSection("mysql", b.mysqlPort.value, b.pw, MySQLDefaults(b), o.mysql)) else map[]
    requires pgsql == if b.pgsqlPort.Some?
                      then Meaning(DataSection("pgsql", b.pgsqlPort.value, b.pw, PgSQLDefaults(b), o.pgsql)) else map[]
    ensures MeaningOfAll(Sections(b, peers, o)) == admin + mysql + pgsql
    ensures Under(admin, "admin-") && Under(mysql, "mysql-") && Under(pgsql, "pgsql-")
  {
    hide Meaning, MySQLDefaults, PgSQLDefaults, AdminDefaults, DataLiterals, Credentials;
    var ss := Sections(b, peers, o);
    assert MeaningOfAll([]) == map[];
    assert ss[..1][..0] == [] && MeaningOfAll(ss[..1]) == map[] + admin == admin;
    if |ss| == 1 {
      assert ss[..1] == ss;
    } else if |ss| == 2 {
      assert ss[..2] == ss && ss[..2][..1] == ss[..1];
    } else {
      assert ss[..2][..1] == ss[..1] && MeaningOfAll(ss[..2]) == admin + mysql;
    }
    assert "admin" + "-" == "admin-" && "mysql" + "-" == "mysql-" && "pgsql" + "-" == "pgsql-";
    forall k | k in admin ensures exists n :: k == "admin-" + n { MeaningNames(ss[0], k); }
    forall k | k in mysql ensures exists n :: k == "mysql-" + n { MeaningNames(ss[1], k); }
    forall k | k in pgsql ensures exists n :: k == "pgsql-" + n { MeaningNames(ss[|ss| - 1], k); }
  }

  /** Every setting of the rendered file: the value is the table's, and there is nothing else. */
  lemma RenderedSettings(b: Builder, servers: seq<string>, o: Overlays)
    requires OverlaysOf(o, b) && Accepted(b) && AllPrefixed(b) && CnfValid(b, servers)
    ensures var all := Cnf.Settings(Rendered(b, servers, o));
            && (forall n :: Get(all, "admin-" + n) == AdminSetting(b, servers != [], n))
            && (forall n :: Get(all, "mysql-" + n) == MySQLSetting(b, n))
            && (forall n :: Get(all, "pgsql-" + n) == PgSQLSetting(b, n))
            && (forall k | k in all :: exists n :: k == "admin-" + n || k == "mysql-" + n || k == "pgsql-" + n)
  {
    hide Rendered, Cnf.Settings, Sections, MeaningOfAll, Meaning, AdminSection, DataSection, AdminDefaults,
         MySQLDefaults, PgSQLDefaults, Accepted, AllPrefixed, AdminSetting, MySQLSetting, PgSQLSetting, CnfValid,
         Strips;
    var peers := servers != [];
    RoundTrip(b, servers, o);
    var admin := Meaning(AdminSection(b, peers, o.admin));
    var mysql: Vars := if b.mysqlPort.Some?
    then Meaning(DataSection("mysql", b.mysqlPort.value, b.pw, MySQLDefaults(b), o.mysql)) else map[];
    var pgsql: Vars := if b.pgsqlPort.Some?
    then Meaning(DataSection("pgsql", b.pgsqlPort.value, b.pw, PgSQLDefaults(b), o.pgsql)) else map[];
    Joined(b, peers, o, admin, mysql, pgsql);
    var all := Cnf.Settings(Rendered(b, servers, o));
    forall n ensures Get(all, "admin-" + n) == AdminSetting(b, peers, n) {
      AdminMeans(b, peers, o.admin, n);
      Elsewhere(mysql, "mysql-", n, "admin-");
      Elsewhere(pgsql, "pgsql-", n, "admin-");
    }
    forall n ensures Get(all, "mysql-" + n) == MySQLSetting(b, n) {
      NoMySQL(b, n);
      if b.mysqlPort.Some? { MySQLMeans(b, o.mysql, n); }
      Elsewhere(admin, "admin-", n, "mysql-");
      Elsewhere(pgsql, "pgsql-", n, "mysql-");
    }
    forall n ensures Get(all, "pgsql-" + n) == PgSQLSetting(b, n) {
      NoMySQL(b, n);
      if b.pgsqlPort.Some? { PgSQLMeans(b, o.pgsql, n); }
      Elsewhere(admin, "admin-", n, "pgsql-");
      Elsewhere(mysql, "mysql-", n, "pgsql-");
    }
  }

  lemma NoMySQL(b: Builder, n: string)
    ensures b.mysqlPort.None? ==> MySQLSetting(b, n) == None
    ensures b.pgsqlPort.None? ==> PgSQLSetting(b, n) == None
  {
  }

  /** What can be pushed at runtime: all of it but credentials, listeners and backend TLS paths. */
  lemma RenderedVariables(b: Builder, servers: seq<string>, o: Overlays, n: string)
    requires OverlaysOf(o, b) && Accepted(b) && AllPrefixed(b) && CnfValid(b, servers)
    ensures var vars := Cnf.Parse(Rendered(b, servers, o));
            && Get(vars, "admin-" + n) ==
               (if n == "admin_credentials" || n == "mysql_ifaces" then None else AdminSetting(b, servers != [], n))
            && Get(vars, "mysql-" + n) == (if StartupOnly(n) then None else MySQLSetting(b, n))
            && Get(vars, "pgsql-" + n) == (if StartupOnly(n) then None else PgSQLSetting(b, n))
  {
    hide Rendered, Cnf.Settings, Cnf.Parse, Accepted, AllPrefixed, AdminSetting, MySQLSetting, PgSQLSetting, CnfValid,
         OverlaysOf, Cnf.STRUCTURAL, Sections, MeaningOfAll, StartupOnly;
    RoundTrip(b, servers, o);
    RenderedSettings(b, servers, o);
    StructuralNames(n);
  }

  predicate StartupOnly(n: string) {
    n == "interfaces" || n == "ssl_p2s_ca" || n == "ssl_p2s_cert" || n == "ssl_p2s_key"
  }

  lemma StructuralNames(n: string)
    ensures "admin-" + n in Cnf.STRUCTURAL <==> n == "admin_credentials" || n == "mysql_ifaces"
    ensures "mysql-" + n in Cnf.STRUCTURAL <==> StartupOnly(n)
    ensures "pgsql-" + n in Cnf.STRUCTURAL <==> StartupOnly(n)
  {
    hide Cnf.STRUCTURAL, StartupOnly;
    AdminStructural(n);
    MySQLStructural(n);
    PgSQLStructural(n);
  }

  lemma AdminStructural(n: string)
    ensures "admin-" + n in Cnf.STRUCTURAL <==> n == "admin_credentials" || n == "mysql_ifaces"
  {
    CredentialNames();
    Parts("admin-", n);
    Parts("admin-", "admin_credentials");
    Parts("admin-", "mysql_ifaces");
    assert ("admin-" + n)[0] == 'a';
  }

  lemma MySQLStructuralNames(k: string)
    requires k in Cnf.STRUCTURAL && k[0] == 'm'
    ensures k in {"mysql-interfaces", "mysql-ssl_p2s_ca", "mysql-ssl_p2s_cert", "mysql-ssl_p2s_key"}
  {
  }

  lemma MySQLBare()
    ensures "mysql-interfaces"[6..] == "interfaces" && "mysql-monitor_username"[6..] == "monitor_username"
    ensures "mysql-monitor_password"[6..] == "monitor_password" && "mysql-ssl_p2s_ca"[6..] == "ssl_p2s_ca"
    ensures "mysql-ssl_p2s_cert"[6..] == "ssl_p2s_cert" && "mysql-ssl_p2s_key"[6..] == "ssl_p2s_key"
  {
  }

  lemma MySQLFull()
    ensures "mysql-" + "interfaces" == "mysql-interfaces" && "mysql-" + "ssl_p2s_ca" == "mysql-ssl_p2s_ca"
    ensures "mysql-" + "ssl_p2s_cert" == "mysql-ssl_p2s_cert" && "mysql-" + "ssl_p2s_key" == "mysql-ssl_p2s_key"
  {
  }

  lemma MySQLStructural(n: string)
    ensures "mysql-" + n in Cnf.STRUCTURAL <==> StartupOnly(n)
  {
    MySQLFull();
    if StartupOnly(n) {
      assert "mysql-" + n in Cnf.STRUCTURAL;
    }
    hide Cnf.STRUCTURAL;
    var k := "mysql-" + n;
    if k in Cnf.STRUCTURAL {
      Parts("mysql-", n);
      MySQLBare();
      MySQLStructuralNames(k);
    }
  }

  lemma PgSQLStructuralNames(k: string)
    requires k in Cnf.STRUCTURAL && k[0] == 'p'
    ensures k in {"pgsql-interfaces", "pgsql-ssl_p2s_ca", "pgsql-ssl_p2s_cert", "pgsql-ssl_p2s_key"}
  {
  }

  lemma PgSQLBare()
    ensures "pgsql-interfaces"[6..] == "interfaces" && "pgsql-monitor_username"[6..] == "monitor_username"
    ensures "pgsql-monitor_password"[6..] == "monitor_password" && "pgsql-ssl_p2s_ca"[6..] == "ssl_p2s_ca"
    ensures "pgsql-ssl_p2s_cert"[6..] == "ssl_p2s_cert" && "pgsql-ssl_p2s_key"[6..] == "ssl_p2s_key"
  {
  }

  lemma PgSQLFull()
    ensures "pgsql-" + "interfaces" == "pgsql-interfaces" && "pgsql-" + "ssl_p2s_ca" == "pgsql-ssl_p2s_ca"
    ensures "pgsql-" + "ssl_p2s_cert" == "pgsql-ssl_p2s_cert" && "pgsql-" + "ssl_p2s_key" == "pgsql-ssl_p2s_key"
  {
  }

  lemma PgSQLStructural(n: string)
    ensures "pgsql-" + n in Cnf.STRUCTURAL <==> StartupOnly(n)
  {
    PgSQLFull();
    if StartupOnly(n) {
      assert "pgsql-" + n in Cnf.STRUCTURAL;
    }
    hide Cnf.STRUCTURAL;
    var k := "pgsql-" + n;
    if k in Cnf.STRUCTURAL {
      Parts("pgsql-", n);
      PgSQLBare();
      PgSQLStructuralNames(k);
    }
  }

  /* ---- around the sections ---- */

  /** The lines before the first section. */
  function Preamble(b: Builder): (lines: seq<string>) {
    ["# Operator-managed bootstrap config for ProxySQLCluster " + b.name + ".",
     NOTE, "datadir=\"/var/lib/proxysql\""] +
    if b.aws then
      ["plugins=(\"/usr/lib/proxysql/" + "ProxySQL_Aws_Plugin.so\");",
       "web_interface_plugin=\"" + ("/usr/lib/proxysql/" + "Web_Interface_plugin.so\";"), "aws_managed=true;"]
    else []
  }

  /** A peer's line; all but the last end in a comma. */
  function PeerLine(b: Builder, servers: seq<string>, i: nat): (line: string)
    requires i < |servers|
  {
    "  { hostname=\"" + servers[i] + "\", port=" + Itoa(b.adminPort) + ", weight=0, comment=\"\" }" +
    if i + 1 < |servers| then "," else ""
  }

  lemma NamesValid(b: Builder, servers: seq<string>)
    requires CnfValid(b, servers)
    ensures '\n' !in b.name && OneLine(servers)
  {
  }

  lemma LastLine(b: Builder, peers: bool, o: Overlays)
    ensures var lines := AllSectionLines(Sections(b, peers, o)); lines != [] && lines[|lines| - 1] == "}"
  {
    hide Entries;
  }

  lemma TitleLines()
    ensures TITLE == "# Operator-managed bootstrap config for ProxySQLCluster "
  {
  }

  lemma PreambleText(b: Builder)
    ensures Header(b) == Preamble(b)
  {
    TitleLines();
    hide TITLE, NOTE;
  }

  lemma PeerText(b: Builder, servers: seq<string>, i: nat)
    requires i < |servers|
    ensures ServerLine(b, servers[i], i == |servers| - 1) == PeerLine(b, servers, i)
  {
    hide Itoa;
  }

  /** The file starts with the preamble, ends in a newline, and lists the peers before it, if any. */
  lemma RenderedFrame(b: Builder, servers: seq<string>, o: Overlays)
    requires OverlaysOf(o, b) && Accepted(b) && CnfValid(b, servers)
    ensures var lines := Split(Rendered(b, servers, o), '\n');
            var n := |lines| - 1;
            && Preamble(b) <= lines && n >= |Preamble(b)| && lines[n] == ""
            && (servers != [] ==>
                  var at := n - |servers| - 4;
                  && at >= |Preamble(b)| && lines[at] == ""
                  && lines[at + 1] == "proxysql_servers=" && lines[at + 2] == "("
                  && (forall i | 0 <= i < |servers| :: lines[at + 3 + i] == PeerLine(b, servers, i))
                  && lines[n - 1] == ")")
            && (servers == [] ==> lines[n - 1] == "}")
  {
    hide Sections, AllSectionLines, Join, Split, Accepted, OverlaysOf, SoundSection, Templated, ServerLine, CnfValid;
    var ss := Sections(b, servers != [], o);
    var body, foot := AllSectionLines(ss), ServerLines(b, servers) + [""];
    var lines := Header(b) + body + foot;
    AllSectionsProper(b, servers, o);
    SectionsOneLine(ss);
    NamesValid(b, servers);
    HeaderInert(b);
    FooterInert(b, servers);
    SplitJoin(lines, '\n');
    LastLine(b, servers != [], o);
    PreambleText(b);
    forall i | 0 <= i < |servers| ensures ServerLine(b, servers[i], i == |servers| - 1) == PeerLine(b, servers, i) {
      PeerText(b, servers, i);
    }
  }

  /* ---- what is accepted ---- */

  /** No double quote, backslash or control character, by their codes. */
  predicate Plain(v: string) {
    forall i | 0 <= i < |v| :: v[i] as int >= 32 && v[i] as int !in {34, 92, 127}
  }

  /** Lower-case letters, digits and underscores. */
  predicate Name(n: string) {
    n != ""
    && forall i | 0 <= i < |n| :: 97 <= n[i] as int <= 122 || 48 <= n[i] as int <= 57 || n[i] as int == 95
  }

  predicate AdminOwnedName(n: string) {
    n == "admin_credentials" || n == "mysql_ifaces" || n == "cluster_username" || n == "cluster_password"
    || n == "restapi_enabled" || n == "restapi_port" || n == "web_enabled" || n == "web_port"
  }

  lemma PlainExactly(v: string)
    ensures Plain(v) <==> forall i | 0 <= i < |v| :: SafeChar(v[i])
  {
  }

  lemma NameExactly(n: string)
    ensures Name(n) <==> Cnf.IsKey(n)
  {
  }

  /** A reserved name holds a dash, so it is no bare name. */
  lemma ReservedHasDash(k: string)
    requires k in RESERVED
    ensures !Name(k)
  {
    assert |k| > 5 && k[5] == '-';
  }

  lemma AdminReservedNames(k: string)
    requires k in RESERVED && k[0] == 'a'
    ensures k in {"admin-admin_credentials", "admin-mysql_ifaces", "admin-cluster_username", "admin-cluster_password",
                  "admin-restapi_enabled", "admin-restapi_port", "admin-web_enabled", "admin-web_port"}
  {
  }

  lemma CredentialsBare()
    ensures "admin-admin_credentials"[6..] == "admin_credentials" && "admin-mysql_ifaces"[6..] == "mysql_ifaces"
    ensures "admin-cluster_username"[6..] == "cluster_username"
    ensures "admin-cluster_password"[6..] == "cluster_password"
  {
  }

  lemma TogglesBare()
    ensures "admin-restapi_enabled"[6..] == "restapi_enabled" && "admin-restapi_port"[6..] == "restapi_port"
    ensures "admin-web_enabled"[6..] == "web_enabled" && "admin-web_port"[6..] == "web_port"
  {
  }

  lemma AdminReservedExactly(n: string)
    ensures "admin-" + n in RESERVED <==> AdminOwnedName(n)
  {
    hide RESERVED;
    if AdminOwnedName(n) { AdminOwnedReserved(n); }
    var k := "admin-" + n;
    if k in RESERVED {
      Parts("admin-", n);
      CredentialsBare();
      TogglesBare();
      AdminReservedNames(k);
    }
  }

  lemma MySQLReservedNames(k: string)
    requires k in RESERVED && k[0] == 'm'
    ensures k in {"mysql-interfaces", "mysql-monitor_username", "mysql-monitor_password", "mysql-ssl_p2s_ca",
                  "mysql-ssl_p2s_cert", "mysql-ssl_p2s_key"}
  {
  }

  lemma MySQLReservedExactly(n: string)
    ensures "mysql-" + n in RESERVED <==> OwnedByOperator(n)
  {
    hide RESERVED;
    if OwnedByOperator(n) { MySQLOwned(n); }
    var k := "mysql-" + n;
    if k in RESERVED {
      Parts("mysql-", n);
      MySQLBare();
      MySQLReservedNames(k);
    }
  }

  lemma PgSQLReservedNames(k: string)
    requires k in RESERVED && k[0] == 'p'
    ensures k in {"pgsql-interfaces", "pgsql-monitor_username", "pgsql-monitor_password", "pgsql-ssl_p2s_ca",
                  "pgsql-ssl_p2s_cert", "pgsql-ssl_p2s_key"}
  {
  }

  lemma PgSQLReservedExactly(n: string)
    ensures "pgsql-" + n in RESERVED <==> OwnedByOperator(n)
  {
    hide RESERVED;
    if OwnedByOperator(n) { PgSQLOwned(n); }
    var k := "pgsql-" + n;
    if k in RESERVED {
      Parts("pgsql-", n);
      PgSQLBare();
      PgSQLReservedNames(k);
    }
  }

  /** A variable is accepted exactly when its bare name is a name, its value is plain, and, spelled with
      the prefix, it is none of the operator's own. */
  lemma VariableExactly(n: string, v: string)
    ensures ValidVar("admin-" + n, v, "admin-") <==> Name(n) && Plain(v) && !AdminOwnedName(n)
    ensures ValidVar("mysql-" + n, v, "mysql-") <==> Name(n) && Plain(v) && !OwnedByOperator(n)
    ensures ValidVar("pgsql-" + n, v, "pgsql-") <==> Name(n) && Plain(v) && !OwnedByOperator(n)
    ensures forall p | p in {"admin-", "mysql-", "pgsql-"} && !(p <= n) :: ValidVar(n, v, p) <==> Name(n) && Plain(v)
  {
    hide RESERVED, SafeChar, Cnf.IsKey, Name, Plain, AdminOwnedName, OwnedByOperator;
    NameExactly(n);
    PlainExactly(v);
    AdminReservedExactly(n);
    MySQLReservedExactly(n);
    PgSQLReservedExactly(n);
    Parts("admin-", n);
    Parts("mysql-", n);
    Parts("pgsql-", n);
    assert "admin-" <= "admin-" + n && "mysql-" <= "mysql-" + n && "pgsql-" <= "pgsql-" + n;
    if n in RESERVED { ReservedHasDash(n); }
  }

  /** The monitor's name: letters, digits, underscore, dot and dash. */
  lemma MonitorNameExactly(b: Builder)
    requires ValidVars(b.adminVars, "admin-") && ValidVars(b.mysqlVars, "mysql-") && ValidVars(b.pgsqlVars, "pgsql-")
    ensures Accepted(b) <==>
            b.pw.monitorUsername != ""
            && forall c | c in b.pw.monitorUsername ::
                 65 <= c as int <= 90 || 97 <= c as int <= 122 || 48 <= c as int <= 57 || c as int in {45, 46, 95}
  {
    hide ValidVars;
    var name := b.pw.monitorUsername;
    if Accepted(b) {
      forall c | c in name ensures UsernameChar(c) { var i :| 0 <= i < |name| && name[i] == c; }
    } else if name != "" {
      var i :| 0 <= i < |name| && !UsernameChar(name[i]);
      assert name[i] in name;
    }
  }
}
