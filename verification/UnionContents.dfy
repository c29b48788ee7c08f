/** What the merged desired state of a cluster holds, told from the configs and their fields. */
module UnionContents {
  import opened Text
  import opened Replication
  import opened Desired
  import opened Union

  /** The config belongs to the cluster, is not being deleted, and is not the excluded one. */
  predicate Counts(c: Config, cluster: string, exclude: string) {
    c.cluster == cluster && !c.deleting && c.name != exclude
  }

  /** No later entry of the same config and none of a config with a larger name has the entry's key. */
  ghost predicate Prevails<V(!new)>(listed: seq<Config>, cluster: string, exclude: string, of: Config -> seq<V>,
                                    same: (V, V) -> bool, c: Config, j: nat) {
    && c in listed && Counts(c, cluster, exclude) && j < |of(c)|
    && (forall k | j < k < |of(c)| :: !same(of(c)[k], of(c)[j]))
    && (forall d, k | d in listed && Counts(d, cluster, exclude) && Less(c.name, d.name) && 0 <= k < |of(d)| ::
          !same(of(d)[k], of(c)[j]))
  }

  /** The section holds exactly the entries that prevail. */
  ghost predicate HoldsPrevailing<V(!new)>(out: seq<V>, listed: seq<Config>, cluster: string, exclude: string,
                                           of: Config -> seq<V>, same: (V, V) -> bool) {
    forall v :: v in out <==> exists c, j: nat :: Prevails(listed, cluster, exclude, of, same, c, j) && of(c)[j] == v
  }

  /* ---- one section ---- */

  /** Every merged key has its last entry. */
  lemma {:induction false} LastEntryOf<K(!new), V>(lists: seq<seq<V>>, key: V -> K, k: K) returns (i: nat, j: nat)
    requires k in MergeAll(lists, key)
    ensures LastEntry(lists, key, i, j) && lists[i][j] == MergeAll(lists, key)[k] && key(lists[i][j]) == k
    decreases |lists|
  {
    var n := |lists| - 1;
    if j0 :| 0 <= j0 < |lists[n]| && key(lists[n][j0]) == k {
      i := n;
      j := LastIn(lists[n], key, j0);
    } else {
      OverwrittenMiss(MergeAll(lists[..n], key), lists[n], key, k);
      i, j := LastEntryOf(lists[..n], key, k);
      assert lists[..n][i] == lists[i];
    }
    LastWriterWins(lists, key, i, j);
  }

  lemma {:induction false} LastIn<K(!new), V>(vs: seq<V>, key: V -> K, j: nat) returns (last: nat)
    requires j < |vs|
    ensures last < |vs| && key(vs[last]) == key(vs[j]) && forall k | last < k < |vs| :: key(vs[k]) != key(vs[j])
    decreases |vs| - j
  {
    if k :| j < k < |vs| && key(vs[k]) == key(vs[j]) {
      last := LastIn(vs, key, k);
    } else {
      last := j;
    }
  }

  lemma InMerge<K(!new), V>(out: seq<V>, lists: seq<seq<V>>, key: V -> K, less: (K, K) -> bool, v: V)
    requires Flat(out, MergeAll(lists, key), key, less)
    ensures v in out <==> exists i: nat, j: nat :: LastEntry(lists, key, i, j) && lists[i][j] == v
  {
    hide MergeAll;
    if v in out {
      var n :| 0 <= n < |out| && out[n] == v;
      var i, j := LastEntryOf(lists, key, key(v));
    }
    if i: nat, j: nat :| LastEntry(lists, key, i, j) && lists[i][j] == v {
      LastWriterWins(lists, key, i, j);
    }
  }

  lemma AtIndex(cfgs: seq<Config>, listed: seq<Config>, cluster: string, exclude: string, c: Config) returns (i: nat)
    requires Ordered(cfgs, listed, cluster, exclude) && c in listed && Counts(c, cluster, exclude)
    ensures i < |cfgs| && cfgs[i] == c
  {
    assert Selected(c, cluster, exclude);
    i :| 0 <= i < |cfgs| && cfgs[i] == c;
  }

  lemma NameOrder(cfgs: seq<Config>, listed: seq<Config>, cluster: string, exclude: string, i: nat, k: nat)
    requires Ordered(cfgs, listed, cluster, exclude) && i < |cfgs| && k < |cfgs|
    ensures Less(cfgs[i].name, cfgs[k].name) <==> i < k
    ensures cfgs[i] in listed && Counts(cfgs[i], cluster, exclude)
  {
    hide Less;
    assert cfgs[i] in cfgs;
    LessIrreflexive(cfgs[i].name);
    if k < i && Less(cfgs[i].name, cfgs[k].name) {
      LessTransitive(cfgs[i].name, cfgs[k].name, cfgs[i].name);
    }
  }

  /** The last entry among the ordered configs is the one that prevails among the listed. */
  lemma PrevailsLast<K(!new), V(!new)>(cfgs: seq<Config>, listed: seq<Config>, cluster: string, exclude: string,
                                       of: Config -> seq<V>, lists: seq<seq<V>>, key: V -> K, same: (V, V) -> bool,
                                       i: nat, j: nat)
    requires Ordered(cfgs, listed, cluster, exclude)
    requires |lists| == |cfgs| && forall k | 0 <= k < |cfgs| :: lists[k] == of(cfgs[k])
    requires forall a, b :: same(a, b) <==> key(a) == key(b)
    requires i < |cfgs| && j < |lists[i]|
    ensures LastEntry(lists, key, i, j) <==> Prevails(listed, cluster, exclude, of, same, cfgs[i], j)
  {
    hide Ordered, Less, Counts;
    NameOrder(cfgs, listed, cluster, exclude, i, i);
    if LastEntry(lists, key, i, j) {
      forall d, k | d in listed && Counts(d, cluster, exclude) && Less(cfgs[i].name, d.name) && 0 <= k < |of(d)|
        ensures !same(of(d)[k], of(cfgs[i])[j]) {
        var n := AtIndex(cfgs, listed, cluster, exclude, d);
        NameOrder(cfgs, listed, cluster, exclude, i, n);
        assert key(lists[n][k]) != key(lists[i][j]);
      }
    }
    if Prevails(listed, cluster, exclude, of, same, cfgs[i], j) {
      forall n, k | i < n < |lists| && 0 <= k < |lists[n]| ensures key(lists[n][k]) != key(lists[i][j]) {
        NameOrder(cfgs, listed, cluster, exclude, i, n);
        NameOrder(cfgs, listed, cluster, exclude, n, n);
        assert !same(of(cfgs[n])[k], of(cfgs[i])[j]);
      }
    }
  }

  lemma SectionPrevails<K(!new), V(!new)>(out: seq<V>, cfgs: seq<Config>, listed: seq<Config>, cluster: string,
                                          exclude: string, section: Desired -> seq<V>, key: V -> K,
                                          less: (K, K) -> bool, of: Config -> seq<V>, same: (V, V) -> bool)
    requires Ordered(cfgs, listed, cluster, exclude) && Merges(out, Desireds(cfgs), section, key, less)
    requires forall a, b :: same(a, b) <==> key(a) == key(b)
    requires forall c :: of(c) == section(c.desired)
    ensures HoldsPrevailing(out, listed, cluster, exclude, of, same)
  {
    hide Ordered, MergeAll, Flat;
    var lists := Lists(Desireds(cfgs), section);
    forall v ensures v in out <==>
        exists c, j: nat :: Prevails(listed, cluster, exclude, of, same, c, j) && of(c)[j] == v {
      InMerge(out, lists, key, less, v);
      if v in out {
        var i: nat, j: nat :| LastEntry(lists, key, i, j) && lists[i][j] == v;
        PrevailsLast(cfgs, listed, cluster, exclude, of, lists, key, same, i, j);
      }
      if c, j: nat :| Prevails(listed, cluster, exclude, of, same, c, j) && of(c)[j] == v {
        var i := PrevailsAt(cfgs, listed, cluster, exclude, of, same, c, j);
        PrevailsLast(cfgs, listed, cluster, exclude, of, lists, key, same, i, j);
      }
    }
  }

  lemma PrevailsAt<V(!new)>(cfgs: seq<Config>, listed: seq<Config>, cluster: string, exclude: string,
                            of: Config -> seq<V>, same: (V, V) -> bool, c: Config, j: nat) returns (i: nat)
    requires Ordered(cfgs, listed, cluster, exclude) && Prevails(listed, cluster, exclude, of, same, c, j)
    ensures i < |cfgs| && cfgs[i] == c && j < |of(c)|
  {
    hide Ordered;
    i := AtIndex(cfgs, listed, cluster, exclude, c);
  }

  /* ---- the nine sections ---- */

  function ServersOf(c: Config): (vs: seq<MySQLServer>) { c.desired.mysqlServers }
  function UsersOf(c: Config): (vs: seq<MySQLUser>) { c.desired.mysqlUsers }
  function RulesOf(c: Config): (vs: seq<QueryRule>) { c.desired.mysqlRules }
  function PairsOf(c: Config): (vs: seq<ReplicationHostgroup>) { c.desired.replicationHostgroups }
  function TraitsOf(c: Config): (vs: seq<HostgroupAttributes>) { c.desired.hostgroupAttributes }
  function PgServersOf(c: Config): (vs: seq<PgSQLServer>) { c.desired.pgsqlServers }
  function PgUsersOf(c: Config): (vs: seq<PgSQLUser>) { c.desired.pgsqlUsers }
  function PgRulesOf(c: Config): (vs: seq<QueryRule>) { c.desired.pgsqlRules }
  function PeersOf(c: Config): (vs: seq<ProxySQLServer>) { c.desired.proxysqlServers }

  predicate SameServer(a: MySQLServer, b: MySQLServer) { a.hostgroup == b.hostgroup && a.hostname == b.hostname
                                                        && a.port == b.port }
  predicate SameUser(a: MySQLUser, b: MySQLUser) { a.username == b.username }
  predicate SameRule(a: QueryRule, b: QueryRule) { a.ruleID == b.ruleID }
  predicate SameWriter(a: ReplicationHostgroup, b: ReplicationHostgroup) { a.writer == b.writer }
  predicate SameHostgroup(a: HostgroupAttributes, b: HostgroupAttributes) { a.hostgroup == b.hostgroup }
  predicate SamePgServer(a: PgSQLServer, b: PgSQLServer) { a.hostgroup == b.hostgroup && a.hostname == b.hostname
                                                          && a.port == b.port }
  predicate SamePgUser(a: PgSQLUser, b: PgSQLUser) { a.username == b.username }
  predicate SamePeer(a: ProxySQLServer, b: ProxySQLServer) { a.hostname == b.hostname && a.port == b.port }

  lemma ServerKeys(a: MySQLServer, b: MySQLServer)
    ensures SameServer(a, b) <==> MySQLServerKey(a) == MySQLServerKey(b)
  {
    hide HostKey;
    if MySQLServerKey(a) == MySQLServerKey(b) {
      HostKeyInjective(a.hostgroup, a.hostname, a.port, b.hostgroup, b.hostname, b.port);
    }
  }

  lemma PgServerKeys(a: PgSQLServer, b: PgSQLServer)
    ensures SamePgServer(a, b) <==> PgSQLServerKey(a) == PgSQLServerKey(b)
  {
    hide HostKey;
    if PgSQLServerKey(a) == PgSQLServerKey(b) {
      HostKeyInjective(a.hostgroup, a.hostname, a.port, b.hostgroup, b.hostname, b.port);
    }
  }

  lemma PeerKeys(a: ProxySQLServer, b: ProxySQLServer)
    ensures SamePeer(a, b) <==> ProxySQLServerKey(a) == ProxySQLServerKey(b)
  {
    hide HostPort;
    if ProxySQLServerKey(a) == ProxySQLServerKey(b) { HostPortInjective(a.hostname, a.port, b.hostname, b.port); }
  }

  /** The union of the ordered configs, before peers are filled in. */
  ghost predicate Merged(u: Desired, listed: seq<Config>, cluster: string, exclude: string) {
    exists cfgs :: Ordered(cfgs, listed, cluster, exclude) && IsUnion(Desireds(cfgs), u)
  }

  /** Each section holds, of every key that some config of the cluster has, the entry of the config with
      the largest name, and of that config the last one. */
  lemma MySQLSectionsMerged(u: Desired, listed: seq<Config>, cluster: string, exclude: string)
    requires Merged(u, listed, cluster, exclude)
    ensures HoldsPrevailing(u.mysqlServers, listed, cluster, exclude, ServersOf, SameServer)
    ensures HoldsPrevailing(u.mysqlUsers, listed, cluster, exclude, UsersOf, SameUser)
    ensures HoldsPrevailing(u.mysqlRules, listed, cluster, exclude, RulesOf, SameRule)
    ensures HoldsPrevailing(u.replicationHostgroups, listed, cluster, exclude, PairsOf, SameWriter)
    ensures HoldsPrevailing(u.hostgroupAttributes, listed, cluster, exclude, TraitsOf, SameHostgroup)
  {
    hide HoldsPrevailing, Ordered, Merges, HostKey, HostPort;
    var cfgs :| Ordered(cfgs, listed, cluster, exclude) && IsUnion(Desireds(cfgs), u);
    forall a, b ensures SameServer(a, b) <==> MySQLServerKey(a) == MySQLServerKey(b) { ServerKeys(a, b); }
    SectionPrevails(u.mysqlServers, cfgs, listed, cluster, exclude, MySQLServers, MySQLServerKey, Less, ServersOf,
                    SameServer);
    SectionPrevails(u.mysqlUsers, cfgs, listed, cluster, exclude, MySQLUsers, MySQLUserKey, Less, UsersOf, SameUser);
    SectionPrevails(u.mysqlRules, cfgs, listed, cluster, exclude, MySQLRules, RuleKey, IdLess, RulesOf, SameRule);
    SectionPrevails(u.replicationHostgroups, cfgs, listed, cluster, exclude, ReplicationHostgroups, WriterKey, IdLess,
                    PairsOf, SameWriter);
    SectionPrevails(u.hostgroupAttributes, cfgs, listed, cluster, exclude, Attributes, AttributesKey, IdLess, TraitsOf,
                    SameHostgroup);
  }

  lemma OtherSectionsMerged(u: Desired, listed: seq<Config>, cluster: string, exclude: string)
    requires Merged(u, listed, cluster, exclude)
    ensures HoldsPrevailing(u.pgsqlServers, listed, cluster, exclude, PgServersOf, SamePgServer)
    ensures HoldsPrevailing(u.pgsqlUsers, listed, cluster, exclude, PgUsersOf, SamePgUser)
    ensures HoldsPrevailing(u.pgsqlRules, listed, cluster, exclude, PgRulesOf, SameRule)
    ensures HoldsPrevailing(u.proxysqlServers, listed, cluster, exclude, PeersOf, SamePeer)
  {
    hide HoldsPrevailing, Ordered, Merges, HostKey, HostPort;
    var cfgs :| Ordered(cfgs, listed, cluster, exclude) && IsUnion(Desireds(cfgs), u);
    forall a, b ensures SamePgServer(a, b) <==> PgSQLServerKey(a) == PgSQLServerKey(b) { PgServerKeys(a, b); }
    forall a, b ensures SamePeer(a, b) <==> ProxySQLServerKey(a) == ProxySQLServerKey(b) { PeerKeys(a, b); }
    SectionPrevails(u.pgsqlServers, cfgs, listed, cluster, exclude, PgSQLServers, PgSQLServerKey, Less, PgServersOf,
                    SamePgServer);
    SectionPrevails(u.pgsqlUsers, cfgs, listed, cluster, exclude, PgSQLUsers, PgSQLUserKey, Less, PgUsersOf,
                    SamePgUser);
    SectionPrevails(u.pgsqlRules, cfgs, listed, cluster, exclude, PgSQLRules, RuleKey, IdLess, PgRulesOf, SameRule);
    SectionPrevails(u.proxysqlServers, cfgs, listed, cluster, exclude, ProxySQLServers, ProxySQLServerKey, Less,
                    PeersOf, SamePeer);
  }

  /* ---- variables and statements ---- */

  /** Each variable has its value in the config with the largest name that sets it. */
  ghost predicate HoldsLatest(out: Vars, listed: seq<Config>, cluster: string, exclude: string, of: Config -> Vars) {
    && (forall k :: k in out <==> exists c :: Sets(listed, cluster, exclude, of, c, k))
    && (forall c, k | Latest(listed, cluster, exclude, of, c, k) :: k in out && out[k] == of(c)[k])
  }

  ghost predicate Sets(listed: seq<Config>, cluster: string, exclude: string, of: Config -> Vars, c: Config, k: string)
  {
    c in listed && Counts(c, cluster, exclude) && k in of(c)
  }

  ghost predicate Latest(listed: seq<Config>, cluster: string, exclude: string, of: Config -> Vars, c: Config,
                         k: string)
    ensures Latest(listed, cluster, exclude, of, c, k) ==> k in of(c)
  {
    Sets(listed, cluster, exclude, of, c, k)
    && forall d | Sets(listed, cluster, exclude, of, d, k) :: !Less(c.name, d.name)
  }

  lemma {:induction false} VarsIn(ds: seq<Desired>, of: Desired -> Vars, k: string)
    ensures k in VarsMerged(ds, of) <==> exists i :: 0 <= i < |ds| && k in of(ds[i])
    decreases |ds|
  {
    if ds != [] {
      var n := |ds| - 1;
      VarsIn(ds[..n], of, k);
      if i :| 0 <= i < n && k in of(ds[..n][i]) { assert k in of(ds[i]); }
      if i :| 0 <= i < |ds| && k in of(ds[i]) { assert i < n ==> k in of(ds[..n][i]); }
    }
  }

  lemma {:induction false} VarsAt(ds: seq<Desired>, of: Desired -> Vars, k: string, i: nat)
    requires i < |ds| && k in of(ds[i]) && forall j | i < j < |ds| :: k !in of(ds[j])
    ensures k in VarsMerged(ds, of) && VarsMerged(ds, of)[k] == of(ds[i])[k]
    decreases |ds|
  {
    var n := |ds| - 1;
    if i < n { VarsAt(ds[..n], of, k, i); }
  }

  lemma VarsLatest(cfgs: seq<Config>, listed: seq<Config>, cluster: string, exclude: string, section: Desired -> Vars,
                   of: Config -> Vars)
    requires Ordered(cfgs, listed, cluster, exclude) && forall c :: of(c) == section(c.desired)
    ensures HoldsLatest(VarsMerged(Desireds(cfgs), section), listed, cluster, exclude, of)
  {
    hide Ordered, Less, Counts, VarsMerged;
    var ds := Desireds(cfgs);
    forall k ensures k in VarsMerged(ds, section) <==> exists c :: Sets(listed, cluster, exclude, of, c, k) {
      VarsIn(ds, section, k);
      if i :| 0 <= i < |ds| && k in section(ds[i]) {
        NameOrder(cfgs, listed, cluster, exclude, i, i);
        assert Sets(listed, cluster, exclude, of, cfgs[i], k);
      }
      if c :| Sets(listed, cluster, exclude, of, c, k) {
        var i := AtIndex(cfgs, listed, cluster, exclude, c);
        assert k in section(ds[i]);
      }
    }
    forall c, k | Latest(listed, cluster, exclude, of, c, k)
      ensures k in VarsMerged(ds, section) && VarsMerged(ds, section)[k] == of(c)[k] {
      var i := AtIndex(cfgs, listed, cluster, exclude, c);
      assert k in section(ds[i]);
      forall j | i < j < |ds| ensures k !in section(ds[j]) {
        NameOrder(cfgs, listed, cluster, exclude, i, j);
        NameOrder(cfgs, listed, cluster, exclude, j, j);
        assert !Sets(listed, cluster, exclude, of, cfgs[j], k);
      }
      VarsAt(ds, section, k, i);
    }
  }

  function AdminVarsOf(c: Config): (vars: Vars) { c.desired.adminVars }
  function MySQLVarsOf(c: Config): (vars: Vars) { c.desired.mysqlVars }
  function PgSQLVarsOf(c: Config): (vars: Vars) { c.desired.pgsqlVars }

  lemma VarsBuilt(u: Desired, listed: seq<Config>, cluster: string, exclude: string)
    requires Merged(u, listed, cluster, exclude)
    ensures HoldsLatest(u.adminVars, listed, cluster, exclude, AdminVarsOf)
    ensures HoldsLatest(u.mysqlVars, listed, cluster, exclude, MySQLVarsOf)
    ensures HoldsLatest(u.pgsqlVars, listed, cluster, exclude, PgSQLVarsOf)
  {
    hide HoldsLatest, Ordered, Merges, VarsMerged;
    var cfgs :| Ordered(cfgs, listed, cluster, exclude) && IsUnion(Desireds(cfgs), u);
    VarsLatest(cfgs, listed, cluster, exclude, AdminVars, AdminVarsOf);
    VarsLatest(cfgs, listed, cluster, exclude, MySQLVars, MySQLVarsOf);
    VarsLatest(cfgs, listed, cluster, exclude, PgSQLVars, PgSQLVarsOf);
  }

  /** The statements of a config come before those of every config with a larger name. */
  lemma StatementsInOrder(u: Desired, listed: seq<Config>, cluster: string, exclude: string, c: Config, d: Config)
    returns (a: seq<string>, m: seq<string>, b: seq<string>)
    requires Merged(u, listed, cluster, exclude) && c in listed && d in listed
    requires Counts(c, cluster, exclude) && Counts(d, cluster, exclude) && Less(c.name, d.name)
    ensures u.sqlStatements == a + c.desired.sqlStatements + m + d.desired.sqlStatements + b
  {
    hide Ordered, Merges, VarsMerged, Less, Counts, Statements;
    var cfgs :| Ordered(cfgs, listed, cluster, exclude) && IsUnion(Desireds(cfgs), u);
    var ds := Desireds(cfgs);
    var i := AtIndex(cfgs, listed, cluster, exclude, c);
    var k := AtIndex(cfgs, listed, cluster, exclude, d);
    NameOrder(cfgs, listed, cluster, exclude, i, k);
    a, m, b := Statements(ds[..i]), Statements(ds[i + 1..k]), Statements(ds[k + 1..]);
    SplitAt(ds, i);
    SplitAt(ds[i + 1..], k - i - 1);
    assert ds[i + 1..][..k - i - 1] == ds[i + 1..k] && ds[i + 1..][k - i..] == ds[k + 1..];
  }

  lemma SplitAt(ds: seq<Desired>, i: nat)
    requires i < |ds|
    ensures Statements(ds) == Statements(ds[..i]) + ds[i].sqlStatements + Statements(ds[i + 1..])
  {
    hide Statements;
    Around(ds, i);
    StatementsConcat(ds[..i] + [ds[i]], ds[i + 1..]);
    StatementsConcat(ds[..i], [ds[i]]);
    OneStatements(ds[i]);
  }

  lemma Around<T>(s: seq<T>, i: nat)
    requires i < |s|
    ensures s == s[..i] + [s[i]] + s[i + 1..]
  {
  }

  lemma OneStatements(d: Desired)
    ensures Statements([d]) == d.sqlStatements
  {
    assert [d][..0] == [] && Statements([]) == [];
  }

  /* ---- peers ---- */

  /** A built state is a merged one, with the given peers where no config lists any. */
  lemma PeersFilled(out: Desired, listed: seq<Config>, cluster: string, exclude: string, peers: seq<ProxySQLServer>)
    returns (u: Desired)
    requires BuildsFor(out, listed, cluster, exclude, peers)
    ensures Merged(u, listed, cluster, exclude) && out == u.(proxysqlServers := out.proxysqlServers)
    ensures if exists c :: c in listed && Counts(c, cluster, exclude) && c.desired.proxysqlServers != []
            then HoldsPrevailing(out.proxysqlServers, listed, cluster, exclude, PeersOf, SamePeer)
            else out.proxysqlServers == peers
  {
    hide IsUnion, Ordered, Counts, HoldsPrevailing;
    var cfgs;
    cfgs, u :| Ordered(cfgs, listed, cluster, exclude) && IsUnion(Desireds(cfgs), u)
               && out == if u.proxysqlServers == [] then u.(proxysqlServers := peers) else u;
    OtherSectionsMerged(u, listed, cluster, exclude);
    PeersEmpty(u, listed, cluster, exclude);
  }

  lemma PeersEmpty(u: Desired, listed: seq<Config>, cluster: string, exclude: string)
    requires Merged(u, listed, cluster, exclude)
    ensures u.proxysqlServers == [] <==>
            !exists c :: c in listed && Counts(c, cluster, exclude) && c.desired.proxysqlServers != []
  {
    hide Less, Counts, Ordered, Merges, VarsMerged, Statements;
    var cfgs: seq<Config> :| Ordered(cfgs, listed, cluster, exclude) && IsUnion(Desireds(cfgs), u);
    SectionEmpty(u.proxysqlServers, cfgs);
    if i :| 0 <= i < |cfgs| && cfgs[i].desired.proxysqlServers != [] {
      NameOrder(cfgs, listed, cluster, exclude, i, i);
    }
    if c :| c in listed && Counts(c, cluster, exclude) && c.desired.proxysqlServers != [] {
      var i := AtIndex(cfgs, listed, cluster, exclude, c);
    }
  }

  lemma SectionEmpty(out: seq<ProxySQLServer>, cfgs: seq<Config>)
    requires Merges(out, Desireds(cfgs), ProxySQLServers, ProxySQLServerKey, Less)
    ensures out == [] <==> forall i | 0 <= i < |cfgs| :: cfgs[i].desired.proxysqlServers == []
  {
    hide MergeAll, Less;
    var lists := Lists(Desireds(cfgs), ProxySQLServers);
    if out != [] {
      var i: nat, j: nat := LastEntryOf(lists, ProxySQLServerKey, ProxySQLServerKey(out[0]));
    }
    if i :| 0 <= i < |cfgs| && cfgs[i].desired.proxysqlServers != [] {
      MergedSomething(lists, ProxySQLServerKey, i, 0);
    }
  }

  /** Whatever a list holds, its key is merged. */
  lemma {:induction false} MergedSomething<K(!new), V>(lists: seq<seq<V>>, key: V -> K, i: nat, j: nat)
    requires i < |lists| && j < |lists[i]|
    ensures key(lists[i][j]) in MergeAll(lists, key)
    decreases |lists|
  {
    var n := |lists| - 1;
    if i < n {
      MergedSomething(lists[..n], key, i, j);
      OverwrittenAs(MergeAll(lists[..n], key), lists[n], key);
    } else {
      var last := LastIn(lists[n], key, j);
      OverwrittenHit(MergeAll(lists[..n], key), lists[n], key, last);
    }
  }
}
