/** Union: merging the desired states of all ProxySQLConfigs of a cluster, last writer wins. */
module Union {
  import opened Text
  import opened Sorting
  import opened Replication
  import opened Desired

  /* ---- one section ---- */

  /** Overwrite the entries of a keyed map with a list, in list order. */
  function Overwritten<K(==), V>(m: map<K, V>, vs: seq<V>, key: V -> K): (r: map<K, V>) {
    if vs == [] then m
    else Overwritten(m, vs[..|vs| - 1], key)[key(vs[|vs| - 1]) := vs[|vs| - 1]]
  }

  /** The keyed map after the lists of several configs, later ones overriding. */
  ghost function MergeAll<K, V>(lists: seq<seq<V>>, key: V -> K): (m: map<K, V>) {
    if lists == [] then map[] else Overwritten(MergeAll(lists[..|lists| - 1], key), lists[|lists| - 1], key)
  }

  /** A keyed map flattened into the slice that is strictly ascending by key. */
  ghost predicate Flat<K(!new), V>(out: seq<V>, m: map<K, V>, key: V -> K, less: (K, K) -> bool) {
    && (forall i, j | 0 <= i < j < |out| :: less(key(out[i]), key(out[j])))
    && (forall i | 0 <= i < |out| :: key(out[i]) in m && m[key(out[i])] == out[i])
    && (forall k | k in m :: m[k] in out && key(m[k]) == k)
  }

  lemma {:induction false} OverwrittenAs<K, V>(m: map<K, V>, vs: seq<V>, key: V -> K)
    ensures Overwritten(m, vs, key) == m + Overwritten(map[], vs, key)
  {
    if vs != [] { OverwrittenAs(m, vs[..|vs| - 1], key); }
  }

  lemma {:induction false} MergeConcat<K, V>(xs: seq<seq<V>>, ys: seq<seq<V>>, key: V -> K)
    ensures MergeAll(xs + ys, key) == MergeAll(xs, key) + MergeAll(ys, key)
    decreases |ys|
  {
    if ys == [] {
      assert xs + ys == xs;
    } else {
      var n := |ys| - 1;
      assert (xs + ys)[..|xs| + n] == xs + ys[..n];
      MergeConcat(xs, ys[..n], key);
      OverwrittenAs(MergeAll(xs, key) + MergeAll(ys[..n], key), ys[n], key);
      OverwrittenAs(MergeAll(ys[..n], key), ys[n], key);
    }
  }

  /** The key's entry is the last one holding it: last within its list, last list holding it. */
  ghost predicate LastEntry<K, V>(lists: seq<seq<V>>, key: V -> K, i: nat, j: nat) {
    && i < |lists| && j < |lists[i]|
    && (forall j' | j < j' < |lists[i]| :: key(lists[i][j']) != key(lists[i][j]))
    && (forall i', j' | i < i' < |lists| && 0 <= j' < |lists[i']| :: key(lists[i'][j']) != key(lists[i][j]))
  }

  lemma {:induction false} OverwrittenMiss<K, V>(m: map<K, V>, vs: seq<V>, key: V -> K, k: K)
    requires forall j | 0 <= j < |vs| :: key(vs[j]) != k
    ensures k in Overwritten(m, vs, key) <==> k in m
    ensures k in m ==> Overwritten(m, vs, key)[k] == m[k]
  {
    if vs != [] { OverwrittenMiss(m, vs[..|vs| - 1], key, k); }
  }

  lemma {:induction false} OverwrittenHit<K, V>(m: map<K, V>, vs: seq<V>, key: V -> K, j: nat)
    requires j < |vs| && forall j' | j < j' < |vs| :: key(vs[j']) != key(vs[j])
    ensures key(vs[j]) in Overwritten(m, vs, key) && Overwritten(m, vs, key)[key(vs[j])] == vs[j]
  {
    if j < |vs| - 1 { OverwrittenHit(m, vs[..|vs| - 1], key, j); }
  }

  /** Last writer wins: every entry that nothing later overrides is the merged one. */
  lemma {:induction false} LastWriterWins<K, V>(lists: seq<seq<V>>, key: V -> K, i: nat, j: nat)
    requires LastEntry(lists, key, i, j)
    ensures key(lists[i][j]) in MergeAll(lists, key) && MergeAll(lists, key)[key(lists[i][j])] == lists[i][j]
    decreases |lists|
  {
    var n := |lists| - 1;
    var k := key(lists[i][j]);
    if i < n {
      OverwrittenMiss(MergeAll(lists[..n], key), lists[n], key, k);
      LastWriterWins(lists[..n], key, i, j);
    } else {
      OverwrittenHit(MergeAll(lists[..n], key), lists[n], key, j);
    }
  }

  /** Nothing else is merged: every merged entry stands in some list, under its own key. */
  lemma {:induction false} MergedFromLists<K, V>(lists: seq<seq<V>>, key: V -> K, k: K)
    requires k in MergeAll(lists, key)
    ensures key(MergeAll(lists, key)[k]) == k && exists i :: 0 <= i < |lists| && MergeAll(lists, key)[k] in lists[i]
    decreases |lists|
  {
    var n := |lists| - 1;
    var m := MergeAll(lists[..n], key);
    OverwrittenFrom(m, lists[n], key, k);
    if k in m && MergeAll(lists, key)[k] == m[k] {
      MergedFromLists(lists[..n], key, k);
      var i :| 0 <= i < n && m[k] in lists[..n][i];
      assert lists[..n][i] == lists[i];
    }
  }

  lemma {:induction false} OverwrittenFrom<K, V>(m: map<K, V>, vs: seq<V>, key: V -> K, k: K)
    requires k in Overwritten(m, vs, key)
    ensures var v := Overwritten(m, vs, key)[k]; (v in vs && key(v) == k) || (k in m && v == m[k])
  {
    if vs != [] && key(vs[|vs| - 1]) != k {
      OverwrittenFrom(m, vs[..|vs| - 1], key, k);
    }
  }

  /** A flattened section is determined by its map. */
  lemma FlatUnique<K(!new), V>(a: seq<V>, b: seq<V>, m: map<K, V>, key: V -> K, less: (K, K) -> bool)
    requires StrictTotalOrder(less) && Flat(a, m, key, less) && Flat(b, m, key, less)
    ensures a == b
  {
    var ka := KeysOf(a, key);
    var kb := KeysOf(b, key);
    FlatKeys(a, m, key, less);
    FlatKeys(b, m, key, less);
    AscendingUnique(ka, kb, less);
    assert forall i | 0 <= i < |a| :: a[i] == m[ka[i]] && b[i] == m[kb[i]];
  }

  ghost function KeysOf<K, V>(vs: seq<V>, key: V -> K): (ks: seq<K>)
    ensures |ks| == |vs| && forall i | 0 <= i < |vs| :: ks[i] == key(vs[i])
  {
    seq(|vs|, i requires 0 <= i < |vs| => key(vs[i]))
  }

  lemma FlatKeys<K(!new), V>(a: seq<V>, m: map<K, V>, key: V -> K, less: (K, K) -> bool)
    requires Flat(a, m, key, less)
    ensures Ascending(KeysOf(a, key), less) && Elements(KeysOf(a, key)) == m.Keys
  {
    var ks := KeysOf(a, key);
    forall k | k in m ensures k in Elements(ks) {
      var i :| 0 <= i < |a| && a[i] == m[k];
      assert ks[i] == k;
    }
    forall k | k in Elements(ks) ensures k in m {
      var i :| 0 <= i < |ks| && ks[i] == k;
    }
  }

  /** Re-reading a flattened section gives its map back. */
  lemma FlatReread<K(!new), V>(a: seq<V>, m: map<K, V>, key: V -> K, less: (K, K) -> bool)
    requires StrictTotalOrder(less) && Flat(a, m, key, less)
    ensures Overwritten(map[], a, key) == m
  {
    var r := Overwritten(map[], a, key);
    forall k ensures k in r <==> k in m ensures k in r ==> r[k] == m[k] {
      if k in m {
        var i :| 0 <= i < |a| && a[i] == m[k];
        assert forall j | i < j < |a| :: less(key(a[i]), key(a[j]));
        OverwrittenHit(map[], a, key, i);
      } else {
        OverwrittenMiss(map[], a, key, k);
      }
    }
  }

  /** Merging in two groups and merging the results is merging at once. */
  lemma SectionAssociative<K(!new), V>(xs: seq<seq<V>>, ys: seq<seq<V>>, a: seq<V>, b: seq<V>, all: seq<V>,
                                       both: seq<V>,
                                       key: V -> K, less: (K, K) -> bool)
    requires StrictTotalOrder(less)
    requires Flat(a, MergeAll(xs, key), key, less) && Flat(b, MergeAll(ys, key), key, less)
    requires Flat(all, MergeAll(xs + ys, key), key, less) && Flat(both, MergeAll([a, b], key), key, less)
    ensures all == both
  {
    FlatReread(a, MergeAll(xs, key), key, less);
    FlatReread(b, MergeAll(ys, key), key, less);
    MergeConcat(xs, ys, key);
    OverwrittenAs(MergeAll(xs, key), b, key);
    assert [a, b][..1] == [a] && [a][..0] == [];
    assert MergeAll([a], key) == Overwritten(map[], a, key);
    hide Flat;
    FlatUnique(all, both, MergeAll(xs + ys, key), key, less);
  }

  /* ---- the nine keyed sections ---- */

  function MySQLServers(d: Desired): (vs: seq<MySQLServer>) { d.mysqlServers }
  function MySQLUsers(d: Desired): (vs: seq<MySQLUser>) { d.mysqlUsers }
  function MySQLRules(d: Desired): (vs: seq<QueryRule>) { d.mysqlRules }
  function ReplicationHostgroups(d: Desired): (vs: seq<ReplicationHostgroup>) { d.replicationHostgroups }
  function Attributes(d: Desired): (vs: seq<HostgroupAttributes>) { d.hostgroupAttributes }
  function PgSQLServers(d: Desired): (vs: seq<PgSQLServer>) { d.pgsqlServers }
  function PgSQLUsers(d: Desired): (vs: seq<PgSQLUser>) { d.pgsqlUsers }
  function PgSQLRules(d: Desired): (vs: seq<QueryRule>) { d.pgsqlRules }
  function ProxySQLServers(d: Desired): (vs: seq<ProxySQLServer>) { d.proxysqlServers }

  function MySQLServerKey(s: MySQLServer): (k: string) { HostKey(s.hostgroup, s.hostname, s.port) }
  function MySQLUserKey(u: MySQLUser): (k: string) { u.username }
  function RuleKey(r: QueryRule): (k: Int32) { r.ruleID }
  function WriterKey(h: ReplicationHostgroup): (k: Int32) { h.writer }
  function AttributesKey(a: HostgroupAttributes): (k: Int32) { a.hostgroup }
  function PgSQLServerKey(s: PgSQLServer): (k: string) { HostKey(s.hostgroup, s.hostname, s.port) }
  function PgSQLUserKey(u: PgSQLUser): (k: string) { u.username }
  function ProxySQLServerKey(s: ProxySQLServer): (k: string) { HostPort(s.hostname, s.port) }

  predicate IdLess(a: Int32, b: Int32) {
    a < b
  }

  lemma IdOrder()
    ensures StrictTotalOrder(IdLess)
  {
  }

  ghost function Lists<V>(ds: seq<Desired>, of: Desired -> seq<V>): (lists: seq<seq<V>>)
    ensures |lists| == |ds| && forall i | 0 <= i < |ds| :: lists[i] == of(ds[i])
  {
    seq(|ds|, i requires 0 <= i < |ds| => of(ds[i]))
  }

  /** `out` is the merge of one section of all the desired states. */
  ghost predicate Merges<K(!new), V>(out: seq<V>, ds: seq<Desired>, of: Desired -> seq<V>, key: V -> K,
                                     less: (K, K) -> bool) {
    Flat(out, MergeAll(Lists(ds, of), key), key, less)
  }

  ghost function VarsMerged(ds: seq<Desired>, of: Desired -> Vars): (vars: Vars) {
    if ds == [] then map[] else VarsMerged(ds[..|ds| - 1], of) + of(ds[|ds| - 1])
  }

  ghost function Statements(ds: seq<Desired>): (all: seq<string>) {
    if ds == [] then [] else Statements(ds[..|ds| - 1]) + ds[|ds| - 1].sqlStatements
  }

  function AdminVars(d: Desired): (vars: Vars) { d.adminVars }
  function MySQLVars(d: Desired): (vars: Vars) { d.mysqlVars }
  function PgSQLVars(d: Desired): (vars: Vars) { d.pgsqlVars }

  ghost predicate IsUnion(ds: seq<Desired>, out: Desired) {
    && Merges(out.mysqlServers, ds, MySQLServers, MySQLServerKey, Less)
    && Merges(out.mysqlUsers, ds, MySQLUsers, MySQLUserKey, Less)
    && Merges(out.mysqlRules, ds, MySQLRules, RuleKey, IdLess)
    && Merges(out.replicationHostgroups, ds, ReplicationHostgroups, WriterKey, IdLess)
    && Merges(out.hostgroupAttributes, ds, Attributes, AttributesKey, IdLess)
    && Merges(out.pgsqlServers, ds, PgSQLServers, PgSQLServerKey, Less)
    && Merges(out.pgsqlUsers, ds, PgSQLUsers, PgSQLUserKey, Less)
    && Merges(out.pgsqlRules, ds, PgSQLRules, RuleKey, IdLess)
    && Merges(out.proxysqlServers, ds, ProxySQLServers, ProxySQLServerKey, Less)
    && out.adminVars == VarsMerged(ds, AdminVars)
    && out.mysqlVars == VarsMerged(ds, MySQLVars)
    && out.pgsqlVars == VarsMerged(ds, PgSQLVars)
    && out.sqlStatements == Statements(ds)
  }

  /* ---- computing it ---- */

  method MergeSection<K(!new,==), V(==)>(ds: seq<Desired>, of: Desired -> seq<V>, key: V -> K, less: (K, K) -> bool)
    returns (out: seq<V>)
    requires StrictTotalOrder(less)
    ensures Merges(out, ds, of, key, less)
  {
    ghost var lists := Lists(ds, of);
    var m: map<K, V> := map[];
    for i := 0 to |ds|
      invariant m == MergeAll(lists[..i], key)
    {
      var vs := of(ds[i]);
      ghost var before := m;
      for j := 0 to |vs|
        invariant m == Overwritten(before, vs[..j], key)
      {
        m := m[key(vs[j]) := vs[j]];
        assert vs[..j + 1][..j] == vs[..j];
      }
      assert vs[..|vs|] == vs && lists[..i + 1][..i] == lists[..i];
    }
    assert lists[..|ds|] == lists;
    out := FlattenSection(m, key, less, lists);
  }

  method FlattenSection<K(!new,==), V(==)>(m: map<K, V>, key: V -> K, less: (K, K) -> bool, ghost lists: seq<seq<V>>)
    returns (out: seq<V>)
    requires StrictTotalOrder(less) && m == MergeAll(lists, key)
    ensures Flat(out, m, key, less)
  {
    forall k | k in m ensures key(m[k]) == k { MergedFromLists(lists, key, k); }
    hide StrictTotalOrder, MergeAll;
    var ks := SortKeys(m.Keys, less);
    out := [];
    for i := 0 to |ks|
      invariant |out| == i && forall j | 0 <= j < i :: ks[j] in m && out[j] == m[ks[j]]
    {
      assert ks[i] in Elements(ks);
      out := out + [m[ks[i]]];
    }
    forall k | k in m ensures m[k] in out {
      assert k in Elements(ks);
      var i :| 0 <= i < |ks| && ks[i] == k;
      assert out[i] == m[k];
    }
  }

  method MergeVars(ds: seq<Desired>, of: Desired -> Vars) returns (vars: Vars)
    ensures vars == VarsMerged(ds, of)
  {
    vars := map[];
    for i := 0 to |ds|
      invariant vars == VarsMerged(ds[..i], of)
    {
      assert ds[..i + 1][..i] == ds[..i];
      vars := vars + of(ds[i]);
    }
    assert ds[..|ds|] == ds;
  }

  /** Union skips nil configs; the others are merged in order. */
  function Present(ds: seq<Option<Desired>>): (present: seq<Desired>) {
    if ds == [] then []
    else Present(ds[..|ds| - 1]) + (if ds[|ds| - 1].Some? then [ds[|ds| - 1].value] else [])
  }

  method UnionOf(desireds: seq<Option<Desired>>) returns (out: Desired)
    ensures IsUnion(Present(desireds), out)
  {
    hide Merges, VarsMerged;
    var ds := Present(desireds);
    var statements := [];
    for i := 0 to |ds|
      invariant statements == Statements(ds[..i])
    {
      assert ds[..i + 1][..i] == ds[..i];
      statements := statements + ds[i].sqlStatements;
    }
    assert ds[..|ds|] == ds;
    StringOrder();
    IdOrder();
    hide StrictTotalOrder;
    var servers := MergeSection(ds, MySQLServers, MySQLServerKey, Less);
    var users := MergeSection(ds, MySQLUsers, MySQLUserKey, Less);
    var rules := MergeSection(ds, MySQLRules, RuleKey, IdLess);
    var repl := MergeSection(ds, ReplicationHostgroups, WriterKey, IdLess);
    var attrs := MergeSection(ds, Attributes, AttributesKey, IdLess);
    var pgServers := MergeSection(ds, PgSQLServers, PgSQLServerKey, Less);
    var pgUsers := MergeSection(ds, PgSQLUsers, PgSQLUserKey, Less);
    var pgRules := MergeSection(ds, PgSQLRules, RuleKey, IdLess);
    var peers := MergeSection(ds, ProxySQLServers, ProxySQLServerKey, Less);
    var adminVars := MergeVars(ds, AdminVars);
    var mysqlVars := MergeVars(ds, MySQLVars);
    var pgsqlVars := MergeVars(ds, PgSQLVars);
    out := Desired(servers, users, rules, repl, attrs, pgServers, pgUsers, pgRules, peers, adminVars, mysqlVars,
                   pgsqlVars, statements);
  }

  /* ---- laws ---- */

  lemma MergesUnique<K(!new), V>(a: seq<V>, b: seq<V>, ds: seq<Desired>, of: Desired -> seq<V>, key: V -> K,
                                 less: (K, K) -> bool)
    requires StrictTotalOrder(less) && Merges(a, ds, of, key, less) && Merges(b, ds, of, key, less)
    ensures a == b
  {
    FlatUnique(a, b, MergeAll(Lists(ds, of), key), key, less);
  }

  /** The union is a function of its inputs, although it goes through unordered maps. */
  lemma UnionUnique(ds: seq<Desired>, a: Desired, b: Desired)
    requires IsUnion(ds, a) && IsUnion(ds, b)
    ensures a == b
  {
    StringOrder();
    IdOrder();
    hide StrictTotalOrder, Merges;
    MergesUnique(a.mysqlServers, b.mysqlServers, ds, MySQLServers, MySQLServerKey, Less);
    MergesUnique(a.mysqlUsers, b.mysqlUsers, ds, MySQLUsers, MySQLUserKey, Less);
    MergesUnique(a.mysqlRules, b.mysqlRules, ds, MySQLRules, RuleKey, IdLess);
    MergesUnique(a.replicationHostgroups, b.replicationHostgroups, ds, ReplicationHostgroups, WriterKey, IdLess);
    MergesUnique(a.hostgroupAttributes, b.hostgroupAttributes, ds, Attributes, AttributesKey, IdLess);
    MergesUnique(a.pgsqlServers, b.pgsqlServers, ds, PgSQLServers, PgSQLServerKey, Less);
    MergesUnique(a.pgsqlUsers, b.pgsqlUsers, ds, PgSQLUsers, PgSQLUserKey, Less);
    MergesUnique(a.pgsqlRules, b.pgsqlRules, ds, PgSQLRules, RuleKey, IdLess);
    MergesUnique(a.proxysqlServers, b.proxysqlServers, ds, ProxySQLServers, ProxySQLServerKey, Less);
  }

  lemma MergesAssociative<K(!new), V>(xs: seq<Desired>, ys: seq<Desired>, a: Desired, b: Desired, all: seq<V>,
                                      both: seq<V>,
                                      of: Desired -> seq<V>, key: V -> K, less: (K, K) -> bool)
    requires StrictTotalOrder(less) && Merges(of(a), xs, of, key, less) && Merges(of(b), ys, of, key, less)
    requires Merges(all, xs + ys, of, key, less) && Merges(both, [a, b], of, key, less)
    ensures all == both
  {
    hide StrictTotalOrder, MergeAll, Flat;
    assert Lists(xs + ys, of) == Lists(xs, of) + Lists(ys, of);
    assert Lists([a, b], of) == [of(a), of(b)];
    SectionAssociative(Lists(xs, of), Lists(ys, of), of(a), of(b), all, both, key, less);
  }

  lemma {:induction false} VarsConcat(xs: seq<Desired>, ys: seq<Desired>, of: Desired -> Vars)
    ensures VarsMerged(xs + ys, of) == VarsMerged(xs, of) + VarsMerged(ys, of)
    decreases |ys|
  {
    if ys == [] {
      assert xs + ys == xs;
    } else {
      assert (xs + ys)[..|xs + ys| - 1] == xs + ys[..|ys| - 1];
      VarsConcat(xs, ys[..|ys| - 1], of);
    }
  }

  lemma {:induction false} StatementsConcat(xs: seq<Desired>, ys: seq<Desired>)
    ensures Statements(xs + ys) == Statements(xs) + Statements(ys)
    decreases |ys|
  {
    if ys == [] {
      assert xs + ys == xs;
    } else {
      assert (xs + ys)[..|xs + ys| - 1] == xs + ys[..|ys| - 1];
      StatementsConcat(xs, ys[..|ys| - 1]);
    }
  }

  lemma TwoVars(a: Desired, b: Desired, of: Desired -> Vars)
    ensures VarsMerged([a, b], of) == of(a) + of(b)
  {
    assert [a, b][..1] == [a] && [a][..0] == [];
    assert VarsMerged([a], of) == map[] + of(a);
  }

  /** Union(xs + ys) == Union([Union(xs), Union(ys)]), section by section. */
  lemma UnionAssociative(xs: seq<Desired>, ys: seq<Desired>, a: Desired, b: Desired, all: Desired, both: Desired)
    requires IsUnion(xs, a) && IsUnion(ys, b) && IsUnion(xs + ys, all) && IsUnion([a, b], both)
    ensures all == both
  {
    StringOrder();
    IdOrder();
    hide StrictTotalOrder, Merges, VarsMerged, Statements;
    MergesAssociative(xs, ys, a, b, all.mysqlServers, both.mysqlServers, MySQLServers, MySQLServerKey, Less);
    MergesAssociative(xs, ys, a, b, all.mysqlUsers, both.mysqlUsers, MySQLUsers, MySQLUserKey, Less);
    MergesAssociative(xs, ys, a, b, all.mysqlRules, both.mysqlRules, MySQLRules, RuleKey, IdLess);
    MergesAssociative(xs, ys, a, b, all.replicationHostgroups, both.replicationHostgroups, ReplicationHostgroups,
                      WriterKey, IdLess);
    MergesAssociative(xs, ys, a, b, all.hostgroupAttributes, both.hostgroupAttributes, Attributes, AttributesKey,
                      IdLess);
    MergesAssociative(xs, ys, a, b, all.pgsqlServers, both.pgsqlServers, PgSQLServers, PgSQLServerKey, Less);
    MergesAssociative(xs, ys, a, b, all.pgsqlUsers, both.pgsqlUsers, PgSQLUsers, PgSQLUserKey, Less);
    MergesAssociative(xs, ys, a, b, all.pgsqlRules, both.pgsqlRules, PgSQLRules, RuleKey, IdLess);
    MergesAssociative(xs, ys, a, b, all.proxysqlServers, both.proxysqlServers, ProxySQLServers, ProxySQLServerKey,
                      Less);
    VarsConcat(xs, ys, AdminVars);
    VarsConcat(xs, ys, MySQLVars);
    VarsConcat(xs, ys, PgSQLVars);
    TwoVars(a, b, AdminVars);
    TwoVars(a, b, MySQLVars);
    TwoVars(a, b, PgSQLVars);
    StatementsConcat(xs, ys);
    TwoStatements(a, b);
  }

  lemma TwoStatements(a: Desired, b: Desired)
    ensures Statements([a, b]) == a.sqlStatements + b.sqlStatements
  {
    assert [a, b][..1] == [a] && [a][..0] == [];
    assert Statements([a]) == [] + a.sqlStatements;
  }

  /* ---- the configs of one cluster ---- */

  datatype Config = Config(name: string, cluster: string, deleting: bool, desired: Desired)

  function ConfigName(c: Config): (n: string) { c.name }

  predicate Selected(c: Config, cluster: string, exclude: string) {
    c.cluster == cluster && !c.deleting && c.name != exclude
  }

  /** Names are unique within a namespace. */
  ghost predicate UniqueNames(listed: seq<Config>) {
    forall c, d | c in listed && d in listed && c.name == d.name :: c == d
  }

  /** The selected configs, ascending by name. */
  ghost predicate Ordered(cfgs: seq<Config>, listed: seq<Config>, cluster: string, exclude: string) {
    && (forall i, j | 0 <= i < j < |cfgs| :: Less(cfgs[i].name, cfgs[j].name))
    && (forall c :: c in cfgs <==> c in listed && Selected(c, cluster, exclude))
  }

  function Desireds(cfgs: seq<Config>): (ds: seq<Desired>) {
    seq(|cfgs|, i requires 0 <= i < |cfgs| => cfgs[i].desired)
  }

  /** buildUnionedDesired: filter, sort by name, merge; peers fill an empty peer table. */
  ghost predicate BuildsFor(out: Desired, listed: seq<Config>, cluster: string, exclude: string,
                            peers: seq<ProxySQLServer>) {
    exists cfgs, u :: Ordered(cfgs, listed, cluster, exclude) && IsUnion(Desireds(cfgs), u)
                      && out == if u.proxysqlServers == [] then u.(proxysqlServers := peers) else u
  }

  method SelectConfigs(listed: seq<Config>, cluster: string, exclude: string) returns (cfgs: seq<Config>)
    requires UniqueNames(listed)
    ensures Ordered(cfgs, listed, cluster, exclude)
  {
    var byName: map<string, Config> := map[];
    for i := 0 to |listed|
      invariant forall n | n in byName ::
                byName[n] in listed[..i] && byName[n].name == n && Selected(byName[n], cluster, exclude)
      invariant forall c | c in listed[..i] && Selected(c, cluster, exclude) :: c.name in byName && byName[c.name] == c
    {
      TakeNext(listed, i);
      var c := listed[i];
      if Selected(c, cluster, exclude) {
        byName := byName[c.name := c];
      }
    }
    assert listed[..|listed|] == listed;
    cfgs := InNameOrder(byName);
  }

  /** sort.Slice by distinct name. */
  method InNameOrder(byName: map<string, Config>) returns (cfgs: seq<Config>)
    requires forall n | n in byName :: byName[n].name == n
    ensures forall i, j | 0 <= i < j < |cfgs| :: Less(cfgs[i].name, cfgs[j].name)
    ensures forall c :: c in cfgs <==> c.name in byName && byName[c.name] == c
  {
    var names := SortStrings(byName.Keys);
    cfgs := [];
    for i := 0 to |names|
      invariant |cfgs| == i && forall j | 0 <= j < i :: names[j] in byName && cfgs[j] == byName[names[j]]
    {
      assert names[i] in Elements(names);
      cfgs := cfgs + [byName[names[i]]];
    }
    forall c: Config | c.name in byName && byName[c.name] == c ensures c in cfgs {
      assert c.name in Elements(names);
      var i :| 0 <= i < |names| && names[i] == c.name;
      assert cfgs[i] == c;
    }
  }

  method BuildUnionedDesired(listed: seq<Config>, cluster: string, exclude: string, peers: seq<ProxySQLServer>)
    returns (out: Desired, any: bool)
    requires UniqueNames(listed)
    ensures BuildsFor(out, listed, cluster, exclude, peers)
    ensures any <==> exists c :: c in listed && Selected(c, cluster, exclude)
  {
    hide IsUnion, Selected, UniqueNames;
    var cfgs := SelectConfigs(listed, cluster, exclude);
    var ds := Desireds(cfgs);
    var u := UnionOf(seq(|ds|, i requires 0 <= i < |ds| => Some(ds[i])));
    AllPresent(ds);
    out := if u.proxysqlServers == [] then u.(proxysqlServers := peers) else u;
    any := cfgs != [];
    assert cfgs != [] ==> cfgs[0] in cfgs;
  }

  lemma {:induction false} AllPresent(ds: seq<Desired>)
    ensures Present(seq(|ds|, i requires 0 <= i < |ds| => Some(ds[i]))) == ds
    decreases |ds|
  {
    var os := seq(|ds|, i requires 0 <= i < |ds| => Some(ds[i]));
    if ds != [] {
      var n := |ds| - 1;
      AllPresent(ds[..n]);
      assert os[..n] == seq(n, i requires 0 <= i < n => Some(ds[..n][i]));
    }
  }

  lemma OrderedUnique(a: seq<Config>, b: seq<Config>, listed: seq<Config>, again: seq<Config>, cluster: string,
                      exclude: string)
    requires Ordered(a, listed, cluster, exclude) && Ordered(b, again, cluster, exclude)
    requires UniqueNames(listed) && forall c :: c in listed <==> c in again
    ensures a == b
  {
    StringOrder();
    var ka, kb := KeysOf(a, ConfigName), KeysOf(b, ConfigName);
    forall n ensures n in Elements(ka) <==> n in Elements(kb) {
      if n in Elements(ka) {
        var i :| 0 <= i < |ka| && ka[i] == n;
        assert a[i] in a;
        var j :| 0 <= j < |b| && b[j] == a[i];
        assert kb[j] == n;
      }
      if n in Elements(kb) {
        var i :| 0 <= i < |kb| && kb[i] == n;
        assert b[i] in b;
        var j :| 0 <= j < |a| && a[j] == b[i];
        assert ka[j] == n;
      }
    }
    AscendingUnique(ka, kb, Less);
    hide StrictTotalOrder;
    forall i | 0 <= i < |a| ensures a[i] == b[i] {
      assert a[i] in a && b[i] in b && ka[i] == kb[i];
    }
  }

  /** Every sibling config computes one desired state: the listing order does not matter. */
  lemma SiblingsAgree(a: Desired, b: Desired, listed: seq<Config>, again: seq<Config>, cluster: string,
                      exclude: string, peers: seq<ProxySQLServer>)
    requires UniqueNames(listed) && multiset(listed) == multiset(again)
    requires BuildsFor(a, listed, cluster, exclude, peers) && BuildsFor(b, again, cluster, exclude, peers)
    ensures a == b
  {
    hide IsUnion;
    assert forall c :: c in listed <==> c in multiset(listed);
    assert forall c :: c in again <==> c in multiset(again);
    var ca, ua :| Ordered(ca, listed, cluster, exclude) && IsUnion(Desireds(ca), ua)
                  && a == if ua.proxysqlServers == [] then ua.(proxysqlServers := peers) else ua;
    var cb, ub :| Ordered(cb, again, cluster, exclude) && IsUnion(Desireds(cb), ub)
                  && b == if ub.proxysqlServers == [] then ub.(proxysqlServers := peers) else ub;
    OrderedUnique(ca, cb, listed, again, cluster, exclude);
    UnionUnique(Desireds(ca), ua, ub);
  }
}
