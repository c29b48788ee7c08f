/** Canonical server keys: the strings on which drift detection compares desired and
    runtime servers modulo replication class. */
module ServerKeys {
  import opened Text
  import opened Replication
  import opened Desired

  const MYSQL_PORT: Int32 := 3306
  const PGSQL_PORT: Int32 := 5432

  datatype Place = Place(hostgroup: Int32, host: string, port: Int32)

  function PortOr(port: Int32, default: Int32): (p: Int32) {
    if port == 0 then default else port
  }

  function MySQLPlace(s: MySQLServer): (p: Place) {
    Place(s.hostgroup, s.hostname, PortOr(s.port, MYSQL_PORT))
  }

  function PgSQLPlace(s: PgSQLServer): (p: Place) {
    Place(s.hostgroup, s.hostname, PortOr(s.port, PGSQL_PORT))
  }

  /** The "hostgroup:hostname:port" identity of a row. */
  function Display(p: Place): (k: string) {
    HostKey(p.hostgroup, p.host, p.port)
  }

  type Classes = map<Int32, Int32>

  /** canonServerKey. */
  function CanonServerKey(hg: Int32, hostPort: string, classes: Classes): (k: string) {
    if hg in classes then "rhg" + (Itoa(classes[hg]) + [':'] + hostPort) else Itoa(hg) + [':'] + hostPort
  }

  function Canon(p: Place, classes: Classes): (k: string) {
    CanonServerKey(p.hostgroup, HostPort(p.host, p.port), classes)
  }

  /** The canonical key of a "hostgroup:hostname:port" text, of which only the hostgroup is parsed. */
  function TextCanon(k: string, classes: Classes): (c: string) {
    if classes == map[] then k
    else
      var i := IndexOf(k, ':');
      if 0 < i < |k| then
        match ParseInt32(k[..i])
        case Some(hg) => if MIN_INT32 <= hg <= MAX_INT32 then CanonServerKey(hg, k[i + 1..], classes) else k
        case None => k
      else k
  }

  /** Parsing the text of a row back gives the canonical key of the row. */
  lemma TextCanonOfRow(p: Place, classes: Classes)
    ensures TextCanon(Display(p), classes) == Canon(p, classes)
  {
    var hg, tail := Itoa(p.hostgroup), HostPort(p.host, p.port);
    ParseItoa(p.hostgroup);
    assert ':' !in hg;
    hide Itoa, ParseInt32, HostPort, IndexOf;
    IndexOfCut(hg, ':', tail);
    var k := hg + [':'] + tail;
    assert k[..|hg|] == hg && k[|hg| + 1..] == tail;
  }

  ghost predicate SameClass(a: Int32, b: Int32, classes: Classes) {
    a == b || (a in classes && b in classes && classes[a] == classes[b])
  }

  lemma ItoaFirst(n: int)
    ensures |Itoa(n)| > 0 && Itoa(n)[0] != 'r'
  {
  }

  lemma KeyFirst(s: string, hostPort: string)
    requires |s| > 0
    ensures (s + [':'] + hostPort)[0] == s[0]
  {
  }

  lemma PrefixedFirst(s: string)
    ensures ("rhg" + s)[0] == 'r' && ("rhg" + s)[3..] == s
  {
  }

  lemma PlainCanonInjective(m: int, x: string, n: int, y: string)
    requires Itoa(m) + [':'] + x == Itoa(n) + [':'] + y
    ensures m == n && x == y
  {
    assert ':' !in Itoa(m) && ':' !in Itoa(n);
    hide Itoa;
    CutUnique(Itoa(m), x, Itoa(n), y, ':');
    ItoaInjective(m, n);
  }

  /** No literal hostgroup id produces the class prefix, and no host name blurs the parts. */
  lemma CanonServerKeyInjective(g: Int32, x: string, h: Int32, y: string, classes: Classes)
    requires CanonServerKey(g, x, classes) == CanonServerKey(h, y, classes)
    ensures x == y && SameClass(g, h, classes)
  {
    hide Itoa;
    var gi := if g in classes then classes[g] else g;
    var hi := if h in classes then classes[h] else h;
    var gs, hs := Itoa(gi) + [':'] + x, Itoa(hi) + [':'] + y;
    ItoaFirst(gi);
    ItoaFirst(hi);
    KeyFirst(Itoa(gi), x);
    KeyFirst(Itoa(hi), y);
    PrefixedFirst(gs);
    PrefixedFirst(hs);
    assert gs == hs && (g in classes <==> h in classes);
    PlainCanonInjective(gi, x, hi, y);
  }

  lemma CoveredEnds(pairs: Topology, a: Int32, b: Int32)
    requires Connected(pairs, a, b) && a != b
    ensures a in Covered(pairs)
  {
    var p :| Joins(pairs, p, a, b);
    assert Edge(pairs, p[0], p[1]);
    var h :| h in pairs && ((h.writer == p[0] && h.reader == p[1]) || (h.writer == p[1] && h.reader == p[0]));
  }

  lemma SameClassConnected(classes: Classes, pairs: Topology, a: Int32, b: Int32)
    requires Exact(classes, pairs)
    ensures SameClass(a, b, classes) <==> Connected(pairs, a, b)
  {
    if a == b {
      ConnectedReflexive(pairs, a);
    } else if Connected(pairs, a, b) {
      CoveredEnds(pairs, a, b);
      ConnectedBack(pairs, a, b);
      CoveredEnds(pairs, b, a);
      hide Connected, Covered;
    } else {
      hide Connected, Covered;
    }
  }

  /** The same server: one host and port, in hostgroups reachable through shared pairs. */
  ghost predicate SameServer(pairs: Topology, p: Place, q: Place) {
    p.host == q.host && p.port == q.port && Connected(pairs, p.hostgroup, q.hostgroup)
  }

  /** Canonical keys agree exactly for the rows of one server. */
  lemma CanonExact(classes: Classes, pairs: Topology, p: Place, q: Place)
    requires Exact(classes, pairs)
    ensures Canon(p, classes) == Canon(q, classes) <==> SameServer(pairs, p, q)
  {
    SameClassConnected(classes, pairs, p.hostgroup, q.hostgroup);
    hide Exact, Connected, HostPort, Itoa;
    if Canon(p, classes) == Canon(q, classes) {
      CanonServerKeyInjective(p.hostgroup, HostPort(p.host, p.port), q.hostgroup, HostPort(q.host, q.port), classes);
      HostPortInjective(p.host, p.port, q.host, q.port);
    }
  }

  lemma DisplayInjective(p: Place, q: Place)
    requires Display(p) == Display(q)
    ensures p == q
  {
    hide HostKey;
    HostKeyInjective(p.hostgroup, p.host, p.port, q.hostgroup, q.host, q.port);
  }
}
