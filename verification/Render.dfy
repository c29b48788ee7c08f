/** The bootstrap cnf printer: validation of user variables, the overlay over the operator's
    defaults, and the rendered text - together with the proof that the scanner reads back
    exactly what was meant. */
module Render {
  import opened Text
  import opened Sorting
  import Cnf

  /* ---- validation ---- */

  const RESERVED: set<string> := {
    "admin-admin_credentials", "admin-mysql_ifaces", "mysql-interfaces", "pgsql-interfaces",
    "mysql-monitor_username", "mysql-monitor_password", "pgsql-monitor_username", "pgsql-monitor_password",
    "admin-cluster_username", "admin-cluster_password",
    "admin-restapi_enabled", "admin-restapi_port", "admin-web_enabled", "admin-web_port",
    "mysql-ssl_p2s_ca", "mysql-ssl_p2s_cert", "mysql-ssl_p2s_key",
    "pgsql-ssl_p2s_ca", "pgsql-ssl_p2s_cert", "pgsql-ssl_p2s_key"
  }

  function TrimPrefix(s: string, prefix: string): (t: string) {
    if prefix <= s then s[|prefix|..] else s
  }

  predicate SafeChar(c: char) {
    c != '"' && c != '\\' && c >= '\U{0020}' && c != '\U{007F}'
  }

  predicate ValidVar(k: string, v: string, prefix: string) {
    k !in RESERVED && Cnf.IsKey(TrimPrefix(k, prefix)) && forall i | 0 <= i < |v| :: SafeChar(v[i])
  }

  predicate ValidVars(vars: map<string, string>, prefix: string) {
    forall k | k in vars :: ValidVar(k, vars[k], prefix)
  }

  method ValidateCnfVars(vars: map<string, string>, prefix: string) returns (ok: bool)
    ensures ok == ValidVars(vars, prefix)
  {
    var todo := vars.Keys;
    while todo != {}
      invariant todo <= vars.Keys
      invariant forall k | k in vars && k !in todo :: ValidVar(k, vars[k], prefix)
      decreases todo
    {
      var k :| k in todo;
      todo := todo - {k};
      if k in RESERVED || !Cnf.IsKey(TrimPrefix(k, prefix)) {
        return false;
      }
      for i := 0 to |vars[k]|
        invariant forall j | 0 <= j < i :: SafeChar(vars[k][j])
      {
        if !SafeChar(vars[k][i]) {
          return false;
        }
      }
    }
    return true;
  }

  /* ---- sections ---- */

  datatype Entry = Entry(name: string, value: string)

  /** One variables section: the lines the template writes itself, the defaults, and the user's values
      laid over them under their bare names. */
  datatype Section = Section(prefix: string, literals: seq<Entry>, defaults: map<string, string>,
                             overlay: map<string, string>)

  /** What stripping the prefix can make of the user's variables: where two spellings share a bare
      name, the map iteration decides whose value stays. */
  ghost predicate Strips(overlay: map<string, string>, user: map<string, string>, prefix: string) {
    && (forall k | k in user :: TrimPrefix(k, prefix) in overlay)
    && (forall n | n in overlay :: exists k :: k in user && TrimPrefix(k, prefix) == n && overlay[n] == user[k])
  }

  /** The admission rule of the API: every key carries its section's prefix. */
  predicate Prefixed(user: map<string, string>, prefix: string) {
    forall k | k in user :: prefix <= k
  }

  function Merged(s: Section): (vars: map<string, string>) {
    s.defaults + s.overlay
  }

  ghost function EntriesOf(vars: map<string, string>): (es: seq<Entry>)
    ensures |es| == |SortedStrings(vars.Keys)|
    ensures forall i | 0 <= i < |es| ::
            es[i].name == SortedStrings(vars.Keys)[i] && es[i].name in vars && es[i].value == vars[es[i].name]
  {
    var ks := SortedStrings(vars.Keys);
    assert forall i | 0 <= i < |ks| :: ks[i] in Elements(ks);
    seq(|ks|, i requires 0 <= i < |ks| => Entry(ks[i], vars[ks[i]]))
  }

  ghost function Entries(s: Section): (es: seq<Entry>) {
    s.literals + EntriesOf(Merged(s))
  }

  /** mergedCnfVars: overlay the user's values, whatever order the map delivers them in, and sort by
      bare name. */
  method MergedCnfVars(defaults: map<string, string>, user: map<string, string>, prefix: string)
    returns (out: seq<Entry>, ghost overlay: map<string, string>)
    ensures Strips(overlay, user, prefix) && out == EntriesOf(defaults + overlay)
  {
    hide EntriesOf, Strips;
    var merged;
    merged, overlay := Overlaid(defaults, user, prefix);
    out := SortedEntries(merged);
  }

  method Overlaid(defaults: map<string, string>, user: map<string, string>, prefix: string)
    returns (merged: map<string, string>, ghost overlay: map<string, string>)
    ensures Strips(overlay, user, prefix) && merged == defaults + overlay
  {
    assert Strips(map[], map[], prefix);
    hide Strips, TrimPrefix;
    merged, overlay := defaults, map[];
    var todo := user.Keys;
    PartEnds(user);
    hide Part;
    assert user.Keys - todo == {};
    while todo != {}
      invariant todo <= user.Keys && merged == defaults + overlay
      invariant Strips(overlay, Part(user, user.Keys - todo), prefix)
      decreases todo
    {
      var k :| k in todo;
      ghost var done := user.Keys - todo;
      todo := todo - {k};
      StripsNext(overlay, Part(user, done), prefix, k, user[k]);
      PartNext(user, done, k);
      OverlayNext(defaults, overlay, TrimPrefix(k, prefix), user[k]);
      assert user.Keys - todo == done + {k};
      merged := merged[TrimPrefix(k, prefix) := user[k]];
      overlay := overlay[TrimPrefix(k, prefix) := user[k]];
    }
    assert user.Keys - todo == user.Keys;
  }

  /** The variables visited so far. */
  ghost function Part(user: map<string, string>, ks: set<string>): (part: map<string, string>) {
    map k | k in user && k in ks :: user[k]
  }

  lemma PartEnds(user: map<string, string>)
    ensures Part(user, {}) == map[] && Part(user, user.Keys) == user
  {
  }

  lemma PartNext(user: map<string, string>, ks: set<string>, k: string)
    requires k in user && k !in ks
    ensures Part(user, ks)[k := user[k]] == Part(user, ks + {k}) && k !in Part(user, ks)
  {
  }

  lemma OverlayNext(a: map<string, string>, b: map<string, string>, k: string, v: string)
    ensures (a + b)[k := v] == a + b[k := v]
  {
  }

  lemma StripsNext(overlay: map<string, string>, done: map<string, string>, prefix: string, k: string, v: string)
    requires Strips(overlay, done, prefix) && k !in done
    ensures Strips(overlay[TrimPrefix(k, prefix) := v], done[k := v], prefix)
  {
    hide TrimPrefix;
    var bare := TrimPrefix(k, prefix);
    var after, all := overlay[bare := v], done[k := v];
    forall n | n in after ensures exists l :: l in all && TrimPrefix(l, prefix) == n && after[n] == all[l] {
      if n == bare {
        assert k in all && all[k] == v;
      } else {
        var l :| l in done && TrimPrefix(l, prefix) == n && overlay[n] == done[l];
        assert l in all && all[l] == done[l];
      }
    }
  }

  method SortedEntries(vars: map<string, string>) returns (out: seq<Entry>)
    ensures out == EntriesOf(vars)
  {
    var keys := SortStrings(vars.Keys);
    ghost var es := EntriesOf(vars);
    out := [];
    for i := 0 to |keys|
      invariant out == es[..i]
    {
      assert es[i] == Entry(keys[i], vars[keys[i]]);
      TakeNext(es, i);
      out := out + [Entry(keys[i], vars[keys[i]])];
    }
  }

  lemma Trimmed(k: string, prefix: string, n: string)
    ensures TrimPrefix(k, prefix) == n <==> k == prefix + n || (k == n && !(prefix <= n))
  {
    Parts(prefix, n);
    if prefix <= k { assert k == prefix + k[|prefix|..]; }
  }

  /** A bare name is present exactly when its full name was given, or the bare name itself. */
  lemma StripsExact(overlay: map<string, string>, user: map<string, string>, prefix: string, n: string)
    requires Strips(overlay, user, prefix)
    ensures n in overlay <==> prefix + n in user || (n in user && !(prefix <= n))
    ensures n in overlay && Prefixed(user, prefix) ==> overlay[n] == user[prefix + n]
  {
    Trimmed(prefix + n, prefix, n);
    Trimmed(n, prefix, n);
    if n in overlay {
      var k :| k in user && TrimPrefix(k, prefix) == n && overlay[n] == user[k];
      Trimmed(k, prefix, n);
    }
  }

  /** No two spellings of one bare name carry different values. */
  ghost predicate OneSpelling(user: map<string, string>, prefix: string) {
    forall k, l | k in user && l in user && TrimPrefix(k, prefix) == TrimPrefix(l, prefix) :: user[k] == user[l]
  }

  lemma StripsDetermined(a: map<string, string>, b: map<string, string>, user: map<string, string>, prefix: string)
    requires OneSpelling(user, prefix) && Strips(a, user, prefix) && Strips(b, user, prefix)
    ensures a == b
  {
    hide TrimPrefix;
    forall n | n in a ensures n in b && a[n] == b[n] {
      var k :| k in user && TrimPrefix(k, prefix) == n && a[n] == user[k];
      var l :| l in user && TrimPrefix(l, prefix) == n && b[n] == user[l];
    }
    forall n | n in b ensures n in a {
      var l :| l in user && TrimPrefix(l, prefix) == n && b[n] == user[l];
    }
  }

  /** The merge is determined by its inputs if and only if no two spellings disagree. */
  lemma StripsUniqueExactly(user: map<string, string>, prefix: string, some: map<string, string>)
    requires Strips(some, user, prefix)
    ensures (forall a, b | Strips(a, user, prefix) && Strips(b, user, prefix) :: a == b) <==> OneSpelling(user, prefix)
  {
    if OneSpelling(user, prefix) {
      forall a, b | Strips(a, user, prefix) && Strips(b, user, prefix)
        ensures a == b { StripsDetermined(a, b, user, prefix); }
    } else {
      var k, l :| k in user && l in user && TrimPrefix(k, prefix) == TrimPrefix(l, prefix) && user[k] != user[l];
      Respelled(some, user, prefix, k);
      Respelled(some, user, prefix, l);
      var n := TrimPrefix(k, prefix);
      assert some[n := user[k]][n] != some[n := user[l]][n];
    }
  }

  lemma Respelled(overlay: map<string, string>, user: map<string, string>, prefix: string, k: string)
    requires Strips(overlay, user, prefix) && k in user
    ensures Strips(overlay[TrimPrefix(k, prefix) := user[k]], user, prefix)
  {
    hide TrimPrefix;
    var after := overlay[TrimPrefix(k, prefix) := user[k]];
    forall n | n in after ensures exists l :: l in user && TrimPrefix(l, prefix) == n && after[n] == user[l] {
      if n != TrimPrefix(k, prefix) {
        var l :| l in user && TrimPrefix(l, prefix) == n && overlay[n] == user[l];
      }
    }
  }

  /** Under the admission rule no two spellings disagree, which determines the merge. */
  lemma PrefixedOneSpelling(user: map<string, string>, prefix: string)
    requires Prefixed(user, prefix)
    ensures OneSpelling(user, prefix)
    ensures forall a, b | Strips(a, user, prefix) && Strips(b, user, prefix) :: a == b
  {
    forall k, l | k in user && l in user && TrimPrefix(k, prefix) == TrimPrefix(l, prefix) ensures k == l {
      assert k == prefix + k[|prefix|..] && l == prefix + l[|prefix|..];
    }
    hide TrimPrefix, Strips, OneSpelling;
    forall a, b | Strips(a, user, prefix) && Strips(b, user, prefix)
      ensures a == b { StripsDetermined(a, b, user, prefix); }
  }

  /* ---- the text ---- */

  function EntryLine(e: Entry): (line: string) {
    "  " + (e.name + ("=" + ("\"" + (e.value + "\""))))
  }

  function EntryLines(es: seq<Entry>): (lines: seq<string>)
    ensures |lines| == |es| && forall i | 0 <= i < |es| :: lines[i] == EntryLine(es[i])
  {
    seq(|es|, i requires 0 <= i < |es| => EntryLine(es[i]))
  }

  /** A blank line, the opening line, the braces and the variables between them. */
  ghost function SectionLines(s: Section): (lines: seq<string>) {
    ["", s.prefix + "_variables=", "{"] + EntryLines(Entries(s)) + ["}"]
  }

  ghost function AllSectionLines(ss: seq<Section>): (lines: seq<string>) {
    if ss == [] then [] else AllSectionLines(ss[..|ss| - 1]) + SectionLines(ss[|ss| - 1])
  }

  /* ---- what the scanner makes of it ---- */

  ghost predicate GoodEntry(e: Entry) {
    Cnf.IsKey(e.name) && '\n' !in e.value
  }

  /** The bare names of a section's lines with their values, the last line winning. */
  ghost function EntryMap(es: seq<Entry>): (m: map<string, string>) {
    if es == [] then map[] else EntryMap(es[..|es| - 1])[es[|es| - 1].name := es[|es| - 1].value]
  }

  /** Full names for bare ones. */
  ghost function Qualified(p: string, m: map<string, string>): (q: map<string, string>) {
    assert forall a, b | a in m && b in m && p + "-" + a == p + "-" + b :: a == b by {
      forall a, b | a in m && b in m && p + "-" + a == p + "-" + b ensures a == b {
        Parts(p + "-", a);
        Parts(p + "-", b);
      }
    }
    map n | n in m :: p + "-" + n := m[n]
  }

  lemma QualifiedExact(p: string, m: map<string, string>, n: string)
    ensures p + "-" + n in Qualified(p, m) <==> n in m
    ensures p + "-" + n in Qualified(p, m) ==> Qualified(p, m)[p + "-" + n] == m[n]
  {
    var q := Qualified(p, m);
    if p + "-" + n in q {
      var l :| l in m && p + "-" + l == p + "-" + n && q[p + "-" + n] == m[l];
      Parts(p + "-", l);
      Parts(p + "-", n);
    }
  }

  lemma QualifiedNames(p: string, m: map<string, string>, k: string) returns (n: string)
    requires k in Qualified(p, m)
    ensures k == p + "-" + n && n in m
  {
    n :| n in m && p + "-" + n == k;
  }

  lemma QualifiedNext(p: string, m: map<string, string>, n: string, v: string)
    ensures Qualified(p, m[n := v]) == Qualified(p, m)[p + "-" + n := v]
  {
    hide Qualified;
    var a := Qualified(p, m[n := v]);
    var b := Qualified(p, m)[p + "-" + n := v];
    QualifiedExact(p, m[n := v], n);
    forall k | k in a ensures k in b && b[k] == a[k] {
      var l := QualifiedNames(p, m[n := v], k);
      QualifiedExact(p, m[n := v], l);
      QualifiedExact(p, m, l);
      Parts(p + "-", l);
      Parts(p + "-", n);
    }
    forall k | k in b ensures k in a {
      if k in Qualified(p, m) {
        var l := QualifiedNames(p, m, k);
        QualifiedExact(p, m[n := v], l);
        QualifiedExact(p, m, l);
      }
    }
  }

  lemma EntryScanned(p: string, e: Entry)
    requires GoodEntry(e)
    ensures Cnf.Classify(Cnf.Inside(p), EntryLine(e)) ==
              Cnf.Var(EntryLine(e), "  ", e.name, p + "-" + e.name, "\"" + (e.value + "\""))
    ensures Cnf.NextSection(Cnf.Inside(p), EntryLine(e)) == Cnf.Inside(p)
    ensures Cnf.Unquote("\"" + (e.value + "\"")) == e.value
    ensures '\n' !in EntryLine(e)
  {
    hide Cnf.MatchVar;
    var quoted := "\"" + (e.value + "\"");
    assert quoted + "" == quoted;
    assert Cnf.Matches(EntryLine(e), Cnf.VarMatch("  ", e.name, quoted), "");
    Cnf.MatchesFound(EntryLine(e), Cnf.VarMatch("  ", e.name, quoted), "");
    assert |EntryLine(e)| > 1;
    assert quoted[1..|quoted| - 1] == e.value;
    NotInConcat('\n', e.value, "\"");
    NotInConcat('\n', "\"", e.value + "\"");
    NotInConcat('\n', "=", quoted);
    assert '\n' !in e.name;
    NotInConcat('\n', e.name, "=" + quoted);
    NotInConcat('\n', "  ", e.name + ("=" + quoted));
  }

  lemma {:induction false} EntriesScanned(p: string, es: seq<Entry>)
    requires forall i | 0 <= i < |es| :: GoodEntry(es[i])
    ensures Cnf.SettingsOf(Cnf.Scan(Cnf.Inside(p), EntryLines(es))) == Qualified(p, EntryMap(es))
    ensures Cnf.SectionAt(Cnf.Inside(p), EntryLines(es), |es|) == Cnf.Inside(p)
    decreases |es|
  {
    hide EntryLine, Cnf.Classify, Cnf.NextSection, Qualified, GoodEntry;
    if es == [] {
      assert Qualified(p, EntryMap(es)) == map[] by { NothingQualified(p); }
    } else {
      var n := |es| - 1;
      var lines, e := EntryLines(es), es[n];
      EntriesScanned(p, es[..n]);
      assert lines[..n] == EntryLines(es[..n]);
      Cnf.ScanPrefix(Cnf.Inside(p), lines, n);
      Cnf.ScanAt(Cnf.Inside(p), lines, n);
      EntryScanned(p, e);
      QualifiedNext(p, EntryMap(es[..n]), e.name, e.value);
    }
  }

  lemma NothingQualified(p: string)
    ensures Qualified(p, map[]) == map[]
  {
  }

  /* ---- scanning in pieces ---- */

  lemma {:induction false} ScanConcat(at: Cnf.Section, a: seq<string>, b: seq<string>)
    ensures Cnf.Scan(at, a + b) == Cnf.Scan(at, a) + Cnf.Scan(Cnf.SectionAt(at, a, |a|), b)
    ensures Cnf.SectionAt(at, a + b, |a + b|) == Cnf.SectionAt(Cnf.SectionAt(at, a, |a|), b, |b|)
    decreases |a|
  {
    hide Cnf.Classify, Cnf.NextSection;
    if a == [] {
      assert a + b == b;
    } else {
      assert (a + b)[1..] == a[1..] + b;
      ScanConcat(Cnf.NextSection(at, a[0]), a[1..], b);
    }
  }

  lemma {:induction false} VarsConcat(a: seq<Cnf.Line>, b: seq<Cnf.Line>)
    ensures Cnf.SettingsOf(a + b) == Cnf.SettingsOf(a) + Cnf.SettingsOf(b)
    decreases |b|
  {
    hide Cnf.Unquote;
    if b == [] {
      assert a + b == a;
    } else {
      var n := |b| - 1;
      assert (a + b)[..|a| + n] == a + b[..n];
      VarsConcat(a, b[..n]);
    }
  }

  /** Lines outside every section: they carry no variable and open no section. */
  ghost predicate Inert(lines: seq<string>) {
    forall i | 0 <= i < |lines| :: Cnf.SectionStart(lines[i]).None?
  }

  lemma {:induction false} InertScanned(lines: seq<string>)
    requires Inert(lines)
    ensures Cnf.SettingsOf(Cnf.Scan(Cnf.Outside, lines)) == map[]
    ensures Cnf.SectionAt(Cnf.Outside, lines, |lines|) == Cnf.Outside
    decreases |lines|
  {
    if lines != [] {
      var n := |lines| - 1;
      InertScanned(lines[..n]);
      Cnf.ScanPrefix(Cnf.Outside, lines, n);
      Cnf.ScanAt(Cnf.Outside, lines, n);
    }
  }

  lemma SectionScanned(s: Section)
    requires Cnf.IsDomain(s.prefix)
    requires forall i | 0 <= i < |Entries(s)| :: GoodEntry(Entries(s)[i])
    ensures Cnf.SettingsOf(Cnf.Scan(Cnf.Outside, SectionLines(s))) == Qualified(s.prefix, EntryMap(Entries(s)))
    ensures Cnf.SectionAt(Cnf.Outside, SectionLines(s), |SectionLines(s)|) == Cnf.Outside
  {
    hide Entries, Qualified, GoodEntry;
    var open, body := ["", s.prefix + "_variables=", "{"], EntryLines(Entries(s));
    OpenScanned(s.prefix);
    EntriesScanned(s.prefix, Entries(s));
    CloseScanned(s.prefix);
    var inside := Cnf.Inside(s.prefix);
    ScanConcat(Cnf.Outside, open, body);
    ScanConcat(Cnf.Outside, open + body, ["}"]);
    VarsConcat(Cnf.Scan(Cnf.Outside, open), Cnf.Scan(inside, body));
    VarsConcat(Cnf.Scan(Cnf.Outside, open + body), Cnf.Scan(inside, ["}"]));
    var q := Qualified(s.prefix, EntryMap(Entries(s)));
    assert map[] + q == q && q + map[] == q;
  }

  lemma OpenScanned(p: string)
    requires Cnf.IsDomain(p)
    ensures var open := ["", p + "_variables=", "{"];
            && Cnf.SettingsOf(Cnf.Scan(Cnf.Outside, open)) == map[]
            && Cnf.SectionAt(Cnf.Outside, open, 3) == Cnf.Inside(p)
  {
    hide Cnf.Unquote;
    var open := ["", p + "_variables=", "{"];
    assert Cnf.SectionStart(open[0]) == None;
    assert "admin" + "_variables=" == "admin_variables=" && "mysql" + "_variables=" == "mysql_variables="
           && "pgsql" + "_variables=" == "pgsql_variables=";
    assert Cnf.SectionStart(open[1]) == Some(p);
    assert Cnf.MatchVar("{") == None;
    Cnf.ScanAt(Cnf.Outside, open, 0);
    Cnf.ScanAt(Cnf.Outside, open, 1);
    Cnf.ScanAt(Cnf.Outside, open, 2);
    var ls := Cnf.Scan(Cnf.Outside, open);
    PlainScanned(ls);
  }

  lemma {:induction false} PlainScanned(ls: seq<Cnf.Line>)
    requires forall i | 0 <= i < |ls| :: ls[i].Plain?
    ensures Cnf.SettingsOf(ls) == map[]
    decreases |ls|
  {
    if ls != [] { PlainScanned(ls[..|ls| - 1]); }
  }

  lemma CloseScanned(p: string)
    ensures Cnf.SettingsOf(Cnf.Scan(Cnf.Inside(p), ["}"])) == map[]
    ensures Cnf.SectionAt(Cnf.Inside(p), ["}"], 1) == Cnf.Outside
  {
    Cnf.ScanAt(Cnf.Inside(p), ["}"], 0);
    PlainScanned(Cnf.Scan(Cnf.Inside(p), ["}"]));
  }

  /* ---- each key exactly once ---- */

  ghost predicate Distinct(es: seq<Entry>) {
    forall i, j | 0 <= i < j < |es| :: es[i].name != es[j].name
  }

  ghost function Names(es: seq<Entry>): (names: set<string>) {
    set i | 0 <= i < |es| :: es[i].name
  }

  lemma EntriesOfNames(vars: map<string, string>)
    ensures Names(EntriesOf(vars)) == vars.Keys && Distinct(EntriesOf(vars))
  {
    var ks, es := SortedStrings(vars.Keys), EntriesOf(vars);
    forall k | k in vars ensures k in Names(es) {
      assert k in Elements(ks);
      var i :| 0 <= i < |ks| && ks[i] == k;
      assert es[i].name == k;
    }
    forall i, j | 0 <= i < j < |es| ensures es[i].name != es[j].name {
      LessIrreflexive(ks[i]);
      assert Less(ks[i], ks[j]);
    }
  }

  lemma NamesAt(es: seq<Entry>, n: string) returns (i: nat)
    requires n in Names(es)
    ensures i < |es| && es[i].name == n
  {
    i :| 0 <= i < |es| && es[i].name == n;
  }

  lemma DistinctConcat(a: seq<Entry>, b: seq<Entry>)
    requires Distinct(a) && Distinct(b) && Names(a) !! Names(b)
    ensures Distinct(a + b)
  {
    var all := a + b;
    forall i, j | 0 <= i < j < |all| ensures all[i].name != all[j].name {
      if i < |a| <= j {
        assert a[i].name in Names(a) && b[j - |a|].name in Names(b);
      }
    }
  }

  /** A section repeats no key exactly when nothing merged bears the name of a literal line. */
  lemma KeysOnceExactly(s: Section)
    requires Distinct(s.literals)
    ensures Distinct(Entries(s)) <==> Names(s.literals) !! Merged(s).Keys
  {
    var lits, es := s.literals, EntriesOf(Merged(s));
    EntriesOfNames(Merged(s));
    hide Merged, EntriesOf, Names;
    if n :| n in Names(lits) && n in Merged(s).Keys {
      var i := NamesAt(lits, n);
      var j := NamesAt(es, n);
      assert Entries(s)[i].name == Entries(s)[|lits| + j].name;
    } else {
      DistinctConcat(lits, es);
    }
  }

  /** Of accepted variables, a reserved name is reached exactly by its bare spelling. */
  lemma ReservedExactly(overlay: map<string, string>, user: map<string, string>, prefix: string, n: string)
    requires Strips(overlay, user, prefix) && ValidVars(user, prefix) && prefix + n in RESERVED
    ensures n in overlay <==> n in user && !(prefix <= n)
  {
    hide RESERVED;
    StripsExact(overlay, user, prefix, n);
    assert prefix + n in user ==> ValidVar(prefix + n, user[prefix + n], prefix);
  }

  /** So accepted variables under the admission rule never collide with a reserved line. */
  lemma AcceptedAvoidReserved(overlay: map<string, string>, user: map<string, string>, prefix: string, n: string)
    requires Strips(overlay, user, prefix) && Prefixed(user, prefix) && ValidVars(user, prefix)
             && prefix + n in RESERVED
    ensures n !in overlay
  {
    hide RESERVED, ValidVars, Strips;
    ReservedExactly(overlay, user, prefix, n);
  }

  /** A section with reserved literal lines, over defaults of other names, repeats a key if and only if
      an accepted variable is the bare name of a literal line. */
  lemma RepeatsExactly(s: Section, user: map<string, string>)
    requires Strips(s.overlay, user, s.prefix + "-") && ValidVars(user, s.prefix + "-")
    requires Distinct(s.literals) && Names(s.literals) !! s.defaults.Keys
    requires forall n | n in Names(s.literals) :: s.prefix + "-" + n in RESERVED
    ensures !Distinct(Entries(s)) <==> exists n :: n in Names(s.literals) && n in user && !(s.prefix + "-" <= n)
  {
    hide RESERVED, ValidVars, Strips, Names, Distinct, Entries;
    KeysOnceExactly(s);
    forall n | n in Names(s.literals) ensures n in Merged(s).Keys <==> n in user && !(s.prefix + "-" <= n) {
      ReservedExactly(s.overlay, user, s.prefix + "-", n);
    }
  }

  /** Such a variable passes validation. */
  lemma BareKeyAccepted(value: string)
    requires forall i | 0 <= i < |value| :: SafeChar(value[i])
    ensures ValidVars(map["admin_credentials" := value], "admin-") && !("admin-" <= "admin_credentials")
  {
    var k := "admin_credentials";
    assert k[5] != "admin-"[5];
    assert k !in RESERVED;
    assert Cnf.IsKey(k);
  }

  lemma {:induction false} EntryMapAt(es: seq<Entry>, i: nat)
    requires Distinct(es) && i < |es|
    ensures es[i].name in EntryMap(es) && EntryMap(es)[es[i].name] == es[i].value
    decreases |es|
  {
    var n := |es| - 1;
    if i < n {
      assert es[i].name != es[n].name;
      EntryMapAt(es[..n], i);
    }
  }

  lemma {:induction false} EntryMapKeys(es: seq<Entry>)
    ensures EntryMap(es).Keys == Names(es)
    decreases |es|
  {
    if es != [] {
      var n := |es| - 1;
      EntryMapKeys(es[..n]);
      assert Names(es) == Names(es[..n]) + {es[n].name} by {
        forall k ensures k in Names(es) <==> k in Names(es[..n]) || k == es[n].name {
          if k in Names(es) { var i :| 0 <= i < |es| && es[i].name == k; assert i < n ==> es[..n][i].name == k; }
          if k in Names(es[..n]) { var i :| 0 <= i < n && es[..n][i].name == k; assert es[i].name == k; }
        }
      }
    }
  }

  lemma {:induction false} EntryMapConcat(a: seq<Entry>, b: seq<Entry>)
    ensures EntryMap(a + b) == EntryMap(a) + EntryMap(b)
    decreases |b|
  {
    if b == [] {
      assert a + b == a;
    } else {
      var n := |b| - 1;
      assert (a + b)[..|a + b| - 1] == a + b[..n];
      EntryMapConcat(a, b[..n]);
    }
  }

  lemma EntryMapOf(vars: map<string, string>)
    ensures EntryMap(EntriesOf(vars)) == vars
  {
    var es := EntriesOf(vars);
    EntriesOfNames(vars);
    EntryMapKeys(es);
    hide EntryMap, EntriesOf;
    forall k | k in vars ensures EntryMap(es)[k] == vars[k] {
      assert k in Names(es);
      var i :| 0 <= i < |es| && es[i].name == k;
      EntryMapAt(es, i);
      EntriesOfAt(vars, i);
    }
  }

  /** The lines of a section say: the literal lines, overlaid by the merged variables. */
  lemma SectionMap(s: Section)
    ensures EntryMap(Entries(s)) == EntryMap(s.literals) + Merged(s)
  {
    hide Merged, EntryMap, EntriesOf;
    EntryMapConcat(s.literals, EntriesOf(Merged(s)));
    EntryMapOf(Merged(s));
  }

  lemma EntriesOfAt(vars: map<string, string>, i: nat)
    requires i < |EntriesOf(vars)|
    ensures EntriesOf(vars)[i].name in vars && EntriesOf(vars)[i].value == vars[EntriesOf(vars)[i].name]
  {
  }
}
