/** The cnf scanner behind ParseCnfVariables and NormalizeCnf: which lines of a rendered
    proxysql.cnf carry a variable, which of those may be applied at runtime, and what is
    left of the text once their values are masked. */
module Cnf {
  import opened Text

  const RUNTIME: string := "<runtime>"

  /** Lines that only take effect at startup although they are variable lines. */
  const STRUCTURAL: set<string> := {
    "admin-admin_credentials", "admin-mysql_ifaces", "mysql-interfaces", "pgsql-interfaces",
    "mysql-ssl_p2s_ca", "mysql-ssl_p2s_cert", "mysql-ssl_p2s_key",
    "pgsql-ssl_p2s_ca", "pgsql-ssl_p2s_cert", "pgsql-ssl_p2s_key"
  }

  /* ---- the variable-line pattern  ^(\s*)([a-z0-9_]+)=(.*?)\s*$ ---- */

  predicate IsSpace(c: char) {
    c == ' ' || c == '\t' || c == '\n' || c == '\r' || c == '\U{000C}'
  }

  predicate IsKeyChar(c: char) {
    'a' <= c <= 'z' || '0' <= c <= '9' || c == '_'
  }

  predicate Blank(s: string) {
    forall i | 0 <= i < |s| :: IsSpace(s[i])
  }

  predicate IsKey(s: string) {
    |s| > 0 && forall i | 0 <= i < |s| :: IsKeyChar(s[i])
  }

  /** A captured value never ends in white space: the lazy group gives it to `\s*`. */
  predicate Trimmed(s: string) {
    |s| > 0 ==> !IsSpace(s[|s| - 1])
  }

  /** The white space of `\s` and the letters of a key, by their codes. */
  lemma PatternChars(c: char)
    ensures IsSpace(c) <==> c as int in {9, 10, 12, 13, 32}
    ensures IsKeyChar(c) <==> 97 <= c as int <= 122 || 48 <= c as int <= 57 || c as int == 95
  {
  }

  datatype VarMatch = VarMatch(indent: string, key: string, value: string)

  function SpaceRun(s: string): (n: nat)
    ensures n <= |s|
  {
    if s == "" || !IsSpace(s[0]) then 0 else 1 + SpaceRun(s[1..])
  }

  function KeyRun(s: string): (n: nat)
    ensures n <= |s|
  {
    if s == "" || !IsKeyChar(s[0]) then 0 else 1 + KeyRun(s[1..])
  }

  function TrimRight(s: string): (t: string)
    ensures |t| <= |s|
  {
    if s == "" || !IsSpace(s[|s| - 1]) then s else TrimRight(s[..|s| - 1])
  }

  function MatchVar(line: string): (r: Option<VarMatch>) {
    var i := SpaceRun(line);
    var j := i + KeyRun(line[i..]);
    if i < j < |line| && line[j] == '=' then
      Some(VarMatch(line[..i], line[i..j], TrimRight(line[j + 1..])))
    else None
  }

  /** What the regular expression says, without saying how to search for it. */
  ghost predicate Matches(line: string, m: VarMatch, trail: string) {
    && line == m.indent + (m.key + ("=" + (m.value + trail)))
    && Blank(m.indent) && IsKey(m.key) && Trimmed(m.value) && Blank(trail)
  }

  /** The search finds the groups of the pattern, and finds them whenever they exist. */
  lemma MatchVarExact(line: string, m: VarMatch)
    ensures MatchVar(line) == Some(m) <==> exists trail :: Matches(line, m, trail)
  {
    if MatchVar(line) == Some(m) {
      var trail := MatchVarSound(line, m);
      assert Matches(line, m, trail);
    }
    if trail :| Matches(line, m, trail) {
      MatchesFound(line, m, trail);
    }
  }

  lemma MatchVarSound(line: string, m: VarMatch) returns (trail: string)
    requires MatchVar(line) == Some(m)
    ensures Matches(line, m, trail)
  {
    hide SpaceRun, KeyRun, TrimRight, IsSpace, IsKeyChar;
    var i := SpaceRun(line);
    var j := i + KeyRun(line[i..]);
    var rest := line[j + 1..];
    trail := rest[|m.value|..];
    SpaceRunBlank(line);
    KeyRunKey(line[i..]);
    TrimRightTrims(rest);
    assert m.key == line[i..][..j - i];
    assert rest == m.value + trail;
    assert line[j..] == "=" + rest;
    assert line[i..] == m.key + ("=" + rest);
    assert line == m.indent + (m.key + ("=" + rest));
  }

  lemma {:induction false} SpaceRunBlank(s: string)
    ensures Blank(s[..SpaceRun(s)])
  {
    if s != "" && IsSpace(s[0]) {
      SpaceRunBlank(s[1..]);
      var n := SpaceRun(s);
      assert s[..n] == [s[0]] + s[1..][..n - 1];
    }
  }

  lemma {:induction false} KeyRunKey(s: string)
    ensures KeyRun(s) > 0 ==> IsKey(s[..KeyRun(s)])
  {
    if s != "" && IsKeyChar(s[0]) {
      KeyRunKey(s[1..]);
      var n := KeyRun(s);
      assert s[..n] == [s[0]] + s[1..][..n - 1];
    }
  }

  lemma {:induction false} TrimRightTrims(s: string)
    ensures var t := TrimRight(s); t <= s && Trimmed(t) && Blank(s[|t|..])
  {
    if s != "" && IsSpace(s[|s| - 1]) {
      var r := s[..|s| - 1];
      TrimRightTrims(r);
      var t := TrimRight(r);
      assert s[|t|..] == r[|t|..] + [s[|s| - 1]];
    }
  }

  lemma MatchesFound(line: string, m: VarMatch, trail: string)
    requires Matches(line, m, trail)
    ensures MatchVar(line) == Some(m)
  {
    hide SpaceRun, KeyRun, TrimRight, IsSpace, MatchVar;
    var rest := "=" + (m.value + trail);
    assert !IsSpace((m.key + rest)[0]) by { SpaceIsNoKey(m.key[0]); }
    var i, j := |m.indent|, |m.indent| + |m.key|;
    assert SpaceRun(line) == i && line[..i] == m.indent && line[i..] == m.key + rest by {
      SpaceRunFound(m.indent, m.key + rest);
      Parts(m.indent, m.key + rest);
    }
    assert KeyRun(line[i..]) == |m.key| by {
      KeyRunFound(m.key, rest);
    }
    assert line[i..j] == m.key && line[j] == '=' && line[j + 1..] == m.value + trail by {
      Parts(m.key, rest);
      assert line[i..j] == line[i..][..|m.key|] && line[j..] == line[i..][|m.key|..];
      assert line[j + 1..] == rest[1..];
    }
    assert TrimRight(line[j + 1..]) == m.value by {
      TrimFound(m.value, trail);
    }
    MatchVarAt(line, i, j);
    assert m == VarMatch(m.indent, m.key, m.value);
  }

  lemma MatchVarAt(line: string, i: nat, j: nat)
    requires i == SpaceRun(line) && i < j < |line| && j == i + KeyRun(line[i..]) && line[j] == '='
    ensures MatchVar(line) == Some(VarMatch(line[..i], line[i..j], TrimRight(line[j + 1..])))
  {
    hide SpaceRun, KeyRun, TrimRight;
  }

  lemma SpaceIsNoKey(c: char)
    ensures IsKeyChar(c) ==> !IsSpace(c)
  {
  }

  lemma {:induction false} SpaceRunFound(indent: string, rest: string)
    requires Blank(indent) && (rest == "" || !IsSpace(rest[0]))
    ensures SpaceRun(indent + rest) == |indent|
  {
    if indent != "" {
      assert (indent + rest)[1..] == indent[1..] + rest;
      SpaceRunFound(indent[1..], rest);
    } else {
      assert indent + rest == rest;
    }
  }

  lemma {:induction false} KeyRunFound(key: string, rest: string)
    requires (forall i | 0 <= i < |key| :: IsKeyChar(key[i])) && (rest == "" || !IsKeyChar(rest[0]))
    ensures KeyRun(key + rest) == |key|
  {
    if key != "" {
      assert (key + rest)[1..] == key[1..] + rest;
      KeyRunFound(key[1..], rest);
    } else {
      assert key + rest == rest;
    }
  }

  lemma {:induction false} TrimFound(value: string, trail: string)
    requires Trimmed(value) && Blank(trail)
    ensures TrimRight(value + trail) == value
    decreases |trail|
  {
    var s := value + trail;
    if trail != "" {
      assert s[..|s| - 1] == value + trail[..|trail| - 1];
      TrimFound(value, trail[..|trail| - 1]);
    } else {
      assert s == value;
    }
  }

  /* ---- scanning ---- */

  datatype Section = Outside | Inside(prefix: string)

  datatype Line =
    | Plain(text: string)
    | Var(text: string, indent: string, key: string, fullName: string, value: string)
  {
    /** A line whose value ParseCnfVariables reports and NormalizeCnf masks. */
    predicate Runtime() {
      Var? && fullName !in STRUCTURAL
    }
  }

  function SectionStart(line: string): (r: Option<string>) {
    if line == "admin_variables=" then Some("admin")
    else if line == "mysql_variables=" then Some("mysql")
    else if line == "pgsql_variables=" then Some("pgsql")
    else None
  }

  function NextSection(at: Section, line: string): (next: Section) {
    match at
    case Outside => (match SectionStart(line) case Some(p) => Inside(p) case None => Outside)
    case Inside(_) => if line == "}" then Outside else at
  }

  function Classify(at: Section, line: string): (l: Line)
    ensures l.text == line
  {
    if at.Outside? || line == "}" then Plain(line)
    else match MatchVar(line)
      case None => Plain(line)
      case Some(m) => Var(line, m.indent, m.key, at.prefix + "-" + m.key, m.value)
  }

  function Scan(at: Section, lines: seq<string>): (out: seq<Line>)
    ensures |out| == |lines|
    decreases |lines|
  {
    if lines == [] then []
    else [Classify(at, lines[0])] + Scan(NextSection(at, lines[0]), lines[1..])
  }

  /** The section the scanner is in when it reaches line `i`. */
  function SectionAt(at: Section, lines: seq<string>, i: nat): (s: Section)
    requires i <= |lines|
    decreases i
  {
    if i == 0 then at else SectionAt(NextSection(at, lines[0]), lines[1..], i - 1)
  }

  function ScanCnf(cnf: string): (out: seq<Line>) {
    Scan(Outside, Split(cnf, '\n'))
  }

  lemma {:induction false} ScanAt(at: Section, lines: seq<string>, i: nat)
    requires i < |lines|
    ensures Scan(at, lines)[i] == Classify(SectionAt(at, lines, i), lines[i])
    ensures SectionAt(at, lines, i + 1) == NextSection(SectionAt(at, lines, i), lines[i])
    decreases i
  {
    if i > 0 {
      ScanAt(NextSection(at, lines[0]), lines[1..], i - 1);
    } else {
      assert SectionAt(at, lines, 1) == SectionAt(NextSection(at, lines[0]), lines[1..], 0);
    }
  }

  /** scanCnf: one pass over the lines, tracking the open section. */
  method ScanLines(cnf: string) returns (out: seq<Line>)
    ensures out == ScanCnf(cnf)
  {
    var lines := Split(cnf, '\n');
    var at := Outside;
    out := [];
    for i := 0 to |lines|
      invariant at == SectionAt(Outside, lines, i)
      invariant out == Scan(Outside, lines)[..i]
    {
      var line := lines[i];
      ScanAt(Outside, lines, i);
      if at.Outside? {
        var m := SectionStart(line);
        if m.Some? {
          at := Inside(m.value);
        }
        out := out + [Plain(line)];
      } else if line == "}" {
        at := Outside;
        out := out + [Plain(line)];
      } else {
        var m := MatchVar(line);
        if m.Some? {
          out := out + [Var(line, m.value.indent, m.value.key, at.prefix + "-" + m.value.key, m.value.value)];
        } else {
          out := out + [Plain(line)];
        }
      }
    }
  }

  /* ---- ParseCnfVariables ---- */

  function Unquote(v: string): (r: string) {
    if |v| >= 2 && v[0] == '"' && v[|v| - 1] == '"' then v[1..|v| - 1] else v
  }

  /** The variables of a scanned text: a later line wins over an earlier one. */
  function VarsOf(lines: seq<Line>): (vars: map<string, string>) {
    if lines == [] then map[]
    else
      var l := lines[|lines| - 1];
      var before := VarsOf(lines[..|lines| - 1]);
      if l.Runtime() then before[l.fullName := Unquote(l.value)] else before
  }

  function Parse(cnf: string): (vars: map<string, string>) {
    VarsOf(ScanCnf(cnf))
  }

  /** The value inside a pair of double quotes, or the text as it is. */
  lemma UnquoteExactly(v: string, x: string)
    ensures v == "\"" + x + "\"" ==> Unquote(v) == x
    ensures Unquote(v) == v || v == "\"" + Unquote(v) + "\""
  {
  }

  /** The line is the last runtime line of its name. */
  ghost predicate LastOf(lines: seq<Line>, i: nat, k: string) {
    i < |lines| && lines[i].Runtime() && lines[i].fullName == k
    && forall j | i < j < |lines| :: !(lines[j].Runtime() && lines[j].fullName == k)
  }

  /** A variable is parsed exactly when a runtime line names it, */
  lemma {:induction false} ParsedExactly(lines: seq<Line>, k: string)
    ensures k in VarsOf(lines) <==> exists i :: 0 <= i < |lines| && lines[i].Runtime() && lines[i].fullName == k
    decreases |lines|
  {
    hide STRUCTURAL, Unquote;
    if lines != [] {
      var n := |lines| - 1;
      ParsedExactly(lines[..n], k);
      if i :| 0 <= i < n && lines[..n][i].Runtime() && lines[..n][i].fullName == k { assert lines[i].Runtime(); }
      if i :| 0 <= i < |lines| && lines[i].Runtime() && lines[i].fullName == k {
        assert i < n ==> lines[..n][i].Runtime();
      }
    }
  }

  /** and has the value of the last one. */
  lemma {:induction false} LastLineWins(lines: seq<Line>, i: nat, k: string)
    requires LastOf(lines, i, k)
    ensures k in VarsOf(lines) && VarsOf(lines)[k] == Unquote(lines[i].value)
    decreases |lines|
  {
    hide STRUCTURAL, Unquote;
    var n := |lines| - 1;
    if i < n { LastLineWins(lines[..n], i, k); }
  }

  /** All settings of a scanned text, with the lines that only a restart can apply. */
  ghost function SettingsOf(lines: seq<Line>): (vars: map<string, string>) {
    if lines == [] then map[]
    else
      var l := lines[|lines| - 1];
      var before := SettingsOf(lines[..|lines| - 1]);
      if l.Var? then before[l.fullName := Unquote(l.value)] else before
  }

  ghost function Settings(cnf: string): (vars: map<string, string>) {
    SettingsOf(ScanCnf(cnf))
  }

  lemma {:induction false} RuntimeSettings(lines: seq<Line>)
    ensures VarsOf(lines) == SettingsOf(lines) - STRUCTURAL
    decreases |lines|
  {
    hide STRUCTURAL, Unquote;
    if lines != [] { RuntimeSettings(lines[..|lines| - 1]); }
  }

  method ParseCnfVariables(cnf: string) returns (out: map<string, string>)
    ensures out == Parse(cnf)
  {
    var lines := ScanLines(cnf);
    out := map[];
    for i := 0 to |lines|
      invariant out == VarsOf(lines[..i])
    {
      assert lines[..i + 1][..i] == lines[..i];
      var l := lines[i];
      if l.Var? && l.fullName !in STRUCTURAL {
        out := out[l.fullName := Unquote(l.value)];
      }
    }
    assert lines[..|lines|] == lines;
  }

  /* ---- NormalizeCnf ---- */

  function Mask(l: Line): (text: string) {
    if l.Runtime() then l.indent + (l.key + ("=" + RUNTIME)) else l.text
  }

  function MaskAll(lines: seq<Line>): (texts: seq<string>)
    ensures |texts| == |lines|
    ensures forall i | 0 <= i < |lines| :: texts[i] == Mask(lines[i])
  {
    seq(|lines|, i requires 0 <= i < |lines| => Mask(lines[i]))
  }

  function Normalize(cnf: string): (text: string) {
    Join(MaskAll(ScanCnf(cnf)), '\n')
  }

  method NormalizeCnf(cnf: string) returns (text: string)
    ensures text == Normalize(cnf)
  {
    var lines := ScanLines(cnf);
    var out := [];
    for i := 0 to |lines|
      invariant out == MaskAll(lines)[..i]
    {
      var l := lines[i];
      if !l.Var? {
        out := out + [l.text];
      } else if l.fullName in STRUCTURAL {
        out := out + [l.text];
      } else {
        out := out + [l.indent + (l.key + ("=" + RUNTIME))];
      }
    }
    assert MaskAll(lines)[..|lines|] == MaskAll(lines);
    text := Join(out, '\n');
  }

  /* ---- what normalization preserves and forgets ---- */

  /** Two scanned lines that differ at most in the value of a runtime variable. */
  predicate Agree(a: Line, b: Line) {
    if a.Runtime() then b.Runtime() && a.indent == b.indent && a.fullName == b.fullName
    else !b.Runtime() && a.text == b.text
  }

  predicate ScansAgree(a: seq<Line>, b: seq<Line>) {
    |a| == |b| && forall i | 0 <= i < |a| :: Agree(a[i], b[i])
  }

  /** Masking a line keeps it on one line, keeps the scanner's course, and can be repeated. */
  lemma MaskStable(at: Section, line: string)
    requires '\n' !in line
    ensures var masked := Mask(Classify(at, line));
            && '\n' !in masked
            && NextSection(at, masked) == NextSection(at, line)
            && Agree(Classify(at, masked), Classify(at, line))
            && Mask(Classify(at, masked)) == masked
  {
    var l := Classify(at, line);
    if l.Runtime() {
      MaskedLine(at, line);
    }
  }

  lemma MaskedLine(at: Section, line: string)
    requires Classify(at, line).Runtime() && '\n' !in line
    ensures var l := Classify(at, line);
            && Classify(at, Mask(l)) == Var(Mask(l), l.indent, l.key, l.fullName, RUNTIME)
            && Mask(l) != "}" && '\n' !in Mask(l)
  {
    var l := Classify(at, line);
    var m := VarMatch(l.indent, l.key, l.value);
    MatchVarExact(line, m);
    var trail :| Matches(line, m, trail);
    NoNewline(line, m, trail);
    MaskNoNewline(l.indent, l.key);
    assert RUNTIME + "" == RUNTIME;
    assert Matches(Mask(l), m.(value := RUNTIME), "");
    MatchesFound(Mask(l), m.(value := RUNTIME), "");
    assert |Mask(l)| > 1;
  }

  lemma MaskNoNewline(indent: string, key: string)
    requires '\n' !in indent && '\n' !in key
    ensures '\n' !in indent + (key + ("=" + RUNTIME))
  {
    assert '\n' !in RUNTIME;
    NotInConcat('\n', "=", RUNTIME);
    NotInConcat('\n', key, "=" + RUNTIME);
    NotInConcat('\n', indent, key + ("=" + RUNTIME));
  }

  lemma NoNewline(line: string, m: VarMatch, trail: string)
    requires Matches(line, m, trail) && '\n' !in line
    ensures '\n' !in m.indent && '\n' !in m.key && '\n' !in m.value
  {
    NotInConcat('\n', m.value, trail);
    NotInConcat('\n', "=", m.value + trail);
    NotInConcat('\n', m.key, "=" + (m.value + trail));
    NotInConcat('\n', m.indent, m.key + ("=" + (m.value + trail)));
  }

  /** Within one section, masked texts coincide exactly for lines that agree. */
  lemma MaskAgree(at: Section, a: string, b: string)
    requires '\n' !in a && '\n' !in b
    ensures Mask(Classify(at, a)) == Mask(Classify(at, b)) <==> Agree(Classify(at, a), Classify(at, b))
    ensures Mask(Classify(at, a)) == Mask(Classify(at, b)) ==> NextSection(at, a) == NextSection(at, b)
  {
    MaskStable(at, a);
    MaskStable(at, b);
    var x, y := Classify(at, a), Classify(at, b);
    if x.Runtime() && y.Runtime() && x.fullName == y.fullName {
      assert x.fullName == at.prefix + "-" + x.key && y.fullName == at.prefix + "-" + y.key;
      assert x.fullName[|at.prefix| + 1..] == x.key && y.fullName[|at.prefix| + 1..] == y.key;
    }
    if Mask(x) == Mask(y) {
      if x.Runtime() { MaskedLine(at, a); }
      if y.Runtime() { MaskedLine(at, b); }
    }
  }

  lemma MaskAllCons(a: seq<Line>)
    requires a != []
    ensures MaskAll(a) == [Mask(a[0])] + MaskAll(a[1..])
  {
  }

  lemma AgreeCons(a: seq<Line>, b: seq<Line>)
    requires a != [] && b != []
    ensures ScansAgree(a, b) <==> Agree(a[0], b[0]) && ScansAgree(a[1..], b[1..])
  {
    var ra, rb := a[1..], b[1..];
    if ScansAgree(ra, rb) {
      assert forall i | 1 <= i < |a| :: a[i] == ra[i - 1] && b[i] == rb[i - 1];
    }
  }

  lemma {:induction false} MaskScan(at: Section, a: seq<string>, b: seq<string>)
    requires forall i | 0 <= i < |a| :: '\n' !in a[i]
    requires forall i | 0 <= i < |b| :: '\n' !in b[i]
    ensures MaskAll(Scan(at, a)) == MaskAll(Scan(at, b)) <==> ScansAgree(Scan(at, a), Scan(at, b))
    ensures ScansAgree(Scan(at, a), Scan(at, b)) ==>
            forall i | 0 <= i <= |a| :: SectionAt(at, a, i) == SectionAt(at, b, i)
    decreases |a|
  {
    var sa, sb := Scan(at, a), Scan(at, b);
    if a != [] && b != [] {
      MaskAgree(at, a[0], b[0]);
      var ra, rb := sa[1..], sb[1..];
      MaskAllCons(sa);
      MaskAllCons(sb);
      AgreeCons(sa, sb);
      Parts([Mask(sa[0])], MaskAll(ra));
      Parts([Mask(sb[0])], MaskAll(rb));
      if NextSection(at, a[0]) == NextSection(at, b[0]) {
        MaskScan(NextSection(at, a[0]), a[1..], b[1..]);
      }
    }
  }

  /** NormalizeCnf forgets the values of runtime variables and nothing else: two texts have
      one normal form exactly when their scans agree line by line, in the same sections. */
  lemma NormalizeExact(a: string, b: string)
    ensures Normalize(a) == Normalize(b) <==> ScansAgree(ScanCnf(a), ScanCnf(b))
    ensures Normalize(a) == Normalize(b) ==>
              forall i | 0 <= i <= |ScanCnf(a)| ::
                SectionAt(Outside, Split(a, '\n'), i) == SectionAt(Outside, Split(b, '\n'), i)
  {
    var la, lb := Split(a, '\n'), Split(b, '\n');
    MaskedTextsSplit(a);
    MaskedTextsSplit(b);
    MaskScan(Outside, la, lb);
  }

  /** Splitting a normal form gives back the masked lines. */
  lemma MaskedTextsSplit(cnf: string)
    ensures Split(Normalize(cnf), '\n') == MaskAll(ScanCnf(cnf))
  {
    var lines := Split(cnf, '\n');
    var masked := MaskAll(ScanCnf(cnf));
    forall i | 0 <= i < |masked| ensures '\n' !in masked[i] {
      ScanAt(Outside, lines, i);
      MaskStable(SectionAt(Outside, lines, i), lines[i]);
    }
    SplitJoin(masked, '\n');
  }

  lemma {:induction false} MaskAllStable(at: Section, lines: seq<string>)
    requires forall i | 0 <= i < |lines| :: '\n' !in lines[i]
    ensures ScansAgree(Scan(at, MaskAll(Scan(at, lines))), Scan(at, lines))
    decreases |lines|
  {
    if lines != [] {
      var s := Scan(at, lines);
      var next := NextSection(at, lines[0]);
      MaskStable(at, lines[0]);
      MaskAllStable(next, lines[1..]);
      var masked := MaskAll(s);
      assert masked[1..] == MaskAll(Scan(next, lines[1..]));
      var t := Scan(at, masked);
      forall i | 0 <= i < |s| ensures Agree(t[i], s[i]) {
        if i > 0 {
          assert t[i] == Scan(next, masked[1..])[i - 1] && s[i] == Scan(next, lines[1..])[i - 1];
        }
      }
    }
  }

  lemma NormalizeIdempotent(cnf: string)
    ensures Normalize(Normalize(cnf)) == Normalize(cnf)
  {
    MaskedTextsSplit(cnf);
    MaskAllStable(Outside, Split(cnf, '\n'));
    NormalizeExact(Normalize(cnf), cnf);
  }

  /* ---- the runtime diff ---- */

  function Lookup(vars: map<string, string>, k: string): (v: string) {
    if k in vars then vars[k] else ""
  }

  /** The variables classifyCnfChange pushes: it only visits the new keys. */
  function Changed(oldVars: map<string, string>, newVars: map<string, string>): (changed: map<string, string>) {
    map k | k in newVars && Lookup(oldVars, k) != newVars[k] :: newVars[k]
  }

  lemma {:induction false} AgreeingScansHaveSameKeys(a: seq<Line>, b: seq<Line>)
    requires ScansAgree(a, b)
    ensures VarsOf(a).Keys == VarsOf(b).Keys
    decreases |a|
  {
    if a != [] {
      var n := |a| - 1;
      assert Agree(a[n], b[n]);
      assert forall i | 0 <= i < n :: Agree(a[..n][i], b[..n][i]);
      AgreeingScansHaveSameKeys(a[..n], b[..n]);
    }
  }

  /** Pushing the diff over the old variables yields the new ones, although no removed key is
      ever looked for: texts with one normal form declare the same variables. */
  lemma DiffComplete(a: string, b: string)
    requires Normalize(a) == Normalize(b)
    ensures Parse(a).Keys == Parse(b).Keys
    ensures Parse(a) + Changed(Parse(a), Parse(b)) == Parse(b)
    ensures Changed(Parse(a), Parse(b)) == map[] <==> Parse(a) == Parse(b)
  {
    NormalizeExact(a, b);
    AgreeingScansHaveSameKeys(ScanCnf(a), ScanCnf(b));
    var changed := Changed(Parse(a), Parse(b));
    if changed == map[] {
      forall k | k in Parse(b) ensures Parse(a)[k] == Parse(b)[k] {
        assert k !in changed;
      }
    }
  }

  /* ---- the shape of every parsed map ---- */

  predicate IsDomain(p: string) {
    p == "admin" || p == "mysql" || p == "pgsql"
  }

  ghost predicate FullName(k: string) {
    exists p, key :: IsDomain(p) && IsKey(key) && k == p + "-" + key
  }

  /** Names are admin-, mysql- or pgsql- names and values stay on one line. */
  ghost predicate WellFormed(vars: map<string, string>) {
    forall k | k in vars :: FullName(k) && '\n' !in vars[k]
  }

  lemma UnquoteWithin(v: string)
    ensures '\n' !in v ==> '\n' !in Unquote(v)
  {
  }

  /** A runtime line has a full name and a one-line value. */
  lemma LineWellFormed(s: Section, line: string)
    requires (s.Inside? ==> IsDomain(s.prefix)) && '\n' !in line && Classify(s, line).Runtime()
    ensures FullName(Classify(s, line).fullName) && '\n' !in Unquote(Classify(s, line).value)
  {
    var l := Classify(s, line);
    var m := VarMatch(l.indent, l.key, l.value);
    MatchVarExact(line, m);
    var trail :| Matches(line, m, trail);
    NoNewline(line, m, trail);
    UnquoteWithin(l.value);
  }

  lemma {:induction false} VarsWellFormed(at: Section, lines: seq<string>)
    requires at.Inside? ==> IsDomain(at.prefix)
    requires forall i | 0 <= i < |lines| :: '\n' !in lines[i]
    ensures WellFormed(VarsOf(Scan(at, lines)))
    ensures SectionAt(at, lines, |lines|).Inside? ==> IsDomain(SectionAt(at, lines, |lines|).prefix)
    decreases |lines|
  {
    if lines != [] {
      var n := |lines| - 1;
      VarsWellFormed(at, lines[..n]);
      ScanPrefix(at, lines, n);
      ScanAt(at, lines, n);
      hide MatchVar, Scan, SectionAt, Unquote, FullName;
      if Scan(at, lines)[n].Runtime() {
        LineWellFormed(SectionAt(at, lines, n), lines[n]);
      }
    }
  }

  lemma {:induction false} ScanPrefix(at: Section, lines: seq<string>, n: nat)
    requires n <= |lines|
    ensures Scan(at, lines)[..n] == Scan(at, lines[..n])
    ensures SectionAt(at, lines, n) == SectionAt(at, lines[..n], n)
    decreases n
  {
    if n > 0 {
      var next := NextSection(at, lines[0]);
      ScanPrefix(next, lines[1..], n - 1);
      assert lines[..n][1..] == lines[1..][..n - 1];
    }
  }

  lemma ParseWellFormed(cnf: string)
    ensures WellFormed(Parse(cnf))
  {
    VarsWellFormed(Outside, Split(cnf, '\n'));
  }
}
