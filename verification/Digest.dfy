/** The three hash streams of the restart machinery and why equal digests mean equal
    content. SHA-256 itself is modelled as injective and never empty: a digest carries the
    bytes that were written to the hash state. */
module Digest {
  import opened Text
  import opened Sorting
  import Cnf

  /** An annotation holding a digest; `NoDigest` is the empty string of an absent one. */
  datatype Marker = NoDigest | Sha256(preimage: string)

  /** The data map of a cnf Secret. */
  type Data = map<string, string>

  const CNF_KEY: string := "proxysql.cnf"

  type Pair = (string, string)

  /** The key/value pairs of a map in ascending key order. */
  ghost function SortedPairs(m: map<string, string>): (ps: seq<Pair>)
    ensures |ps| == |SortedStrings(m.Keys)|
    ensures forall i | 0 <= i < |ps| :: ps[i].0 == SortedStrings(m.Keys)[i] && ps[i].0 in m && m[ps[i].0] == ps[i].1
    ensures forall k | k in m :: (k, m[k]) in ps
  {
    var ks := SortedStrings(m.Keys);
    assert forall i | 0 <= i < |ks| :: ks[i] in Elements(ks);
    var ps := seq(|ks|, i requires 0 <= i < |ks| => (ks[i], m[ks[i]]));
    assert forall k | k in m :: (k, m[k]) in ps by {
      forall k | k in m ensures (k, m[k]) in ps {
        assert k in Elements(ks);
        var i :| 0 <= i < |ks| && ks[i] == k;
        assert ps[i] == (k, m[k]);
      }
    }
    ps
  }

  lemma PairOf(m: map<string, string>, p: Pair)
    ensures p in SortedPairs(m) <==> p.0 in m && m[p.0] == p.1
  {
    var ps := SortedPairs(m);
    if p in ps {
      var i :| 0 <= i < |ps| && ps[i] == p;
    }
  }

  lemma SortedPairsInjective(m: map<string, string>, n: map<string, string>)
    requires SortedPairs(m) == SortedPairs(n)
    ensures m == n
  {
    forall k | k in m ensures k in n && n[k] == m[k] {
      PairOf(m, (k, m[k]));
      PairOf(n, (k, m[k]));
    }
    forall k | k in n ensures k in m && n[k] == m[k] {
      PairOf(m, (k, n[k]));
      PairOf(n, (k, n[k]));
    }
  }

  /* ---- length-prefixed framing: CnfChecksum and structuralHash ---- */

  /** One field, `<length>:<bytes>`, as it stands in front of the rest of the stream. */
  function Field(s: string, rest: string): (stream: string) {
    Itoa(|s|) + [':'] + (s + rest)
  }

  /** "%d:%s:%d:" of key length, key and value length, then the value, for each pair. */
  function Framed(ps: seq<Pair>): (stream: string) {
    if ps == [] then ""
    else Field(ps[0].0, [':'] + Field(ps[0].1, Framed(ps[1..])))
  }

  lemma FieldUnique(s: string, x: string, t: string, y: string)
    requires Field(s, x) == Field(t, y)
    ensures s == t && x == y
  {
    assert ':' !in Itoa(|s|) && ':' !in Itoa(|t|);
    CutUnique(Itoa(|s|), s + x, Itoa(|t|), t + y, ':');
    ItoaInjective(|s|, |t|);
    Parts(s, x);
    Parts(t, y);
  }

  lemma {:induction false} FramedUnique(ps: seq<Pair>, qs: seq<Pair>)
    requires Framed(ps) == Framed(qs)
    ensures ps == qs
    decreases |ps|
  {
    if ps != [] && qs != [] {
      var p, q := ps[0], qs[0];
      var u, v := Field(p.1, Framed(ps[1..])), Field(q.1, Framed(qs[1..]));
      FieldUnique(p.0, [':'] + u, q.0, [':'] + v);
      assert ([':'] + u)[1..] == u && ([':'] + v)[1..] == v;
      FieldUnique(p.1, Framed(ps[1..]), q.1, Framed(qs[1..]));
      FramedUnique(ps[1..], qs[1..]);
      assert ps == [p] + ps[1..] && qs == [q] + qs[1..];
    }
  }

  lemma {:induction false} FramedAppend(ps: seq<Pair>, p: Pair)
    ensures Framed(ps + [p]) == Framed(ps) + Field(p.0, [':'] + Field(p.1, ""))
  {
    hide Field;
    if ps == [] {
      assert ps + [p] == [p];
    } else {
      var k, v := ps[0].0, ps[0].1;
      var tail := Field(p.0, [':'] + Field(p.1, ""));
      assert (ps + [p])[1..] == ps[1..] + [p];
      FramedAppend(ps[1..], p);
      FieldAppend(v, Framed(ps[1..]), tail);
      FieldAppend(k, [':'] + Field(v, Framed(ps[1..])), tail);
      assert [':'] + (Field(v, Framed(ps[1..])) + tail) == [':'] + Field(v, Framed(ps[1..])) + tail;
    }
  }

  lemma FieldAppend(s: string, rest: string, tail: string)
    ensures Field(s, rest + tail) == Field(s, rest) + tail
  {
    assert s + (rest + tail) == s + rest + tail;
  }

  ghost function ChecksumStream(data: Data): (stream: string) {
    Framed(SortedPairs(data))
  }

  /** builders.CnfChecksum. */
  ghost function CnfChecksum(data: Data): (h: Marker)
    ensures h != NoDigest
  {
    Sha256(ChecksumStream(data))
  }

  /** The data map with runtime values masked: what only a restart can propagate. */
  function StructuralView(data: Data): (view: Data) {
    map k | k in data :: if k == CNF_KEY then Cnf.Normalize(data[k]) else data[k]
  }

  /** structuralHash. */
  ghost function StructuralHash(data: Data): (h: Marker)
    ensures h != NoDigest
  {
    Sha256(ChecksumStream(StructuralView(data)))
  }

  lemma ChecksumExact(a: Data, b: Data)
    ensures CnfChecksum(a) == CnfChecksum(b) <==> a == b
  {
    if CnfChecksum(a) == CnfChecksum(b) {
      FramedUnique(SortedPairs(a), SortedPairs(b));
      SortedPairsInjective(a, b);
    }
  }

  lemma ViewsEqual(a: Data, b: Data)
    ensures StructuralView(a) == StructuralView(b) <==>
              && a.Keys == b.Keys
              && (forall k | k in a && k != CNF_KEY :: a[k] == b[k])
              && (CNF_KEY in a ==> Cnf.Normalize(a[CNF_KEY]) == Cnf.Normalize(b[CNF_KEY]))
  {
    var va, vb := StructuralView(a), StructuralView(b);
    assert va.Keys == a.Keys && vb.Keys == b.Keys;
    if va == vb {
      forall k | k in a ensures va[k] == vb[k] {}
      if CNF_KEY in a { assert va[CNF_KEY] == vb[CNF_KEY]; }
    }
  }

  /** Equal structural hashes say that the Secrets differ at most in the values of runtime
      variables: the same other keys byte for byte, and cnf texts whose scans agree. */
  lemma StructuralExact(a: Data, b: Data)
    ensures StructuralHash(a) == StructuralHash(b) <==> StructuralView(a) == StructuralView(b)
    ensures StructuralHash(a) == StructuralHash(b) <==>
              && a.Keys == b.Keys
              && (forall k | k in a && k != CNF_KEY :: a[k] == b[k])
              && (CNF_KEY in a ==> Cnf.ScansAgree(Cnf.ScanCnf(a[CNF_KEY]), Cnf.ScanCnf(b[CNF_KEY])))
  {
    ChecksumExact(StructuralView(a), StructuralView(b));
    if CNF_KEY in a && CNF_KEY in b {
      Cnf.NormalizeExact(a[CNF_KEY], b[CNF_KEY]);
    }
    ViewsEqual(a, b);
  }

  /** The loop both hashes share: sorted keys, each framed into the hash state. */
  method WriteFramed(data: Data) returns (stream: string)
    ensures stream == ChecksumStream(data)
  {
    var keys := SortStrings(data.Keys);
    ghost var ps := SortedPairs(data);
    stream := "";
    for i := 0 to |keys|
      invariant stream == Framed(ps[..i])
    {
      var k := keys[i];
      assert ps[i] == (k, data[k]);
      var v := data[k];
      TakeNext(ps, i);
      FramedAppend(ps[..i], (k, v));
      stream := stream + Field(k, [':'] + Field(v, ""));
    }
    assert ps[..|keys|] == ps;
  }

  method StructuralDigest(data: Data) returns (h: Marker)
    ensures h == StructuralHash(data)
  {
    var view: Data := map[];
    var todo := data.Keys;
    while todo != {}
      invariant todo <= data.Keys && view.Keys == data.Keys - todo
      invariant forall k | k in view :: view[k] == StructuralView(data)[k]
      decreases todo
    {
      var k :| k in todo;
      var v := data[k];
      if k == CNF_KEY {
        v := Cnf.NormalizeCnf(v);
      }
      view := view[k := v];
      todo := todo - {k};
    }
    assert view == StructuralView(data);
    var stream := WriteFramed(view);
    h := Sha256(stream);
  }

  /* ---- key=value lines: varsHash ---- */

  function VarLines(ps: seq<Pair>): (stream: string) {
    if ps == [] then "" else ps[0].0 + ['='] + (ps[0].1 + ['\n'] + VarLines(ps[1..]))
  }

  ghost predicate OneLiners(ps: seq<Pair>) {
    forall i | 0 <= i < |ps| :: '=' !in ps[i].0 && '\n' !in ps[i].1
  }

  lemma {:induction false} VarLinesUnique(ps: seq<Pair>, qs: seq<Pair>)
    requires OneLiners(ps) && OneLiners(qs) && VarLines(ps) == VarLines(qs)
    ensures ps == qs
    decreases |ps|
  {
    if ps != [] && qs != [] {
      var p, q := ps[0], qs[0];
      CutUnique(p.0, p.1 + ['\n'] + VarLines(ps[1..]), q.0, q.1 + ['\n'] + VarLines(qs[1..]), '=');
      CutUnique(p.1, VarLines(ps[1..]), q.1, VarLines(qs[1..]), '\n');
      VarLinesUnique(ps[1..], qs[1..]);
      assert ps == [p] + ps[1..] && qs == [q] + qs[1..];
    }
  }

  ghost function VarsHash(vars: map<string, string>): (h: Marker)
    ensures h != NoDigest
  {
    Sha256(VarLines(SortedPairs(vars)))
  }

  lemma NoEquals(k: string)
    requires Cnf.FullName(k)
    ensures '=' !in k
  {
    var p, key :| Cnf.IsDomain(p) && Cnf.IsKey(key) && k == p + "-" + key;
    assert '=' !in key;
  }

  lemma WellFormedOneLiners(vars: map<string, string>)
    requires Cnf.WellFormed(vars)
    ensures OneLiners(SortedPairs(vars))
  {
    hide Cnf.FullName;
    var ps := SortedPairs(vars);
    forall i | 0 <= i < |ps| ensures '=' !in ps[i].0 && '\n' !in ps[i].1 {
      NoEquals(ps[i].0);
    }
  }

  /** The unescaped key=value stream is still unambiguous on everything a cnf can parse to. */
  lemma VarsHashExact(a: string, b: string)
    ensures VarsHash(Cnf.Parse(a)) == VarsHash(Cnf.Parse(b)) <==> Cnf.Parse(a) == Cnf.Parse(b)
  {
    var va, vb := Cnf.Parse(a), Cnf.Parse(b);
    Cnf.ParseWellFormed(a);
    Cnf.ParseWellFormed(b);
    if VarsHash(va) == VarsHash(vb) {
      WellFormedOneLiners(va);
      WellFormedOneLiners(vb);
      VarLinesUnique(SortedPairs(va), SortedPairs(vb));
      SortedPairsInjective(va, vb);
    }
  }

  method VarsDigest(vars: map<string, string>) returns (h: Marker)
    ensures h == VarsHash(vars)
  {
    var keys := SortStrings(vars.Keys);
    ghost var ps := SortedPairs(vars);
    var stream := "";
    for i := 0 to |keys|
      invariant stream == VarLines(ps[..i])
    {
      var k := keys[i];
      assert ps[i] == (k, vars[k]);
      TakeNext(ps, i);
      VarLinesAppend(ps[..i], (k, vars[k]));
      stream := stream + (k + ['='] + (vars[k] + ['\n']));
    }
    assert ps[..|keys|] == ps;
    h := Sha256(stream);
  }

  lemma {:induction false} VarLinesAppend(ps: seq<Pair>, p: Pair)
    ensures VarLines(ps + [p]) == VarLines(ps) + (p.0 + ['='] + (p.1 + ['\n']))
  {
    if ps == [] {
      assert ps + [p] == [p];
    } else {
      assert (ps + [p])[1..] == ps[1..] + [p];
      VarLinesAppend(ps[1..], p);
    }
  }
}
