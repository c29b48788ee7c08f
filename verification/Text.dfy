/** Byte strings as the operator handles them: decimal numbers, delimiters, lines and
    the byte-wise order that Go's sort.Strings uses. One `char` stands for one byte. */
module Text {
  datatype Option<+T> = None | Some(value: T)

  /* ---- decimal numbers (fmt's %d, strconv.Itoa, strconv.ParseInt) ---- */

  predicate IsDigit(c: char) {
    '0' <= c <= '9'
  }

  predicate AllDigits(s: string) {
    forall i | 0 <= i < |s| :: IsDigit(s[i])
  }

  function Decimal(n: nat): (s: string)
    ensures |s| > 0 && AllDigits(s)
  {
    if n < 10 then [('0' as int + n) as char]
    else Decimal(n / 10) + [('0' as int + n % 10) as char]
  }

  function DecimalValue(s: string): (n: nat)
    requires AllDigits(s)
  {
    if s == "" then 0 else 10 * DecimalValue(s[..|s| - 1]) + (s[|s| - 1] as int - '0' as int)
  }

  lemma {:induction false} DecimalRoundTrip(n: nat)
    ensures DecimalValue(Decimal(n)) == n
  {
    var s := Decimal(n);
    if n >= 10 {
      assert s[..|s| - 1] == Decimal(n / 10);
      DecimalRoundTrip(n / 10);
    } else {
      assert s[..|s| - 1] == "";
    }
  }

  function Itoa(n: int): (s: string)
    ensures |s| > 0 && forall i | 0 <= i < |s| :: IsDigit(s[i]) || s[i] == '-'
  {
    if n < 0 then "-" + Decimal(-n) else Decimal(n)
  }

  const MIN_INT32: int := -0x8000_0000
  const MAX_INT32: int := 0x7fff_ffff

  /** strconv.ParseInt(s, 10, 32): an optional sign, digits, and the int32 range. */
  function ParseInt32(s: string): (r: Option<int>) {
    var signed := |s| > 0 && (s[0] == '-' || s[0] == '+');
    var digits := if signed then s[1..] else s;
    if digits == "" || !AllDigits(digits) then None
    else
      var v: int := DecimalValue(digits);
      var n := if s[0] == '-' then -v else v;
      if MIN_INT32 <= n <= MAX_INT32 then Some(n) else None
  }

  lemma ParseItoa(n: int)
    requires MIN_INT32 <= n <= MAX_INT32
    ensures ParseInt32(Itoa(n)) == Some(n)
  {
    var s := Itoa(n);
    if n < 0 {
      DecimalRoundTrip(-n);
      assert s[1..] == Decimal(-n);
    } else {
      DecimalRoundTrip(n);
      assert IsDigit(s[0]);
    }
  }

  lemma ItoaInjective(m: int, n: int)
    requires Itoa(m) == Itoa(n)
    ensures m == n
  {
    assert (m >= 0 ==> IsDigit(Itoa(m)[0])) && (n >= 0 ==> IsDigit(Itoa(n)[0]));
    if m < 0 {
      assert Itoa(m)[1..] == Decimal(-m) && Itoa(n)[1..] == Decimal(-n);
      DecimalRoundTrip(-m);
      DecimalRoundTrip(-n);
    } else {
      DecimalRoundTrip(m);
      DecimalRoundTrip(n);
    }
  }

  /* ---- delimiters ---- */

  lemma NotInConcat<T>(x: T, a: seq<T>, b: seq<T>)
    ensures x !in a + b <==> x !in a && x !in b
  {
  }

  lemma TakeNext<T>(s: seq<T>, i: nat)
    requires i < |s|
    ensures s[..i + 1] == s[..i] + [s[i]]
  {
  }

  lemma Parts<T>(a: seq<T>, b: seq<T>)
    ensures (a + b)[..|a|] == a && (a + b)[|a|..] == b
  {
  }

  /** The index of the first `c` in `s`, or |s| when there is none (strings.IndexByte). */
  function IndexOf(s: string, c: char): (i: nat)
    ensures i <= |s| && c !in s[..i] && (i < |s| ==> s[i] == c)
  {
    if s == "" || s[0] == c then 0
    else
      var i := 1 + IndexOf(s[1..], c);
      assert s[..i] == [s[0]] + s[1..][..i - 1];
      i
  }

  lemma IndexOfCut(a: string, c: char, b: string)
    requires c !in a
    ensures IndexOf(a + [c] + b, c) == |a|
  {
    var s := a + [c] + b;
    var i := IndexOf(s, c);
    assert s[|a|] == c && forall k | 0 <= k < |a| :: s[k] == a[k] && a[k] in a;
    assert forall k | 0 <= k < i :: s[k] in s[..i];
  }

  /** A text cut at the first delimiter is cut in only one way. */
  lemma CutUnique(a: string, x: string, b: string, y: string, c: char)
    requires c !in a && c !in b && a + [c] + x == b + [c] + y
    ensures a == b && x == y
  {
    IndexOfCut(a, c, x);
    IndexOfCut(b, c, y);
    var s := a + [c] + x;
    assert s[..|a|] == a && s[|a| + 1..] == x;
    assert s[..|b|] == b && s[|b| + 1..] == y;
  }

  /** A text cut at the last delimiter is cut in only one way. */
  lemma CutLastUnique(a: string, x: string, b: string, y: string, c: char)
    requires c !in x && c !in y && a + [c] + x == b + [c] + y
    ensures a == b && x == y
  {
    var s := a + [c] + x;
    var t := b + [c] + y;
    assert s[|a|] == c && forall k | |a| < k < |s| :: s[k] == x[k - |a| - 1] && s[k] in x;
    assert t[|b|] == c && forall k | |b| < k < |t| :: t[k] == y[k - |b| - 1] && t[k] in y;
    assert s[..|a|] == a && s[|a| + 1..] == x;
    assert t[..|b|] == b && t[|b| + 1..] == y;
  }

  /* ---- lines (strings.Split, strings.Join) ---- */

  function Split(s: string, c: char): (ls: seq<string>)
    ensures |ls| > 0 && forall i | 0 <= i < |ls| :: c !in ls[i]
    decreases |s|
  {
    var i := IndexOf(s, c);
    if i == |s| then assert s[..i] == s; [s] else [s[..i]] + Split(s[i + 1..], c)
  }

  function Join(ls: seq<string>, c: char): (s: string)
    requires |ls| > 0
  {
    if |ls| == 1 then ls[0] else ls[0] + [c] + Join(ls[1..], c)
  }

  lemma {:induction false} SplitJoin(ls: seq<string>, c: char)
    requires |ls| > 0 && forall i | 0 <= i < |ls| :: c !in ls[i]
    ensures Split(Join(ls, c), c) == ls
  {
    hide IndexOf;
    var s := Join(ls, c);
    if |ls| == 1 {
      assert c !in s && forall k | 0 <= k < |s| :: s[k] in s;
    } else {
      IndexOfCut(ls[0], c, Join(ls[1..], c));
      assert s[..|ls[0]|] == ls[0] && s[|ls[0]| + 1..] == Join(ls[1..], c);
      SplitJoin(ls[1..], c);
    }
  }

  /* ---- the byte-wise order of sort.Strings ---- */

  predicate Less(a: string, b: string) {
    |b| > 0 && (|a| == 0 || a[0] < b[0] || (a[0] == b[0] && Less(a[1..], b[1..])))
  }

  /** The first difference decides, and a proper prefix comes first. */
  lemma {:induction false} LessExactly(a: string, b: string)
    ensures Less(a, b) <==>
            exists i :: 0 <= i <= |a| && i < |b| && a[..i] == b[..i] && (i == |a| || a[i] as int < b[i] as int)
    decreases |a|
  {
    if a == "" || b == "" {
      assert a == "" && b != "" ==> a[..0] == b[..0] && 0 == |a|;
    } else {
      LessExactly(a[1..], b[1..]);
      if a[0] == b[0] && Less(a[1..], b[1..]) {
        var i :| 0 <= i <= |a[1..]| && i < |b[1..]| && a[1..][..i] == b[1..][..i]
                 && (i == |a[1..]| || a[1..][i] as int < b[1..][i] as int);
        assert a[..i + 1] == [a[0]] + a[1..][..i] && b[..i + 1] == [b[0]] + b[1..][..i];
      } else if a[0] < b[0] {
        assert a[..0] == b[..0];
      }
      if i :| 0 <= i <= |a| && i < |b| && a[..i] == b[..i] && (i == |a| || a[i] as int < b[i] as int) {
        if i > 0 {
          assert a[..i][0] == b[..i][0];
          assert a[1..][..i - 1] == a[..i][1..] && b[1..][..i - 1] == b[..i][1..];
        }
      }
    }
  }

  lemma LessTransitive(a: string, b: string, c: string)
    requires Less(a, b) && Less(b, c)
    ensures Less(a, c)
  {
  }

  lemma LessIrreflexive(a: string)
    ensures !Less(a, a)
  {
  }

  lemma {:induction false} LessTotal(a: string, b: string)
    ensures a == b || Less(a, b) || Less(b, a)
  {
    if |a| > 0 && |b| > 0 && a[0] == b[0] {
      LessTotal(a[1..], b[1..]);
      assert a == [a[0]] + a[1..] && b == [b[0]] + b[1..];
    }
  }
}
