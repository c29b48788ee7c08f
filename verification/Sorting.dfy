/** Flattening a map into the slice sorted by its keys, which is how the operator makes
    every map-derived output (hash streams, merged sections, rendered lines) deterministic. */
module Sorting {
  import opened Text

  ghost predicate StrictTotalOrder<K(!new)>(less: (K, K) -> bool) {
    && (forall a :: !less(a, a))
    && (forall a, b :: a == b || less(a, b) || less(b, a))
    && (forall a, b, c :: less(a, b) && less(b, c) ==> less(a, c))
  }

  predicate Ascending<K(==)>(ks: seq<K>, less: (K, K) -> bool) {
    forall i, j | 0 <= i < j < |ks| :: less(ks[i], ks[j])
  }

  ghost function Elements<K>(ks: seq<K>): (s: set<K>) {
    set k | k in ks
  }

  lemma StringOrder()
    ensures StrictTotalOrder(Less)
  {
    forall a: string ensures !Less(a, a) { LessIrreflexive(a); }
    forall a: string, b: string ensures a == b || Less(a, b) || Less(b, a) { LessTotal(a, b); }
    forall a: string, b: string, c: string | Less(a, b) && Less(b, c) ensures Less(a, c) {
      LessTransitive(a, b, c);
    }
  }

  /** A strictly ascending sequence is determined by its set of elements. */
  lemma {:induction false} AscendingUnique<K(!new)>(a: seq<K>, b: seq<K>, less: (K, K) -> bool)
    requires StrictTotalOrder(less) && Ascending(a, less) && Ascending(b, less)
    requires Elements(a) == Elements(b)
    ensures a == b
    decreases |a|
  {
    NoElements(a);
    NoElements(b);
    hide StrictTotalOrder, Elements, Ascending;
    if a != [] {
      SameFirst(a, b, less);
      RestElements(a, less);
      RestElements(b, less);
      AscendingUnique(a[1..], b[1..], less);
      assert a == [a[0]] + a[1..] && b == [b[0]] + b[1..];
    }
  }

  lemma NoElements<K>(a: seq<K>)
    ensures Elements(a) == {} <==> a == []
  {
    assert a != [] ==> a[0] in Elements(a);
  }

  lemma FirstLeast<K(!new)>(a: seq<K>, x: K, less: (K, K) -> bool)
    requires Ascending(a, less) && x in Elements(a)
    ensures a != [] && (x == a[0] || less(a[0], x))
  {
    var i :| 0 <= i < |a| && a[i] == x;
  }

  lemma Asymmetric<K(!new)>(x: K, y: K, less: (K, K) -> bool)
    requires StrictTotalOrder(less)
    ensures !less(x, x) && !(less(x, y) && less(y, x))
  {
  }

  lemma SameFirst<K(!new)>(a: seq<K>, b: seq<K>, less: (K, K) -> bool)
    requires StrictTotalOrder(less) && Ascending(a, less) && Ascending(b, less)
    requires Elements(a) == Elements(b) && a != [] && b != []
    ensures a[0] == b[0]
  {
    Asymmetric(a[0], b[0], less);
    hide StrictTotalOrder;
    FirstLeast(a, b[0], less);
    FirstLeast(b, a[0], less);
  }

  lemma RestElements<K(!new)>(a: seq<K>, less: (K, K) -> bool)
    requires StrictTotalOrder(less) && Ascending(a, less) && a != []
    ensures Ascending(a[1..], less) && Elements(a[1..]) == Elements(a) - {a[0]}
  {
    Asymmetric(a[0], a[0], less);
    hide StrictTotalOrder;
    assert forall k | k in a[1..] :: less(a[0], k);
    forall k | k in Elements(a) && k != a[0] ensures k in a[1..] {
      var i :| 0 <= i < |a| && a[i] == k;
      assert a[1..][i - 1] == k;
    }
  }

  /** sort.Strings / slices.Sort on the keys of a map: whatever order the map iteration
      delivers the keys in, the outcome is the one ascending sequence of them. */
  method SortKeys<K(==,!new)>(keys: set<K>, less: (K, K) -> bool) returns (ks: seq<K>)
    requires StrictTotalOrder(less)
    ensures Ascending(ks, less) && Elements(ks) == keys
  {
    ks := [];
    var todo := keys;
    while todo != {}
      invariant Ascending(ks, less)
      invariant todo <= keys && Elements(ks) == keys - todo
      decreases todo
    {
      var k :| k in todo;
      ks := Insert(ks, k, less);
      todo := todo - {k};
    }
  }

  method Insert<K(==,!new)>(ks: seq<K>, k: K, less: (K, K) -> bool) returns (r: seq<K>)
    requires StrictTotalOrder(less) && Ascending(ks, less) && k !in ks
    ensures Ascending(r, less) && Elements(r) == Elements(ks) + {k}
  {
    var i := 0;
    while i < |ks| && less(ks[i], k)
      invariant 0 <= i <= |ks| && forall j | 0 <= j < i :: less(ks[j], k)
    {
      i := i + 1;
    }
    r := ks[..i] + [k] + ks[i..];
    assert forall j | i <= j < |ks| :: less(k, ks[j]);
  }

  /** The ascending sequence of a finite set of keys, as a function. */
  ghost function Sorted<K(!new)>(keys: set<K>, less: (K, K) -> bool): (ks: seq<K>)
    requires StrictTotalOrder(less)
    ensures Ascending(ks, less) && Elements(ks) == keys
  {
    SortedExists(keys, less);
    var ks :| Ascending(ks, less) && Elements(ks) == keys;
    ks
  }

  lemma {:induction false} SortedExists<K(!new)>(keys: set<K>, less: (K, K) -> bool)
    requires StrictTotalOrder(less)
    ensures exists ks: seq<K> :: Ascending(ks, less) && Elements(ks) == keys
  {
    if keys == {} {
      var none: seq<K> := [];
      assert Ascending(none, less) && Elements(none) == keys;
    } else {
      var k :| k in keys;
      SortedExists(keys - {k}, less);
      var ks :| Ascending(ks, less) && Elements(ks) == keys - {k};
      var r := InsertionOf(ks, k, less);
      assert Elements(r) == keys;
    }
  }

  lemma {:induction false} InsertionOf<K(!new)>(ks: seq<K>, k: K, less: (K, K) -> bool) returns (r: seq<K>)
    requires StrictTotalOrder(less) && Ascending(ks, less) && k !in ks
    ensures Ascending(r, less) && Elements(r) == Elements(ks) + {k}
  {
    if ks == [] || less(k, ks[0]) {
      r := [k] + ks;
    } else {
      var rest := InsertionOf(ks[1..], k, less);
      r := [ks[0]] + rest;
      forall j | 0 <= j < |rest| ensures less(ks[0], rest[j]) { assert rest[j] in Elements(rest); }
    }
  }

  /** The outcome of sort.Strings on a set of names. */
  ghost function SortedStrings(keys: set<string>): (ks: seq<string>)
    ensures Ascending(ks, Less) && Elements(ks) == keys
  {
    StringOrder();
    Sorted(keys, Less)
  }

  method SortStrings(keys: set<string>) returns (ks: seq<string>)
    ensures ks == SortedStrings(keys)
  {
    StringOrder();
    ks := SortKeys(keys, Less);
    AscendingUnique(ks, SortedStrings(keys), Less);
  }

  predicate NonDescending(ss: seq<string>) {
    forall i, j | 0 <= i < j < |ss| :: !Less(ss[j], ss[i])
  }

  /** sort.Strings on a list that may repeat entries. */
  method SortList(ss: seq<string>) returns (r: seq<string>)
    ensures NonDescending(r) && multiset(r) == multiset(ss)
  {
    r := [];
    for n := 0 to |ss|
      invariant NonDescending(r) && multiset(r) == multiset(ss[..n])
    {
      r := InsertInto(r, ss[n]);
      TakeNext(ss, n);
    }
    assert ss[..|ss|] == ss;
  }

  method InsertInto(ss: seq<string>, s: string) returns (r: seq<string>)
    requires NonDescending(ss)
    ensures NonDescending(r) && multiset(r) == multiset(ss) + multiset{s}
  {
    var i := 0;
    while i < |ss| && Less(ss[i], s)
      invariant 0 <= i <= |ss| && forall j | 0 <= j < i :: Less(ss[j], s)
    {
      i := i + 1;
    }
    r := ss[..i] + [s] + ss[i..];
    assert ss == ss[..i] + ss[i..];
    Inserted(ss, i, s);
  }

  lemma NotAbove(a: string, b: string, c: string)
    requires !Less(b, a) && !Less(c, b)
    ensures !Less(c, a)
  {
    StringOrder();
    hide Less;
    assert a == b || Less(a, b);
    assert b == c || Less(b, c);
    assert Less(a, b) && Less(b, c) ==> Less(a, c);
    assert a == c || Less(a, c);
    assert Less(a, c) && Less(c, a) ==> Less(a, a);
  }

  lemma Inserted(ss: seq<string>, i: nat, s: string)
    requires i <= |ss| && NonDescending(ss)
    requires (forall j | 0 <= j < i :: Less(ss[j], s)) && (i < |ss| ==> !Less(ss[i], s))
    ensures NonDescending(ss[..i] + [s] + ss[i..])
  {
    forall j | 0 <= j < i ensures !Less(s, ss[j]) {
      if Less(s, ss[j]) {
        LessTransitive(ss[j], s, ss[j]);
        LessIrreflexive(ss[j]);
      }
    }
    hide Less;
    forall j | i <= j < |ss| ensures !Less(ss[j], s) {
      if j > i { NotAbove(s, ss[i], ss[j]); }
    }
  }

  lemma LeastFirst(ss: seq<string>, x: string)
    requires NonDescending(ss) && x in ss
    ensures !Less(x, ss[0])
  {
    LessIrreflexive(x);
    var i :| 0 <= i < |ss| && ss[i] == x;
  }

  lemma RestBag(a: seq<string>)
    requires a != []
    ensures multiset(a[1..]) == multiset(a) - multiset{a[0]}
  {
    assert a == [a[0]] + a[1..];
  }

  lemma {:induction false} NonDescendingUnique(a: seq<string>, b: seq<string>)
    requires NonDescending(a) && NonDescending(b) && multiset(a) == multiset(b)
    ensures a == b
    decreases |a|
  {
    assert |a| == |multiset(a)| && |b| == |multiset(b)|;
    if a != [] {
      assert a[0] in multiset(b) && b[0] in multiset(a);
      LeastFirst(a, b[0]);
      LeastFirst(b, a[0]);
      LessTotal(a[0], b[0]);
      RestBag(a);
      RestBag(b);
      hide Less;
      assert NonDescending(a[1..]) && NonDescending(b[1..]);
      hide NonDescending;
      NonDescendingUnique(a[1..], b[1..]);
      assert a == [a[0]] + a[1..] && b == [b[0]] + b[1..];
    }
  }
}
