/** Replication classes: hostgroups chained through mysql_replication_hostgroups pairs, computed
    by a union-find with path compression whose representative is the smallest id. */
module Replication {
  import opened Text

  type Int32 = x: int | MIN_INT32 <= x <= MAX_INT32

  /** A row of mysql_replication_hostgroups. */
  datatype ReplicationHostgroup = ReplicationHostgroup(writer: Int32, reader: Int32, checkType: string, comment: string)

  type Topology = seq<ReplicationHostgroup>

  /* ---- what a class is ---- */

  ghost predicate Edge(pairs: Topology, a: Int32, b: Int32) {
    exists h :: h in pairs && ((h.writer == a && h.reader == b) || (h.writer == b && h.reader == a))
  }

  ghost predicate Walk(pairs: Topology, p: seq<Int32>) {
    |p| > 0 && forall i | 0 <= i < |p| - 1 :: Edge(pairs, p[i], p[i + 1])
  }

  ghost predicate Joins(pairs: Topology, p: seq<Int32>, a: Int32, b: Int32) {
    Walk(pairs, p) && p[0] == a && p[|p| - 1] == b
  }

  /** Reachable through shared pairs. */
  ghost predicate Connected(pairs: Topology, a: Int32, b: Int32) {
    exists p :: Joins(pairs, p, a, b)
  }

  ghost function Covered(pairs: Topology): (hgs: set<Int32>) {
    (set p | p in pairs :: p.writer) + (set p | p in pairs :: p.reader)
  }

  /** A walk of more than one step is an edge and a shorter walk. */
  lemma WalkTail(pairs: Topology, p: seq<Int32>, a: Int32, b: Int32)
    requires Joins(pairs, p, a, b) && |p| > 1
    ensures Edge(pairs, a, p[1]) && Joins(pairs, p[1..], p[1], b)
  {
    hide Edge;
    var q := p[1..];
    forall i | 0 <= i < |q| - 1 ensures Edge(pairs, q[i], q[i + 1]) {
      var j := i + 1;
      assert Edge(pairs, p[j], p[j + 1]);
    }
  }

  lemma NotEmpty(pairs: Topology, p: seq<Int32>, a: Int32, b: Int32)
    requires Joins(pairs, p, a, b)
    ensures |p| > 0 && p[0] == a
  {
  }

  lemma ConnectedReflexive(pairs: Topology, a: Int32)
    ensures Connected(pairs, a, a)
  {
    assert Joins(pairs, [a], a, a);
  }

  lemma ConnectedEdge(pairs: Topology, a: Int32, b: Int32)
    requires Edge(pairs, a, b)
    ensures Connected(pairs, a, b) && Connected(pairs, b, a)
  {
    assert Joins(pairs, [a, b], a, b) && Joins(pairs, [b, a], b, a);
  }

  /** A row connects its writer and its reader; without rows a hostgroup is connected to itself only. */
  lemma RowsConnect(pairs: Topology, a: Int32, b: Int32)
    ensures (exists h :: h in pairs && h.writer == a && h.reader == b) ==>
            Connected(pairs, a, b) && Connected(pairs, b, a)
    ensures pairs == [] && Connected(pairs, a, b) ==> a == b
  {
    if Edge(pairs, a, b) { ConnectedEdge(pairs, a, b); }
    if pairs == [] && Connected(pairs, a, b) {
      var p :| Joins(pairs, p, a, b);
      assert |p| > 1 ==> Edge(pairs, p[0], p[1]);
    }
  }

  lemma ConnectedTransitive(pairs: Topology, a: Int32, b: Int32, c: Int32)
    requires Connected(pairs, a, b) && Connected(pairs, b, c)
    ensures Connected(pairs, a, c)
  {
    var p :| Joins(pairs, p, a, b);
    var q :| Joins(pairs, q, b, c);
    var w := p + q[1..];
    forall i | 0 <= i < |w| - 1 ensures Edge(pairs, w[i], w[i + 1]) {
      if i >= |p| - 1 { assert w[i] == q[i - (|p| - 1)] && w[i + 1] == q[i + 1 - (|p| - 1)]; }
    }
    assert Joins(pairs, w, a, c);
  }

  lemma {:induction false} ConnectedSymmetric(pairs: Topology, p: seq<Int32>, a: Int32, b: Int32)
    requires Joins(pairs, p, a, b)
    ensures Connected(pairs, b, a)
    decreases |p|
  {
    hide Walk, Connected;
    assert |p| > 0 by { NotEmpty(pairs, p, a, b); }
    if |p| == 1 {
      ConnectedReflexive(pairs, a);
    } else {
      WalkTail(pairs, p, a, b);
      ConnectedSymmetric(pairs, p[1..], p[1], b);
      ConnectedEdge(pairs, p[0], p[1]);
      ConnectedTransitive(pairs, b, p[1], a);
    }
  }

  lemma ConnectedMore(pairs: Topology, more: Topology, a: Int32, b: Int32)
    requires Connected(pairs, a, b) && forall p | p in pairs :: p in more
    ensures Connected(more, a, b)
  {
    var p :| Joins(pairs, p, a, b);
    assert forall i | 0 <= i < |p| - 1 :: Edge(pairs, p[i], p[i + 1]);
    assert Joins(more, p, a, b);
  }

  /* ---- the forest ---- */

  type Parents = map<Int32, Int32>

  /** Every parent is known and no larger: strictly smaller unless the node is a root. This is
      what makes the recursive find terminate, and path compression keeps it. */
  ghost predicate Forest(parent: Parents) {
    forall x | x in parent :: parent[x] in parent && parent[x] <= x
  }

  ghost function Root(parent: Parents, x: Int32): (r: Int32)
    requires Forest(parent) && x in parent
    decreases x - MIN_INT32
  {
    if parent[x] == x then x else Root(parent, parent[x])
  }

  lemma {:induction false} RootIsRoot(parent: Parents, x: Int32)
    requires Forest(parent) && x in parent
    ensures Root(parent, x) in parent && Root(parent, x) <= x && parent[Root(parent, x)] == Root(parent, x)
    decreases x - MIN_INT32
  {
    if parent[x] != x { RootIsRoot(parent, parent[x]); }
  }

  lemma {:induction false} RootCompressed(parent: Parents, x: Int32, y: Int32)
    requires Forest(parent) && x in parent && y in parent
    ensures var after := parent[x := Root(parent, x)];
            Forest(after) && Root(after, y) == Root(parent, y)
    decreases y - MIN_INT32
  {
    var r := Root(parent, x);
    RootIsRoot(parent, x);
    var after := parent[x := r];
    assert Forest(after) && after[r] == r;
    if y != x && parent[y] != y { RootCompressed(parent, x, parent[y]); }
  }

  lemma {:induction false} RootAdded(parent: Parents, x: Int32, y: Int32)
    requires Forest(parent) && x !in parent && y in parent
    ensures Forest(parent[x := x]) && Root(parent[x := x], y) == Root(parent, y)
    decreases y - MIN_INT32
  {
    assert Forest(parent[x := x]);
    if parent[y] != y { RootAdded(parent, x, parent[y]); }
  }

  lemma {:induction false} RootLinked(parent: Parents, lo: Int32, hi: Int32, y: Int32)
    requires Forest(parent) && lo in parent && hi in parent && y in parent
    requires parent[lo] == lo && parent[hi] == hi && lo < hi
    ensures Forest(parent[hi := lo])
    ensures Root(parent[hi := lo], y) == if Root(parent, y) == hi then lo else Root(parent, y)
    decreases y - MIN_INT32
  {
    var after := parent[hi := lo];
    assert Forest(after) && Root(after, lo) == lo;
    if parent[y] != y { RootLinked(parent, lo, hi, parent[y]); }
  }

  /** The trees of `before` are still there in `after`. */
  ghost predicate Keeps(before: Parents, after: Parents) {
    Forest(before) && Forest(after) && forall y | y in before :: y in after && Root(after, y) == Root(before, y)
  }

  lemma CompressKeeps(parent: Parents, x: Int32)
    requires Forest(parent) && x in parent
    ensures var after := parent[x := Root(parent, x)]; Keeps(parent, after) && Root(after, x) == Root(parent, x)
  {
    hide Root, Forest;
    RootCompressed(parent, x, x);
    forall y | y in parent ensures var after := parent[x := Root(parent, x)]; Root(after, y) == Root(parent, y) {
      RootCompressed(parent, x, y);
    }
  }

  lemma AddKeeps(parent: Parents, x: Int32)
    requires Forest(parent) && x !in parent
    ensures Keeps(parent, parent[x := x]) && Root(parent[x := x], x) == x
  {
    var after := parent[x := x];
    assert Forest(after) && Root(after, x) == x;
    hide Root, Forest;
    forall y | y in parent ensures Root(after, y) == Root(parent, y) { RootAdded(parent, x, y); }
  }

  lemma KeepsTransitive(a: Parents, b: Parents, c: Parents)
    requires Keeps(a, b) && Keeps(b, c)
    ensures Keeps(a, c)
  {
    hide Root, Forest;
  }

  lemma RootStep(parent: Parents, x: Int32)
    requires Forest(parent) && x in parent
    ensures parent[x] in parent && parent[x] <= x && (parent[x] == x ==> Root(parent, x) == x)
    ensures Root(parent, x) == Root(parent, parent[x])
  {
  }

  /* ---- the classes of a list of pairs ---- */

  /** The forest after processing `pairs`: it covers exactly their hostgroups, every node is
      connected to its root, and both ends of every pair have one root. */
  ghost predicate Represents(parent: Parents, pairs: Topology) {
    && Forest(parent) && parent.Keys == Covered(pairs)
    && (forall x | x in parent :: Connected(pairs, x, Root(parent, x)))
    && (forall p | p in pairs ::
        p.writer in parent && p.reader in parent && Root(parent, p.writer) == Root(parent, p.reader))
  }

  /** What replicationClasses promises: each covered hostgroup maps to the smallest hostgroup
      connected to it, so two of them share a representative exactly when connected. */
  ghost predicate Exact(classes: map<Int32, Int32>, pairs: Topology) {
    && classes.Keys == Covered(pairs)
    && (forall a | a in classes :: Connected(pairs, a, classes[a]))
    && (forall a, c | a in classes && Connected(pairs, a, c) :: c in classes && classes[a] <= c)
    && (forall a, b | a in classes && b in classes :: classes[a] == classes[b] <==> Connected(pairs, a, b))
  }

  lemma {:induction false} WalkKeepsRoot(parent: Parents, pairs: Topology, p: seq<Int32>, a: Int32, b: Int32)
    requires Represents(parent, pairs) && Joins(pairs, p, a, b) && a in parent
    ensures b in parent && Root(parent, a) == Root(parent, b)
    decreases |p|
  {
    hide Root, Connected, Covered, Walk, Forest;
    NotEmpty(pairs, p, a, b);
    if |p| > 1 {
      WalkTail(pairs, p, a, b);
      assert p[1] in parent && Root(parent, a) == Root(parent, p[1]);
      WalkKeepsRoot(parent, pairs, p[1..], p[1], b);
    }
  }

  lemma ConnectedKeepsRoot(parent: Parents, pairs: Topology, a: Int32, b: Int32)
    requires Represents(parent, pairs) && Connected(pairs, a, b) && a in parent
    ensures b in parent && Root(parent, a) == Root(parent, b) && Root(parent, a) <= b
  {
    var p :| Joins(pairs, p, a, b);
    hide Connected, Covered, Walk;
    WalkKeepsRoot(parent, pairs, p, a, b);
    RootIsRoot(parent, b);
  }

  lemma SameRootConnected(parent: Parents, pairs: Topology, a: Int32, b: Int32)
    requires Represents(parent, pairs) && a in parent && b in parent && Root(parent, a) == Root(parent, b)
    ensures Connected(pairs, a, b)
  {
    hide Root, Covered, Walk, Forest, Edge;
    assert Connected(pairs, a, Root(parent, a)) && Connected(pairs, b, Root(parent, b));
    var p :| Joins(pairs, p, b, Root(parent, b));
    ConnectedSymmetric(pairs, p, b, Root(parent, b));
    ConnectedTransitive(pairs, a, Root(parent, a), b);
  }

  lemma RootsExact(parent: Parents, pairs: Topology, classes: map<Int32, Int32>)
    requires Represents(parent, pairs) && classes == map x | x in parent :: Root(parent, x)
    ensures Exact(classes, pairs)
  {
    hide Connected, Covered, Forest, Root;
    forall a, c | a in classes && Connected(pairs, a, c)
      ensures c in classes && classes[a] == classes[c] && classes[a] <= c {
      ConnectedKeepsRoot(parent, pairs, a, c);
    }
    forall a, b | a in classes && b in classes && classes[a] == classes[b] ensures Connected(pairs, a, b) {
      SameRootConnected(parent, pairs, a, b);
    }
  }

  /** The union-find of replicationClasses, with the `parent` dictionary it mutates. */
  class UnionFind {
    var parent: Parents

    constructor ()
      ensures parent == map[]
    {
      parent := map[];
    }

    /** find: adds an unknown node as its own root, and compresses the path it walked. */
    method Find(x: Int32) returns (root: Int32)
      requires Forest(parent)
      modifies this
      ensures Keeps(old(parent), parent) && parent.Keys == old(parent.Keys) + {x}
      ensures root == Root(parent, x) && (x !in old(parent) ==> root == x)
      decreases x - MIN_INT32
    {
      hide Root, Forest;
      if x !in parent {
        AddKeeps(parent, x);
        parent := parent[x := x];
        return x;
      }
      var p := parent[x];
      RootStep(parent, x);
      if p == x {
        return x;
      }
      root := Find(p);
      assert Root(parent, x) == root;
      CompressKeeps(parent, x);
      KeepsTransitive(old(parent), parent, parent[x := root]);
      parent := parent[x := root];
    }

    /** One pair: the smaller of two different roots becomes the parent of the other. */
    method Join(p: ReplicationHostgroup) returns (ghost found: Parents)
      requires Forest(parent)
      modifies this
      ensures FoundBoth(old(parent), found, p)
      ensures Linked(found, parent, Root(found, p.writer), Root(found, p.reader))
    {
      hide Root, Forest, FoundBoth, Linked;
      var rw := Find(p.writer);
      ghost var once := parent;
      var rr := Find(p.reader);
      found := parent;
      BothFound(old(parent), once, found, p);
      RootIsRoot(found, p.writer);
      RootIsRoot(found, p.reader);
      LinkNothing(found, rw);
      if rw != rr {
        if rr < rw {
          rw, rr := rr, rw;
        }
        LinkRoots(found, rw, rr);
        parent := parent[rr := rw];
      }
    }

    /** The last loop of replicationClasses: find every known hostgroup once more. */
    method Flatten() returns (classes: map<Int32, Int32>)
      requires Forest(parent)
      modifies this
      ensures classes == map x | x in old(parent) :: Root(old(parent), x)
    {
      hide Root, Forest;
      classes := map[];
      ghost var forest := parent;
      var todo := parent.Keys;
      while todo != {}
        invariant Keeps(forest, parent) && parent.Keys == forest.Keys && todo <= forest.Keys
        invariant classes.Keys == forest.Keys - todo && forall x | x in classes :: classes[x] == Root(forest, x)
        decreases todo
      {
        var hg :| hg in todo;
        todo := todo - {hg};
        ghost var before := parent;
        var r := Find(hg);
        KeepsTransitive(forest, before, parent);
        classes := classes[hg := r];
      }
    }
  }

  lemma BothFound(before: Parents, once: Parents, found: Parents, p: ReplicationHostgroup)
    requires Keeps(before, once) && once.Keys == before.Keys + {p.writer}
             && (p.writer !in before ==> Root(once, p.writer) == p.writer)
    requires Keeps(once, found) && found.Keys == once.Keys + {p.reader}
             && (p.reader !in once ==> Root(found, p.reader) == p.reader)
    ensures FoundBoth(before, found, p)
    ensures Root(found, p.writer) == Root(once, p.writer)
  {
    hide Root, Forest;
    KeepsTransitive(before, once, found);
    forall y | y in found && y !in before ensures Root(found, y) == y {
      if y == p.writer { assert Root(found, y) == Root(once, y); }
    }
  }

  lemma LinkNothing(found: Parents, r: Int32)
    requires Forest(found)
    ensures Linked(found, found, r, r)
  {
    hide Root, Forest;
  }

  ghost predicate FoundBoth(before: Parents, found: Parents, p: ReplicationHostgroup) {
    && Keeps(before, found) && found.Keys == before.Keys + {p.writer} + {p.reader}
    && forall y | y in found && y !in before :: Root(found, y) == y
  }

  /** The roots `a` and `b` have become the smaller of the two; every other root stays. */
  ghost predicate Linked(found: Parents, after: Parents, a: Int32, b: Int32) {
    && Forest(found) && Forest(after) && after.Keys == found.Keys
    && forall y | y in found ::
         Root(after, y) == if Root(found, y) == a || Root(found, y) == b then (if a < b then a else b)
         else Root(found, y)
  }

  lemma LinkRoots(parent: Parents, lo: Int32, hi: Int32)
    requires Forest(parent) && lo in parent && hi in parent && parent[lo] == lo && parent[hi] == hi && lo < hi
    ensures Linked(parent, parent[hi := lo], lo, hi) && Linked(parent, parent[hi := lo], hi, lo)
  {
    hide Root, Forest;
    RootLinked(parent, lo, hi, lo);
    forall y | y in parent ensures Root(parent[hi := lo], y) == if Root(parent, y) == hi then lo else Root(parent, y) {
      RootLinked(parent, lo, hi, y);
    }
  }

  method ReplicationClasses(pairs: Topology) returns (classes: map<Int32, Int32>)
    ensures Exact(classes, pairs)
  {
    hide Root, Forest, Connected, Covered, Exact, FoundBoth, Linked;
    var uf := new UnionFind();
    NoPairs();
    for n := 0 to |pairs|
      invariant Represents(uf.parent, pairs[..n])
    {
      ghost var before := uf.parent;
      ghost var found := uf.Join(pairs[n]);
      PairAdded(before, found, uf.parent, pairs[..n], pairs[n]);
      TakeNext(pairs, n);
    }
    assert pairs[..|pairs|] == pairs;
    ghost var forest := uf.parent;
    classes := uf.Flatten();
    RootsExact(forest, pairs, classes);
  }

  lemma NoPairs()
    ensures Represents(map[], [])
  {
  }

  /** One pair more: from a forest for `done` to one for `done + [p]`. */
  lemma PairAdded(before: Parents, found: Parents, after: Parents, done: Topology, p: ReplicationHostgroup)
    requires Represents(before, done) && FoundBoth(before, found, p)
    requires Linked(found, after, Root(found, p.writer), Root(found, p.reader))
    ensures Represents(after, done + [p])
  {
    hide Root, Forest, Connected, Covered, FoundBoth, Linked;
    CoveredNext(done, p);
    LinkedShape(before, found, after, p);
    forall x | x in after ensures Connected(done + [p], x, Root(after, x)) {
      LinkedConnected(before, found, after, done, p, x);
    }
    forall q | q in done + [p]
      ensures q.writer in after && q.reader in after && Root(after, q.writer) == Root(after, q.reader) {
      if q in done {
        LinkedSame(before, found, after, p, q);
      } else {
        assert q == p;
      }
    }
  }

  lemma LinkedShape(before: Parents, found: Parents, after: Parents, p: ReplicationHostgroup)
    requires FoundBoth(before, found, p) && Linked(found, after, Root(found, p.writer), Root(found, p.reader))
    ensures Forest(after) && after.Keys == before.Keys + {p.writer} + {p.reader}
    ensures Root(after, p.writer) == Root(after, p.reader)
  {
    hide Root, Forest;
  }

  lemma LinkedSame(before: Parents, found: Parents, after: Parents, p: ReplicationHostgroup, q: ReplicationHostgroup)
    requires FoundBoth(before, found, p) && Linked(found, after, Root(found, p.writer), Root(found, p.reader))
    requires Forest(before) && q.writer in before && q.reader in before
             && Root(before, q.writer) == Root(before, q.reader)
    ensures q.writer in after && q.reader in after && Root(after, q.writer) == Root(after, q.reader)
  {
    hide Root, Forest;
    assert Root(found, q.writer) == Root(before, q.writer) && Root(found, q.reader) == Root(before, q.reader);
  }

  lemma LinkedConnected(before: Parents, found: Parents, after: Parents, done: Topology, p: ReplicationHostgroup,
                        x: Int32)
    requires Represents(before, done) && FoundBoth(before, found, p) && x in after
    requires Linked(found, after, Root(found, p.writer), Root(found, p.reader))
    ensures Connected(done + [p], x, Root(after, x))
  {
    hide Root, Forest, Connected, Represents, Keeps;
    assert p in done + [p];
    FoundConnected(before, found, done, p, x);
    FoundConnected(before, found, done, p, p.writer);
    FoundConnected(before, found, done, p, p.reader);
    ConnectedEdge(done + [p], p.writer, p.reader);
    Bridge(done + [p], x, Root(found, x), p.writer, Root(found, p.writer), p.reader, Root(found, p.reader));
  }

  lemma CoveredNext(pairs: Topology, p: ReplicationHostgroup)
    ensures Covered(pairs + [p]) == Covered(pairs) + {p.writer} + {p.reader}
  {
    var next := pairs + [p];
    assert p in next;
    assert (set q | q in next :: q.writer) == (set q | q in pairs :: q.writer) + {p.writer};
    assert (set q | q in next :: q.reader) == (set q | q in pairs :: q.reader) + {p.reader};
  }

  lemma FoundConnected(before: Parents, found: Parents, pairs: Topology, p: ReplicationHostgroup, x: Int32)
    requires Represents(before, pairs) && FoundBoth(before, found, p) && x in found
    ensures Connected(pairs + [p], x, Root(found, x))
  {
    hide Root, Forest, Connected, Covered;
    if x in before {
      ConnectedMore(pairs, pairs + [p], x, Root(before, x));
    } else {
      ConnectedReflexive(pairs + [p], x);
    }
  }

  /** Through the new pair, a node of either tree reaches both roots. */
  lemma Bridge(pairs: Topology, x: Int32, r: Int32, w: Int32, rw: Int32, d: Int32, rr: Int32)
    requires Connected(pairs, x, r) && Connected(pairs, w, rw) && Connected(pairs, d, rr)
    requires Connected(pairs, w, d) && Connected(pairs, d, w)
    ensures r == rw || r == rr ==> Connected(pairs, x, rw) && Connected(pairs, x, rr)
  {
    ConnectedBack(pairs, w, rw);
    ConnectedBack(pairs, d, rr);
    hide Connected;
    if r == rw {
      ConnectedTransitive(pairs, x, rw, w);
      ConnectedTransitive(pairs, x, w, d);
      ConnectedTransitive(pairs, x, d, rr);
    }
    if r == rr {
      ConnectedTransitive(pairs, x, rr, d);
      ConnectedTransitive(pairs, x, d, w);
      ConnectedTransitive(pairs, x, w, rw);
    }
  }

  lemma ConnectedBack(pairs: Topology, a: Int32, b: Int32)
    requires Connected(pairs, a, b)
    ensures Connected(pairs, b, a)
  {
    var p :| Joins(pairs, p, a, b);
    ConnectedSymmetric(pairs, p, a, b);
  }

  /** The promised classes are unique: nothing is left to the order of pairs or of finds. */
  lemma ExactUnique(a: map<Int32, Int32>, b: map<Int32, Int32>, pairs: Topology)
    requires Exact(a, pairs) && Exact(b, pairs)
    ensures a == b
  {
    hide Connected, Covered;
    forall h | h in a ensures a[h] == b[h] {
      assert Connected(pairs, h, a[h]) && Connected(pairs, h, b[h]);
    }
  }
}
