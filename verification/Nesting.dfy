/** Nested maps: what a reader sees at a path, and tree insertion. */
module Nesting {
  import opened Bytes
  import opened Options

  /** A Go `map[string]any`: each entry is a leaf value or another map. */
  datatype Node<V> = Leaf(value: V) | Tree(children: Nested<V>)
  type Nested<V> = map<Bytes, Node<V>>

  type Path = seq<Bytes>

  predicate ProperPrefix(p: Path, q: Path) {
    |p| < |q| && p == q[..|p|]
  }

  /** The leaf value found by walking the path, if there is one. */
  function LeafAt<V>(m: Nested<V>, p: Path): Option<V>
    decreases |p|
  {
    if p == [] || p[0] !in m then None
    else match m[p[0]]
      case Leaf(v) => if |p| == 1 then Some(v) else None
      case Tree(sub) => if |p| == 1 then None else LeafAt(sub, p[1..])
  }

  /** No map below this node is empty: what unflattening builds, it builds for a leaf. */
  predicate NoEmptyMaps<V>(n: Node<V>)
    decreases n
  {
    n.Tree? ==> forall k :: k in n.children ==>
      NoEmptyMaps(n.children[k]) && (n.children[k].Tree? ==> n.children[k].children != map[])
  }

  /** p can be inserted: no leaf above it, no sub-map at it. */
  predicate Fits<V>(m: Nested<V>, p: Path)
    requires p != []
    decreases |p|
  {
    p[0] in m ==>
      if |p| == 1 then m[p[0]].Leaf?
      else m[p[0]].Tree? && Fits(m[p[0]].children, p[1..])
  }

  /** Create the missing maps along p and set the leaf: the specification of
      one step of the flat-to-nested library call. */
  function Insert<V>(m: Nested<V>, p: Path, v: V): (r: Nested<V>)
    requires p != [] && Fits(m, p)
    ensures r != map[]
    decreases |p|
  {
    if |p| == 1 then m[p[0] := Leaf(v)]
    else if p[0] in m then m[p[0] := Tree(Insert(m[p[0]].children, p[1..], v))]
    else m[p[0] := Tree(Insert(map[], p[1..], v))]
  }

  /** Insertion changes what is seen at p and nowhere else. */
  lemma {:induction false} InsertSets<V>(m: Nested<V>, p: Path, v: V, q: Path)
    requires p != [] && Fits(m, p)
    ensures LeafAt(Insert(m, p, v), q) == if q == p then Some(v) else LeafAt(m, q)
    decreases |p|
  {
    if |p| > 1 {
      var sub := if p[0] in m then m[p[0]].children else map[];
      if q != [] && q[0] == p[0] && |q| > 1 {
        InsertSets(sub, p[1..], v, q[1..]);
        assert p == [p[0]] + p[1..] && q == [q[0]] + q[1..];
        assert p[0] !in m ==> LeafAt<V>(map[], q[1..]) == None;
      }
    }
  }

  lemma {:induction false} InsertKeepsNoEmpty<V>(m: Nested<V>, p: Path, v: V)
    requires p != [] && Fits(m, p) && NoEmptyMaps(Tree(m))
    ensures NoEmptyMaps(Tree(Insert(m, p, v)))
    decreases |p|
  {
    if |p| > 1 {
      InsertKeepsNoEmpty(if p[0] in m then m[p[0]].children else map[], p[1..], v);
    }
  }

  /** Every non-empty map shows a leaf somewhere. */
  lemma {:induction false} SomeLeaf<V>(n: Node<V>) returns (p: Path)
    requires n.Tree? && n.children != map[] && NoEmptyMaps(n)
    ensures p != [] && LeafAt(n.children, p).Some?
    decreases n
  {
    var k :| k in n.children;
    if n.children[k].Leaf? {
      p := [k];
    } else {
      var q := SomeLeaf(n.children[k]);
      p := [k] + q;
      assert p[1..] == q;
    }
  }

  lemma LeafBelow<V>(m: Nested<V>, k: Bytes, q: Path)
    requires k in m && m[k].Tree? && q != []
    ensures LeafAt(m, [k] + q) == LeafAt(m[k].children, q)
  {
    assert ([k] + q)[1..] == q;
  }

  predicate Comparable(p: Path, q: Path) {
    ProperPrefix(p, q) || ProperPrefix(q, p)
  }

  lemma ComparableBelow(k: Bytes, p: Path, q: Path)
    ensures Comparable(p, q) ==> Comparable([k] + p, [k] + q)
  {
    if |p| < |q| { assert ([k] + q)[..|p| + 1] == [k] + q[..|p|]; }
    if |q| < |p| { assert ([k] + p)[..|q| + 1] == [k] + p[..|q|]; }
  }

  /** A path that neither extends nor is extended by a visible leaf fits. */
  lemma {:induction false} IncomparableFits<V>(m: Nested<V>, p: Path)
    requires p != [] && NoEmptyMaps(Tree(m))
    requires forall q :: LeafAt(m, q).Some? ==> !Comparable(p, q)
    ensures Fits(m, p)
    decreases |p|
  {
    if p[0] in m {
      var n := m[p[0]];
      assert p[..1] == [p[0]] && p == [p[0]] + p[1..];
      if n.Leaf? {
        assert LeafAt(m, [p[0]]).Some?;
      } else if |p| == 1 {
        var q := SomeLeaf(n);
        LeafBelow(m, p[0], q);
        assert ([p[0]] + q)[..1] == p;
        assert Comparable(p, [p[0]] + q);
      } else {
        forall q | LeafAt(n.children, q).Some? ensures !Comparable(p[1..], q) {
          LeafBelow(m, p[0], q);
          ComparableBelow(p[0], p[1..], q);
        }
        IncomparableFits(n.children, p[1..]);
      }
    }
  }

  ghost predicate SameLeaves<V(!new)>(m: Nested<V>, n: Nested<V>) {
    forall p :: LeafAt(m, p) == LeafAt(n, p)
  }

  lemma EntryIsVisible<V(!new)>(m: Nested<V>, n: Nested<V>, k: Bytes)
    requires NoEmptyMaps(Tree(m)) && k in m && SameLeaves(m, n)
    ensures k in n && n[k].Leaf? == m[k].Leaf?
    ensures m[k].Leaf? ==> n[k] == m[k]
  {
    assert LeafAt(m, [k]) == LeafAt(n, [k]);
    if m[k].Tree? {
      var q := SomeLeaf(m[k]);
      LeafBelow(m, k, q);
      assert LeafAt(m, [k] + q) == LeafAt(n, [k] + q);
    }
  }

  /** Nested maps without empty sub-maps are determined by the leaves they show. */
  lemma {:induction false} LeavesDetermine<V(!new)>(m: Node<V>, n: Node<V>)
    requires m.Tree? && n.Tree?
    requires NoEmptyMaps(m) && NoEmptyMaps(n) && SameLeaves(m.children, n.children)
    ensures m == n
    decreases m
  {
    forall k | k in m.children ensures k in n.children && m.children[k] == n.children[k] {
      EntryIsVisible(m.children, n.children, k);
      if m.children[k].Tree? {
        forall q ensures LeafAt(m.children[k].children, q) == LeafAt(n.children[k].children, q) {
          if q != [] {
            LeafBelow(m.children, k, q);
            LeafBelow(n.children, k, q);
            assert LeafAt(m.children, [k] + q) == LeafAt(n.children, [k] + q);
          }
        }
        LeavesDetermine(m.children[k], n.children[k]);
      }
    }
    forall k | k in n.children ensures k in m.children {
      EntryIsVisible(n.children, m.children, k);
    }
    assert m.children == n.children;
  }
}
