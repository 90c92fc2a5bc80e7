/** `unflattenMap`: from a flat map keyed by delimited paths to a nested map,
    with path collisions reported. Go's map iteration order is arbitrary, so the
    loops below pick the next key arbitrarily. */
module Unflatten {
  import opened Bytes
  import opened Nesting
  import opened Options
  import opened Paths

  datatype Outcome<V> = Nest(children: Nested<V>) | PathCollision

  /** The cleaned segment list of every key. */
  type Table = map<Bytes, Path>

  function CleanTable(keys: set<Bytes>, d: Bytes): Table
    requires d != []
  {
    map k | k in keys :: CleanPath(k, d)
  }

  /** A leaf at p would sit where q needs a map. */
  predicate Shadows(p: Path, q: Path) {
    p != [] && ProperPrefix(p, q)
  }

  ghost predicate Collides(t: Table, keys: set<Bytes>) {
    exists k, l :: k in keys && l in keys && k in t && l in t && Shadows(t[k], t[l])
  }

  // ----- joined names

  /** Joined names of paths and parents in the table identify segment lists. */
  ghost predicate Faithful(t: Table, d: Bytes) {
    forall k, l, m, n :: k in t && l in t && 1 <= m <= |t[k]| && 1 <= n <= |t[l]| ==>
      Join(t[k][..m], d) == Join(t[l][..n], d) ==> t[k][..m] == t[l][..n]
  }

  lemma CleanTableIsFaithful(keys: set<Bytes>, d: Bytes)
    requires d != []
    ensures Faithful(CleanTable(keys, d), d)
  {
    var t := CleanTable(keys, d);
    forall k, l, m, n | k in t && l in t && 1 <= m <= |t[k]| && 1 <= n <= |t[l]|
                        && Join(t[k][..m], d) == Join(t[l][..n], d)
      ensures t[k][..m] == t[l][..n]
    {
      JoinedParentsAreFaithful(k, m, l, n, d);
    }
  }

  /** x is the joined path of some key seen so far. */
  ghost predicate LeafName(x: Bytes, t: Table, seen: set<Bytes>, d: Bytes) {
    exists k :: k in seen && k in t && t[k] != [] && Join(t[k], d) == x
  }

  /** x is the joined form of a proper parent of p shorter than n. */
  predicate ParentName(x: Bytes, p: Path, n: int, d: Bytes) {
    exists i :: 1 <= i < n && i < |p| && Join(p[..i], d) == x
  }

  ghost predicate SubtreeName(x: Bytes, t: Table, seen: set<Bytes>, d: Bytes) {
    exists k :: k in seen && k in t && ParentName(x, t[k], |t[k]|, d)
  }

  lemma WholeSlice(p: Path)
    ensures p[..|p|] == p
  {
  }

  /** The test against `subtrees`: a hit is exactly a key already seen that this leaf would shadow. */
  lemma SubtreeHitIsShadow(k: Bytes, t: Table, seen: set<Bytes>, d: Bytes)
    requires Faithful(t, d) && k in t && t[k] != []
    ensures SubtreeName(Join(t[k], d), t, seen, d) <==> exists l :: l in seen && l in t && Shadows(t[k], t[l])
  {
    WholeSlice(t[k]);
    if l, i :| l in seen && l in t && 1 <= i < |t[l]| && Join(t[l][..i], d) == Join(t[k], d) {
      assert t[l][..i] == t[k][..|t[k]|];
      assert Shadows(t[k], t[l]);
    }
    if l :| l in seen && l in t && Shadows(t[k], t[l]) {
      assert Join(t[l][..|t[k]|], d) == Join(t[k], d);
      assert ParentName(Join(t[k], d), t[l], |t[l]|, d);
    }
  }

  /** The test against `leaves`, one parent at a time: a hit is exactly a key already seen at that parent. */
  lemma LeafHitIsShadow(k: Bytes, i: nat, t: Table, seen: set<Bytes>, d: Bytes)
    requires Faithful(t, d) && k in t && 1 <= i < |t[k]|
    ensures LeafName(Join(t[k][..i], d), t, seen, d) <==> exists l :: l in seen && l in t && t[l] == t[k][..i]
  {
    forall l | l in t ensures t[l][..|t[l]|] == t[l] { WholeSlice(t[l]); }
  }

  // ----- the three maps of the scan

  ghost predicate LeavesOf(leaves: set<Bytes>, t: Table, seen: set<Bytes>, d: Bytes) {
    forall x :: x in leaves <==> LeafName(x, t, seen, d)
  }

  ghost predicate SubtreesOf(subtrees: set<Bytes>, t: Table, seen: set<Bytes>, d: Bytes) {
    forall x :: x in subtrees <==> SubtreeName(x, t, seen, d)
  }

  ghost predicate Supplies<V>(flat: map<Bytes, V>, t: Table, seen: set<Bytes>, d: Bytes, x: Bytes, v: V) {
    exists k :: k in seen && k in t && k in flat && t[k] != [] && Join(t[k], d) == x && flat[k] == v
  }

  /** cleaned holds the joined path of every key seen, with the value of such a key. */
  ghost predicate CleanedOf<V>(flat: map<Bytes, V>, cleaned: map<Bytes, V>, t: Table, seen: set<Bytes>, d: Bytes) {
    && (forall x :: x in cleaned ==> Supplies(flat, t, seen, d, x, cleaned[x]))
    && (forall k :: k in seen && k in t && t[k] != [] ==> Join(t[k], d) in cleaned)
  }

  lemma LeavesGrow(leaves: set<Bytes>, t: Table, seen: set<Bytes>, k: Bytes, d: Bytes)
    requires k in t && LeavesOf(leaves, t, seen, d)
    ensures LeavesOf(if t[k] == [] then leaves else leaves + {Join(t[k], d)}, t, seen + {k}, d)
  {
    var more := if t[k] == [] then leaves else leaves + {Join(t[k], d)};
    assert k in seen + {k};
    forall x ensures x in more <==> LeafName(x, t, seen + {k}, d) {
      if l :| l in seen && l in t && t[l] != [] && Join(t[l], d) == x { assert l in seen + {k}; }
    }
  }

  lemma SubtreesGrow(subtrees: set<Bytes>, more: set<Bytes>, t: Table, seen: set<Bytes>, k: Bytes, d: Bytes)
    requires k in t && SubtreesOf(subtrees, t, seen, d)
    requires forall x :: x in more <==> x in subtrees || ParentName(x, t[k], |t[k]|, d)
    ensures SubtreesOf(more, t, seen + {k}, d)
  {
    assert k in seen + {k};
    forall x ensures x in more <==> SubtreeName(x, t, seen + {k}, d) {
      if l :| l in seen && l in t && ParentName(x, t[l], |t[l]|, d) { assert l in seen + {k}; }
    }
  }

  lemma CleanedGrows<V>(flat: map<Bytes, V>, cleaned: map<Bytes, V>, t: Table, seen: set<Bytes>, k: Bytes, d: Bytes)
    requires k in t && k in flat && CleanedOf(flat, cleaned, t, seen, d)
    ensures CleanedOf(flat, if t[k] == [] then cleaned else cleaned[Join(t[k], d) := flat[k]], t, seen + {k}, d)
  {
    var more := if t[k] == [] then cleaned else cleaned[Join(t[k], d) := flat[k]];
    assert k in seen + {k};
    forall x | x in more ensures Supplies(flat, t, seen + {k}, d, x, more[x]) {
      if t[k] == [] || x != Join(t[k], d) {
        var l :| l in seen && l in t && l in flat && t[l] != [] && Join(t[l], d) == x && flat[l] == cleaned[x];
        assert l in seen + {k};
      }
    }
  }

  /** A key with no shadow either way can join the keys seen. */
  lemma AddIsSafe(t: Table, seen: set<Bytes>, k: Bytes, d: Bytes, leaves: set<Bytes>, subtrees: set<Bytes>)
    requires Faithful(t, d) && k in t && !Collides(t, seen)
    requires LeavesOf(leaves, t, seen, d) && SubtreesOf(subtrees, t, seen, d)
    requires t[k] != [] ==> Join(t[k], d) !in subtrees
    requires forall j :: 1 <= j < |t[k]| ==> Join(t[k][..j], d) !in leaves
    ensures !Collides(t, seen + {k})
  {
    if t[k] != [] { SubtreeHitIsShadow(k, t, seen, d); }
    forall l | l in seen && l in t ensures !Shadows(t[l], t[k]) {
      var n := |t[l]|;
      if 1 <= n < |t[k]| {
        LeafHitIsShadow(k, n, t, seen, d);
        assert Join(t[k][..n], d) !in leaves;
      }
    }
  }

  lemma NextParent(p: Path, i: nat, d: Bytes)
    requires 1 <= i < |p|
    ensures forall x :: ParentName(x, p, i + 1, d) <==> ParentName(x, p, i, d) || x == Join(p[..i], d)
  {
    forall x ensures ParentName(x, p, i + 1, d) <==> ParentName(x, p, i, d) || x == Join(p[..i], d) {
      if j :| 1 <= j < i && j < |p| && Join(p[..j], d) == x { assert 1 <= j < i + 1; }
      if x == Join(p[..i], d) { assert 1 <= i < i + 1; }
    }
  }

  /** The walk over the parents of one key: stop at the first that is a leaf, else record them all. */
  method WalkParents(parts: Path, leaves: set<Bytes>, before: set<Bytes>, d: Bytes)
    returns (hit: bool, subtrees: set<Bytes>)
    requires parts != []
    ensures hit <==> exists j :: 1 <= j < |parts| && Join(parts[..j], d) in leaves
    ensures !hit ==> forall x :: x in subtrees <==> x in before || ParentName(x, parts, |parts|, d)
  {
    subtrees := before;
    var i := 1;
    while i < |parts|
      invariant 1 <= i <= |parts|
      invariant forall x :: x in subtrees <==> x in before || ParentName(x, parts, i, d)
      invariant forall j :: 1 <= j < i ==> Join(parts[..j], d) !in leaves
    {
      var parent := Join(parts[..i], d);
      if parent in leaves {
        return true, subtrees;
      }
      subtrees := subtrees + {parent};
      NextParent(parts, i, d);
      i := i + 1;
    }
    hit := false;
  }

  // ----- the library call

  /** What a flat map with cleaned keys shows at p. */
  function Entry<V>(cleaned: map<Bytes, V>, d: Bytes, p: Path): Option<V>
    requires d != []
  {
    if Join(p, d) in cleaned && Split(Join(p, d), d) == p then Some(cleaned[Join(p, d)]) else None
  }

  ghost predicate PrefixFree(keys: set<Bytes>, d: Bytes)
    requires d != []
  {
    forall x, y :: x in keys && y in keys ==> !ProperPrefix(Split(x, d), Split(y, d))
  }

  /** The library's unflattening, specified on prefix-free keys: one insertion per key, in any order. */
  method UnflattenCleaned<V(!new)>(cleaned: map<Bytes, V>, d: Bytes) returns (m: Nested<V>)
    requires d != [] && PrefixFree(cleaned.Keys, d)
    ensures NoEmptyMaps(Tree(m))
    ensures forall p :: LeafAt(m, p) == Entry(cleaned, d, p)
  {
    m := map[];
    var todo := cleaned.Keys;
    ghost var done: map<Bytes, V> := map[];
    while todo != {}
      invariant done.Keys + todo == cleaned.Keys && done.Keys !! todo
      invariant forall x :: x in done ==> done[x] == cleaned[x]
      invariant NoEmptyMaps(Tree(m))
      invariant forall p :: LeafAt(m, p) == Entry(done, d, p)
      decreases todo
    {
      var x :| x in todo;
      var parts := Split(x, d);
      assert Fits(m, parts) by {
        forall q | LeafAt(m, q).Some? ensures !Comparable(parts, q) {
          assert Join(q, d) in cleaned && Split(Join(q, d), d) == q;
        }
        IncomparableFits(m, parts);
      }
      InsertKeepsNoEmpty(m, parts, cleaned[x]);
      JoinOfSplit(x, d);
      forall p ensures LeafAt(Insert(m, parts, cleaned[x]), p) == Entry(done[x := cleaned[x]], d, p) {
        InsertSets(m, parts, cleaned[x], p);
      }
      m := Insert(m, parts, cleaned[x]);
      done := done[x := cleaned[x]];
      todo := todo - {x};
    }
    assert done == cleaned;
  }

  // ----- from the table back to the keys

  ghost predicate CarriedBy<V>(flat: map<Bytes, V>, t: Table, p: Path, v: V) {
    exists k :: k in flat && k in t && t[k] == p && p != [] && flat[k] == v
  }

  /** m shows a leaf exactly at the non-empty cleaned paths of the flat keys,
      and each leaf carries the value of a key that cleans to its path. */
  ghost predicate Represents<V(!new)>(flat: map<Bytes, V>, t: Table, m: Nested<V>) {
    && NoEmptyMaps(Tree(m))
    && (forall p :: LeafAt(m, p).Some? ==> CarriedBy(flat, t, p, LeafAt(m, p).value))
    && (forall k :: k in flat && k in t && t[k] != [] ==> LeafAt(m, t[k]).Some?)
  }

  /** Every non-empty path of the table re-splits to itself. */
  ghost predicate Resplits(t: Table, d: Bytes)
    requires d != []
  {
    forall k :: k in t && t[k] != [] ==> Split(Join(t[k], d), d) == t[k]
  }

  lemma CleanTableResplits(keys: set<Bytes>, d: Bytes)
    requires d != []
    ensures Resplits(CleanTable(keys, d), d)
  {
    var t := CleanTable(keys, d);
    forall k | k in t && t[k] != [] ensures Split(Join(t[k], d), d) == t[k] {
      ParentsResplit(k, d, |t[k]|);
      WholeSlice(t[k]);
    }
  }

  /** No collision is what the library call needs. */
  lemma CleanedIsPrefixFree<V>(flat: map<Bytes, V>, cleaned: map<Bytes, V>, t: Table, d: Bytes)
    requires d != [] && Resplits(t, d)
    requires CleanedOf(flat, cleaned, t, flat.Keys, d) && !Collides(t, flat.Keys)
    ensures PrefixFree(cleaned.Keys, d)
  {
    forall x, y | x in cleaned && y in cleaned ensures !ProperPrefix(Split(x, d), Split(y, d)) {
      assert Supplies(flat, t, flat.Keys, d, x, cleaned[x]) && Supplies(flat, t, flat.Keys, d, y, cleaned[y]);
      var k :| k in flat && k in t && t[k] != [] && Join(t[k], d) == x && flat[k] == cleaned[x];
      var l :| l in flat && l in t && t[l] != [] && Join(t[l], d) == y && flat[l] == cleaned[y];
      assert !Shadows(t[k], t[l]);
    }
  }

  lemma CleanedRepresents<V(!new)>(flat: map<Bytes, V>, cleaned: map<Bytes, V>, t: Table, d: Bytes, m: Nested<V>)
    requires d != [] && Resplits(t, d) && CleanedOf(flat, cleaned, t, flat.Keys, d)
    requires NoEmptyMaps(Tree(m)) && forall p :: LeafAt(m, p) == Entry(cleaned, d, p)
    ensures Represents(flat, t, m)
  {
    forall p | LeafAt(m, p).Some? ensures CarriedBy(flat, t, p, LeafAt(m, p).value) {
      var x := Join(p, d);
      assert Supplies(flat, t, flat.Keys, d, x, cleaned[x]);
      var k :| k in flat && k in t && t[k] != [] && Join(t[k], d) == x && flat[k] == cleaned[x];
      assert Split(x, d) == t[k];
    }
    forall k | k in flat && k in t && t[k] != [] ensures LeafAt(m, t[k]).Some? {
      assert Entry(cleaned, d, t[k]).Some?;
    }
  }

  // ----- the operation

  lemma HitCollides(k: Bytes, j: nat, t: Table, seen: set<Bytes>, keys: set<Bytes>, d: Bytes)
    requires Faithful(t, d) && k in t && 1 <= j < |t[k]|
    requires seen <= keys && k in keys && LeafName(Join(t[k][..j], d), t, seen, d)
    ensures Collides(t, keys)
  {
    LeafHitIsShadow(k, j, t, seen, d);
    var l :| l in seen && l in t && t[l] == t[k][..j];
    assert Shadows(t[l], t[k]);
  }

  /** What the three maps hold once some keys have been visited without a collision. */
  ghost predicate ScanOk<V>(flat: map<Bytes, V>, t: Table, d: Bytes, seen: set<Bytes>,
                            cleaned: map<Bytes, V>, leaves: set<Bytes>, subtrees: set<Bytes>) {
    && seen <= flat.Keys
    && LeavesOf(leaves, t, seen, d) && SubtreesOf(subtrees, t, seen, d)
    && CleanedOf(flat, cleaned, t, seen, d)
    && !Collides(t, seen)
  }

  /** One key of the scan: find the collision it completes, or record it. */
  method ScanKey<V>(k: Bytes, flat: map<Bytes, V>, ghost t: Table, d: Bytes, ghost seen: set<Bytes>,
                    before: map<Bytes, V>, leavesBefore: set<Bytes>, subtreesBefore: set<Bytes>)
    returns (collision: bool, cleaned: map<Bytes, V>, leaves: set<Bytes>, subtrees: set<Bytes>)
    requires d != [] && Faithful(t, d)
    requires k in flat && k in t && t[k] == CleanPath(k, d)
    requires ScanOk(flat, t, d, seen, before, leavesBefore, subtreesBefore)
    ensures collision ==> Collides(t, flat.Keys)
    ensures !collision ==> ScanOk(flat, t, d, seen + {k}, cleaned, leaves, subtrees)
  {
    collision, cleaned, leaves, subtrees := false, before, leavesBefore, subtreesBefore;
    var parts := SplitCleanPath(k, d);
    LeavesGrow(leaves, t, seen, k, d);
    CleanedGrows(flat, cleaned, t, seen, k, d);
    if |parts| == 0 {
      AddIsSafe(t, seen, k, d, leaves, subtrees);
      SubtreesGrow(subtrees, subtrees, t, seen, k, d);
      return;
    }
    var path := Join(parts, d);
    if path in subtrees {
      SubtreeHitIsShadow(k, t, seen, d);
      return true, cleaned, leaves, subtrees;
    }
    var hit, marked := WalkParents(parts, leaves, subtrees, d);
    if hit {
      ghost var j :| 1 <= j < |parts| && Join(parts[..j], d) in leaves;
      HitCollides(k, j, t, seen, flat.Keys, d);
      return true, cleaned, leaves, subtrees;
    }
    AddIsSafe(t, seen, k, d, leaves, subtrees);
    SubtreesGrow(subtrees, marked, t, seen, k, d);
    subtrees := marked;
    leaves := leaves + {path};
    cleaned := cleaned[path := flat[k]];
  }

  /** `unflattenMap`. */
  method UnflattenMap<V(!new)>(flat: map<Bytes, V>, d: Bytes) returns (r: Outcome<V>)
    ensures d == [] ==> r == Nest(map k | k in flat :: Leaf(flat[k]))
    ensures d != [] ==> (r.PathCollision? <==> Collides(CleanTable(flat.Keys, d), flat.Keys))
    ensures d != [] && r.Nest? ==> Represents(flat, CleanTable(flat.Keys, d), r.children)
  {
    if d == [] {
      return Nest(map k | k in flat :: Leaf(flat[k]));
    }
    ghost var t := CleanTable(flat.Keys, d);
    CleanTableIsFaithful(flat.Keys, d);
    CleanTableResplits(flat.Keys, d);
    var cleaned: map<Bytes, V>, leaves: set<Bytes>, subtrees: set<Bytes> := map[], {}, {};
    var todo := flat.Keys;
    ghost var seen: set<Bytes> := {};
    while todo != {}
      invariant seen + todo == flat.Keys
      invariant ScanOk(flat, t, d, seen, cleaned, leaves, subtrees)
      decreases todo
    {
      var k :| k in todo;
      todo := todo - {k};
      var collision;
      collision, cleaned, leaves, subtrees := ScanKey(k, flat, t, d, seen, cleaned, leaves, subtrees);
      if collision {
        return PathCollision;
      }
      seen := seen + {k};
    }
    assert seen == flat.Keys;
    CleanedIsPrefixFree(flat, cleaned, t, d);
    var m := UnflattenCleaned(cleaned, d);
    CleanedRepresents(flat, cleaned, t, d, m);
    r := Nest(m);
  }

  // ----- what the contract means

  /** Keys that clean to the same non-empty path carry the same value. */
  ghost predicate Agreeing<V>(flat: map<Bytes, V>, t: Table) {
    forall k, l :: k in flat && l in flat && k in t && l in t && t[k] == t[l] != [] ==> flat[k] == flat[l]
  }

  /** Every value is read back at its key's path exactly when keys that clean to one
      path agree. When they do not, a value is lost without a collision. */
  lemma LosslessIffAgreeing<V(!new)>(flat: map<Bytes, V>, t: Table, m: Nested<V>)
    requires flat.Keys == t.Keys && Represents(flat, t, m)
    ensures (forall k :: k in flat && t[k] != [] ==> LeafAt(m, t[k]) == Some(flat[k])) <==> Agreeing(flat, t)
  {
    if Agreeing(flat, t) {
      forall k | k in flat && t[k] != [] ensures LeafAt(m, t[k]) == Some(flat[k]) {
        assert CarriedBy(flat, t, t[k], LeafAt(m, t[k]).value);
      }
    }
  }

  /** The nested map is then the same for every iteration order, and shows nothing else. */
  lemma OrderDoesNotMatter<V(!new)>(flat: map<Bytes, V>, t: Table, m: Nested<V>, n: Nested<V>)
    requires Agreeing(flat, t) && flat.Keys == t.Keys
    requires Represents(flat, t, m) && Represents(flat, t, n)
    ensures m == n
    ensures forall p :: LeafAt(m, p).Some? ==> exists k :: k in flat && t[k] == p && LeafAt(m, p) == Some(flat[k])
  {
    forall p ensures LeafAt(m, p) == LeafAt(n, p) {
      if LeafAt(m, p).Some? { assert CarriedBy(flat, t, p, LeafAt(m, p).value); }
      if LeafAt(n, p).Some? { assert CarriedBy(flat, t, p, LeafAt(n, p).value); }
    }
    LeavesDetermine(Tree(m), Tree(n));
    forall p | LeafAt(m, p).Some? ensures exists k :: k in flat && t[k] == p && LeafAt(m, p) == Some(flat[k]) {
      assert CarriedBy(flat, t, p, LeafAt(m, p).value);
    }
  }
}
