/** etcd as an abstract history: what was committed at each revision, the store
    this makes, and the changes a watch over a key or prefix may see. */
module History {
  import opened Bytes

  datatype Op = Put(key: Bytes, value: Bytes) | Delete(key: Bytes)

  /** h[r] lists the operations committed at revision r. A position n stands for
      "every revision below n"; a watch opened at revision n starts at position n. */
  type History = seq<seq<Op>>
  type Store = map<Bytes, Bytes>

  /** What a provider reads and watches. */
  datatype Scope = Key(key: Bytes) | Prefix(prefix: Bytes)

  predicate InScope(s: Scope, k: Bytes) {
    match s
    case Key(key) => k == key
    case Prefix(prefix) => prefix <= k
  }

  function Apply(m: Store, op: Op): Store {
    match op
    case Put(k, v) => m[k := v]
    case Delete(k) => m - {k}
  }

  function ApplyAll(m: Store, ops: seq<Op>): Store {
    if ops == [] then m else Apply(ApplyAll(m, ops[..|ops| - 1]), ops[|ops| - 1])
  }

  function StoreAt(h: History, n: nat): Store
    requires n <= |h|
  {
    if n == 0 then map[] else ApplyAll(StoreAt(h, n - 1), h[n - 1])
  }

  function Restrict(m: Store, s: Scope): Store {
    map k | k in m && InScope(s, k) :: m[k]
  }

  /** What a read of the scope at position n finds. */
  function Snapshot(h: History, s: Scope, n: nat): Store
    requires n <= |h|
  {
    Restrict(StoreAt(h, n), s)
  }

  /** One committed operation as a watch reports it. */
  datatype Change = Change(op: Op, rev: nat)

  function ChangesAt(ops: seq<Op>, s: Scope, rev: nat): seq<Change> {
    if ops == [] then []
    else
      var last := ops[|ops| - 1];
      ChangesAt(ops[..|ops| - 1], s, rev) + (if InScope(s, last.key) then [Change(last, rev)] else [])
  }

  /** The changes in scope at revisions lo..hi-1, in commit order. */
  function Changes(h: History, s: Scope, lo: nat, hi: nat): seq<Change>
    requires lo <= hi <= |h|
  {
    if lo == hi then [] else Changes(h, s, lo, hi - 1) + ChangesAt(h[hi - 1], s, hi - 1)
  }

  function Replay(m: Store, cs: seq<Change>): Store {
    if cs == [] then m else Apply(Replay(m, cs[..|cs| - 1]), cs[|cs| - 1].op)
  }

  // ----- laws of the history

  lemma {:induction false} ChangesConcatenate(h: History, s: Scope, lo: nat, mid: nat, hi: nat)
    requires lo <= mid <= hi <= |h|
    ensures Changes(h, s, lo, hi) == Changes(h, s, lo, mid) + Changes(h, s, mid, hi)
  {
    if mid < hi { ChangesConcatenate(h, s, lo, mid, hi - 1); }
  }

  lemma {:induction false} ReplayConcatenates(m: Store, a: seq<Change>, b: seq<Change>)
    ensures Replay(m, a + b) == Replay(Replay(m, a), b)
  {
    if b == [] {
      assert a + b == a;
    } else {
      ReplayConcatenates(m, a, b[..|b| - 1]);
      assert (a + b)[..|a + b| - 1] == a + b[..|b| - 1];
    }
  }

  lemma {:induction false} RestrictOneRevision(m: Store, ops: seq<Op>, s: Scope, rev: nat)
    ensures Restrict(ApplyAll(m, ops), s) == Replay(Restrict(m, s), ChangesAt(ops, s, rev))
  {
    if ops != [] {
      var front := ops[..|ops| - 1];
      var last := ops[|ops| - 1];
      RestrictOneRevision(m, front, s, rev);
      if InScope(s, last.key) {
        var cs := ChangesAt(front, s, rev) + [Change(last, rev)];
        assert cs[..|cs| - 1] == ChangesAt(front, s, rev);
        RestrictApply(ApplyAll(m, front), last, s);
      } else {
        RestrictApply(ApplyAll(m, front), last, s);
        assert ChangesAt(front, s, rev) + [] == ChangesAt(front, s, rev);
      }
    }
  }

  lemma RestrictApply(m: Store, op: Op, s: Scope)
    ensures Restrict(Apply(m, op), s) == if InScope(s, op.key) then Apply(Restrict(m, s), op) else Restrict(m, s)
  {
    var a := Restrict(Apply(m, op), s);
    var b := if InScope(s, op.key) then Apply(Restrict(m, s), op) else Restrict(m, s);
    assert forall k :: k in a <==> k in b;
    assert forall k :: k in a ==> a[k] == b[k];
  }

  /** Replaying the changes of a range turns the snapshot before it into the snapshot after it. */
  lemma {:induction false} SnapshotReplays(h: History, s: Scope, lo: nat, hi: nat)
    requires lo <= hi <= |h|
    ensures Snapshot(h, s, hi) == Replay(Snapshot(h, s, lo), Changes(h, s, lo, hi))
  {
    if lo < hi {
      SnapshotReplays(h, s, lo, hi - 1);
      RestrictOneRevision(StoreAt(h, hi - 1), h[hi - 1], s, hi - 1);
      ReplayConcatenates(Snapshot(h, s, lo), Changes(h, s, lo, hi - 1), ChangesAt(h[hi - 1], s, hi - 1));
    }
  }

  lemma {:induction false} ChangesAtRevision(ops: seq<Op>, s: Scope, rev: nat)
    ensures forall c: Change :: c in ChangesAt(ops, s, rev) ==> c.rev == rev && InScope(s, c.op.key)
  {
    if ops != [] { ChangesAtRevision(ops[..|ops| - 1], s, rev); }
  }

  predicate InOrder(cs: seq<Change>) {
    forall i, j :: 0 <= i < j < |cs| ==> cs[i].rev <= cs[j].rev
  }

  /** Changes of a range lie in the range and in scope, in revision order. */
  lemma {:induction false} ChangesInRange(h: History, s: Scope, lo: nat, hi: nat)
    requires lo <= hi <= |h|
    ensures forall c: Change :: c in Changes(h, s, lo, hi) ==> lo <= c.rev < hi && InScope(s, c.op.key)
    ensures InOrder(Changes(h, s, lo, hi))
  {
    if lo < hi {
      ChangesInRange(h, s, lo, hi - 1);
      ChangesAtRevision(h[hi - 1], s, hi - 1);
      var a: seq<Change> := Changes(h, s, lo, hi - 1);
      var b: seq<Change> := ChangesAt(h[hi - 1], s, hi - 1);
      var both: seq<Change> := a + b;
      forall i, j | 0 <= i < j < |both| ensures both[i].rev <= both[j].rev {
        assert both[i] in a || both[i] in b;
        assert j >= |a| ==> both[j] in b;
      }
    }
  }

  // ----- a late re-read is caught up

  /** The operation that a list of changes leaves at a key, if any. */
  function LastOn(cs: seq<Change>, k: Bytes): (r: int)
    ensures -1 <= r < |cs|
    ensures r >= 0 ==> cs[r].op.key == k
  {
    if cs == [] then -1
    else if cs[|cs| - 1].op.key == k then |cs| - 1
    else LastOn(cs[..|cs| - 1], k)
  }

  lemma {:induction false} ReplayAtKey(m: Store, cs: seq<Change>, k: Bytes)
    ensures LastOn(cs, k) < 0 ==> (k in Replay(m, cs) <==> k in m) && (k in m ==> Replay(m, cs)[k] == m[k])
    ensures LastOn(cs, k) >= 0 ==>
              var op := cs[LastOn(cs, k)].op;
              (k in Replay(m, cs) <==> op.Put?) && (op.Put? ==> Replay(m, cs)[k] == op.value)
  {
    if cs != [] && cs[|cs| - 1].op.key != k {
      ReplayAtKey(m, cs[..|cs| - 1], k);
    }
  }

  /** A consumer that re-reads later than the revision it was told, and is then sent
      changes it has already read, still ends at the right store. */
  lemma LateRereadConverges(h: History, s: Scope, told: nat, read: nat, end: nat)
    requires told <= read <= end <= |h|
    ensures Replay(Snapshot(h, s, read), Changes(h, s, told, end)) == Snapshot(h, s, end)
  {
    var early, late := Changes(h, s, told, read), Changes(h, s, read, end);
    var m := Snapshot(h, s, read);
    SnapshotReplays(h, s, told, read);
    SnapshotReplays(h, s, read, end);
    ChangesConcatenate(h, s, told, read, end);
    ReplayConcatenates(m, early, late);
    var again := Replay(m, early);
    forall k: Bytes ensures (k in again <==> k in m) && (k in m ==> again[k] == m[k]) {
      ReplayAtKey(m, early, k);
      ReplayAtKey(Snapshot(h, s, told), early, k);
    }
    assert again == m;
  }
}
