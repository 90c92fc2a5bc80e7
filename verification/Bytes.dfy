/** Go strings and etcd keys: byte strings under the bytewise lexicographic order. */
module Bytes {

  type Byte = b: int | 0 <= b < 256
  type Bytes = seq<Byte>

  const SLASH: Byte := 0x2f

  /** etcd's key order. */
  predicate Less(a: Bytes, b: Bytes) {
    b != [] && (a == [] || a[0] < b[0] || (a[0] == b[0] && Less(a[1..], b[1..])))
  }

  predicate AtMost(a: Bytes, b: Bytes) {
    a == b || Less(a, b)
  }

  lemma {:induction false} LessIsTotal(a: Bytes, b: Bytes)
    ensures Less(a, b) || a == b || Less(b, a)
    ensures !(Less(a, b) && Less(b, a)) && !Less(a, a)
  {
    if a != [] && b != [] && a[0] == b[0] {
      LessIsTotal(a[1..], b[1..]);
      assert a == [a[0]] + a[1..] && b == [b[0]] + b[1..];
    }
    if a != [] { LessIsIrreflexive(a); }
  }

  lemma {:induction false} LessIsIrreflexive(a: Bytes)
    ensures !Less(a, a)
  {
    if a != [] { LessIsIrreflexive(a[1..]); }
  }

  lemma {:induction false} LessIsTransitive(a: Bytes, b: Bytes, c: Bytes)
    requires Less(a, b) && Less(b, c)
    ensures Less(a, c)
  {
    if a != [] && a[0] == b[0] && b[0] == c[0] {
      LessIsTransitive(a[1..], b[1..], c[1..]);
    }
  }

  lemma {:induction false} ExtensionIsGreater(a: Bytes, s: Bytes)
    requires s != []
    ensures Less(a, a + s)
  {
    if a == [] {
      assert a + s == s;
    } else {
      ExtensionIsGreater(a[1..], s);
      assert (a + s)[1..] == a[1..] + s;
    }
  }

  /** `k + "\x00"` is the immediate successor of k: a scan resumed there skips no key. */
  lemma {:induction false} SuccessorSkipsNothing(k: Bytes, x: Bytes)
    ensures Less(k, x) <==> AtMost(k + [0], x)
  {
    if k == [] {
      assert k + [0] == [0];
      if x != [] {
        if x[0] == 0 {
          assert x == [0] + x[1..];
          if x[1..] != [] { ExtensionIsGreater([0], x[1..]); }
        }
      }
    } else {
      assert (k + [0])[1..] == k[1..] + [0];
      if x != [] && x[0] == k[0] {
        SuccessorSkipsNothing(k[1..], x[1..]);
        assert x == [x[0]] + x[1..] && k + [0] == [k[0]] + (k[1..] + [0]);
      }
    }
  }
}
