/** Prefix reads: the range bound of a prefix, and its carry through a byte buffer. */
module RangeRead {
  import opened Bytes

  // ----- the range of a prefix

  /** etcd reads the range end "\x00" as "every key from here on". */
  const NO_END: Bytes := [0]

  predicate InRange(k: Bytes, from: Bytes, end: Bytes) {
    AtMost(from, k) && (end == NO_END || Less(k, end))
  }

  function PrefixEnd(prefix: Bytes): (end: Bytes)
    ensures end != NO_END ==> end != []
    ensures end != NO_END ==> |end| <= |prefix|
  {
    if prefix == [] then NO_END
    else
      var last := |prefix| - 1;
      if prefix[last] < 255 then prefix[..last] + [prefix[last] + 1] else PrefixEnd(prefix[..last])
  }

  /** `prefixEnd`: carry in place through a byte buffer. */
  method ComputePrefixEnd(prefix: Bytes) returns (end: Bytes)
    ensures end == PrefixEnd(prefix)
  {
    if prefix == [] {
      return NO_END;
    }
    var b := new Byte[|prefix|](i requires 0 <= i < |prefix| => prefix[i]);
    var i := b.Length - 1;
    assert prefix[..i + 1] == prefix;
    while i >= 0
      invariant -1 <= i < b.Length
      invariant b[..] == prefix
      invariant PrefixEnd(prefix) == PrefixEnd(prefix[..i + 1])
    {
      if b[i] < 255 {
        assert prefix[..i + 1][..i] == prefix[..i];
        b[i] := b[i] + 1;
        return b[..i + 1];
      }
      assert prefix[..i + 1][..i] == prefix[..i];
      i := i - 1;
    }
    return NO_END;
  }

  /** The bound read from the front: the first byte carries when the rest has no bound. */
  lemma {:induction false} PrefixEndFromFront(a: Byte, rest: Bytes)
    ensures PrefixEnd([a] + rest) ==
      if PrefixEnd(rest) != NO_END then [a] + PrefixEnd(rest)
      else if a < 255 then [a + 1] else NO_END
  {
    if rest == [] {
      assert ([a] + rest)[..0] == [];
    } else {
      var last := |rest| - 1;
      assert ([a] + rest)[..|rest|] == [a] + rest[..last];
      assert ([a] + rest)[|rest|] == rest[last];
      if rest[last] == 255 {
        PrefixEndFromFront(a, rest[..last]);
      } else {
        assert [a] + rest[..last] + [rest[last] + 1] == [a] + (rest[..last] + [rest[last] + 1]);
        NotNoEnd(rest[..last], rest[last] + 1);
      }
    }
  }

  lemma NotNoEnd(s: Bytes, b: Byte)
    requires b >= 1
    ensures s + [b] != NO_END
  {
    assert (s + [b])[|s|] == b;
  }

  /** The prefix range is exact: a key is in it if and only if it starts with the prefix. */
  lemma {:induction false} PrefixRangeIsExact(prefix: Bytes, k: Bytes)
    ensures InRange(k, prefix, PrefixEnd(prefix)) <==> prefix <= k
  {
    if prefix == [] {
    } else {
      var a, rest := prefix[0], prefix[1..];
      assert prefix == [a] + rest;
      PrefixEndFromFront(a, rest);
      if a < 255 { NotNoEnd([], a + 1); assert [] + [a + 1] == [a + 1] && [a + 1][1..] == []; }
      if k != [] && k[0] == a {
        PrefixRangeIsExact(rest, k[1..]);
        assert k == [a] + k[1..];
        var e := PrefixEnd(rest);
        assert e != NO_END ==> ([a] + e)[1..] == e;
      } else {
        assert !(prefix <= k) && (AtMost(prefix, k) ==> k != [] && a < k[0]);
        var e := PrefixEnd(prefix);
        if e != NO_END {
          assert e[0] == a || (e == [a + 1] && e[1..] == []);
          assert k != [] && a < k[0] ==> !Less(k, e);
        } else {
          NoEndMeansAllFF(prefix);
          assert prefix[0] == 255;
        }
      }
    }
  }

  /** A run of 0xff bytes at least as long as b is not below b. */
  lemma {:induction false} AllFFIsHigh(k: Bytes, b: Bytes)
    requires |b| <= |k| && forall i :: 0 <= i < |k| ==> k[i] == 255
    ensures !Less(k, b)
  {
    if b != [] { AllFFIsHigh(k[1..], b[1..]); }
  }

  lemma {:induction false} NoEndMeansAllFF(prefix: Bytes)
    ensures PrefixEnd(prefix) == NO_END <==> forall i :: 0 <= i < |prefix| ==> prefix[i] == 255
  {
    if prefix != [] {
      var last := |prefix| - 1;
      NoEndMeansAllFF(prefix[..last]);
      if prefix[last] < 255 {
        NotNoEnd(prefix[..last], prefix[last] + 1);
      } else if forall i :: 0 <= i < last ==> prefix[..last][i] == 255 {
        assert forall i :: 0 <= i < last ==> prefix[i] == prefix[..last][i];
      } else {
        var i :| 0 <= i < last && prefix[..last][i] != 255;
        assert prefix[i] != 255;
      }
    }
  }

  /** The bound is the least upper bound of the keys with the prefix, and it is missing exactly when there is none. */
  lemma PrefixEndIsLeast(prefix: Bytes, b: Bytes)
    ensures PrefixEnd(prefix) != NO_END ==>
              ((forall k :: prefix <= k ==> Less(k, b)) <==> AtMost(PrefixEnd(prefix), b))
    ensures PrefixEnd(prefix) == NO_END ==> exists k :: prefix <= k && !Less(k, b)
  {
    var e := PrefixEnd(prefix);
    if e == NO_END {
      NoEndMeansAllFF(prefix);
      var k := prefix + seq(|b|, i => 255 as Byte);
      AllFFIsHigh(k, b);
      assert prefix <= k;
    } else {
      LessIsTotal(e, b);
      LessIsTotal(prefix, b);
      if Less(b, e) {
        PrefixRangeIsExact(prefix, b);
        LessIsIrreflexive(b);
        assert prefix <= prefix;
      } else {
        forall k | prefix <= k ensures Less(k, b) {
          PrefixRangeIsExact(prefix, k);
          if e != b { LessIsTransitive(k, e, b); }
        }
      }
    }
  }
}
