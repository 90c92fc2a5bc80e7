/** Path splitting, cleaning and joining, and the default key transform.
    The delimiter is any non-empty byte string, including ones that overlap themselves. */
module Paths {
  import opened Bytes
  import opened Sequences

  /** d occurs in s at position i. */
  predicate At(s: Bytes, d: Bytes, i: int) {
    0 <= i <= |s| - |d| && s[i..i + |d|] == d
  }

  /** Start of the leftmost occurrence of d in s at or after i, or -1. */
  function FindFrom(s: Bytes, d: Bytes, i: nat): (r: int)
    ensures r == -1 || (r >= i && At(s, d, r))
    ensures forall j :: i <= j && (r < 0 || j < r) ==> !At(s, d, j)
    decreases |s| - i
  {
    if i + |d| > |s| then -1
    else if At(s, d, i) then i
    else if i == |s| then -1
    else FindFrom(s, d, i + 1)
  }

  /** Where d first occurs in s, or -1 if it does not. */
  function Find(s: Bytes, d: Bytes): (r: int)
    ensures r == -1 || At(s, d, r)
    ensures forall j :: 0 <= j && (r < 0 || j < r) ==> !At(s, d, j)
  {
    FindFrom(s, d, 0)
  }

  lemma AtIgnoresTail(s: Bytes, t: Bytes, d: Bytes)
    ensures forall i :: i + |d| <= |s| ==> At(s + t, d, i) == At(s, d, i)
  {
    forall i | 0 <= i <= |s| - |d| ensures At(s + t, d, i) == At(s, d, i) {
      assert (s + t)[i..i + |d|] == s[i..i + |d|];
    }
  }

  /** The library split: cut at the leftmost occurrence, then go on after it. */
  function Split(s: Bytes, d: Bytes): (parts: seq<Bytes>)
    requires d != []
    ensures |parts| >= 1
    decreases |s|
  {
    var r := Find(s, d);
    if r < 0 then [s] else [s[..r]] + Split(s[r + |d|..], d)
  }

  function Join(parts: seq<Bytes>, d: Bytes): Bytes {
    if parts == [] then []
    else if |parts| == 1 then parts[0]
    else parts[0] + d + Join(parts[1..], d)
  }

  function TrimLeft(parts: seq<Bytes>): (r: seq<Bytes>)
    ensures |r| <= |parts|
    ensures r == parts[|parts| - |r|..]
    ensures r != [] ==> r[0] != []
  {
    if parts != [] && parts[0] == [] then TrimLeft(parts[1..]) else parts
  }

  function TrimRight(parts: seq<Bytes>): (r: seq<Bytes>)
    ensures r <= parts
    ensures r != [] ==> r[|r| - 1] != []
  {
    if parts != [] && parts[|parts| - 1] == [] then TrimRight(parts[..|parts| - 1]) else parts
  }

  /** Drop empty segments at both ends; interior ones stay. */
  function Clean(parts: seq<Bytes>): seq<Bytes> {
    TrimRight(TrimLeft(parts))
  }

  function CleanPath(s: Bytes, d: Bytes): seq<Bytes>
    requires d != []
  {
    Clean(Split(s, d))
  }

  /** parts is all without its first a and last b segments, and those are empty. */
  predicate IsCut(all: seq<Bytes>, a: nat, parts: seq<Bytes>, b: nat) {
    && a + |parts| + b == |all|
    && parts == all[a..|all| - b]
    && (forall i :: 0 <= i < a ==> all[i] == [])
    && (forall i :: |all| - b <= i < |all| ==> all[i] == [])
  }

  lemma {:induction false} TrimLeftCuts(parts: seq<Bytes>)
    ensures forall i :: 0 <= i < |parts| - |TrimLeft(parts)| ==> parts[i] == []
  {
    if parts != [] && parts[0] == [] {
      TrimLeftCuts(parts[1..]);
      forall i | 0 < i < |parts| - |TrimLeft(parts)| ensures parts[i] == [] {
        assert parts[i] == parts[1..][i - 1];
      }
    }
  }

  lemma {:induction false} TrimRightCuts(parts: seq<Bytes>)
    ensures forall i :: |TrimRight(parts)| <= i < |parts| ==> parts[i] == []
  {
    if parts != [] && parts[|parts| - 1] == [] {
      TrimRightCuts(parts[..|parts| - 1]);
      forall i | |TrimRight(parts)| <= i < |parts| - 1 ensures parts[i] == [] {
        assert parts[i] == parts[..|parts| - 1][i];
      }
    }
  }

  /** Cleaning only cuts empty segments off the two ends, and cuts all of them. */
  lemma CleanCutsEnds(parts: seq<Bytes>) returns (a: nat, b: nat)
    ensures IsCut(parts, a, Clean(parts), b)
    ensures Clean(parts) != [] ==> Clean(parts)[0] != [] && Clean(parts)[|Clean(parts)| - 1] != []
  {
    var l := TrimLeft(parts);
    a := |parts| - |l|;
    b := |l| - |TrimRight(l)|;
    TrimLeftCuts(parts);
    TrimRightCuts(l);
    forall i | |parts| - b <= i < |parts| ensures parts[i] == [] {
      assert parts[i] == l[i - a];
    }
  }

  /** `splitCleanPath`: reslice while the ends are empty. */
  method SplitCleanPath(s: Bytes, d: Bytes) returns (parts: seq<Bytes>)
    requires d != []
    ensures parts == CleanPath(s, d)
  {
    parts := Split(s, d);
    ghost var all := parts;
    while |parts| > 0 && parts[0] == []
      invariant TrimLeft(all) == TrimLeft(parts)
    {
      parts := parts[1..];
    }
    while |parts| > 0 && parts[|parts| - 1] == []
      invariant Clean(all) == TrimRight(parts)
    {
      parts := parts[..|parts| - 1];
    }
  }

  // ----- segment lists that survive a join

  /** The segment lists that splitting can produce: the first delimiter after a
      segment is the one that was put there. For a delimiter such as "aa" this is
      more than not containing it: the segment "a" may come last but not before another. */
  predicate Canonical(parts: seq<Bytes>, d: Bytes)
    requires d != []
  {
    && parts != []
    && (forall i :: 0 <= i < |parts| - 1 ==> Find(parts[i] + d, d) == |parts[i]|)
    && Find(parts[|parts| - 1], d) < 0
  }

  lemma DelimAtEnd(p: Bytes, d: Bytes)
    ensures At(p + d, d, |p|)
  {
    assert (p + d)[|p|..|p| + |d|] == d;
  }

  /** A leftmost occurrence stays leftmost when more bytes follow. */
  lemma FindIgnoresTail(p: Bytes, d: Bytes, rest: Bytes)
    requires d != [] && Find(p + d, d) == |p|
    ensures Find(p + d + rest, d) == |p|
  {
    AtIgnoresTail(p + d, rest, d);
    assert At(p + d + rest, d, |p|);
  }

  lemma FindBeforeDelim(s: Bytes, d: Bytes)
    requires d != [] && Find(s, d) >= 0
    ensures Find(s[..Find(s, d)] + d, d) == Find(s, d)
  {
    var r := Find(s, d);
    var t := s[..r] + d;
    assert s == t + s[r + |d|..];
    AtIgnoresTail(t, s[r + |d|..], d);
    assert At(t, d, r);
  }

  lemma JoinCons(p: Bytes, rest: seq<Bytes>, d: Bytes)
    requires rest != []
    ensures Join([p] + rest, d) == p + d + Join(rest, d)
  {
    assert ([p] + rest)[1..] == rest;
  }

  lemma CutAround(s: Bytes, d: Bytes, r: nat)
    requires At(s, d, r)
    ensures s == s[..r] + d + s[r + |d|..]
  {
    assert s == s[..r] + s[r..r + |d|] + s[r + |d|..];
  }

  lemma {:induction false} JoinOfSplit(s: Bytes, d: Bytes)
    requires d != []
    ensures Join(Split(s, d), d) == s
    decreases |s|
  {
    var r := Find(s, d);
    if r >= 0 {
      var tail := s[r + |d|..];
      JoinOfSplit(tail, d);
      JoinCons(s[..r], Split(tail, d), d);
      CutAround(s, d, r);
    }
  }

  lemma {:induction false} SplitIsCanonical(s: Bytes, d: Bytes)
    requires d != []
    ensures Canonical(Split(s, d), d)
    decreases |s|
  {
    var r := Find(s, d);
    if r >= 0 {
      var rest := Split(s[r + |d|..], d);
      SplitIsCanonical(s[r + |d|..], d);
      FindBeforeDelim(s, d);
      var parts := [s[..r]] + rest;
      forall i | 0 <= i < |parts| - 1 ensures Find(parts[i] + d, d) == |parts[i]| {
        if i > 0 { assert parts[i] == rest[i - 1]; }
      }
    }
  }

  lemma FindBeforeDelimMeansAbsent(p: Bytes, d: Bytes)
    requires d != [] && Find(p + d, d) == |p|
    ensures Find(p, d) < 0
  {
    AtIgnoresTail(p, d, d);
  }

  /** Any non-empty stretch of a canonical list is canonical: in particular a cleaned path and its parents. */
  lemma SliceIsCanonical(parts: seq<Bytes>, d: Bytes, lo: nat, hi: nat)
    requires d != [] && Canonical(parts, d)
    requires lo < hi <= |parts|
    ensures Canonical(parts[lo..hi], d)
  {
    var cut := parts[lo..hi];
    forall i | 0 <= i < |cut| - 1 ensures Find(cut[i] + d, d) == |cut[i]| {
      assert cut[i] == parts[lo + i];
    }
    if hi < |parts| {
      assert Find(parts[hi - 1] + d, d) == |parts[hi - 1]|;
      FindBeforeDelimMeansAbsent(parts[hi - 1], d);
    }
  }

  lemma SplitAtHead(p: Bytes, rest: Bytes, d: Bytes)
    requires d != [] && Find(p + d, d) == |p|
    ensures Split(p + d + rest, d) == [p] + Split(rest, d)
  {
    var s := p + d + rest;
    FindIgnoresTail(p, d, rest);
    assert s[|p| + |d|..] == rest && s[..|p|] == p;
  }

  lemma CanonicalHead(p: Bytes, tail: seq<Bytes>, d: Bytes)
    requires d != [] && tail != [] && Canonical([p] + tail, d)
    ensures Find(p + d, d) == |p| && Canonical(tail, d)
  {
    var parts := [p] + tail;
    SliceIsCanonical(parts, d, 1, |parts|);
    assert parts[1..|parts|] == tail && parts[0] == p;
  }

  lemma SplitOfJoinCons(p: Bytes, tail: seq<Bytes>, d: Bytes)
    requires d != [] && tail != [] && Find(p + d, d) == |p|
    requires Split(Join(tail, d), d) == tail
    ensures Split(Join([p] + tail, d), d) == [p] + tail
  {
    JoinCons(p, tail, d);
    SplitAtHead(p, Join(tail, d), d);
  }

  lemma {:induction false} SplitOfJoin(parts: seq<Bytes>, d: Bytes)
    requires d != [] && Canonical(parts, d)
    ensures Split(Join(parts, d), d) == parts
  {
    if |parts| > 1 {
      var p, tail := parts[0], parts[1..];
      assert parts == [p] + tail;
      CanonicalHead(p, tail, d);
      SplitOfJoin(tail, d);
      SplitOfJoinCons(p, tail, d);
    }
  }

  /** Re-splitting a joined list gives the list back exactly for canonical lists. */
  lemma RoundTripIffCanonical(parts: seq<Bytes>, d: Bytes)
    requires d != []
    ensures Split(Join(parts, d), d) == parts <==> Canonical(parts, d)
  {
    SplitIsCanonical(Join(parts, d), d);
    if Canonical(parts, d) { SplitOfJoin(parts, d); }
  }

  lemma CutIsCanonical(parts: seq<Bytes>, d: Bytes, a: nat, cut: seq<Bytes>, b: nat, n: nat)
    requires d != [] && Canonical(parts, d)
    requires IsCut(parts, a, cut, b) && 1 <= n <= |cut|
    ensures Canonical(cut[..n], d)
  {
    assert cut[..n] == parts[a..a + n];
    SliceIsCanonical(parts, d, a, a + n);
  }

  lemma CleanPathPrefixIsCanonical(s: Bytes, d: Bytes, n: nat)
    requires d != [] && 1 <= n <= |CleanPath(s, d)|
    ensures Canonical(CleanPath(s, d)[..n], d)
  {
    var a, b := CleanCutsEnds(Split(s, d));
    SplitIsCanonical(s, d);
    CutIsCanonical(Split(s, d), d, a, CleanPath(s, d), b, n);
  }

  /** A cleaned path, and every parent of it, re-splits to exactly its own segments. */
  lemma ParentsResplit(s: Bytes, d: Bytes, n: nat)
    requires d != [] && 1 <= n <= |CleanPath(s, d)|
    ensures Split(Join(CleanPath(s, d)[..n], d), d) == CleanPath(s, d)[..n]
  {
    CleanPathPrefixIsCanonical(s, d, n);
    SplitOfJoin(CleanPath(s, d)[..n], d);
  }

  /** String keys identify segment lists: equal joins of parents mean equal parents. */
  lemma JoinedParentsAreFaithful(s: Bytes, m: nat, t: Bytes, n: nat, d: Bytes)
    requires d != [] && 1 <= m <= |CleanPath(s, d)| && 1 <= n <= |CleanPath(t, d)|
    ensures Join(CleanPath(s, d)[..m], d) == Join(CleanPath(t, d)[..n], d)
       <==> CleanPath(s, d)[..m] == CleanPath(t, d)[..n]
  {
    ParentsResplit(s, d, m);
    ParentsResplit(t, d, n);
  }

  // ----- the default key transform

  function TrimPrefix(k: Bytes, prefix: Bytes): Bytes {
    if prefix <= k then k[|prefix|..] else k
  }

  function ReplaceAll(s: Bytes, b: Byte, d: Bytes): Bytes {
    if s == [] then [] else (if s[0] == b then d else [s[0]]) + ReplaceAll(s[1..], b, d)
  }

  /** What the default transform splits. The prefix comes off once, from a key that starts with it,
      if it is to be trimmed; any other key stays whole. */
  function Remainder(prefix: Bytes, trimPrefix: bool, k: Bytes): (rest: Bytes)
    ensures if trimPrefix && prefix <= k then prefix + rest == k else rest == k
  {
    if trimPrefix && prefix != [] then TrimPrefix(k, prefix) else k
  }

  /** `makeDefaultKeyTransform`. */
  function DefaultTransform(prefix: Bytes, delim: Bytes, trimPrefix: bool, k: Bytes): Bytes {
    var rest := Remainder(prefix, trimPrefix, k);
    if delim != [SLASH] then ReplaceAll(rest, SLASH, delim) else rest
  }

  lemma AtByte(s: Bytes, b: Byte, i: nat)
    requires i < |s|
    ensures At(s, [b], i) <==> s[i] == b
  {
    assert s[i..i + 1] == [s[i]];
  }

  lemma FindByte(s: Bytes, b: Byte)
    ensures Find(s, [b]) < 0 ==> b !in s
    ensures Find(s, [b]) >= 0 ==> Find(s, [b]) < |s| && s[Find(s, [b])] == b && b !in s[..Find(s, [b])]
  {
    forall i: nat | i < |s| ensures At(s, [b], i) <==> s[i] == b { AtByte(s, b, i); }
  }

  lemma {:induction false} ReplaceAbsent(s: Bytes, b: Byte, d: Bytes)
    requires b !in s
    ensures ReplaceAll(s, b, d) == s
  {
    if s != [] { ReplaceAbsent(s[1..], b, d); }
  }

  lemma ReplaceCons(a: Byte, rest: Bytes, b: Byte, d: Bytes)
    ensures ReplaceAll([a] + rest, b, d) == (if a == b then d else [a]) + ReplaceAll(rest, b, d)
  {
    assert ([a] + rest)[1..] == rest;
  }

  lemma {:induction false} ReplaceAppends(s: Bytes, t: Bytes, b: Byte, d: Bytes)
    ensures ReplaceAll(s + t, b, d) == ReplaceAll(s, b, d) + ReplaceAll(t, b, d)
  {
    if s == [] {
      assert s + t == t;
    } else {
      ReplaceAppends(s[1..], t, b, d);
      assert s + t == [s[0]] + (s[1..] + t) && s == [s[0]] + s[1..];
      ReplaceCons(s[0], s[1..] + t, b, d);
      ReplaceCons(s[0], s[1..], b, d);
      Associates(if s[0] == b then d else [s[0]], ReplaceAll(s[1..], b, d), ReplaceAll(t, b, d));
    }
  }

  lemma ReplaceAtFirst(head: Bytes, tail: Bytes, d: Bytes)
    requires SLASH !in head
    ensures ReplaceAll(head + [SLASH] + tail, SLASH, d) == head + d + ReplaceAll(tail, SLASH, d)
  {
    ReplaceAbsent(head, SLASH, d);
    ReplaceAppends(head, [SLASH] + tail, SLASH, d);
    assert head + [SLASH] + tail == head + ([SLASH] + tail);
    assert ([SLASH] + tail)[1..] == tail;
  }

  /** Replacing every "/" is splitting on "/" and joining on the delimiter. */
  lemma {:induction false} ReplaceIsSplitJoin(s: Bytes, d: Bytes)
    ensures ReplaceAll(s, SLASH, d) == Join(Split(s, [SLASH]), d)
    decreases |s|
  {
    var r := Find(s, [SLASH]);
    FindByte(s, SLASH);
    if r < 0 {
      ReplaceAbsent(s, SLASH, d);
    } else {
      var tail := s[r + 1..];
      ReplaceIsSplitJoin(tail, d);
      ReplaceAtFirst(s[..r], tail, d);
      assert s == s[..r] + [SLASH] + tail;
      assert Split(s, [SLASH]) == [s[..r]] + Split(tail, [SLASH]);
      JoinCons(s[..r], Split(tail, [SLASH]), d);
    }
  }

  /** The "/" segments of the key come through the delimiter. */
  predicate Survives(prefix: Bytes, delim: Bytes, trimPrefix: bool, k: Bytes) {
    delim != [] && (delim == [SLASH] || Canonical(Split(Remainder(prefix, trimPrefix, k), [SLASH]), delim))
  }

  /** The transformed key re-splits into the "/" segments of the remainder
      exactly when the delimiter is "/" or those segments are canonical for it. */
  lemma TransformIsFaithfulIff(prefix: Bytes, delim: Bytes, trimPrefix: bool, k: Bytes)
    requires delim != []
    ensures Split(DefaultTransform(prefix, delim, trimPrefix, k), delim)
         == Split(Remainder(prefix, trimPrefix, k), [SLASH])
       <==> Survives(prefix, delim, trimPrefix, k)
  {
    var rest := Remainder(prefix, trimPrefix, k);
    ReplaceIsSplitJoin(rest, delim);
    RoundTripIffCanonical(Split(rest, [SLASH]), delim);
  }

  lemma FirstByteGuards(p: Bytes, d: Bytes)
    requires d != [] && d[0] !in p
    ensures Find(p + d, d) == |p| && Find(p, d) < 0
  {
    DelimAtEnd(p, d);
    forall i | At(p + d, d, i) ensures i >= |p| {
      assert (p + d)[i..i + |d|][0] == (p + d)[i];
    }
    FindBeforeDelimMeansAbsent(p, d);
  }

  /** Segments without the delimiter's first byte come through. */
  lemma PlainSegmentsSurvive(prefix: Bytes, delim: Bytes, trimPrefix: bool, k: Bytes)
    requires delim != []
    requires forall p :: p in Split(Remainder(prefix, trimPrefix, k), [SLASH]) ==> delim[0] !in p
    ensures Survives(prefix, delim, trimPrefix, k)
  {
    var parts := Split(Remainder(prefix, trimPrefix, k), [SLASH]);
    forall i | 0 <= i < |parts| ensures Find(parts[i] + delim, delim) == |parts[i]| && Find(parts[i], delim) < 0 {
      assert parts[i] in parts;
      FirstByteGuards(parts[i], delim);
    }
  }

  /** Tree-mode paths are faithful for keys whose segments come through: the path's segments are the
      remainder's, cleaned. */
  lemma DefaultPathsAreFaithful(prefix: Bytes, delim: Bytes, trimPrefix: bool, k: Bytes)
    requires Survives(prefix, delim, trimPrefix, k)
    ensures CleanPath(DefaultTransform(prefix, delim, trimPrefix, k), delim)
         == Clean(Split(Remainder(prefix, trimPrefix, k), [SLASH]))
  {
    TransformIsFaithfulIff(prefix, delim, trimPrefix, k);
  }

  /** On keys under the prefix whose segments come through, the default transform is injective. */
  lemma DefaultTransformInjective(prefix: Bytes, delim: Bytes, trimPrefix: bool, k: Bytes, l: Bytes)
    requires prefix <= k && prefix <= l
    requires Survives(prefix, delim, trimPrefix, k) && Survives(prefix, delim, trimPrefix, l)
    requires DefaultTransform(prefix, delim, trimPrefix, k) == DefaultTransform(prefix, delim, trimPrefix, l)
    ensures k == l
  {
    TransformIsFaithfulIff(prefix, delim, trimPrefix, k);
    TransformIsFaithfulIff(prefix, delim, trimPrefix, l);
    JoinOfSplit(Remainder(prefix, trimPrefix, k), [SLASH]);
    JoinOfSplit(Remainder(prefix, trimPrefix, l), [SLASH]);
    assert k == prefix + k[|prefix|..] && l == prefix + l[|prefix|..];
  }

  lemma TransformedBehindPrefix(prefix: Bytes, delim: Bytes, trimPrefix: bool, x: Bytes)
    requires delim != [SLASH]
    ensures DefaultTransform(prefix, delim, trimPrefix, prefix + x)
         == (if trimPrefix then [] else ReplaceAll(prefix, SLASH, delim)) + ReplaceAll(x, SLASH, delim)
  {
    assert (prefix + x)[|prefix|..] == x;
    if prefix == [] { assert prefix + x == x; }
    ReplaceAppends(prefix, x, SLASH, delim);
  }

  /** It is not injective on all keys, for any prefix and any delimiter without "/": the delimiter
      and "/" become the same path. */
  lemma DefaultTransformClashes(prefix: Bytes, delim: Bytes, trimPrefix: bool)
    requires delim != [] && SLASH !in delim
    ensures prefix + delim != prefix + [SLASH]
    ensures DefaultTransform(prefix, delim, trimPrefix, prefix + delim)
         == DefaultTransform(prefix, delim, trimPrefix, prefix + [SLASH])
  {
    assert (prefix + delim)[|prefix|] == delim[0] && (prefix + [SLASH])[|prefix|] == SLASH;
    TransformedBehindPrefix(prefix, delim, trimPrefix, delim);
    TransformedBehindPrefix(prefix, delim, trimPrefix, [SLASH]);
    ReplaceAbsent(delim, SLASH, delim);
    assert [SLASH][1..] == [] && delim + [] == delim;
  }

  // ----- delimiters that contain "/"

  lemma FirstSlash(s: Bytes) returns (head: Bytes, tail: Bytes)
    requires SLASH in s
    ensures s == head + [SLASH] + tail && SLASH !in head
  {
    FindByte(s, SLASH);
    var r := Find(s, [SLASH]);
    head, tail := s[..r], s[r + 1..];
  }

  lemma SlashIsAt(a: Bytes, x: Bytes)
    requires SLASH !in a
    ensures var s := a + [SLASH] + x;
            s[|a|] == SLASH && (forall i :: 0 <= i < |a| ==> s[i] != SLASH) && s[..|a|] == a && s[|a| + 1..] == x
  {
    var s := a + [SLASH] + x;
    forall i | 0 <= i < |a| ensures s[i] != SLASH { assert s[i] == a[i]; }
  }

  lemma FirstSlashIsUnique(a: Bytes, x: Bytes, b: Bytes, y: Bytes)
    requires SLASH !in a && SLASH !in b && a + [SLASH] + x == b + [SLASH] + y
    ensures a == b && x == y
  {
    SlashIsAt(a, x);
    SlashIsAt(b, y);
    assert |a| == |b|;
  }

  lemma CancelFront(p: Bytes, x: Bytes, y: Bytes)
    requires p + x == p + y
    ensures x == y
  {
    assert x == (p + x)[|p|..] && y == (p + y)[|p|..];
  }

  lemma CancelBack(x: Bytes, y: Bytes, p: Bytes)
    requires x + p == y + p
    ensures x == y
  {
    assert |x| == |y| && x == (x + p)[..|x|] && y == (y + p)[..|y|];
  }

  /** What replacing makes of a string with a "/", up to the first "/" of the result and after it. */
  lemma ReplacedShape(head: Bytes, tail: Bytes, p: Bytes, q: Bytes)
    requires SLASH !in head
    ensures ReplaceAll(head + [SLASH] + tail, SLASH, p + [SLASH] + q)
         == (head + p) + [SLASH] + (q + ReplaceAll(tail, SLASH, p + [SLASH] + q))
  {
    ReplaceAtFirst(head, tail, p + [SLASH] + q);
  }

  lemma {:induction false} ReplaceIsInjective(s: Bytes, t: Bytes, p: Bytes, q: Bytes)
    requires SLASH !in p
    requires ReplaceAll(s, SLASH, p + [SLASH] + q) == ReplaceAll(t, SLASH, p + [SLASH] + q)
    ensures s == t
    decreases |s|
  {
    var d := p + [SLASH] + q;
    ReplaceKeepsSlash(s, d);
    ReplaceKeepsSlash(t, d);
    if SLASH in s {
      var a, x := FirstSlash(s);
      var b, y := FirstSlash(t);
      ReplacedShape(a, x, p, q);
      ReplacedShape(b, y, p, q);
      FirstSlashIsUnique(a + p, q + ReplaceAll(x, SLASH, d), b + p, q + ReplaceAll(y, SLASH, d));
      CancelBack(a, b, p);
      CancelFront(q, ReplaceAll(x, SLASH, d), ReplaceAll(y, SLASH, d));
      ReplaceIsInjective(x, y, p, q);
    } else {
      ReplaceAbsent(s, SLASH, d);
      ReplaceAbsent(t, SLASH, d);
    }
  }

  lemma {:induction false} ReplaceKeepsSlash(s: Bytes, d: Bytes)
    requires SLASH in d
    ensures SLASH in ReplaceAll(s, SLASH, d) <==> SLASH in s
  {
    if s != [] {
      ReplaceKeepsSlash(s[1..], d);
      assert s == [s[0]] + s[1..];
    }
  }

  /** With a delimiter that contains "/" the default transform is injective on all keys under the prefix. */
  lemma SlashDelimiterIsInjective(prefix: Bytes, delim: Bytes, trimPrefix: bool, k: Bytes, l: Bytes)
    requires SLASH in delim && prefix <= k && prefix <= l
    requires DefaultTransform(prefix, delim, trimPrefix, k) == DefaultTransform(prefix, delim, trimPrefix, l)
    ensures k == l
  {
    var p, q := FirstSlash(delim);
    if delim != [SLASH] {
      ReplaceIsInjective(Remainder(prefix, trimPrefix, k), Remainder(prefix, trimPrefix, l), p, q);
    }
    assert k == prefix + k[|prefix|..] && l == prefix + l[|prefix|..];
  }
}
