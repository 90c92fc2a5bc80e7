/** The default value transform: white space is trimmed off both ends of the raw value. */
module Whitespace {
  import opened Bytes
  import opened Sequences

  /** The UTF-8 encoding of one white space character, as Unicode has them. */
  predicate IsSpace(b: Bytes) {
    || (|b| == 1 && (0x09 <= b[0] <= 0x0d || b[0] == 0x20))
    || (|b| == 2 && b[0] == 0xc2 && (b[1] == 0x85 || b[1] == 0xa0))
    || (|b| == 3 && b[0] == 0xe1 && b[1] == 0x9a && b[2] == 0x80)
    || (|b| == 3 && b[0] == 0xe2 && b[1] == 0x80 && (0x80 <= b[2] <= 0x8a || 0xa8 <= b[2] <= 0xa9 || b[2] == 0xaf))
    || (|b| == 3 && b[0] == 0xe2 && b[1] == 0x81 && b[2] == 0x9f)
    || (|b| == 3 && b[0] == 0xe3 && b[1] == 0x80 && b[2] == 0x80)
  }

  /** The length of the white space character that s starts with, 0 if it starts with none. */
  function SpaceAtFront(s: Bytes): (n: nat)
    ensures n <= |s| && (n > 0 ==> IsSpace(s[..n]))
  {
    if |s| >= 1 && IsSpace(s[..1]) then 1
    else if |s| >= 2 && IsSpace(s[..2]) then 2
    else if |s| >= 3 && IsSpace(s[..3]) then 3
    else 0
  }

  function SpaceAtBack(s: Bytes): (n: nat)
    ensures n <= |s| && (n > 0 ==> IsSpace(s[|s| - n..]))
  {
    if |s| >= 1 && IsSpace(s[|s| - 1..]) then 1
    else if |s| >= 2 && IsSpace(s[|s| - 2..]) then 2
    else if |s| >= 3 && IsSpace(s[|s| - 3..]) then 3
    else 0
  }

  function TrimFront(s: Bytes): (r: Bytes)
    ensures SpaceAtFront(r) == 0
    decreases |s|
  {
    if SpaceAtFront(s) > 0 then TrimFront(s[SpaceAtFront(s)..]) else s
  }

  function TrimBack(s: Bytes): (r: Bytes)
    ensures SpaceAtBack(r) == 0 && r <= s
    decreases |s|
  {
    if SpaceAtBack(s) > 0 then TrimBack(s[..|s| - SpaceAtBack(s)]) else s
  }

  /** `defaultValueTransform`. */
  function TrimSpace(raw: Bytes): Bytes {
    TrimBack(TrimFront(raw))
  }

  // ----- what white space is

  /** The code points with Unicode's White_Space property. */
  predicate WhiteSpace(c: nat) {
    || 0x09 <= c <= 0x0d || c == 0x20 || c == 0x85 || c == 0xa0 || c == 0x1680
    || 0x2000 <= c <= 0x200a || c == 0x2028 || c == 0x2029 || c == 0x202f || c == 0x205f || c == 0x3000
  }

  /** The UTF-8 encoding of a code point of at most 16 bits. */
  function Utf8(c: nat): Bytes
    requires c < 0x1_0000
  {
    if c < 0x80 then [c]
    else if c < 0x800 then [0xc0 + c / 0x40, 0x80 + c % 0x40]
    else [0xe0 + c / 0x1000, 0x80 + c / 0x40 % 0x40, 0x80 + c % 0x40]
  }

  predicate Encodes(b: Bytes, c: nat) {
    WhiteSpace(c) && b == Utf8(c)
  }

  function CodePoint(b: Bytes): nat
    requires IsSpace(b)
  {
    var last: int := b[|b| - 1];
    if |b| < 3 then last
    else if b[0] == 0xe1 then 0x1680
    else if b[0] == 0xe3 then 0x3000
    else if b[1] == 0x81 then 0x205f
    else 0x1f80 + last
  }

  lemma CodePointEncodes(b: Bytes)
    requires IsSpace(b)
    ensures WhiteSpace(CodePoint(b)) && Utf8(CodePoint(b)) == b
  {
    assert b == if |b| == 1 then [b[0]] else if |b| == 2 then [b[0], b[1]] else [b[0], b[1], b[2]];
  }

  lemma SpacesAreUnicode(b: Bytes)
    ensures IsSpace(b) <==> exists c: nat :: Encodes(b, c)
  {
    if IsSpace(b) {
      CodePointEncodes(b);
      assert Encodes(b, CodePoint(b));
    }
  }

  /** Byte strings end to end. */
  function Concat(parts: seq<Bytes>): Bytes {
    if parts == [] then [] else parts[0] + Concat(parts[1..])
  }

  predicate AllSpaces(parts: seq<Bytes>) {
    forall i :: 0 <= i < |parts| ==> IsSpace(parts[i])
  }

  predicate SpaceTo(s: Bytes, n: nat) {
    n <= |s| && IsSpace(s[..n])
  }

  predicate SpaceFrom(s: Bytes, n: nat) {
    n <= |s| && IsSpace(s[n..])
  }

  /** Neither end of the value is a white space character. */
  ghost predicate NoSpaceAtEnds(s: Bytes) {
    && (forall n: nat :: !SpaceTo(s, n))
    && (forall n: nat :: !SpaceFrom(s, n))
  }

  ghost predicate Pads(front: seq<Bytes>, m: Bytes, back: seq<Bytes>, raw: Bytes) {
    AllSpaces(front) && AllSpaces(back) && raw == Concat(front) + m + Concat(back)
  }

  /** raw is m with white space before and after it, and m itself has none at either end. */
  ghost predicate IsTrimOf(m: Bytes, raw: Bytes) {
    NoSpaceAtEnds(m) && exists front, back :: Pads(front, m, back, raw)
  }

  // ----- trimming

  lemma EndsAgree(s: Bytes)
    ensures (forall n: nat :: !SpaceTo(s, n)) <==> SpaceAtFront(s) == 0
    ensures (forall n: nat :: !SpaceFrom(s, n)) <==> SpaceAtBack(s) == 0
  {
    if SpaceAtFront(s) > 0 { assert SpaceTo(s, SpaceAtFront(s)); }
    if SpaceAtBack(s) > 0 { assert SpaceFrom(s, |s| - SpaceAtBack(s)); }
    forall n: nat | SpaceTo(s, n) ensures SpaceAtFront(s) > 0 { assert 1 <= n <= 3; }
    forall n: nat | SpaceFrom(s, n) ensures SpaceAtBack(s) > 0 {
      assert 1 <= |s| - n <= 3 && s[|s| - (|s| - n)..] == s[n..];
    }
  }

  lemma FrontStep(sp: Bytes, s: Bytes)
    requires IsSpace(sp)
    ensures TrimFront(sp + s) == TrimFront(s)
  {
    assert (sp + s)[..|sp|] == sp && (sp + s)[|sp|..] == s;
    assert SpaceAtFront(sp + s) == |sp|;
  }

  lemma BackStep(s: Bytes, sp: Bytes)
    requires IsSpace(sp)
    ensures TrimBack(s + sp) == TrimBack(s)
  {
    assert (s + sp)[|s|..] == sp && (s + sp)[..|s|] == s;
    assert SpaceAtBack(s + sp) == |sp|;
  }

  lemma {:induction false} FrontSpacesGo(parts: seq<Bytes>, s: Bytes)
    requires AllSpaces(parts)
    ensures TrimFront(Concat(parts) + s) == TrimFront(s)
  {
    if parts == [] {
      assert Concat(parts) + s == s;
    } else {
      var rest := Concat(parts[1..]) + s;
      assert Concat(parts) + s == parts[0] + rest;
      FrontStep(parts[0], rest);
      FrontSpacesGo(parts[1..], s);
    }
  }

  lemma {:induction false} BackSpacesGo(s: Bytes, parts: seq<Bytes>)
    requires AllSpaces(parts)
    ensures TrimBack(s + Concat(parts)) == TrimBack(s)
    decreases |parts|
  {
    if parts == [] {
      assert s + Concat(parts) == s;
    } else {
      assert s + Concat(parts) == (s + parts[0]) + Concat(parts[1..]);
      BackSpacesGo(s + parts[0], parts[1..]);
      BackStep(s, parts[0]);
    }
  }

  lemma {:induction false} ConcatAdds(a: seq<Bytes>, b: seq<Bytes>)
    ensures Concat(a + b) == Concat(a) + Concat(b)
  {
    if a == [] {
      assert a + b == b;
    } else {
      ConcatAdds(a[1..], b);
      assert (a + b)[1..] == a[1..] + b;
      Associates(a[0], Concat(a[1..]), Concat(b));
    }
  }

  lemma ConcatPushes(p: Bytes, parts: seq<Bytes>)
    ensures Concat([p] + parts) == p + Concat(parts)
  {
    assert ([p] + parts)[1..] == parts;
  }

  lemma Pushed(p: Bytes, parts: seq<Bytes>, s: Bytes, t: Bytes)
    requires IsSpace(p) && AllSpaces(parts) && s == Concat(parts) + t
    ensures AllSpaces([p] + parts) && p + s == Concat([p] + parts) + t
  {
    ConcatPushes(p, parts);
    Associates(p, Concat(parts), t);
  }

  lemma Appended(parts: seq<Bytes>, p: Bytes, s: Bytes, t: Bytes)
    requires IsSpace(p) && AllSpaces(parts) && s == t + Concat(parts)
    ensures AllSpaces(parts + [p]) && s + p == t + Concat(parts + [p])
  {
    ConcatAdds(parts, [p]);
    ConcatPushes(p, []);
    assert [p] + [] == [p];
    Associates(t, Concat(parts), p);
  }

  lemma FrontSplits(s: Bytes) returns (p: Bytes, rest: Bytes)
    requires SpaceAtFront(s) > 0
    ensures IsSpace(p) && s == p + rest && |rest| < |s| && TrimFront(s) == TrimFront(rest)
  {
    var n := SpaceAtFront(s);
    p, rest := s[..n], s[n..];
  }

  lemma BackSplits(s: Bytes) returns (rest: Bytes, p: Bytes)
    requires SpaceAtBack(s) > 0
    ensures IsSpace(p) && s == rest + p && |rest| < |s| && TrimBack(s) == TrimBack(rest)
  {
    var k := |s| - SpaceAtBack(s);
    rest, p := s[..k], s[k..];
  }

  /** What is trimmed off the front is white space. */
  lemma {:induction false} FrontIsSpaces(s: Bytes) returns (parts: seq<Bytes>)
    ensures AllSpaces(parts) && s == Concat(parts) + TrimFront(s)
    decreases |s|
  {
    if SpaceAtFront(s) == 0 {
      parts := [];
    } else {
      var p, rest := FrontSplits(s);
      var others := FrontIsSpaces(rest);
      Pushed(p, others, rest, TrimFront(rest));
      parts := [p] + others;
    }
  }

  lemma {:induction false} BackIsSpaces(s: Bytes) returns (parts: seq<Bytes>)
    ensures AllSpaces(parts) && s == TrimBack(s) + Concat(parts)
    decreases |s|
  {
    if SpaceAtBack(s) == 0 {
      parts := [];
    } else {
      var rest, p := BackSplits(s);
      var others := BackIsSpaces(rest);
      Appended(others, p, rest, TrimBack(rest));
      parts := others + [p];
    }
  }

  lemma FrontOfPrefix(r: Bytes, s: Bytes)
    requires r <= s && SpaceAtFront(s) == 0
    ensures SpaceAtFront(r) == 0
  {
    assert |r| >= 1 ==> r[..1] == s[..1];
    assert |r| >= 2 ==> r[..2] == s[..2];
    assert |r| >= 3 ==> r[..3] == s[..3];
  }

  lemma Padded(front: seq<Bytes>, t: Bytes, m: Bytes, back: seq<Bytes>, raw: Bytes)
    requires AllSpaces(front) && raw == Concat(front) + t
    requires AllSpaces(back) && t == m + Concat(back)
    ensures Pads(front, m, back, raw)
  {
    Associates(Concat(front), m, Concat(back));
  }

  lemma TrimSpaceTrims(raw: Bytes) returns (front: seq<Bytes>, back: seq<Bytes>)
    ensures NoSpaceAtEnds(TrimSpace(raw)) && Pads(front, TrimSpace(raw), back, raw)
  {
    front := FrontIsSpaces(raw);
    back := BackIsSpaces(TrimFront(raw));
    FrontOfPrefix(TrimSpace(raw), TrimFront(raw));
    EndsAgree(TrimSpace(raw));
    Padded(front, TrimFront(raw), TrimSpace(raw), back, raw);
  }

  /** No white space character straddles the end of a value and the white space after it. */
  lemma NoStraddle(m: Bytes, sp: Bytes, s: Bytes)
    requires m != [] && SpaceAtFront(m) == 0 && IsSpace(sp)
    ensures SpaceAtFront(m + (sp + s)) == 0
  {
    var all := m + (sp + s);
    assert all[|m|] == sp[0];
    assert all[..1] == m[..1];
    assert |m| >= 2 ==> all[..2] == m[..2];
    assert |m| >= 3 ==> all[..3] == m[..3];
  }

  lemma TrimIsUnique(front: seq<Bytes>, m: Bytes, back: seq<Bytes>)
    requires AllSpaces(front) && AllSpaces(back) && NoSpaceAtEnds(m)
    ensures TrimSpace(Concat(front) + m + Concat(back)) == m
  {
    EndsAgree(m);
    var tail := m + Concat(back);
    assert Concat(front) + m + Concat(back) == Concat(front) + tail;
    FrontSpacesGo(front, tail);
    if m == [] {
      assert tail == Concat(back) + [];
      FrontSpacesGo(back, []);
    } else {
      if back == [] { assert tail == m; } else { NoStraddle(m, back[0], Concat(back[1..])); }
      BackSpacesGo(m, back);
    }
  }

  /** The transformed value is the one value with no white space at either end that gives the raw
      value when white space is put around it. */
  lemma TrimIsExact(m: Bytes, raw: Bytes)
    ensures TrimSpace(raw) == m <==> IsTrimOf(m, raw)
  {
    var front, back := TrimSpaceTrims(raw);
    if IsTrimOf(m, raw) {
      var a, b :| Pads(a, m, b, raw);
      TrimIsUnique(a, m, b);
    }
  }

  lemma Unchanged(m: Bytes)
    requires NoSpaceAtEnds(m)
    ensures TrimSpace(m) == m
  {
    EndsAgree(m);
  }

  /** A value is left as it is exactly when it has no white space at either end, which a transformed
      value has not. */
  lemma TrimmedOnce(raw: Bytes)
    ensures TrimSpace(raw) == raw <==> NoSpaceAtEnds(raw)
    ensures TrimSpace(TrimSpace(raw)) == TrimSpace(raw)
  {
    var front, back := TrimSpaceTrims(raw);
    if NoSpaceAtEnds(raw) { Unchanged(raw); }
    Unchanged(TrimSpace(raw));
  }

  lemma PaddedTwice(front: seq<Bytes>, a: seq<Bytes>, m: Bytes, b: seq<Bytes>, back: seq<Bytes>, raw: Bytes)
    requires Pads(a, m, b, raw)
    ensures Concat(front) + raw + Concat(back) == Concat(front + a) + m + Concat(b + back)
  {
    ConcatAdds(front, a);
    ConcatAdds(b, back);
    Regroup(Concat(front), Concat(a), m, Concat(b), Concat(back));
  }

  lemma Regroup(a: Bytes, b: Bytes, m: Bytes, c: Bytes, d: Bytes)
    ensures a + (b + m + c) + d == (a + b) + m + (c + d)
  {
  }

  /** White space before or after a value makes no difference to what it is transformed to. */
  lemma PaddingIsIgnored(front: seq<Bytes>, raw: Bytes, back: seq<Bytes>)
    requires AllSpaces(front) && AllSpaces(back)
    ensures TrimSpace(Concat(front) + raw + Concat(back)) == TrimSpace(raw)
  {
    var a, b := TrimSpaceTrims(raw);
    PaddedTwice(front, a, TrimSpace(raw), b, back, raw);
    TrimIsUnique(front + a, TrimSpace(raw), b + back);
  }
}
