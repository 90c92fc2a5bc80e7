/** Pages served from different stores: what a scan returns, and exactly when it is a
    snapshot of the store whose revision it records. */
module TornReads {
  import opened Bytes
  import opened RangeRead
  import opened Pagination
  import opened Sequences

  predicate AllServed(replies: seq<Reply>) {
    WellServed(replies) && forall i :: 0 <= i < |replies| ==> replies[i].Served?
  }

  /** The pairs that a scan gathers from a bound on, and the reply that served its last page. */
  function Collect(limit: int, end: Bytes, replies: seq<Reply>, i: nat, from: Bytes): (r: (Listing, nat))
    requires AllServed(replies) && i < |replies|
    ensures i <= r.1 < |replies|
    decreases |replies| - i, |RangeOf(replies[i].store, from, end)|
  {
    var store := replies[i].store;
    var page := Page(store, from, end, limit);
    if !HasMore(store, from, end, limit) then (page, i)
    else
      ContinuationIsRest(store, from, end, limit);
      var rest := Collect(limit, end, replies, Following(replies, i), NextFrom(page));
      (page + rest.0, rest.1)
  }

  /** A scan is the gathered pairs, transformed in order, under the last page's revision. */
  lemma {:induction false} ScanIsCollect<V>(cfg: ReadConfig<V>, replies: seq<Reply>, i: nat, from: Bytes,
                                            m: map<Bytes, V>)
    requires AllServed(replies) && i < |replies|
    ensures var (kvs, last) := Collect(cfg.limit, PrefixEnd(cfg.prefix), replies, i, from);
            var whole := AddAll(cfg, m, kvs);
            (whole.Added? ==> Scan(cfg, replies, i, from, m) == Flat(whole.entries, replies[last].rev))
            && (whole.Rejected? ==> Scan(cfg, replies, i, from, m) == ScanFailed(BadValue(whole.key)))
    decreases |replies| - i, |RangeOf(replies[i].store, from, PrefixEnd(cfg.prefix))|
  {
    var end := PrefixEnd(cfg.prefix);
    var store := replies[i].store;
    if HasMore(store, from, end, cfg.limit) {
      var page := Page(store, from, end, cfg.limit);
      ContinuationIsRest(store, from, end, cfg.limit);
      var rest := Collect(cfg.limit, end, replies, Following(replies, i), NextFrom(page));
      AddAllConcatenates(cfg, m, page, rest.0);
      var added := AddAll(cfg, m, page);
      if added.Added? { ScanIsCollect(cfg, replies, Following(replies, i), NextFrom(page), added.entries); }
    }
  }

  // ----- ranges split at a continuation key

  predicate Below(s: Listing, k: Bytes) {
    forall i :: 0 <= i < |s| ==> Less(s[i].key, k)
  }

  predicate FromOn(s: Listing, k: Bytes) {
    forall i :: 0 <= i < |s| ==> AtMost(k, s[i].key)
  }

  /** A list of keys below k followed by keys from k on splits in only one way. */
  lemma {:induction false} SplitIsUnique(a: Listing, b: Listing, c: Listing, d: Listing, k: Bytes)
    requires Below(a, k) && FromOn(b, k) && Below(c, k) && FromOn(d, k)
    requires a + b == c + d
    ensures a == c && b == d
  {
    if |a| < |c| {
      assert (a + b)[|a|] == (c + d)[|a|];
      assert |b| > 0 && b[0] == c[|a|];
      LessIsTotal(b[0].key, k);
      assert false;
    }
    if |c| < |a| {
      assert (a + b)[|c|] == (c + d)[|c|];
      assert |d| > 0 && d[0] == a[|c|];
      LessIsTotal(d[0].key, k);
      assert false;
    }
    assert a == (a + b)[..|a|] && c == (c + d)[..|c|];
    assert b == (a + b)[|a|..] && d == (c + d)[|c|..];
  }

  lemma AtMostChains(a: Bytes, b: Bytes, c: Bytes)
    requires AtMost(a, b) && AtMost(b, c)
    ensures AtMost(a, c)
  {
    if a != b && b != c { LessIsTransitive(a, b, c); }
  }

  lemma KeySplits(k: Bytes, from: Bytes, mid: Bytes, end: Bytes)
    requires mid != NO_END && AtMost(from, mid) && (end == NO_END || AtMost(mid, end))
    ensures InRange(k, from, end) <==> InRange(k, from, mid) || InRange(k, mid, end)
    ensures !(InRange(k, from, mid) && InRange(k, mid, end))
  {
    LessIsTotal(k, mid);
    if AtMost(mid, k) { AtMostChains(from, mid, k); }
    if Less(k, mid) && end != NO_END && mid != end { LessIsTransitive(k, mid, end); }
  }

  lemma FrontIsBelow(front: Listing, last: KV, mid: Bytes)
    requires Sorted(front + [last]) && Less(last.key, mid)
    ensures Below(front, mid)
  {
    var s: Listing := front + [last];
    forall i | 0 <= i < |front| ensures Less(front[i].key, mid) {
      assert s[i] == front[i] && s[|front|] == last;
      LessIsTransitive(front[i].key, last.key, mid);
    }
  }

  lemma RangeSplitsOne(front: Listing, last: KV, from: Bytes, mid: Bytes, end: Bytes)
    requires Sorted(front + [last])
    requires mid != NO_END && AtMost(from, mid) && (end == NO_END || AtMost(mid, end))
    requires RangeOf(front, from, end) == RangeOf(front, from, mid) + RangeOf(front, mid, end)
    ensures RangeOf(front + [last], from, end) == RangeOf(front + [last], from, mid) + RangeOf(front + [last], mid, end)
  {
    KeySplits(last.key, from, mid, end);
    RangeSnoc(front, last, from, end);
    RangeSnoc(front, last, from, mid);
    RangeSnoc(front, last, mid, end);
    if InRange(last.key, from, mid) {
      FrontIsBelow(front, last, mid);
      RangeBeyond(front, mid, end);
    } else if InRange(last.key, mid, end) {
      Associates(RangeOf(front, from, mid), RangeOf(front, mid, end), [last]);
    }
  }

  lemma {:induction false} RangeSplits(s: Listing, from: Bytes, mid: Bytes, end: Bytes)
    requires Sorted(s)
    requires mid != NO_END && AtMost(from, mid) && (end == NO_END || AtMost(mid, end))
    ensures RangeOf(s, from, end) == RangeOf(s, from, mid) + RangeOf(s, mid, end)
  {
    if s != [] {
      var front, last := s[..|s| - 1], s[|s| - 1];
      assert s == front + [last];
      RangeSplits(front, from, mid, end);
      RangeSplitsOne(front, last, from, mid, end);
    }
  }

  lemma RangeIsBelow(s: Listing, from: Bytes, end: Bytes)
    ensures end != NO_END ==> Below(RangeOf(s, from, end), end)
    ensures FromOn(RangeOf(s, from, end), from)
  {
    RangeMembers(s, from, end);
    var r := RangeOf(s, from, end);
    forall i | 0 <= i < |r| ensures InRange(r[i].key, from, end) { assert r[i] in r; }
  }

  /** Where a page ends: its keys lie below the continuation key, which lies inside the range. */
  lemma PageEnds(s: Listing, from: Bytes, end: Bytes, n: nat)
    requires Sorted(s) && from != [] && 0 < n <= |RangeOf(s, from, end)|
    ensures var page := RangeOf(s, from, end)[..n];
            var next := NextFrom(page);
            && Below(page, next) && next != NO_END && next != []
            && AtMost(from, next) && (end == NO_END || AtMost(next, end))
  {
    var all := RangeOf(s, from, end);
    var page := all[..n];
    var k := all[n - 1].key;
    RangeSorted(s, from, end);
    assert InRange(k, from, end) by { RangeMembers(s, from, end); assert all[n - 1] in all; }
    assert k != [];
    assert |k + [0]| >= 2;
    ExtensionIsGreater(k, [0]);
    forall i | 0 <= i < n ensures Less(page[i].key, k + [0]) {
      if i < n - 1 {
        assert Less(all[i].key, all[n - 1].key);
        LessIsTransitive(page[i].key, k, k + [0]);
      }
    }
    AtMostChains(from, k, k + [0]);
    if end != NO_END { SuccessorSkipsNothing(k, end); }
  }

  lemma {:induction false} CollectIsFromOn(limit: int, end: Bytes, replies: seq<Reply>, i: nat, from: Bytes)
    requires AllServed(replies) && i < |replies| && from != []
    ensures FromOn(Collect(limit, end, replies, i, from).0, from)
    decreases |replies| - i, |RangeOf(replies[i].store, from, end)|
  {
    var store := replies[i].store;
    RangeIsBelow(store, from, end);
    if HasMore(store, from, end, limit) {
      var page := Page(store, from, end, limit);
      ContinuationIsRest(store, from, end, limit);
      PageEnds(store, from, end, limit);
      CollectIsFromOn(limit, end, replies, Following(replies, i), NextFrom(page));
      var rest: Listing := Collect(limit, end, replies, Following(replies, i), NextFrom(page)).0;
      var both: Listing := page + rest;
      forall j | 0 <= j < |both| ensures AtMost(from, both[j].key) {
        if j >= |page| {
          assert both[j] == rest[j - |page|];
          AtMostChains(from, NextFrom(page), rest[j - |page|].key);
        }
      }
    }
  }

  // ----- torn reads

  /** Every page but the last returned just what the final store lists between its bounds. */
  predicate AgreesBehind(limit: int, end: Bytes, replies: seq<Reply>, i: nat, from: Bytes, final: Listing)
    requires AllServed(replies) && i < |replies|
    decreases |replies| - i, |RangeOf(replies[i].store, from, end)|
  {
    var store := replies[i].store;
    var page := Page(store, from, end, limit);
    if !HasMore(store, from, end, limit) then true
    else
      ContinuationIsRest(store, from, end, limit);
      && page == RangeOf(final, from, NextFrom(page))
      && AgreesBehind(limit, end, replies, Following(replies, i), NextFrom(page), final)
  }

  lemma {:induction false} CollectIsRangeIff(limit: int, end: Bytes, replies: seq<Reply>, i: nat, from: Bytes)
    requires AllServed(replies) && i < |replies| && from != []
    ensures var (kvs, last) := Collect(limit, end, replies, i, from);
            var final := replies[last].store;
            kvs == RangeOf(final, from, end) <==> AgreesBehind(limit, end, replies, i, from, final)
    decreases |replies| - i, |RangeOf(replies[i].store, from, end)|
  {
    var store := replies[i].store;
    if HasMore(store, from, end, limit) {
      var page := Page(store, from, end, limit);
      var next := NextFrom(page);
      ContinuationIsRest(store, from, end, limit);
      PageEnds(store, from, end, limit);
      CollectIsRangeIff(limit, end, replies, Following(replies, i), next);
      CollectIsFromOn(limit, end, replies, Following(replies, i), next);
      var (rest, last) := Collect(limit, end, replies, Following(replies, i), next);
      var final := replies[last].store;
      RangeSplits(final, from, next, end);
      RangeIsBelow(final, from, next);
      RangeIsBelow(final, next, end);
      if page + rest == RangeOf(final, from, end) {
        SplitIsUnique(page, rest, RangeOf(final, from, next), RangeOf(final, next, end), next);
      }
    }
  }

  /** A paginated read returns the pairs of the store whose revision it records exactly when no
      part already read had changed by the last page. A read of one page always does. */
  lemma ReadIsSnapshotIff<V>(cfg: ReadConfig<V>, replies: seq<Reply>)
    requires AllServed(replies) && cfg.prefix != []
    ensures var end := PrefixEnd(cfg.prefix);
            var (kvs, last) := Collect(cfg.limit, end, replies, 0, cfg.prefix);
            var final := replies[last];
            && (kvs == RangeOf(final.store, cfg.prefix, end)
                <==> AgreesBehind(cfg.limit, end, replies, 0, cfg.prefix, final.store))
            && (cfg.limit <= 0 ==> AgreesBehind(cfg.limit, end, replies, 0, cfg.prefix, final.store))
            && (AddAll(cfg, map[], kvs).Added? ==>
                  Scan(cfg, replies, 0, cfg.prefix, map[]) == Flat(AddAll(cfg, map[], kvs).entries, final.rev))
  {
    CollectIsRangeIff(cfg.limit, PrefixEnd(cfg.prefix), replies, 0, cfg.prefix);
    ScanIsCollect(cfg, replies, 0, cfg.prefix, map[]);
  }

  /** What has changed behind the cursor is not read again. A pair that the last page's store
      lists below the first continuation key, but that was not in the first page, is missing
      from the read, although the read records that store's revision. */
  lemma WriteBehindCursorIsMissed<V>(cfg: ReadConfig<V>, replies: seq<Reply>, x: KV)
    requires AllServed(replies) && cfg.prefix != []
    requires HasMore(replies[0].store, cfg.prefix, PrefixEnd(cfg.prefix), cfg.limit)
    requires var end := PrefixEnd(cfg.prefix);
             var page := Page(replies[0].store, cfg.prefix, end, cfg.limit);
             var last := Collect(cfg.limit, end, replies, 0, cfg.prefix).1;
             && x in RangeOf(replies[last].store, cfg.prefix, end)
             && Less(x.key, NextFrom(page)) && x !in page
    ensures var end := PrefixEnd(cfg.prefix);
            var (kvs, last) := Collect(cfg.limit, end, replies, 0, cfg.prefix);
            && x !in kvs
            && !AgreesBehind(cfg.limit, end, replies, 0, cfg.prefix, replies[last].store)
  {
    var end := PrefixEnd(cfg.prefix);
    var store := replies[0].store;
    var page := Page(store, cfg.prefix, end, cfg.limit);
    var next := NextFrom(page);
    ContinuationIsRest(store, cfg.prefix, end, cfg.limit);
    CollectIsFromOn(cfg.limit, end, replies, Following(replies, 0), next);
    LessIsTotal(x.key, next);
    CollectIsRangeIff(cfg.limit, end, replies, 0, cfg.prefix);
  }

  lemma TwoPages(end: Bytes, replies: seq<Reply>, from: Bytes, page: Listing, rest: Listing)
    requires AllServed(replies) && |replies| == 2
    requires HasMore(replies[0].store, from, end, 1) && page == RangeOf(replies[0].store, from, end)[..1]
    requires rest == RangeOf(replies[1].store, NextFrom(page), end) && |rest| == 1
    ensures Collect(1, end, replies, 0, from) == (page + rest, 1)
  {
    assert Collect(1, end, replies, 1, NextFrom(page)) == (rest, 1);
  }

  lemma BothInRange(b: KV, c: KV, from: Bytes, end: Bytes)
    requires InRange(b.key, from, end) && InRange(c.key, from, end)
    ensures RangeOf([b, c], from, end) == [b, c]
  {
    assert [] + [b] == [b] && [b] + [c] == [b, c];
    RangeSnoc([], b, from, end);
    RangeSnoc([b], c, from, end);
  }

  lemma OnlyLastInRange(a: KV, b: KV, c: KV, from: Bytes, end: Bytes)
    requires Less(a.key, from) && Less(b.key, from) && InRange(c.key, from, end)
    ensures RangeOf([a, b, c], from, end) == [c]
  {
    RangeBeyond([a, b], from, end);
    RangeSnoc([a, b], c, from, end);
    assert [a, b] + [c] == [a, b, c];
  }

  lemma ThreeSorted(a: KV, b: KV, c: KV)
    requires Less(a.key, b.key) && Less(b.key, c.key)
    ensures Sorted([b, c]) && Sorted([a, b, c])
  {
    LessIsTransitive(a.key, b.key, c.key);
  }

  /** The first page of [b, c] holds b; c alone is left for the second page of [a, b, c]. */
  lemma TornRanges(a: KV, b: KV, c: KV, from: Bytes, end: Bytes)
    requires InRange(a.key, from, end) && InRange(b.key, from, end) && InRange(c.key, from, end)
    requires Less(a.key, b.key) && Less(b.key, c.key)
    ensures RangeOf([b, c], from, end) == [b, c]
    ensures RangeOf([a, b, c], b.key + [0], end) == [c]
    ensures a in RangeOf([a, b, c], from, end)
  {
    var next := b.key + [0];
    ExtensionIsGreater(b.key, [0]);
    LessIsTransitive(a.key, b.key, next);
    SuccessorSkipsNothing(b.key, c.key);
    BothInRange(b, c, from, end);
    OnlyLastInRange(a, b, c, next, end);
    RangeMembers([a, b, c], from, end);
    assert a in [a, b, c];
  }

  /** Such reads exist in every range that has three keys: with one pair a page, put the first of
      them after the second has been read. */
  lemma TornReadExists(a: KV, b: KV, c: KV, from: Bytes, end: Bytes, first: Listing, second: Listing,
                       replies: seq<Reply>)
    requires InRange(a.key, from, end) && InRange(b.key, from, end) && InRange(c.key, from, end)
    requires Less(a.key, b.key) && Less(b.key, c.key)
    requires first == [b, c] && second == [a, b, c]
    requires replies == [Served(1, first), Served(2, second)]
    ensures AllServed(replies)
    ensures Collect(1, end, replies, 0, from) == ([b, c], 1)
    ensures a in RangeOf(second, from, end)
  {
    ThreeSorted(a, b, c);
    TornRanges(a, b, c, from, end);
    assert AllServed(replies);
    assert [b, c][..1] == [b];
    TwoPages(end, replies, from, [b], [c]);
    assert [b] + [c] == [b, c];
  }
}
