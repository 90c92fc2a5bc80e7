/** `readPrefix`: the scan of a prefix in pages, each continued from `lastKey + "\x00"`. */
module Pagination {
  import opened Bytes
  import opened Options
  import opened RangeRead

  datatype KV = KV(key: Bytes, raw: Bytes)

  /** A store as etcd lists it: keys strictly ascending. */
  type Listing = seq<KV>

  predicate Sorted(s: Listing) {
    forall i, j :: 0 <= i < j < |s| ==> Less(s[i].key, s[j].key)
  }

  function RangeOf(s: Listing, from: Bytes, end: Bytes): Listing {
    if s == [] then []
    else
      var last := s[|s| - 1];
      RangeOf(s[..|s| - 1], from, end) + (if InRange(last.key, from, end) then [last] else [])
  }

  /** How one page request may turn out. */
  datatype Reply = Down(n: nat) | MoreWithoutKeys | Served(rev: nat, store: Listing)

  datatype ReadConfig<!V> = ReadConfig(
    prefix: Bytes,
    limit: int,
    keyTransform: Bytes -> Bytes,
    valueTransform: (Bytes, Bytes) -> Option<V>
  )

  datatype ReadError = GetFailed(n: nat) | BadValue(key: Bytes) | EmptyPage

  datatype Scanned<V> = Flat(entries: map<Bytes, V>, rev: nat) | ScanFailed(error: ReadError)

  datatype Added<V> = Added(entries: map<Bytes, V>) | Rejected(key: Bytes)

  /** Transform and store the pairs of a page, stopping at the first bad value. Later pairs win a shared path. */
  function AddAll<V>(cfg: ReadConfig<V>, m: map<Bytes, V>, kvs: Listing): Added<V> {
    if kvs == [] then Added(m)
    else
      var last := kvs[|kvs| - 1];
      match AddAll(cfg, m, kvs[..|kvs| - 1])
      case Rejected(k) => Rejected(k)
      case Added(n) =>
        match cfg.valueTransform(last.key, last.raw)
        case None => Rejected(last.key)
        case Some(v) => Added(n[cfg.keyTransform(last.key) := v])
  }

  function Page(s: Listing, from: Bytes, end: Bytes, limit: int): Listing {
    var all := RangeOf(s, from, end);
    if limit > 0 && |all| > limit then all[..limit] else all
  }

  predicate HasMore(s: Listing, from: Bytes, end: Bytes, limit: int) {
    limit > 0 && |RangeOf(s, from, end)| > limit
  }

  /** Where the next page starts. */
  function NextFrom(page: Listing): Bytes
    requires page != []
  {
    page[|page| - 1].key + [0]
  }

  predicate WellServed(replies: seq<Reply>) {
    replies != [] && forall i :: 0 <= i < |replies| && replies[i].Served? ==> Sorted(replies[i].store)
  }

  function Following(replies: seq<Reply>, i: nat): nat {
    if i + 1 < |replies| then i + 1 else i
  }

  // ----- ranges of a sorted listing

  lemma {:induction false} RangeMembers(s: Listing, from: Bytes, end: Bytes)
    ensures forall x :: x in RangeOf(s, from, end) <==> x in s && InRange(x.key, from, end)
  {
    if s != [] {
      RangeMembers(s[..|s| - 1], from, end);
      assert s == s[..|s| - 1] + [s[|s| - 1]];
    }
  }

  lemma {:induction false} RangeSorted(s: Listing, from: Bytes, end: Bytes)
    requires Sorted(s)
    ensures Sorted(RangeOf(s, from, end))
  {
    if s != [] {
      var front, last := s[..|s| - 1], s[|s| - 1];
      RangeSorted(front, from, end);
      RangeMembers(front, from, end);
      var r := RangeOf(front, from, end);
      forall i | 0 <= i < |r| ensures Less(r[i].key, last.key) {
        assert r[i] in front;
      }
    }
  }

  lemma {:induction false} RangeBeyond(s: Listing, from: Bytes, end: Bytes)
    requires forall i :: 0 <= i < |s| ==> Less(s[i].key, from)
    ensures RangeOf(s, from, end) == []
  {
    if s != [] {
      var last := s[|s| - 1];
      LessIsTotal(last.key, from);
      RangeBeyond(s[..|s| - 1], from, end);
    }
  }

  /** Continuing just after the n-th key of a range gives the rest of the range: nothing skipped, nothing repeated. */
  lemma {:induction false} ContinuationIsRest(s: Listing, from: Bytes, end: Bytes, n: nat)
    requires Sorted(s) && 0 < n <= |RangeOf(s, from, end)|
    ensures RangeOf(s, NextFrom(RangeOf(s, from, end)[..n]), end) == RangeOf(s, from, end)[n..]
  {
    var front, last := s[..|s| - 1], s[|s| - 1];
    assert s == front + [last];
    var r := RangeOf(front, from, end);
    if n <= |r| {
      ContinuationIsRest(front, from, end, n);
      var x := r[n - 1];
      assert x in front && InRange(x.key, from, end) by { RangeMembers(front, from, end); }
      LastIsGreatest(front, last, x);
      ContinueBeforeLast(front, last, x.key, from, end, n);
      assert RangeOf(s, from, end)[..n] == r[..n];
    } else {
      assert RangeOf(s, from, end)[..n] == r + [last];
      NothingAfterLast(front, last, end);
    }
  }

  lemma RangeSnoc(front: Listing, last: KV, from: Bytes, end: Bytes)
    ensures RangeOf(front + [last], from, end)
         == RangeOf(front, from, end) + (if InRange(last.key, from, end) then [last] else [])
  {
    assert (front + [last])[..|front|] == front;
  }

  lemma LastIsGreatest(front: Listing, last: KV, x: KV)
    requires Sorted(front + [last]) && x in front
    ensures Less(x.key, last.key)
  {
    var i :| 0 <= i < |front| && front[i] == x;
    assert (front + [last])[i] == x && (front + [last])[|front|] == last;
  }

  lemma DropOfSum(a: Listing, b: Listing, n: nat)
    requires n <= |a|
    ensures (a + b)[n..] == a[n..] + b
  {
  }

  lemma ContinueBeforeLast(front: Listing, last: KV, k: Bytes, from: Bytes, end: Bytes, n: nat)
    requires n <= |RangeOf(front, from, end)|
    requires InRange(k, from, end) && Less(k, last.key)
    requires RangeOf(front, k + [0], end) == RangeOf(front, from, end)[n..]
    ensures RangeOf(front + [last], k + [0], end) == RangeOf(front + [last], from, end)[n..]
  {
    assert InRange(last.key, from, end) <==> InRange(last.key, k + [0], end) by {
      LaterKeyContinues(k, last.key, from, end);
    }
    RangeSnoc(front, last, from, end);
    RangeSnoc(front, last, k + [0], end);
    DropOfSum(RangeOf(front, from, end), if InRange(last.key, from, end) then [last] else [], n);
  }

  lemma NothingAfterLast(front: Listing, last: KV, end: Bytes)
    requires Sorted(front + [last])
    ensures RangeOf(front, last.key + [0], end) == []
    ensures !InRange(last.key, last.key + [0], end)
  {
    var s := front + [last];
    ExtensionIsGreater(last.key, [0]);
    LessIsTotal(last.key, last.key + [0]);
    forall i | 0 <= i < |front| ensures Less(front[i].key, last.key + [0]) {
      assert s[i] == front[i] && s[|front|] == last;
      LessIsTransitive(front[i].key, last.key, last.key + [0]);
    }
    RangeBeyond(front, last.key + [0], end);
  }

  lemma LaterKeyContinues(k: Bytes, later: Bytes, from: Bytes, end: Bytes)
    requires InRange(k, from, end) && Less(k, later)
    ensures InRange(later, from, end) <==> InRange(later, k + [0], end)
  {
    SuccessorSkipsNothing(k, later);
    if from != k { LessIsTransitive(from, k, later); }
  }

  lemma {:induction false} AddAllConcatenates<V>(cfg: ReadConfig<V>, m: map<Bytes, V>, a: Listing, b: Listing)
    ensures AddAll(cfg, m, a + b) ==
              match AddAll(cfg, m, a) case Rejected(k) => Rejected(k) case Added(n) => AddAll(cfg, n, b)
  {
    if b == [] {
      assert a + b == a;
    } else {
      AddAllConcatenates(cfg, m, a, b[..|b| - 1]);
      assert (a + b)[..|a + b| - 1] == a + b[..|b| - 1];
      assert (a + b)[|a + b| - 1] == b[|b| - 1];
    }
  }

  // ----- the scan

  function Finish<V>(a: Added<V>, rev: nat): Scanned<V> {
    match a
    case Added(m) => Flat(m, rev)
    case Rejected(k) => ScanFailed(BadValue(k))
  }

  /** The scan from one bound on, against the replies the environment has left. The last reply repeats. */
  function Scan<V>(cfg: ReadConfig<V>, replies: seq<Reply>, i: nat, from: Bytes, m: map<Bytes, V>): Scanned<V>
    requires WellServed(replies) && i < |replies|
    decreases |replies| - i, if replies[i].Served? then |RangeOf(replies[i].store, from, PrefixEnd(cfg.prefix))| else 0
  {
    match replies[i]
    case Down(n) => ScanFailed(GetFailed(n))
    case MoreWithoutKeys => ScanFailed(EmptyPage)
    case Served(rev, store) =>
      var end := PrefixEnd(cfg.prefix);
      var page := Page(store, from, end, cfg.limit);
      var added := AddAll(cfg, m, page);
      if added.Rejected? || !HasMore(store, from, end, cfg.limit) then Finish(added, rev)
      else
        ContinuationIsRest(store, from, end, cfg.limit);
        Scan(cfg, replies, Following(replies, i), NextFrom(page), added.entries)
  }

  /** The inner loop of `readPrefix` over one page. */
  method AddPage<V>(cfg: ReadConfig<V>, kvs: Listing, before: map<Bytes, V>, previous: Bytes)
    returns (added: Added<V>, lastKey: Bytes)
    ensures added == AddAll(cfg, before, kvs)
    ensures added.Added? && kvs != [] ==> lastKey + [0] == NextFrom(kvs)
  {
    var flat := before;
    lastKey := previous;
    for j := 0 to |kvs|
      invariant AddAll(cfg, before, kvs[..j]) == Added(flat)
      invariant j > 0 ==> lastKey == kvs[j - 1].key
    {
      assert kvs[..j + 1][..j] == kvs[..j];
      var v := cfg.valueTransform(kvs[j].key, kvs[j].raw);
      if v.None? {
        AddAllConcatenates(cfg, before, kvs[..j + 1], kvs[j + 1..]);
        assert kvs[..j + 1] + kvs[j + 1..] == kvs;
        return Rejected(kvs[j].key), lastKey;
      }
      flat := flat[cfg.keyTransform(kvs[j].key) := v.value];
      lastKey := kvs[j].key;
    }
    assert kvs[..|kvs|] == kvs;
    added := Added(flat);
  }

  /** The page loop of `readPrefix`, up to storing the revision. */
  method ReadPages<V>(cfg: ReadConfig<V>, replies: seq<Reply>) returns (r: Scanned<V>)
    requires WellServed(replies)
    ensures r == Scan(cfg, replies, 0, cfg.prefix, map[])
  {
    var flat: map<Bytes, V> := map[];
    var lastKey: Bytes := [];
    var more, first := true, true;
    var lastRev: nat := 0;
    var rangeEnd := ComputePrefixEnd(cfg.prefix);
    var i: nat := 0;
    while more
      invariant i < |replies|
      invariant more ==> Scan(cfg, replies, 0, cfg.prefix, map[])
                         == Scan(cfg, replies, i, if first then cfg.prefix else lastKey + [0], flat)
      invariant !more ==> Scan(cfg, replies, 0, cfg.prefix, map[]) == Flat(flat, lastRev)
      decreases more, |replies| - i,
                if replies[i].Served?
                then |RangeOf(replies[i].store, if first then cfg.prefix else lastKey + [0], rangeEnd)| else 0
    {
      var key := if first then cfg.prefix else lastKey + [0];
      match replies[i] {
        case Down(n) =>
          return ScanFailed(GetFailed(n));
        case MoreWithoutKeys =>
          return ScanFailed(EmptyPage);
        case Served(rev, store) =>
          lastRev := rev;
          var kvs := Page(store, key, rangeEnd, cfg.limit);
          var respMore := HasMore(store, key, rangeEnd, cfg.limit);
          var added;
          added, lastKey := AddPage(cfg, kvs, flat, lastKey);
          if added.Rejected? {
            return ScanFailed(BadValue(added.key));
          }
          flat := added.entries;
          first := false;
          more := respMore && cfg.limit > 0;
          if more {
            ContinuationIsRest(store, key, rangeEnd, cfg.limit);
            i := Following(replies, i);
          }
      }
    }
    r := Flat(flat, lastRev);
  }

  // ----- an unchanging store

  lemma {:induction false} ScanFromIsOneRead<V>(cfg: ReadConfig<V>, rev: nat, store: Listing, from: Bytes,
                                                m: map<Bytes, V>)
    requires Sorted(store)
    ensures Scan(cfg, [Served(rev, store)], 0, from, m)
         == Finish(AddAll(cfg, m, RangeOf(store, from, PrefixEnd(cfg.prefix))), rev)
    decreases |RangeOf(store, from, PrefixEnd(cfg.prefix))|
  {
    var end := PrefixEnd(cfg.prefix);
    var all := RangeOf(store, from, end);
    if HasMore(store, from, end, cfg.limit) {
      var page := all[..cfg.limit];
      ContinuationIsRest(store, from, end, cfg.limit);
      AddAllConcatenates(cfg, m, page, all[cfg.limit..]);
      assert all == page + all[cfg.limit..];
      match AddAll(cfg, m, page) {
        case Rejected(k) =>
        case Added(n) => ScanFromIsOneRead(cfg, rev, store, NextFrom(page), n);
      }
    }
  }

  /** Over an unchanging store every page limit gives the flat map, the revision and the first
      error of one unpaginated read, and that read covers exactly the keys with the prefix. */
  lemma PaginationRefinesOneRead<V>(cfg: ReadConfig<V>, rev: nat, store: Listing)
    requires Sorted(store)
    ensures var end := PrefixEnd(cfg.prefix);
            var scanned := Scan(cfg, [Served(rev, store)], 0, cfg.prefix, map[]);
            && scanned == Finish(AddAll(cfg, map[], RangeOf(store, cfg.prefix, end)), rev)
            && scanned == Scan(cfg.(limit := 0), [Served(rev, store)], 0, cfg.prefix, map[])
            && (forall x :: x in RangeOf(store, cfg.prefix, end) <==> x in store && cfg.prefix <= x.key)
  {
    ScanFromIsOneRead(cfg, rev, store, cfg.prefix, map[]);
    ScanFromIsOneRead(cfg.(limit := 0), rev, store, cfg.prefix, map[]);
    SameTransforms(cfg, map[], RangeOf(store, cfg.prefix, PrefixEnd(cfg.prefix)));
    RangeMembers(store, cfg.prefix, PrefixEnd(cfg.prefix));
    forall x | x in store ensures InRange(x.key, cfg.prefix, PrefixEnd(cfg.prefix)) <==> cfg.prefix <= x.key {
      PrefixRangeIsExact(cfg.prefix, x.key);
    }
  }

  lemma {:induction false} SameTransforms<V>(cfg: ReadConfig<V>, m: map<Bytes, V>, kvs: Listing)
    ensures AddAll(cfg, m, kvs) == AddAll(cfg.(limit := 0), m, kvs)
  {
    if kvs != [] { SameTransforms(cfg, m, kvs[..|kvs| - 1]); }
  }

  // ----- what a scan answers

  predicate Bad<V>(cfg: ReadConfig<V>, x: KV) {
    cfg.valueTransform(x.key, x.raw).None?
  }

  /** The first pair whose value cannot be transformed stops the scan, and is the one reported. */
  lemma {:induction false} FirstBadStops<V>(cfg: ReadConfig<V>, m: map<Bytes, V>, kvs: Listing, i: nat)
    requires forall j :: 0 <= j < i && j < |kvs| ==> !Bad(cfg, kvs[j])
    ensures i < |kvs| && Bad(cfg, kvs[i]) ==> AddAll(cfg, m, kvs) == Rejected(kvs[i].key)
    ensures i >= |kvs| ==> AddAll(cfg, m, kvs).Added?
  {
    if kvs != [] {
      var front := kvs[..|kvs| - 1];
      assert forall j :: 0 <= j < |front| ==> front[j] == kvs[j];
      FirstBadStops(cfg, m, front, if i < |kvs| then i else |kvs| - 1);
    }
  }

  /** The value at a path is that of the last pair that is transformed to it; a path to which none
      is transformed stays as it was. */
  lemma {:induction false} LastWriterWins<V>(cfg: ReadConfig<V>, m: map<Bytes, V>, kvs: Listing, i: nat, path: Bytes)
    requires i < |kvs| ==> cfg.keyTransform(kvs[i].key) == path
    requires forall j :: i < j < |kvs| ==> cfg.keyTransform(kvs[j].key) != path
    requires i >= |kvs| ==> forall j :: 0 <= j < |kvs| ==> cfg.keyTransform(kvs[j].key) != path
    requires AddAll(cfg, m, kvs).Added?
    ensures var n := AddAll(cfg, m, kvs).entries;
            if i < |kvs| then path in n && Some(n[path]) == cfg.valueTransform(kvs[i].key, kvs[i].raw)
            else (path in n <==> path in m) && (path in m ==> n[path] == m[path])
  {
    if kvs != [] && i != |kvs| - 1 {
      var front := kvs[..|kvs| - 1];
      assert forall j :: 0 <= j < |front| ==> front[j] == kvs[j];
      LastWriterWins(cfg, m, front, i, path);
    }
  }

  /** Where the j-th page starts and the pairs on the pages before it; None if the scan ends before it. */
  function Cursor(limit: int, prefix: Bytes, replies: seq<Reply>, j: nat): Option<(Bytes, Listing)>
    requires j <= |replies|
  {
    if j == 0 then Some((prefix, []))
    else
      match Cursor(limit, prefix, replies, j - 1)
      case None => None
      case Some((from, kvs)) =>
        if replies[j - 1].Served? && HasMore(replies[j - 1].store, from, PrefixEnd(prefix), limit) then
          var page := Page(replies[j - 1].store, from, PrefixEnd(prefix), limit);
          Some((NextFrom(page), kvs + page))
        else None
  }

  /** The scan as it stands at the j-th page. */
  lemma {:induction false} ScanAtPage<V>(cfg: ReadConfig<V>, replies: seq<Reply>, j: nat)
    requires WellServed(replies) && j < |replies| && Cursor(cfg.limit, cfg.prefix, replies, j).Some?
    ensures var (from, kvs) := Cursor(cfg.limit, cfg.prefix, replies, j).value;
            var scanned := Scan(cfg, replies, 0, cfg.prefix, map[]);
            match AddAll(cfg, map[], kvs)
            case Rejected(k) => scanned == ScanFailed(BadValue(k))
            case Added(m) => scanned == Scan(cfg, replies, j, from, m)
  {
    if j > 0 {
      ScanAtPage(cfg, replies, j - 1);
      var (from, kvs) := Cursor(cfg.limit, cfg.prefix, replies, j - 1).value;
      var page := Page(replies[j - 1].store, from, PrefixEnd(cfg.prefix), cfg.limit);
      AddAllConcatenates(cfg, map[], kvs, page);
    }
  }

  /** What a scan answers, whatever each page is served from: at the first page that is refused or
      the last that is served, the first bad value among the pairs so far, else the refusal, else the
      map of all pairs with the last page's revision. */
  lemma ScanByPages<V>(cfg: ReadConfig<V>, replies: seq<Reply>, j: nat)
    requires WellServed(replies) && j < |replies| && Cursor(cfg.limit, cfg.prefix, replies, j).Some?
    ensures var (from, kvs) := Cursor(cfg.limit, cfg.prefix, replies, j).value;
            var end := PrefixEnd(cfg.prefix);
            var scanned := Scan(cfg, replies, 0, cfg.prefix, map[]);
            && (AddAll(cfg, map[], kvs).Rejected? ==> scanned == ScanFailed(BadValue(AddAll(cfg, map[], kvs).key)))
            && (AddAll(cfg, map[], kvs).Added? ==>
                  match replies[j]
                  case Down(n) => scanned == ScanFailed(GetFailed(n))
                  case MoreWithoutKeys => scanned == ScanFailed(EmptyPage)
                  case Served(rev, store) =>
                    !HasMore(store, from, end, cfg.limit) ==>
                      var all := kvs + RangeOf(store, from, end);
                      match AddAll(cfg, map[], all)
                      case Rejected(k) => scanned == ScanFailed(BadValue(k))
                      case Added(m) => scanned == Flat(m, rev))
  {
    ScanAtPage(cfg, replies, j);
    var (from, kvs) := Cursor(cfg.limit, cfg.prefix, replies, j).value;
    if replies[j].Served? {
      AddAllConcatenates(cfg, map[], kvs, RangeOf(replies[j].store, from, PrefixEnd(cfg.prefix)));
    }
  }
}
