/** From a Read to a watch: exactly when a paginated read mirrors the store whose revision it
    records, and that the watch started from it keeps the mirror. */
module ReadThenWatch {
  import opened Bytes
  import opened History
  import opened Options
  import opened WatchModel
  import opened RunLaws
  import opened WatchTheorems
  import opened Replica
  import opened RangeRead
  import opened Pagination
  import opened TornReads

  // ----- listings and stores

  /** The pairs listed are the store's entries. */
  ghost predicate Lists(s: Listing, m: Store) {
    forall x: KV :: x in s <==> x.key in m && m[x.key] == x.raw
  }

  function ToStore(kvs: Listing): Store {
    if kvs == [] then map[] else ToStore(kvs[..|kvs| - 1])[kvs[|kvs| - 1].key := kvs[|kvs| - 1].raw]
  }

  lemma SortedFront(s: Listing)
    requires Sorted(s) && s != []
    ensures Sorted(s[..|s| - 1])
    ensures forall x: KV :: x in s[..|s| - 1] ==> Less(x.key, s[|s| - 1].key)
    ensures forall x: KV :: x in s <==> x in s[..|s| - 1] || x == s[|s| - 1]
  {
    assert s == s[..|s| - 1] + [s[|s| - 1]];
  }

  lemma {:induction false} SortedLists(s: Listing)
    requires Sorted(s)
    ensures Lists(s, ToStore(s))
  {
    if s != [] {
      var front, last := s[..|s| - 1], s[|s| - 1];
      SortedFront(s);
      SortedLists(front);
      LessIsIrreflexive(last.key);
    }
  }

  lemma SomePair(s: Listing)
    ensures s != [] ==> exists x: KV :: x in s
  {
    if s != [] { assert s[0] in s; }
  }

  lemma LastsAgree(a: Listing, x: KV, b: Listing, y: KV)
    requires Sorted(a + [x]) && Sorted(b + [y])
    requires forall z: KV :: z in a + [x] <==> z in b + [y]
    ensures x == y && forall z: KV :: z in a <==> z in b
  {
    assert (a + [x])[..|a|] == a && (b + [y])[..|b|] == b;
    SortedFront(a + [x]);
    SortedFront(b + [y]);
    LessIsTotal(x.key, y.key);
    assert x in a + [x] && y in b + [y];
    assert x == y;
    LessIsIrreflexive(x.key);
    forall z: KV ensures z in a <==> z in b { assert z in a + [x] <==> z in b + [y]; }
  }

  /** A sorted listing is determined by its pairs. */
  lemma {:induction false} SortedIsUnique(a: Listing, b: Listing)
    requires Sorted(a) && Sorted(b)
    requires forall x: KV :: x in a <==> x in b
    ensures a == b
  {
    SomePair(a);
    SomePair(b);
    if a != [] && b != [] {
      var fa, x, fb, y := a[..|a| - 1], a[|a| - 1], b[..|b| - 1], b[|b| - 1];
      assert a == fa + [x] && b == fb + [y];
      LastsAgree(fa, x, fb, y);
      SortedIsUnique(fa, fb);
    }
  }

  // ----- what a read makes of a listing

  /** The read settings of the watch's provider. */
  ghost predicate SameKeys<V>(cfg: Config, rc: ReadConfig<V>) {
    cfg.scope == Prefix(rc.prefix) && rc.keyTransform == cfg.keyTransform
  }

  /** The read's value transform succeeds on these pairs, and gives what vt gives. */
  ghost predicate Transforms<V>(rc: ReadConfig<V>, vt: Values<V>, kvs: Listing) {
    forall i :: 0 <= i < |kvs| ==> rc.valueTransform(kvs[i].key, kvs[i].raw) == Some(vt(kvs[i].key, kvs[i].raw))
  }

  /** Different raw values stay different. */
  ghost predicate ValuesTell<V>(vt: Values<V>) {
    forall k: Bytes, v: Bytes, w: Bytes :: vt(k, v) == vt(k, w) ==> v == w
  }

  ghost function ListedKeys(s: Listing): iset<Bytes> {
    iset x: KV | x in s :: x.key
  }

  lemma {:induction false} AddAllMirrors<V>(cfg: Config, rc: ReadConfig<V>, vt: Values<V>, kvs: Listing,
                                            ks: iset<Bytes>)
    requires SameKeys(cfg, rc) && Transforms(rc, vt, kvs) && InjectiveOn(cfg, ks)
    requires forall i :: 0 <= i < |kvs| ==> kvs[i].key in ks
    ensures KeysIn(ToStore(kvs), ks)
    ensures AddAll(rc, map[], kvs).Added? && Mirrors(cfg, vt, ToStore(kvs), AddAll(rc, map[], kvs).entries)
  {
    if kvs != [] {
      var front, last := kvs[..|kvs| - 1], kvs[|kvs| - 1];
      AddAllMirrors(cfg, rc, vt, front, ks);
      var copy: Copy<V> := AddAll(rc, map[], front).entries;
      PutMirrors(cfg, vt, ToStore(front), copy, last.key, last.raw, ks);
      assert AddAll(rc, map[], kvs) == Added(copy[cfg.keyTransform(last.key) := vt(last.key, last.raw)]);
    }
  }

  lemma MirroredEntry<V>(cfg: Config, vt: Values<V>, m: Store, n: Store, copy: Copy<V>, k: Bytes, ks: iset<Bytes>)
    requires InjectiveOn(cfg, ks) && ValuesTell(vt) && KeysIn(m, ks) && KeysIn(n, ks)
    requires Mirrors(cfg, vt, m, copy) && Mirrors(cfg, vt, n, copy) && k in m
    ensures k in n && n[k] == m[k]
  {
    var l :| l in n && cfg.keyTransform(l) == cfg.keyTransform(k);
    assert vt(k, n[k]) == vt(k, m[k]);
  }

  lemma MirroredWithin<V>(cfg: Config, vt: Values<V>, m: Store, n: Store, copy: Copy<V>, ks: iset<Bytes>)
    requires InjectiveOn(cfg, ks) && ValuesTell(vt) && KeysIn(m, ks) && KeysIn(n, ks)
    requires Mirrors(cfg, vt, m, copy) && Mirrors(cfg, vt, n, copy)
    ensures forall k :: k in m ==> k in n && n[k] == m[k]
  {
    forall k | k in m ensures k in n && n[k] == m[k] { MirroredEntry(cfg, vt, m, n, copy, k, ks); }
  }

  lemma MirroredIsUnique<V>(cfg: Config, vt: Values<V>, m: Store, n: Store, copy: Copy<V>, ks: iset<Bytes>)
    requires InjectiveOn(cfg, ks) && ValuesTell(vt) && KeysIn(m, ks) && KeysIn(n, ks)
    requires Mirrors(cfg, vt, m, copy) && Mirrors(cfg, vt, n, copy)
    ensures m == n
  {
    MirroredWithin(cfg, vt, m, n, copy, ks);
    MirroredWithin(cfg, vt, n, m, copy, ks);
  }

  lemma MirrorIsUnique<V>(cfg: Config, vt: Values<V>, m: Store, a: Copy<V>, b: Copy<V>)
    requires Mirrors(cfg, vt, m, a) && Mirrors(cfg, vt, m, b)
    ensures a == b
  {
    forall p | p in a ensures p in b && b[p] == a[p] {
      var k :| k in m && cfg.keyTransform(k) == p;
    }
    forall p | p in b ensures p in a {
      var k :| k in m && cfg.keyTransform(k) == p;
    }
  }

  // ----- the read

  lemma {:induction false} CollectOrdered(limit: int, end: Bytes, replies: seq<Reply>, i: nat, from: Bytes)
    requires AllServed(replies) && i < |replies| && from != []
    ensures Sorted(Collect(limit, end, replies, i, from).0)
    ensures forall x: KV :: x in Collect(limit, end, replies, i, from).0 ==> InRange(x.key, from, end)
    decreases |replies| - i, |RangeOf(replies[i].store, from, end)|
  {
    var store := replies[i].store;
    RangeSorted(store, from, end);
    RangeMembers(store, from, end);
    if HasMore(store, from, end, limit) {
      var page := Page(store, from, end, limit);
      ContinuationIsRest(store, from, end, limit);
      PageEnds(store, from, end, limit);
      var next := NextFrom(page);
      CollectOrdered(limit, end, replies, Following(replies, i), next);
      var rest: Listing := Collect(limit, end, replies, Following(replies, i), next).0;
      PagesJoin(page, rest, from, next, end);
    }
  }

  lemma PagesJoin(page: Listing, rest: Listing, from: Bytes, next: Bytes, end: Bytes)
    requires Sorted(page) && Sorted(rest) && Below(page, next) && AtMost(from, next)
    requires forall x: KV :: x in page ==> InRange(x.key, from, end)
    requires forall x: KV :: x in rest ==> InRange(x.key, next, end)
    ensures Sorted(page + rest)
    ensures forall x: KV :: x in page + rest ==> InRange(x.key, from, end)
  {
    var both: Listing := page + rest;
    forall i, j | 0 <= i < j < |both| ensures Less(both[i].key, both[j].key) {
      if i < |page| <= j {
        assert both[j] in rest;
        if next != both[j].key { LessIsTransitive(both[i].key, next, both[j].key); }
      }
    }
    forall x: KV | x in both ensures InRange(x.key, from, end) {
      if x !in page { AtMostChains(from, next, x.key); }
    }
  }

  /** The part of a store's listing that a read asks for is the snapshot's listing. */
  lemma RangeListsSnapshot(h: History, prefix: Bytes, n: nat, s: Listing)
    requires n <= |h| && Sorted(s) && Lists(s, StoreAt(h, n))
    ensures Sorted(RangeOf(s, prefix, PrefixEnd(prefix)))
    ensures Lists(RangeOf(s, prefix, PrefixEnd(prefix)), Snapshot(h, Prefix(prefix), n))
  {
    var r := RangeOf(s, prefix, PrefixEnd(prefix));
    RangeSorted(s, prefix, PrefixEnd(prefix));
    RangeMembers(s, prefix, PrefixEnd(prefix));
    var m := Snapshot(h, Prefix(prefix), n);
    forall x: KV ensures x in r <==> x.key in m && m[x.key] == x.raw {
      PrefixRangeIsExact(prefix, x.key);
    }
  }

  /** A read that gathers a store's listing makes a mirror of it; and only such a read, where
      different raw values stay different. */
  lemma ListingIsMirror<V>(cfg: Config, rc: ReadConfig<V>, vt: Values<V>, m: Store, kvs: Listing, range: Listing,
                           ks: iset<Bytes>)
    requires SameKeys(cfg, rc) && Transforms(rc, vt, kvs) && InjectiveOn(cfg, ks) && KeysIn(m, ks)
    requires Sorted(kvs) && Sorted(range) && Lists(range, m)
    requires forall i :: 0 <= i < |kvs| ==> kvs[i].key in ks
    ensures AddAll(rc, map[], kvs).Added?
    ensures kvs == range ==> Mirrors(cfg, vt, m, AddAll(rc, map[], kvs).entries)
    ensures ValuesTell(vt) && Mirrors(cfg, vt, m, AddAll(rc, map[], kvs).entries) ==> kvs == range
  {
    AddAllMirrors(cfg, rc, vt, kvs, ks);
    SortedLists(kvs);
    var copy := AddAll(rc, map[], kvs).entries;
    if ValuesTell(vt) && Mirrors(cfg, vt, m, copy) {
      MirroredIsUnique(cfg, vt, m, ToStore(kvs), copy, ks);
      SortedIsUnique(kvs, range);
    }
    if kvs == range { SameLists(range, m, ToStore(kvs)); }
  }

  lemma SameLists(s: Listing, m: Store, n: Store)
    requires Lists(s, m) && Lists(s, n)
    ensures m == n
  {
    forall k | k in m ensures k in n && n[k] == m[k] { assert KV(k, m[k]) in s; }
    forall k | k in n ensures k in m { assert KV(k, n[k]) in s; }
  }

  /** The reply was served from the store right after its revision. */
  ghost predicate ServedFrom(h: History, r: Reply) {
    r.Served? && r.rev < |h| && Lists(r.store, StoreAt(h, r.rev + 1))
  }

  /** The copy mirrors what a read at a revision should find. */
  ghost predicate MirrorsAt<V>(cfg: Config, vt: Values<V>, h: History, rev: nat, copy: Copy<V>) {
    rev < |h| && Mirrors(cfg, vt, Snapshot(h, cfg.scope, rev + 1), copy)
  }

  lemma FinalStoreIsMirror<V>(cfg: Config, rc: ReadConfig<V>, vt: Values<V>, h: History, final: Reply, kvs: Listing)
    requires SameKeys(cfg, rc) && Transforms(rc, vt, kvs) && InjectiveOn(cfg, KeysOf(h, cfg.scope) + ListedKeys(kvs))
    requires ServedFrom(h, final) && Sorted(final.store) && Sorted(kvs)
    ensures AddAll(rc, map[], kvs).Added?
    ensures var same := kvs == RangeOf(final.store, rc.prefix, PrefixEnd(rc.prefix));
            var mirrors := MirrorsAt(cfg, vt, h, final.rev, AddAll(rc, map[], kvs).entries);
            (same ==> mirrors) && (ValuesTell(vt) && mirrors ==> same)
  {
    var ks := KeysOf(h, cfg.scope) + ListedKeys(kvs);
    SnapshotUsesKeys(h, cfg.scope, final.rev + 1);
    RangeListsSnapshot(h, rc.prefix, final.rev + 1, final.store);
    forall i | 0 <= i < |kvs| ensures kvs[i].key in ks { assert kvs[i] in kvs; }
    ListingIsMirror(cfg, rc, vt, Snapshot(h, cfg.scope, final.rev + 1), kvs,
                    RangeOf(final.store, rc.prefix, PrefixEnd(rc.prefix)), ks);
  }

  /** The reply that serves the last page of a read. */
  function LastReply<V>(rc: ReadConfig<V>, replies: seq<Reply>): Reply
    requires AllServed(replies)
  {
    replies[Collect(rc.limit, PrefixEnd(rc.prefix), replies, 0, rc.prefix).1]
  }

  /** The pairs that a read gathers. */
  function Gathered<V>(rc: ReadConfig<V>, replies: seq<Reply>): Listing
    requires AllServed(replies)
  {
    Collect(rc.limit, PrefixEnd(rc.prefix), replies, 0, rc.prefix).0
  }

  /** The keys that the history uses or the read finds. */
  ghost function KeysMet<V>(cfg: Config, rc: ReadConfig<V>, h: History, replies: seq<Reply>): iset<Bytes>
    requires AllServed(replies)
  {
    KeysOf(h, cfg.scope) + ListedKeys(Gathered(rc, replies))
  }

  /** Nothing that a read has already read changes before its last page. */
  predicate Untorn<V>(rc: ReadConfig<V>, replies: seq<Reply>)
    requires AllServed(replies)
  {
    var last := Collect(rc.limit, PrefixEnd(rc.prefix), replies, 0, rc.prefix).1;
    AgreesBehind(rc.limit, PrefixEnd(rc.prefix), replies, 0, rc.prefix, replies[last].store)
  }

  lemma GatheredIs<V>(rc: ReadConfig<V>, replies: seq<Reply>) returns (kvs: Listing)
    requires AllServed(replies) && rc.prefix != []
    ensures kvs == Gathered(rc, replies) && Sorted(kvs) && Sorted(LastReply(rc, replies).store)
    ensures kvs == RangeOf(LastReply(rc, replies).store, rc.prefix, PrefixEnd(rc.prefix)) <==> Untorn(rc, replies)
    ensures var added := AddAll(rc, map[], kvs);
            added.Added? ==>
              Scan(rc, replies, 0, rc.prefix, map[]) == Flat(added.entries, LastReply(rc, replies).rev)
  {
    var end := PrefixEnd(rc.prefix);
    kvs := Collect(rc.limit, end, replies, 0, rc.prefix).0;
    CollectOrdered(rc.limit, end, replies, 0, rc.prefix);
    CollectIsRangeIff(rc.limit, end, replies, 0, rc.prefix);
    ScanIsCollect(rc, replies, 0, rc.prefix, map[]);
  }

  lemma GatheredInScope<V>(rc: ReadConfig<V>, replies: seq<Reply>)
    requires AllServed(replies) && rc.prefix != []
    ensures forall k :: k in ListedKeys(Gathered(rc, replies)) ==> rc.prefix <= k
  {
    CollectOrdered(rc.limit, PrefixEnd(rc.prefix), replies, 0, rc.prefix);
    forall x: KV | x in Gathered(rc, replies) ensures rc.prefix <= x.key { PrefixRangeIsExact(rc.prefix, x.key); }
  }

  /** A read of any number of pages, each served by the store at its own moment, mirrors the
      snapshot at the revision it records if nothing it had already read had changed by the last
      page; and, where different raw values stay different, only then. */
  lemma ReadMirrorsIff<V>(cfg: Config, rc: ReadConfig<V>, vt: Values<V>, h: History, replies: seq<Reply>)
    requires SameKeys(cfg, rc) && rc.prefix != [] && AllServed(replies)
    requires InjectiveOn(cfg, KeysMet(cfg, rc, h, replies)) && Transforms(rc, vt, Gathered(rc, replies))
    requires ServedFrom(h, LastReply(rc, replies))
    ensures var r := Scan(rc, replies, 0, rc.prefix, map[]);
            && r.Flat? && r.rev == LastReply(rc, replies).rev
            && (Untorn(rc, replies) ==> MirrorsAt(cfg, vt, h, r.rev, r.entries))
            && (ValuesTell(vt) && MirrorsAt(cfg, vt, h, r.rev, r.entries) ==> Untorn(rc, replies))
  {
    var kvs := GatheredIs(rc, replies);
    FinalStoreIsMirror(cfg, rc, vt, h, LastReply(rc, replies), kvs);
  }

  /** For a read that keeps raw values the two are the same. */
  lemma RawReadMirrorsIff(cfg: Config, rc: ReadConfig<Bytes>, h: History, replies: seq<Reply>)
    requires SameKeys(cfg, rc) && rc.prefix != [] && AllServed(replies)
    requires InjectiveOn(cfg, KeysMet(cfg, rc, h, replies)) && Transforms(rc, RAW, Gathered(rc, replies))
    requires ServedFrom(h, LastReply(rc, replies))
    ensures var r := Scan(rc, replies, 0, rc.prefix, map[]);
            r.Flat? && (MirrorsAt(cfg, RAW, h, r.rev, r.entries) <==> Untorn(rc, replies))
  {
    assert ValuesTell(RAW);
    ReadMirrorsIff(cfg, rc, RAW, h, replies);
  }

  /** What a replica loads when it answers a resync is what such a read returns if the read is not
      torn; and, where different raw values stay different, only then. */
  lemma ReloadIsUntornRead<V>(cfg: Config, rc: ReadConfig<V>, vt: Values<V>, h: History, replies: seq<Reply>)
    requires SameKeys(cfg, rc) && rc.prefix != [] && AllServed(replies)
    requires InjectiveOn(cfg, KeysMet(cfg, rc, h, replies)) && Transforms(rc, vt, Gathered(rc, replies))
    requires ServedFrom(h, LastReply(rc, replies))
    ensures var r := Scan(rc, replies, 0, rc.prefix, map[]);
            && r.Flat?
            && (Untorn(rc, replies) ==> r.entries == Reload(cfg, vt, h, r.rev))
            && (ValuesTell(vt) && r.entries == Reload(cfg, vt, h, r.rev) ==> Untorn(rc, replies))
  {
    ReadMirrorsIff(cfg, rc, vt, h, replies);
    var r := Scan(rc, replies, 0, rc.prefix, map[]);
    assert InjectiveOn(cfg, KeysOf(h, cfg.scope));
    LoadIsTheMirror(cfg, vt, h, r.rev, r.entries);
  }

  lemma LoadIsTheMirror<V>(cfg: Config, vt: Values<V>, h: History, rev: nat, copy: Copy<V>)
    requires rev < |h| && InjectiveOn(cfg, KeysOf(h, cfg.scope))
    ensures MirrorsAt(cfg, vt, h, rev, copy) <==> copy == Reload(cfg, vt, h, rev)
  {
    var m := Snapshot(h, cfg.scope, rev + 1);
    SnapshotUsesKeys(h, cfg.scope, rev + 1);
    LoadMirrors(cfg, vt, m, KeysOf(h, cfg.scope));
    if MirrorsAt(cfg, vt, h, rev, copy) { MirrorIsUnique(cfg, vt, m, copy, Load(cfg, vt, m)); }
  }

  // ----- the watch that follows it

  /** A provider that has made one Read and nothing else. */
  function AfterRead(rev: nat): World {
    World(Stats(rev, 0, 0, 0, 0, 0, 0, 0, 1), [])
  }

  /** The first watch of such a provider. */
  function FirstWatch(cfg: Config, rev: nat): State {
    Begin(cfg, AfterRead(rev))
  }

  /** A fair run of the first watch after a read at rev, with its resyncs answered. */
  predicate FairFirstWatch(cfg: Config, h: History, rev: nat, turns: seq<Turn>, rereads: seq<nat>) {
    var s := FirstWatch(cfg, rev);
    FairRun(cfg, h, s, turns) && Answered(h, rereads, NewEvents(s.world, Run(cfg, s, turns).world))
  }

  /** Read, then watch, end to end. A provider reads a prefix, in pages that agree, and starts its
      first watch with resuming on. Whatever happens to the watch, a consumer that starts from what
      the read returned, applies what is delivered through the same value transform and answers
      resyncs with Reads of its own holds the store's transformed entries at the position reached,
      once the watch has passed its last Read. */
  lemma ReadThenWatchAgrees<V>(cfg: Config, rc: ReadConfig<V>, vt: Values<V>, h: History, replies: seq<Reply>,
                               turns: seq<Turn>, rereads: seq<nat>)
    requires SameKeys(cfg, rc) && Unfiltered(cfg) && cfg.resumeFromRevision
    requires rc.prefix != [] && AllServed(replies) && Untorn(rc, replies)
    requires Followable(cfg, vt, KeysMet(cfg, rc, h, replies)) && Transforms(rc, vt, Gathered(rc, replies))
    requires ServedFrom(h, LastReply(rc, replies)) && LastReply(rc, replies).rev > 0
    requires FairFirstWatch(cfg, h, LastReply(rc, replies).rev, turns, rereads)
    ensures var r := Scan(rc, replies, 0, rc.prefix, map[]);
            && r.Flat? && r.rev == LastReply(rc, replies).rev
            && FollowsFrom(cfg, vt, h, r.rev, r.entries, turns, rereads)
  {
    ReadMirrorsIff(cfg, rc, vt, h, replies);
    var r := Scan(rc, replies, 0, rc.prefix, map[]);
    assert Followable(cfg, vt, KeysOf(h, cfg.scope));
    WatchAgreesAfter(cfg, vt, h, r.rev, r.entries, turns, rereads);
  }

  /** The first watch after a read at rev: a consumer that starts from `copy` is right wherever the
      watch has passed its last Read, and no position at or after the read is skipped. */
  ghost predicate FollowsFrom<V>(cfg: Config, vt: Values<V>, h: History, rev: nat, copy: Copy<V>,
                                 turns: seq<Turn>, rereads: seq<nat>) {
    var s := FirstWatch(cfg, rev);
    var s' := Run(cfg, s, turns);
    var es := NewEvents(s.world, s'.world);
    var at := End(RunSpans(cfg, s, turns), rev + 1);
    && |es| <= |rereads|
    && rev + 1 <= at <= |h|
    && (s'.loop.running ==> s'.loop.startRev == at)
    && (Seen(rereads, rev + 1, es) <= at ==>
          Mirrors(cfg, vt, Snapshot(h, cfg.scope, at), TakeAll(cfg, vt, h, rereads, copy, es)))
  }

  lemma WatchAgreesAfter<V>(cfg: Config, vt: Values<V>, h: History, rev: nat, copy: Copy<V>,
                            turns: seq<Turn>, rereads: seq<nat>)
    requires Followable(cfg, vt, KeysOf(h, cfg.scope)) && Unfiltered(cfg) && cfg.resumeFromRevision
    requires 0 < rev && MirrorsAt(cfg, vt, h, rev, copy) && FairFirstWatch(cfg, h, rev, turns, rereads)
    ensures FollowsFrom(cfg, vt, h, rev, copy, turns, rereads)
  {
    var s := FirstWatch(cfg, rev);
    assert FreshHead(h, s);
    LateReplicaAgreement(cfg, vt, h, s, turns, rereads, copy, rev + 1);
    RunRevisions(cfg, h, s, turns);
  }
}
