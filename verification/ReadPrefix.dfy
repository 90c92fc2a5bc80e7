/** `readPrefix` as a whole: scan, store the revision, then fail on an empty prefix or a path
    collision, or nest. What it stores before it can fail is what a refused re-read leaves behind. */
module PrefixReads {
  import opened Bytes
  import opened Nesting
  import opened Options
  import opened Pagination
  import opened Paths
  import opened RangeRead
  import opened Unflatten
  import opened WatchModel

  datatype Answer<V> =
    | Nested(children: map<Bytes, Node<V>>)
    | Plain(entries: map<Bytes, V>)
    | EmptyPrefix
    | Collision
    | NotRead(error: ReadError)

  predicate Fails<V>(a: Answer<V>) {
    a.EmptyPrefix? || a.Collision? || a.NotRead?
  }

  /** What a read must answer for the flat map its pages gave. */
  ghost predicate Answers<V(!new)>(flat: map<Bytes, V>, strict: bool, unflatten: bool, delim: Bytes, a: Answer<V>) {
    if flat == map[] then a == if strict then EmptyPrefix else Plain(map[])
    else if !unflatten then a == Plain(flat)
    else if delim == [] then a == Nested(map k | k in flat :: Leaf(flat[k]))
    else
      var t := CleanTable(flat.Keys, delim);
      if Collides(t, flat.Keys) then a == Collision
      else a.Nested? && Represents(flat, t, a.children)
  }

  /** An answer and the revision stored, for the scan of the pages. The revision is stored once
      every page has been read, whatever comes after. */
  ghost predicate Results<V(!new)>(scanned: Scanned<V>, strict: bool, unflatten: bool, delim: Bytes, revision: nat,
                                   a: Answer<V>, stored: nat) {
    match scanned
    case ScanFailed(e) => a == NotRead(e) && stored == revision
    case Flat(flat, rev) => Answers(flat, strict, unflatten, delim, a) && stored == rev
  }

  method ReadPrefix<V(!new)>(cfg: ReadConfig<V>, strict: bool, unflatten: bool, delim: Bytes, replies: seq<Reply>,
                             revision: nat)
    returns (a: Answer<V>, stored: nat)
    requires WellServed(replies)
    ensures Results(Scan(cfg, replies, 0, cfg.prefix, map[]), strict, unflatten, delim, revision, a, stored)
  {
    var scanned := ReadPages(cfg, replies);
    match scanned {
      case ScanFailed(e) =>
        return NotRead(e), revision;
      case Flat(flat, rev) =>
        stored := rev;
        if |flat| == 0 {
          return if strict then EmptyPrefix else Plain(map[]), stored;
        }
        if unflatten {
          var r := UnflattenMap(flat, delim);
          match r {
            case PathCollision => return Collision, stored;
            case Nest(m) => return Nested(m), stored;
          }
        }
        a := Plain(flat);
    }
  }

  // ----- the read as the watch's re-read

  /** What a read made after compaction amounts to for the retry loop. */
  function AsReread<V>(a: Answer<V>, stored: nat): Reread {
    match a
    case NotRead(_) => Refused(OtherError(0))
    case EmptyPrefix => RefusedAfterStore(stored, OtherError(1))
    case Collision => RefusedAfterStore(stored, OtherError(2))
    case _ => Loaded(stored, stored)
  }

  /** The pages were read, but they do not make an answer: an empty prefix that must not be, or two
      keys that claim a leaf and a sub-tree at one path. */
  ghost predicate Unanswerable<V>(flat: map<Bytes, V>, strict: bool, unflatten: bool, delim: Bytes) {
    if flat == map[] then strict
    else unflatten && delim != [] && Collides(CleanTable(flat.Keys, delim), flat.Keys)
  }

  /** A re-read is refused after storing its revision exactly when its pages were read and make no
      answer; refused before, exactly when a page was not read; and the loop's step on it leaves the
      provider's revision where the read has stored it. */
  lemma RereadIs<V(!new)>(cfg: Config, w: World, scanned: Scanned<V>, strict: bool, unflatten: bool, delim: Bytes,
                          a: Answer<V>, stored: nat)
    requires Results(scanned, strict, unflatten, delim, w.stats.revision, a, stored)
    ensures var r := AsReread(a, stored);
            && (r.Refused? <==> scanned.ScanFailed?)
            && (r.RefusedAfterStore? <==> scanned.Flat? && Unanswerable(scanned.entries, strict, unflatten, delim))
            && (scanned.Flat? ==> !r.Refused? && r.rev == scanned.rev)
            && (r.Loaded? ==> r.found == scanned.rev)
            && DoResync(cfg, w, r).0.stats.revision == stored
            && (DoResync(cfg, w, r).1.ReadFailed? <==> Fails(a))
  {
  }

  /** In particular whenever the pages hold two keys whose cleaned paths shadow one another. */
  lemma ShadowedIsUnanswerable<V>(flat: map<Bytes, V>, strict: bool, delim: Bytes, k: Bytes, l: Bytes)
    requires delim != [] && k in flat && l in flat && Shadows(CleanPath(k, delim), CleanPath(l, delim))
    ensures Unanswerable(flat, strict, true, delim)
  {
    var t := CleanTable(flat.Keys, delim);
    assert Shadows(t[k], t[l]);
  }

  lemma CollisionIsRefused<V(!new)>(scanned: Scanned<V>, strict: bool, delim: Bytes, before: nat, a: Answer<V>,
                                    stored: nat)
    requires scanned.Flat? && scanned.entries != map[] && Unanswerable(scanned.entries, strict, true, delim)
    requires Results(scanned, strict, true, delim, before, a, stored)
    ensures AsReread(a, stored) == RefusedAfterStore(scanned.rev, OtherError(2))
  {
  }

  /** The settings keep a pair's key and value as they are, under a prefix of the key. */
  predicate Keeps(rc: ReadConfig<Bytes>, x: KV) {
    rc.prefix <= x.key && rc.keyTransform(x.key) == x.key && rc.valueTransform(x.key, x.raw) == Some(x.raw)
  }

  lemma CollidingScan(rc: ReadConfig<Bytes>, store: Listing, first: KV, second: KV, rev: nat, strict: bool,
                      delim: Bytes)
    requires Sorted(store) && store == [first, second] && Keeps(rc, first) && Keeps(rc, second)
    requires delim != [] && Shadows(CleanPath(first.key, delim), CleanPath(second.key, delim))
    ensures var scanned := Scan(rc, [Served(rev, store)], 0, rc.prefix, map[]);
            && scanned.Flat? && scanned.rev == rev && scanned.entries != map[]
            && Unanswerable(scanned.entries, strict, true, delim)
  {
    WitnessScan(rc, store, first, second, rev);
    var flat := map[][first.key := first.raw][second.key := second.raw];
    assert first.key in flat;
    ShadowedIsUnanswerable(flat, strict, delim, first.key, second.key);
  }

  /** A store of two keys whose cleaned paths shadow one another, read in one page and nested.
      Whatever the order of the flat map, the read is refused and its revision is stored. */
  lemma CollidingRead(rc: ReadConfig<Bytes>, store: Listing, first: KV, second: KV, rev: nat, before: nat,
                      strict: bool, delim: Bytes)
    requires Sorted(store) && store == [first, second] && Keeps(rc, first) && Keeps(rc, second)
    requires delim != [] && Shadows(CleanPath(first.key, delim), CleanPath(second.key, delim))
    ensures forall a: Answer<Bytes>, stored: nat
              | Results(Scan(rc, [Served(rev, store)], 0, rc.prefix, map[]), strict, true, delim, before, a, stored)
              :: AsReread(a, stored) == RefusedAfterStore(rev, OtherError(2))
  {
    CollidingScan(rc, store, first, second, rev, strict, delim);
    var scanned := Scan(rc, [Served(rev, store)], 0, rc.prefix, map[]);
    forall a: Answer<Bytes>, stored: nat | Results(scanned, strict, true, delim, before, a, stored)
      ensures AsReread(a, stored) == RefusedAfterStore(rev, OtherError(2))
    {
      CollisionIsRefused(scanned, strict, delim, before, a, stored);
    }
  }

  lemma CleanIsWhole(parts: seq<Bytes>)
    requires parts != [] && parts[0] != [] && parts[|parts| - 1] != []
    ensures Clean(parts) == parts
  {
  }

  /** Such stores exist, for every delimiter and any two segments without its first byte: "a" and
      "a.b" under ".". */
  lemma CollidingStore(a: Bytes, b: Bytes, delim: Bytes, store: Listing)
    requires delim != [] && a != [] && b != [] && delim[0] !in a && delim[0] !in b
    requires store == [KV(a, []), KV(a + delim + b, [])]
    ensures Sorted(store)
    ensures CleanPath(store[0].key, delim) == [a] && CleanPath(store[1].key, delim) == [a, b]
    ensures Shadows(CleanPath(store[0].key, delim), CleanPath(store[1].key, delim))
  {
    ExtensionIsGreater(a, delim + b);
    assert a + (delim + b) == a + delim + b;
    FirstByteGuards(a, delim);
    FirstByteGuards(b, delim);
    SplitOfJoin([a], delim);
    SplitOfJoin([a, b], delim);
    JoinCons(a, [b], delim);
    assert [a] + [b] == [a, b];
    CleanIsWhole([a]);
    CleanIsWhole([a, b]);
    assert [a, b][..1] == [a];
  }

  lemma WitnessScan(rc: ReadConfig<Bytes>, store: Listing, first: KV, second: KV, rev: nat)
    requires Sorted(store) && store == [first, second] && rc.prefix <= first.key && rc.prefix <= second.key
    requires rc.keyTransform(first.key) == first.key && rc.keyTransform(second.key) == second.key
    requires rc.valueTransform(first.key, first.raw) == Some(first.raw)
    requires rc.valueTransform(second.key, second.raw) == Some(second.raw)
    ensures Scan(rc, [Served(rev, store)], 0, rc.prefix, map[])
         == Flat(map[][first.key := first.raw][second.key := second.raw], rev)
  {
    ScanFromIsOneRead(rc, rev, store, rc.prefix, map[]);
    BothUnderPrefix(first, second, rc.prefix);
    AddTwo(rc, first, second);
  }

  lemma BothUnderPrefix(first: KV, second: KV, prefix: Bytes)
    requires prefix <= first.key && prefix <= second.key
    ensures RangeOf([first, second], prefix, PrefixEnd(prefix)) == [first, second]
  {
    PrefixRangeIsExact(prefix, first.key);
    PrefixRangeIsExact(prefix, second.key);
    assert [] + [first] == [first] && [first] + [second] == [first, second];
    RangeSnoc([], first, prefix, PrefixEnd(prefix));
    RangeSnoc([first], second, prefix, PrefixEnd(prefix));
  }

  lemma AddTwo(rc: ReadConfig<Bytes>, first: KV, second: KV)
    requires rc.keyTransform(first.key) == first.key && rc.keyTransform(second.key) == second.key
    requires rc.valueTransform(first.key, first.raw) == Some(first.raw)
    requires rc.valueTransform(second.key, second.raw) == Some(second.raw)
    ensures AddAll(rc, map[], [first, second]) == Added(map[][first.key := first.raw][second.key := second.raw])
  {
    assert [first][..0] == [];
    assert AddAll(rc, map[], [first]) == Added(map[][first.key := first.raw]);
    assert [first, second][..1] == [first];
  }

  /** Which answer is independent of the order in which Go visits the flat map, except for keys
      that clean to one path and disagree: two answers to the same flat map are then the same. */
  lemma AnswersAreUnique<V(!new)>(flat: map<Bytes, V>, strict: bool, unflatten: bool, delim: Bytes, a: Answer<V>,
                                  b: Answer<V>)
    requires Answers(flat, strict, unflatten, delim, a) && Answers(flat, strict, unflatten, delim, b)
    requires delim != [] ==> Agreeing(flat, CleanTable(flat.Keys, delim))
    ensures a == b
  {
    if a.Nested? && delim != [] {
      OrderDoesNotMatter(flat, CleanTable(flat.Keys, delim), a.children, b.children);
    }
  }
}
