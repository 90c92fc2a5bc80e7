/** What a read of a prefix answers when paths are not split, and how its errors come through. */
module ReadAnswers {
  import opened Bytes
  import opened Nesting
  import opened Options
  import opened Pagination
  import opened PrefixReads
  import opened RangeRead

  /** What a reader of the answer finds under an unsplit path. */
  function Shown<V>(a: Answer<V>, path: Bytes): Option<V> {
    match a
    case Plain(m) => if path in m then Some(m[path]) else None
    case Nested(m) => LeafAt(m, [path])
    case _ => None
  }

  /** The i-th pair is the last that is transformed to the path. */
  predicate WritesLast<V>(cfg: ReadConfig<V>, kvs: Listing, i: nat, path: Bytes) {
    && i < |kvs|
    && cfg.keyTransform(kvs[i].key) == path
    && forall j :: i < j < |kvs| ==> cfg.keyTransform(kvs[j].key) != path
  }

  predicate FirstBad<V>(cfg: ReadConfig<V>, kvs: Listing, i: nat) {
    i < |kvs| && Bad(cfg, kvs[i]) && forall j :: 0 <= j < i ==> !Bad(cfg, kvs[j])
  }

  predicate AllGood<V>(cfg: ReadConfig<V>, kvs: Listing) {
    forall j :: 0 <= j < |kvs| ==> !Bad(cfg, kvs[j])
  }

  /** The last pair that is transformed to the path, if there is one. */
  lemma {:induction false} LastWriter<V>(cfg: ReadConfig<V>, kvs: Listing, path: Bytes) returns (i: nat)
    ensures i < |kvs| ==> WritesLast(cfg, kvs, i, path)
    ensures i >= |kvs| ==> forall j :: 0 <= j < |kvs| ==> cfg.keyTransform(kvs[j].key) != path
  {
    i := |kvs|;
    while i > 0 && cfg.keyTransform(kvs[i - 1].key) != path
      invariant i <= |kvs|
      invariant forall j :: i <= j < |kvs| ==> cfg.keyTransform(kvs[j].key) != path
    {
      i := i - 1;
    }
    i := if i == 0 then |kvs| else i - 1;
  }

  /** What is shown under the paths is exactly what the last pair transformed to each gives. */
  ghost predicate ShowsLastWriters<V>(cfg: ReadConfig<V>, kvs: Listing, a: Answer<V>) {
    && (forall p: Bytes :: Shown(a, p).Some? ==> exists i: nat :: WritesLast(cfg, kvs, i, p))
    && (forall p: Bytes, i: nat :: WritesLast(cfg, kvs, i, p) ==>
          Shown(a, p).Some? && Shown(a, p) == cfg.valueTransform(kvs[i].key, kvs[i].raw))
  }

  ghost predicate Unsplit<V>(a: Answer<V>, unflatten: bool) {
    if unflatten then a.Nested? && forall p: Path :: LeafAt(a.children, p).Some? ==> |p| == 1 else a.Plain?
  }

  lemma FlatShows<V>(cfg: ReadConfig<V>, kvs: Listing, flat: map<Bytes, V>, a: Answer<V>)
    requires AddAll(cfg, map[], kvs) == Added(flat)
    requires forall p: Bytes :: Shown(a, p) == if p in flat then Some(flat[p]) else None
    ensures ShowsLastWriters(cfg, kvs, a)
  {
    forall p: Bytes | Shown(a, p).Some? ensures exists i: nat :: WritesLast(cfg, kvs, i, p) {
      var i := LastWriter(cfg, kvs, p);
      LastWriterWins(cfg, map[], kvs, i, p);
    }
    forall p: Bytes, i: nat | WritesLast(cfg, kvs, i, p)
      ensures Shown(a, p).Some? && Shown(a, p) == cfg.valueTransform(kvs[i].key, kvs[i].raw)
    {
      LastWriterWins(cfg, map[], kvs, i, p);
    }
  }

  lemma AnswerShowsFlat<V(!new)>(flat: map<Bytes, V>, strict: bool, unflatten: bool, a: Answer<V>)
    requires flat != map[] && Answers(flat, strict, unflatten, [], a)
    ensures Unsplit(a, unflatten)
    ensures forall p: Bytes :: Shown(a, p) == if p in flat then Some(flat[p]) else None
  {
  }

  /** A flat map with an entry for each last writer. */
  lemma SomePairSomeEntry<V>(cfg: ReadConfig<V>, kvs: Listing, flat: map<Bytes, V>)
    requires AddAll(cfg, map[], kvs) == Added(flat)
    ensures flat == map[] <==> kvs == []
  {
    if kvs != [] { LastWriterWins(cfg, map[], kvs, |kvs| - 1, cfg.keyTransform(kvs[|kvs| - 1].key)); }
  }

  /** A read over an unchanging store, with any page limit, that does not split its paths: the first
      bad value is reported by its etcd key and nothing is stored; with no pair under the prefix it
      fails if it must not be empty; else it shows, flat or as a nested map one level deep, exactly
      what the last pair transformed to each path gives. */
  lemma UnsplitReadShows<V(!new)>(cfg: ReadConfig<V>, rev: nat, store: Listing, strict: bool, unflatten: bool,
                                  before: nat, a: Answer<V>, stored: nat)
    requires Sorted(store)
    requires Results(Scan(cfg, [Served(rev, store)], 0, cfg.prefix, map[]), strict, unflatten, [], before, a, stored)
    ensures var under := RangeOf(store, cfg.prefix, PrefixEnd(cfg.prefix));
            && (forall i: nat :: FirstBad(cfg, under, i) ==>
                  a == NotRead(BadValue(under[i].key)) && stored == before)
            && (AllGood(cfg, under) ==> stored == rev)
            && (AllGood(cfg, under) && under == [] ==> a == if strict then EmptyPrefix else Plain(map[]))
            && (AllGood(cfg, under) && under != [] ==> Unsplit(a, unflatten) && ShowsLastWriters(cfg, under, a))
  {
    var under := RangeOf(store, cfg.prefix, PrefixEnd(cfg.prefix));
    ScanFromIsOneRead(cfg, rev, store, cfg.prefix, map[]);
    forall i: nat | FirstBad(cfg, under, i) ensures a == NotRead(BadValue(under[i].key)) && stored == before {
      FirstBadStops(cfg, map[], under, i);
    }
    if AllGood(cfg, under) {
      FirstBadStops(cfg, map[], under, |under|);
      var flat := AddAll(cfg, map[], under).entries;
      SomePairSomeEntry(cfg, under, flat);
      if under != [] {
        AnswerShowsFlat(flat, strict, unflatten, a);
        FlatShows(cfg, under, flat, a);
      }
    }
  }

  /** A page that is refused, after pages that were all good: the read answers that page's error and
      leaves the provider's revision as it was. */
  lemma RefusedPageIsReported<V(!new)>(cfg: ReadConfig<V>, replies: seq<Reply>, j: nat, strict: bool, unflatten: bool,
                                       delim: Bytes, before: nat, a: Answer<V>, stored: nat)
    requires WellServed(replies) && j < |replies| && Cursor(cfg.limit, cfg.prefix, replies, j).Some?
    requires AllGood(cfg, Cursor(cfg.limit, cfg.prefix, replies, j).value.1)
    requires Results(Scan(cfg, replies, 0, cfg.prefix, map[]), strict, unflatten, delim, before, a, stored)
    ensures match replies[j]
            case Down(n) => a == NotRead(GetFailed(n)) && stored == before
            case MoreWithoutKeys => a == NotRead(EmptyPage) && stored == before
            case Served(_, _) => true
  {
    var kvs := Cursor(cfg.limit, cfg.prefix, replies, j).value.1;
    FirstBadStops(cfg, map[], kvs, |kvs|);
    ScanByPages(cfg, replies, j);
  }
}
