/** The default read pipeline as a whole: from the keys of an unchanging store, through the pages, the
    default key transform and nesting, to what a reader sees at each path. */
module DefaultReads {
  import opened Bytes
  import opened Nesting
  import opened Options
  import opened Pagination
  import opened Paths
  import opened PrefixReads
  import opened RangeRead
  import opened Replica
  import opened ReadThenWatch
  import opened Unflatten

  /** Where a key should appear: its remainder, split on "/" and cleaned. */
  function PathOf(prefix: Bytes, trimPrefix: bool, k: Bytes): Path {
    Clean(Split(Remainder(prefix, trimPrefix, k), [SLASH]))
  }

  /** A pair of the store, as the reader should see it. */
  datatype Item<V> = Item(path: Path, value: V)

  function ItemsOf<V>(prefix: Bytes, trimPrefix: bool, vt: Values<V>, kvs: Listing): seq<Item<V>> {
    seq(|kvs|, i requires 0 <= i < |kvs| => Item(PathOf(prefix, trimPrefix, kvs[i].key), vt(kvs[i].key, kvs[i].raw)))
  }

  /** One item is a leaf where another needs a map. */
  ghost predicate Conflicting<V>(items: seq<Item<V>>) {
    exists i, j :: 0 <= i < |items| && 0 <= j < |items| && Shadows(items[i].path, items[j].path)
  }

  /** Items at one path have one value. */
  ghost predicate Agree<V>(items: seq<Item<V>>) {
    forall i, j :: 0 <= i < |items| && 0 <= j < |items| && items[i].path == items[j].path != [] ==>
      items[i].value == items[j].value
  }

  ghost predicate SomeItem<V>(items: seq<Item<V>>, p: Path, v: V) {
    exists i :: 0 <= i < |items| && items[i].path == p && p != [] && items[i].value == v
  }

  /** The nested map has a leaf at each item's path, and each leaf is the value of an item there. */
  ghost predicate ShowsItems<V(!new)>(items: seq<Item<V>>, m: Nesting.Nested<V>) {
    && NoEmptyMaps(Tree(m))
    && (forall i :: 0 <= i < |items| && items[i].path != [] ==> LeafAt(m, items[i].path).Some?)
    && (forall p :: LeafAt(m, p).Some? ==> SomeItem(items, p, LeafAt(m, p).value))
  }

  /** Every item is seen at its path. */
  ghost predicate ShowsEach<V(!new)>(items: seq<Item<V>>, m: Nesting.Nested<V>) {
    forall i :: 0 <= i < |items| && items[i].path != [] ==> LeafAt(m, items[i].path) == Some(items[i].value)
  }

  // ----- the flat map holds the items under their names

  /** Name i in the flat map stands for item i, and there are no other names. */
  ghost predicate Named<V(!new)>(flat: map<Bytes, V>, t: Table, names: seq<Bytes>, items: seq<Item<V>>) {
    && t.Keys == flat.Keys && |names| == |items|
    && (forall i :: 0 <= i < |names| ==>
          names[i] in flat && flat[names[i]] == items[i].value && t[names[i]] == items[i].path)
    && (forall k :: k in flat ==> k in names)
  }

  lemma ConflictIsCollision<V(!new)>(flat: map<Bytes, V>, t: Table, names: seq<Bytes>, items: seq<Item<V>>)
    requires Named(flat, t, names, items)
    ensures Collides(t, flat.Keys) <==> Conflicting(items)
  {
    if k, l :| k in flat.Keys && l in flat.Keys && k in t && l in t && Shadows(t[k], t[l]) {
      var i :| 0 <= i < |names| && names[i] == k;
      var j :| 0 <= j < |names| && names[j] == l;
      assert Shadows(items[i].path, items[j].path);
    }
    if i, j :| 0 <= i < |items| && 0 <= j < |items| && Shadows(items[i].path, items[j].path) {
      assert Shadows(t[names[i]], t[names[j]]);
    }
  }

  lemma RepresentsShows<V(!new)>(flat: map<Bytes, V>, t: Table, names: seq<Bytes>, items: seq<Item<V>>,
                                 m: Nesting.Nested<V>)
    requires Named(flat, t, names, items) && Represents(flat, t, m)
    ensures ShowsItems(items, m)
  {
    forall i | 0 <= i < |items| && items[i].path != [] ensures LeafAt(m, items[i].path).Some? {
      assert LeafAt(m, t[names[i]]).Some?;
    }
    forall p | LeafAt(m, p).Some? ensures SomeItem(items, p, LeafAt(m, p).value) {
      var k :| k in flat && k in t && t[k] == p && p != [] && flat[k] == LeafAt(m, p).value;
      var i :| 0 <= i < |names| && names[i] == k;
      assert items[i].path == p && items[i].value == LeafAt(m, p).value;
    }
  }

  /** Every item is seen at its path exactly when items at one path agree. */
  lemma ShowsEachIffAgree<V(!new)>(items: seq<Item<V>>, m: Nesting.Nested<V>)
    requires ShowsItems(items, m)
    ensures ShowsEach(items, m) <==> Agree(items)
  {
    if Agree(items) {
      forall i | 0 <= i < |items| && items[i].path != [] ensures LeafAt(m, items[i].path) == Some(items[i].value) {
        var p := items[i].path;
        assert SomeItem(items, p, LeafAt(m, p).value);
      }
    }
  }

  // ----- the pages give that flat map

  /** The names of a listing's keys in the flat map. */
  function NamesOf<V>(rc: ReadConfig<V>, kvs: Listing): seq<Bytes> {
    seq(|kvs|, i requires 0 <= i < |kvs| => rc.keyTransform(kvs[i].key))
  }

  ghost predicate Apart<V>(rc: ReadConfig<V>, kvs: Listing) {
    forall i, j :: 0 <= i < j < |kvs| ==> rc.keyTransform(kvs[i].key) != rc.keyTransform(kvs[j].key)
  }

  ghost predicate HasName<V>(rc: ReadConfig<V>, kvs: Listing, k: Bytes) {
    exists i :: 0 <= i < |kvs| && rc.keyTransform(kvs[i].key) == k
  }

  /** The flat map holds each pair's value under its name, and nothing else. */
  ghost predicate Holds<V>(rc: ReadConfig<V>, vt: Values<V>, kvs: Listing, flat: map<Bytes, V>) {
    && (forall i :: 0 <= i < |kvs| ==>
          rc.keyTransform(kvs[i].key) in flat && flat[rc.keyTransform(kvs[i].key)] == vt(kvs[i].key, kvs[i].raw))
    && (forall k :: k in flat ==> HasName(rc, kvs, k))
  }

  lemma OneMoreHolds<V>(rc: ReadConfig<V>, vt: Values<V>, front: Listing, last: KV, flat: map<Bytes, V>)
    requires Apart(rc, front + [last]) && Holds(rc, vt, front, flat)
    ensures Holds(rc, vt, front + [last], flat[rc.keyTransform(last.key) := vt(last.key, last.raw)])
  {
    var kvs: Listing := front + [last];
    var name := rc.keyTransform(last.key);
    var more := flat[name := vt(last.key, last.raw)];
    assert kvs[|front|] == last;
    forall i | 0 <= i < |kvs|
      ensures rc.keyTransform(kvs[i].key) in more && more[rc.keyTransform(kvs[i].key)] == vt(kvs[i].key, kvs[i].raw)
    {
      if i < |front| { assert kvs[i] == front[i] && rc.keyTransform(kvs[i].key) != rc.keyTransform(kvs[|front|].key); }
    }
    forall k | k in more ensures HasName(rc, kvs, k) {
      if k != name {
        var i :| 0 <= i < |front| && rc.keyTransform(front[i].key) == k;
        assert kvs[i] == front[i];
      }
    }
  }

  lemma {:induction false} FlatHolds<V>(rc: ReadConfig<V>, vt: Values<V>, kvs: Listing)
    requires Transforms(rc, vt, kvs) && Apart(rc, kvs)
    ensures AddAll(rc, map[], kvs).Added? && Holds(rc, vt, kvs, AddAll(rc, map[], kvs).entries)
  {
    if kvs != [] {
      var front, last := kvs[..|kvs| - 1], kvs[|kvs| - 1];
      FlatHolds(rc, vt, front);
      assert kvs == front + [last];
      OneMoreHolds(rc, vt, front, last, AddAll(rc, map[], front).entries);
    }
  }

  ghost predicate KeepsDefault<V>(rc: ReadConfig<V>, delim: Bytes, trimPrefix: bool) {
    forall k: Bytes :: rc.keyTransform(k) == DefaultTransform(rc.prefix, delim, trimPrefix, k)
  }

  /** The keys of the listing are under the prefix, and come through the delimiter. */
  predicate AllSurvive(prefix: Bytes, delim: Bytes, trimPrefix: bool, kvs: Listing) {
    forall i :: 0 <= i < |kvs| ==> prefix <= kvs[i].key && Survives(prefix, delim, trimPrefix, kvs[i].key)
  }

  lemma SurvivorsAreDistinct<V>(rc: ReadConfig<V>, delim: Bytes, trimPrefix: bool, kvs: Listing)
    requires KeepsDefault(rc, delim, trimPrefix) && Sorted(kvs) && AllSurvive(rc.prefix, delim, trimPrefix, kvs)
    ensures Apart(rc, kvs)
  {
    forall i, j | 0 <= i < j < |kvs| ensures rc.keyTransform(kvs[i].key) != rc.keyTransform(kvs[j].key) {
      LessIsIrreflexive(kvs[i].key);
      if rc.keyTransform(kvs[i].key) == rc.keyTransform(kvs[j].key) {
        DefaultTransformInjective(rc.prefix, delim, trimPrefix, kvs[i].key, kvs[j].key);
      }
    }
  }

  lemma NameStands<V(!new)>(rc: ReadConfig<V>, vt: Values<V>, delim: Bytes, trimPrefix: bool, kvs: Listing,
                            flat: map<Bytes, V>, i: nat)
    requires KeepsDefault(rc, delim, trimPrefix) && Holds(rc, vt, kvs, flat) && delim != []
    requires i < |kvs| && Survives(rc.prefix, delim, trimPrefix, kvs[i].key)
    ensures var name := rc.keyTransform(kvs[i].key);
            && name in flat && flat[name] == vt(kvs[i].key, kvs[i].raw)
            && CleanTable(flat.Keys, delim)[name] == PathOf(rc.prefix, trimPrefix, kvs[i].key)
  {
    DefaultPathsAreFaithful(rc.prefix, delim, trimPrefix, kvs[i].key);
  }

  lemma HeldIsNamed<V(!new)>(rc: ReadConfig<V>, vt: Values<V>, delim: Bytes, trimPrefix: bool, kvs: Listing,
                             flat: map<Bytes, V>, t: Table, names: seq<Bytes>, items: seq<Item<V>>)
    requires t.Keys == flat.Keys && names == NamesOf(rc, kvs) && items == ItemsOf(rc.prefix, trimPrefix, vt, kvs)
    requires forall i :: 0 <= i < |kvs| ==>
               var name := rc.keyTransform(kvs[i].key);
               && name in flat && flat[name] == vt(kvs[i].key, kvs[i].raw)
               && t[name] == PathOf(rc.prefix, trimPrefix, kvs[i].key)
    requires forall k :: k in flat ==> HasName(rc, kvs, k)
    ensures Named(flat, t, names, items)
  {
    forall k | k in flat ensures k in names {
      assert HasName(rc, kvs, k);
      var i :| 0 <= i < |kvs| && rc.keyTransform(kvs[i].key) == k;
      assert names[i] == k;
    }
    forall i | 0 <= i < |names|
      ensures names[i] in flat && flat[names[i]] == items[i].value && t[names[i]] == items[i].path
    {
      assert names[i] == rc.keyTransform(kvs[i].key);
    }
  }

  lemma FlatIsNamed<V(!new)>(rc: ReadConfig<V>, vt: Values<V>, delim: Bytes, trimPrefix: bool, kvs: Listing,
                             flat: map<Bytes, V>)
    requires KeepsDefault(rc, delim, trimPrefix) && Holds(rc, vt, kvs, flat) && delim != []
    requires AllSurvive(rc.prefix, delim, trimPrefix, kvs)
    ensures Named(flat, CleanTable(flat.Keys, delim), NamesOf(rc, kvs), ItemsOf(rc.prefix, trimPrefix, vt, kvs))
  {
    forall i | 0 <= i < |kvs|
      ensures var name := rc.keyTransform(kvs[i].key);
              && name in flat && flat[name] == vt(kvs[i].key, kvs[i].raw)
              && CleanTable(flat.Keys, delim)[name] == PathOf(rc.prefix, trimPrefix, kvs[i].key)
    {
      NameStands(rc, vt, delim, trimPrefix, kvs, flat, i);
    }
    HeldIsNamed(rc, vt, delim, trimPrefix, kvs, flat, CleanTable(flat.Keys, delim), NamesOf(rc, kvs),
                ItemsOf(rc.prefix, trimPrefix, vt, kvs));
  }

  // ----- the read

  /** What a reader must be given for these items. */
  ghost predicate AnswersItems<V(!new)>(items: seq<Item<V>>, strict: bool, a: Answer<V>) {
    if items == [] then a == if strict then EmptyPrefix else Plain(map[])
    else if Conflicting(items) then a == Collision
    else
      && a.Nested?
      && ShowsItems(items, a.children)
      && (ShowsEach(items, a.children) <==> Agree(items))
  }

  lemma FlatAnswersItems<V(!new)>(flat: map<Bytes, V>, names: seq<Bytes>, items: seq<Item<V>>, strict: bool,
                                  delim: Bytes, a: Answer<V>)
    requires delim != [] && Named(flat, CleanTable(flat.Keys, delim), names, items)
    requires Answers(flat, strict, true, delim, a)
    ensures AnswersItems(items, strict, a)
  {
    var t := CleanTable(flat.Keys, delim);
    if items == [] {
      assert flat == map[] by { assert names == []; }
    } else {
      assert names[0] in flat;
      ConflictIsCollision(flat, t, names, items);
      if !Conflicting(items) {
        RepresentsShows(flat, t, names, items, a.children);
        ShowsEachIffAgree(items, a.children);
      }
    }
  }

  /** The default read, end to end, over an unchanging store and with any page limit. Each pair under
      the prefix belongs at its remainder split on "/" and cleaned. The read collides exactly when
      one of these paths is a proper prefix of another; otherwise the reader sees a leaf at each of
      them and nowhere else, and each value at its own path exactly when pairs at one path agree. */
  lemma DefaultReadShows<V(!new)>(rc: ReadConfig<V>, vt: Values<V>, delim: Bytes, trimPrefix: bool, store: Listing,
                                  rev: nat, strict: bool, before: nat, a: Answer<V>, stored: nat)
    requires KeepsDefault(rc, delim, trimPrefix) && Sorted(store) && delim != []
    requires var under := RangeOf(store, rc.prefix, PrefixEnd(rc.prefix));
             Transforms(rc, vt, under)
             && forall i :: 0 <= i < |under| ==> Survives(rc.prefix, delim, trimPrefix, under[i].key)
    requires Results(Scan(rc, [Served(rev, store)], 0, rc.prefix, map[]), strict, true, delim, before, a, stored)
    ensures stored == rev
    ensures var under := RangeOf(store, rc.prefix, PrefixEnd(rc.prefix));
            && (forall x :: x in under <==> x in store && rc.prefix <= x.key)
            && AnswersItems(ItemsOf(rc.prefix, trimPrefix, vt, under), strict, a)
  {
    var under := RangeOf(store, rc.prefix, PrefixEnd(rc.prefix));
    PaginationRefinesOneRead(rc, rev, store);
    RangeSorted(store, rc.prefix, PrefixEnd(rc.prefix));
    forall i | 0 <= i < |under| ensures rc.prefix <= under[i].key { assert under[i] in under; }
    SurvivorsAreDistinct(rc, delim, trimPrefix, under);
    FlatHolds(rc, vt, under);
    var flat := AddAll(rc, map[], under).entries;
    FlatIsNamed(rc, vt, delim, trimPrefix, under, flat);
    FlatAnswersItems(flat, NamesOf(rc, under), ItemsOf(rc.prefix, trimPrefix, vt, under), strict, delim, a);
  }
}
