/** What one watch session keeps: batching changes only the grouping of events,
    nothing is stranded in the buffer, and every event is counted once. */
module SessionLaws {
  import opened History
  import opened Options
  import opened WatchModel

  // ----- the delivered stream

  function BatchOf(o: Output): seq<Event> {
    if o.Delivered? then o.batch else []
  }

  /** Every event handed to the callback, in order. */
  function Stream(log: seq<Output>): seq<Event> {
    if log == [] then [] else Stream(log[..|log| - 1]) + BatchOf(log[|log| - 1])
  }

  lemma StreamEmit(w: World, o: Output)
    ensures Stream(Emit(w, o).log) == Stream(w.log) + BatchOf(o)
  {
    assert (w.log + [o])[..|w.log|] == w.log;
  }

  lemma DeliverStreams(cfg: Config, w: World, batch: seq<Event>)
    ensures Stream(Deliver(cfg, w, batch).log) == Stream(w.log) + batch
    ensures Deliver(cfg, w, batch).stats.(totalWatchErrors := 0)
         == w.stats.(totalEventsDelivered := w.stats.totalEventsDelivered + |batch|, totalWatchErrors := 0)
  {
    var counted := w.(stats := w.stats.(totalEventsDelivered := w.stats.totalEventsDelivered + |batch|));
    var called := Emit(counted, Delivered(batch));
    StreamEmit(counted, Delivered(batch));
    StreamEmit(CountError(called), WatchError(Report(Bare, CallbackPanic), PanicClass));
  }

  lemma FlushStreams(cfg: Config, w: World, pending: seq<Event>)
    ensures Stream(Flush(cfg, w, pending).log) == Stream(w.log) + pending
    ensures var s := Flush(cfg, w, pending).stats;
            && s.revision == w.stats.revision
            && s.totalPuts == w.stats.totalPuts && s.totalDeletes == w.stats.totalDeletes
            && s.totalResyncs == w.stats.totalResyncs && s.totalReconnects == w.stats.totalReconnects
            && s.totalEventsDelivered == w.stats.totalEventsDelivered + |pending|
  {
    if pending != [] {
      DeliverStreams(cfg, w.(stats := w.stats.(totalDebounceFlushes := w.stats.totalDebounceFlushes + 1)), pending);
    }
  }

  lemma {:induction false} TranslateConcatenates(cfg: Config, a: seq<Change>, b: seq<Change>)
    ensures Translate(cfg, a + b) == Translate(cfg, a) + Translate(cfg, b)
  {
    if b == [] {
      assert a + b == a;
    } else {
      TranslateConcatenates(cfg, a, b[..|b| - 1]);
      assert (a + b)[..|a + b| - 1] == a + b[..|b| - 1];
    }
  }

  lemma {:induction false} CountAllCounts(w: World, cfg: Config, cs: seq<Change>)
    ensures var c := CountAll(w, cfg, cs);
            && c.log == w.log
            && c.stats == w.stats.(totalPuts := c.stats.totalPuts, totalDeletes := c.stats.totalDeletes)
            && c.stats.totalPuts + c.stats.totalDeletes
               == w.stats.totalPuts + w.stats.totalDeletes + |Translate(cfg, cs)|
  {
    if cs != [] { CountAllCounts(w, cfg, cs[..|cs| - 1]); }
  }

  /** All the changes a session's responses carry. */
  function Received(signals: seq<Signal>): seq<Change> {
    if signals == [] then []
    else
      var last := signals[|signals| - 1];
      Received(signals[..|signals| - 1]) + (if last.Response? then last.changes else [])
  }

  /** The highest header revision among a session's responses, 0 without any. */
  function MaxHeader(signals: seq<Signal>): nat {
    if signals == [] then 0
    else
      var last := signals[|signals| - 1];
      var m := MaxHeader(signals[..|signals| - 1]);
      if last.Response? && last.header > m then last.header else m
  }

  predicate Responded(signals: seq<Signal>) {
    exists i :: 0 <= i < |signals| && signals[i].Response?
  }

  /** What one signal adds to the stream, the counters and the session's result. */
  lemma FeedEffect(cfg: Config, w: World, b: Buffer, s: Signal)
    ensures var (w', b') := Feed(cfg, w, b, s);
            var added := if s.Response? then Translate(cfg, s.changes) else [];
            && Stream(w'.log) + b'.pending == Stream(w.log) + b.pending + added
            && Moved(w, w', |b.pending| + |added| - |b'.pending|, |added|)
            && b'.newRev == (if s.Response? && s.header > b.newRev then s.header else b.newRev)
            && b'.madeProgress == (b.madeProgress || s.Response?)
            && w'.stats.revision == (if s.Response? && s.header > b.newRev then s.header else w.stats.revision)
  {
    match s {
      case Expire =>
      case Tick => TickEffect(cfg, w, b);
      case Response(header, changes) =>
        AbsorbEffect(cfg, w, b, header, changes);
        var (w1, b1) := Absorb(cfg, w, b, header, changes);
        SettleEffect(cfg, w1, b1);
    }
  }

  lemma TickEffect(cfg: Config, w: World, b: Buffer)
    ensures var (w', b') := Feed(cfg, w, b, Tick);
            && Stream(w'.log) + b'.pending == Stream(w.log) + b.pending
            && Moved(w, w', |b.pending| - |b'.pending|, 0)
            && b'.newRev == b.newRev && b'.madeProgress == b.madeProgress
            && w'.stats.revision == w.stats.revision
  {
    FlushStreams(cfg, w, b.pending);
  }

  /** w' has delivered `more` events than w and translated `added` more; no resync or reconnect was counted. */
  predicate Moved(w: World, w': World, more: int, added: int) {
    && w'.stats.totalEventsDelivered == w.stats.totalEventsDelivered + more
    && w'.stats.totalPuts + w'.stats.totalDeletes == w.stats.totalPuts + w.stats.totalDeletes + added
    && w'.stats.totalResyncs == w.stats.totalResyncs
    && w'.stats.totalReconnects == w.stats.totalReconnects
  }

  lemma AbsorbEffect(cfg: Config, w: World, b: Buffer, header: nat, changes: seq<Change>)
    ensures var (w', b') := Absorb(cfg, w, b, header, changes);
            && w'.log == w.log
            && b'.pending == b.pending + Translate(cfg, changes)
            && Moved(w, w', 0, |Translate(cfg, changes)|)
            && b'.newRev == (if header > b.newRev then header else b.newRev)
            && b'.madeProgress
            && w'.stats.revision == (if header > b.newRev then header else w.stats.revision)
  {
    CountAllCounts(if header > b.newRev then w.(stats := w.stats.(revision := header)) else w, cfg, changes);
  }

  lemma SettleEffect(cfg: Config, w: World, b: Buffer)
    ensures var (w', b') := Settle(cfg, w, b);
            && Stream(w'.log) + b'.pending == Stream(w.log) + b.pending
            && Moved(w, w', |b.pending| - |b'.pending|, 0)
            && b'.newRev == b.newRev && b'.madeProgress == b.madeProgress
            && w'.stats.revision == w.stats.revision
  {
    FlushStreams(cfg, w, b.pending);
  }

  lemma {:induction false} FeedAllStreams(cfg: Config, w: World, b: Buffer, signals: seq<Signal>)
    ensures var (w', b') := FeedAll(cfg, w, b, signals);
            Stream(w'.log) + b'.pending == Stream(w.log) + b.pending + Translate(cfg, Received(signals))
  {
    if signals != [] {
      var front := signals[..|signals| - 1];
      var last := signals[|signals| - 1];
      FeedAllStreams(cfg, w, b, front);
      var (w1, b1) := FeedAll(cfg, w, b, front);
      FeedEffect(cfg, w1, b1, last);
      TranslateConcatenates(cfg, Received(front), if last.Response? then last.changes else []);
    }
  }

  /** Batching refines the plain stream. For every interleaving of responses, clock
      expiries and ticks, and every ending, the batches delivered by the time the
      session returns are, end to end, the filtered and translated events received. */
  lemma BatchingRefinesStream(cfg: Config, w: World, s: Session)
    ensures Stream(Consume(cfg, w, s).0.log) == Stream(w.log) + Translate(cfg, Received(s.signals))
  {
    FeedAllStreams(cfg, w, FRESH, s.signals);
    var (w1, b) := FeedAll(cfg, w, FRESH, s.signals);
    FlushStreams(cfg, w1, b.pending);
  }

  lemma {:induction false} TranslateIgnoresBatching(a: Config, b: Config, cs: seq<Change>)
    requires a.keyTransform == b.keyTransform
    requires a.filterSet == b.filterSet && a.wantPut == b.wantPut && a.wantDelete == b.wantDelete
    ensures Translate(a, cs) == Translate(b, cs)
  {
    if cs != [] { TranslateIgnoresBatching(a, b, cs[..|cs| - 1]); }
  }

  /** Debounce, cap, timer behaviour and panicking callbacks cannot change what is delivered, only its grouping. */
  lemma GroupingIsAllThatChanges(a: Config, b: Config, w: World, s: Session, s': Session)
    requires a.keyTransform == b.keyTransform
    requires a.filterSet == b.filterSet && a.wantPut == b.wantPut && a.wantDelete == b.wantDelete
    requires Received(s.signals) == Received(s'.signals)
    ensures Stream(Consume(a, w, s).0.log) == Stream(Consume(b, w, s').0.log)
  {
    BatchingRefinesStream(a, w, s);
    BatchingRefinesStream(b, w, s');
    TranslateIgnoresBatching(a, b, Received(s.signals));
  }

  // ----- the revision and progress a session reports

  lemma {:induction false} FeedAllResult(cfg: Config, w: World, b: Buffer, signals: seq<Signal>)
    requires b.newRev == 0
    ensures var (w', b') := FeedAll(cfg, w, b, signals);
            && b'.newRev == MaxHeader(signals)
            && (b'.madeProgress <==> b.madeProgress || Responded(signals))
            && w'.stats.revision == (if MaxHeader(signals) > 0 then MaxHeader(signals) else w.stats.revision)
  {
    if signals != [] {
      var front := signals[..|signals| - 1];
      var last := signals[|signals| - 1];
      FeedAllResult(cfg, w, b, front);
      var (w1, b1) := FeedAll(cfg, w, b, front);
      FeedEffect(cfg, w1, b1, last);
      if Responded(front) {
        var i :| 0 <= i < |front| && front[i].Response?;
        assert signals[i].Response?;
      }
      if i :| 0 <= i < |signals| && signals[i].Response? && i < |front| { assert front[i].Response?; }
    }
  }

  /** The session's result is the highest header seen, and progress means a response arrived. */
  lemma SessionResultIs(cfg: Config, w: World, s: Session)
    ensures var (w', r) := Consume(cfg, w, s);
            && r.newRev == MaxHeader(s.signals)
            && (r.madeProgress <==> Responded(s.signals))
            && (r.drained <==> s.ending.Cancelled?)
            && (r.fatalErr == if s.ending.Failed? then Some(s.ending.failure) else None)
            && w'.stats.revision == (if MaxHeader(s.signals) > 0 then MaxHeader(s.signals) else w.stats.revision)
  {
    FeedAllResult(cfg, w, FRESH, s.signals);
    var (w1, b) := FeedAll(cfg, w, FRESH, s.signals);
    FlushStreams(cfg, w1, b.pending);
  }

  // ----- nothing stranded, nothing unbounded

  /** At every select: buffered events have a tick coming, an armed channel has exactly
      one tick coming, a disarmed one has none, zero debounce buffers nothing, and a cap holds. */
  predicate BufferOk(cfg: Config, b: Buffer) {
    && (b.pending != [] ==> b.armed)
    && (b.armed ==> b.timer.Timer? && b.timer.running != b.timer.queued)
    && (!b.armed && b.timer.Timer? ==> !b.timer.running && !b.timer.queued)
    && (cfg.debounce <= 0 ==> b.pending == [] && !b.armed)
    && (cfg.maxPendingEvents > 0 ==> |b.pending| < cfg.maxPendingEvents)
  }

  lemma FeedKeepsBufferOk(cfg: Config, w: World, b: Buffer, s: Signal)
    requires BufferOk(cfg, b)
    ensures BufferOk(cfg, Feed(cfg, w, b, s).1)
  {
  }

  lemma {:induction false} NothingStranded(cfg: Config, w: World, signals: seq<Signal>)
    ensures BufferOk(cfg, FeedAll(cfg, w, FRESH, signals).1)
  {
    if signals != [] {
      NothingStranded(cfg, w, signals[..|signals| - 1]);
      var (w1, b1) := FeedAll(cfg, w, FRESH, signals[..|signals| - 1]);
      FeedKeepsBufferOk(cfg, w1, b1, signals[|signals| - 1]);
    }
  }

  /** The tick that buffered events wait for delivers all of them: expire, then tick. */
  lemma DebounceFires(cfg: Config, w: World, signals: seq<Signal>)
    ensures var (w1, b1) := FeedAll(cfg, w, FRESH, signals);
            var (w2, b2) := Feed(cfg, w1, b1, Expire);
            var (w3, b3) := Feed(cfg, w2, b2, Tick);
            && b3.pending == []
            && Stream(w3.log) == Stream(w1.log) + b1.pending
  {
    NothingStranded(cfg, w, signals);
    var (w1, b1) := FeedAll(cfg, w, FRESH, signals);
    var (w2, b2) := Feed(cfg, w1, b1, Expire);
    FeedEffect(cfg, w1, b1, Expire);
    FeedEffect(cfg, w2, b2, Tick);
  }

  // ----- event counters

  /** Delivered plus buffered equals translated plus resyncs. */
  predicate Balanced(s: Stats, buffered: nat) {
    s.totalEventsDelivered + buffered == s.totalPuts + s.totalDeletes + s.totalResyncs
  }

  lemma {:induction false} FeedAllBalances(cfg: Config, w: World, signals: seq<Signal>)
    requires Balanced(w.stats, 0)
    ensures var (w', b') := FeedAll(cfg, w, FRESH, signals);
            Balanced(w'.stats, |b'.pending|) && w'.stats.totalReconnects == w.stats.totalReconnects
  {
    if signals != [] {
      FeedAllBalances(cfg, w, signals[..|signals| - 1]);
      var (w1, b1) := FeedAll(cfg, w, FRESH, signals[..|signals| - 1]);
      FeedEffect(cfg, w1, b1, signals[|signals| - 1]);
    }
  }

  lemma SessionBalances(cfg: Config, w: World, s: Session)
    requires Balanced(w.stats, 0)
    ensures Balanced(Consume(cfg, w, s).0.stats, 0)
    ensures Consume(cfg, w, s).0.stats.totalReconnects == w.stats.totalReconnects
  {
    FeedAllBalances(cfg, w, s.signals);
    var (w1, b) := FeedAll(cfg, w, FRESH, s.signals);
    FlushStreams(cfg, w1, b.pending);
  }
}
