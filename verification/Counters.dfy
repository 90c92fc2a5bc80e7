/** What every run keeps between the counters and the log: each counter is the count of what the
    log shows, every callback panic is reported where it happened, and each resync is announced
    and then delivered. */
module Counters {
  import opened History
  import opened Options
  import opened WatchModel
  import opened SessionLaws
  import opened Batching

  function KindCount(es: seq<Event>, kind: EventType): nat {
    if es == [] then 0
    else KindCount(es[..|es| - 1], kind) + (if es[|es| - 1].kind == kind then 1 else 0)
  }

  lemma KindCountSnoc(es: seq<Event>, e: Event, kind: EventType)
    ensures KindCount(es + [e], kind) == KindCount(es, kind) + (if e.kind == kind then 1 else 0)
  {
    assert (es + [e])[..|es|] == es;
  }

  lemma {:induction false} KindCountAdds(a: seq<Event>, b: seq<Event>, kind: EventType)
    ensures KindCount(a + b, kind) == KindCount(a, kind) + KindCount(b, kind)
  {
    if b == [] {
      assert a + b == a;
    } else {
      KindCountAdds(a, b[..|b| - 1], kind);
      assert (a + b)[..|a + b| - 1] == a + b[..|b| - 1];
    }
  }

  /** The reports that are counted as watch errors: not compaction itself, and not a pending re-read
      that is refused again. */
  predicate CountsAsError(o: Output) {
    o.WatchError? && o.report.wrap != PendingResync && !(o.report.wrap == Bare && o.report.failure.Compacted?)
  }

  /** What a log shows: events delivered by kind and in all, batches, and reports that count as errors. */
  datatype Tally = Tally(puts: nat, deletes: nat, resyncs: nat, events: nat, batches: nat, errors: nat)

  function Add(t: Tally, o: Output): Tally {
    if o.Delivered? then
      Tally(t.puts + KindCount(o.batch, EventPut), t.deletes + KindCount(o.batch, EventDelete),
            t.resyncs + KindCount(o.batch, EventResync), t.events + |o.batch|, t.batches + 1, t.errors)
    else if CountsAsError(o) then Tally(t.puts, t.deletes, t.resyncs, t.events, t.batches, t.errors + 1)
    else t
  }

  function TallyOf(log: seq<Output>): Tally {
    if log == [] then Tally(0, 0, 0, 0, 0, 0) else Add(TallyOf(log[..|log| - 1]), log[|log| - 1])
  }

  lemma EmitTally(w: World, o: Output)
    ensures TallyOf(Emit(w, o).log) == Add(TallyOf(w.log), o)
  {
    assert (w.log + [o])[..|w.log|] == w.log;
  }

  /** The counters, less what the log and the held events show. */
  datatype Ledger = Ledger(
    puts: int,
    deletes: int,
    resyncs: int,
    delivered: int,
    errors: int,
    flushes: int,
    rereads: int
  )

  function Balance(s: Stats, t: Tally, held: seq<Event>): Ledger {
    Ledger(
      s.totalPuts - t.puts - KindCount(held, EventPut),
      s.totalDeletes - t.deletes - KindCount(held, EventDelete),
      s.totalResyncs - t.resyncs - KindCount(held, EventResync),
      s.totalEventsDelivered - t.events,
      s.totalWatchErrors - t.errors,
      s.totalDebounceFlushes + s.totalResyncs - t.batches,
      s.totalReads - s.totalResyncs
    )
  }

  function LedgerOf(w: World, held: seq<Event>): Ledger {
    Balance(w.stats, TallyOf(w.log), held)
  }

  // ----- the shape of the log

  const PANIC_REPORT := WatchError(Report(Bare, CallbackPanic), PanicClass)

  function ResyncBatch(rev: nat): seq<Event> {
    [Event(EventResync, [], [], rev)]
  }

  /** At index i: a delivery is followed by the report of its panic exactly if it panicked, and a
      report follows such a delivery; a resync is announced and then delivered, alone, and no other
      delivery holds a resync event. */
  predicate ShapedAt(cfg: Config, log: seq<Output>, i: nat)
    requires i < |log|
  {
    && (log[i].Delivered? ==> (cfg.panics(i) <==> i + 1 < |log| && log[i + 1] == PANIC_REPORT))
    && (log[i] == PANIC_REPORT ==> i > 0 && log[i - 1].Delivered?)
    && (log[i].Resynced? ==> i + 1 < |log| && log[i + 1] == Delivered(ResyncBatch(log[i].revision)))
    && (log[i].Delivered? && KindCount(log[i].batch, EventResync) > 0 ==> i > 0 && log[i - 1].Resynced?)
  }

  predicate Shaped(cfg: Config, log: seq<Output>) {
    forall i :: 0 <= i < |log| ==> ShapedAt(cfg, log, i)
  }

  /** From w to w' the ledger is kept, and so is the shape of the log. */
  predicate Keeps(cfg: Config, w: World, w': World) {
    && LedgerOf(w', []) == LedgerOf(w, [])
    && (Shaped(cfg, w.log) ==> Shaped(cfg, w'.log))
  }

  predicate Plain(o: Output) {
    !o.Delivered? && !o.Resynced? && o != PANIC_REPORT
  }

  lemma KeepsOn(cfg: Config, a: World, b: World, c: World)
    requires Keeps(cfg, a, b) && Keeps(cfg, b, c)
    ensures Keeps(cfg, a, c)
  {
  }

  lemma EmitShape(cfg: Config, log: seq<Output>, o: Output)
    requires Shaped(cfg, log) && Plain(o)
    ensures Shaped(cfg, log + [o])
  {
    forall i | 0 <= i < |log + [o]| ensures ShapedAt(cfg, log + [o], i) {
      if i < |log| { assert ShapedAt(cfg, log, i) && (log + [o])[i] == log[i]; }
    }
  }

  /** A report is counted exactly if it counts as an error. */
  lemma ReportKeeps(cfg: Config, w: World, o: Output)
    requires Plain(o)
    ensures Keeps(cfg, w, Emit(if CountsAsError(o) then CountError(w) else w, o))
  {
    EmitTally(if CountsAsError(o) then CountError(w) else w, o);
    if Shaped(cfg, w.log) { EmitShape(cfg, w.log, o); }
  }

  lemma StatsKeep(cfg: Config, w: World, w': World)
    requires w'.log == w.log
    requires w'.stats == w.stats.(revision := w'.stats.revision, totalReconnects := w'.stats.totalReconnects)
    ensures Keeps(cfg, w, w')
  {
  }

  // ----- deliveries

  lemma CalledLedger(w: World, batch: seq<Event>)
    ensures var called := Emit(w.(stats := w.stats.(totalEventsDelivered := w.stats.totalEventsDelivered + |batch|)),
                               Delivered(batch));
            LedgerOf(called, []) == LedgerOf(w, batch).(flushes := LedgerOf(w, batch).flushes - 1)
  {
    var counted := w.(stats := w.stats.(totalEventsDelivered := w.stats.totalEventsDelivered + |batch|));
    EmitTally(counted, Delivered(batch));
  }

  lemma PanicLedger(called: World)
    ensures LedgerOf(Emit(CountError(called), PANIC_REPORT), []) == LedgerOf(called, [])
  {
    EmitTally(CountError(called), PANIC_REPORT);
  }

  lemma DeliverLedger(cfg: Config, w: World, batch: seq<Event>)
    ensures LedgerOf(Deliver(cfg, w, batch), [])
         == LedgerOf(w, batch).(flushes := LedgerOf(w, batch).flushes - 1)
  {
    var counted := w.(stats := w.stats.(totalEventsDelivered := w.stats.totalEventsDelivered + |batch|));
    var called := Emit(counted, Delivered(batch));
    CalledLedger(w, batch);
    PanicLedger(called);
  }

  lemma DeliverShape(cfg: Config, w: World, batch: seq<Event>)
    requires Shaped(cfg, w.log) && KindCount(batch, EventResync) == 0
    ensures Shaped(cfg, Deliver(cfg, w, batch).log)
  {
    var log := Deliver(cfg, w, batch).log;
    forall i | 0 <= i < |log| ensures ShapedAt(cfg, log, i) {
      if i < |w.log| { assert ShapedAt(cfg, w.log, i) && log[i] == w.log[i]; }
    }
  }

  /** Announcing a resync and delivering it. */
  lemma ResyncShape(cfg: Config, w: World, w': World, rev: nat)
    requires Shaped(cfg, w.log) && w'.log == w.log + [Resynced(rev)]
    ensures Shaped(cfg, Deliver(cfg, w', ResyncBatch(rev)).log)
  {
    var log := Deliver(cfg, w', ResyncBatch(rev)).log;
    forall i | 0 <= i < |log| ensures ShapedAt(cfg, log, i) {
      if i < |w.log| { assert ShapedAt(cfg, w.log, i) && log[i] == w.log[i]; }
    }
  }

  lemma DoResyncKeeps(cfg: Config, w: World, r: Reread)
    ensures Keeps(cfg, w, DoResync(cfg, w, r).0)
  {
    if r.Loaded? {
      var read := w.(stats := w.stats.(revision := r.rev, totalReads := w.stats.totalReads + 1,
                                       totalResyncs := w.stats.totalResyncs + 1));
      var told := Emit(read, Resynced(r.rev));
      EmitTally(read, Resynced(r.rev));
      DeliverLedger(cfg, told, ResyncBatch(r.rev));
      assert ResyncBatch(r.rev)[..0] == [];
      if Shaped(cfg, w.log) { ResyncShape(cfg, w, told, r.rev); }
    }
  }

  // ----- a session

  lemma {:induction false} TranslatedCounts(w: World, cfg: Config, cs: seq<Change>)
    ensures var w' := CountAll(w, cfg, cs);
            && w'.log == w.log
            && w'.stats == w.stats.(totalPuts := w.stats.totalPuts + KindCount(Translate(cfg, cs), EventPut),
                                    totalDeletes := w.stats.totalDeletes + KindCount(Translate(cfg, cs), EventDelete))
    ensures KindCount(Translate(cfg, cs), EventResync) == 0
  {
    if cs != [] {
      var front, last := cs[..|cs| - 1], cs[|cs| - 1];
      TranslatedCounts(w, cfg, front);
      var es := Translate(cfg, front);
      if Wanted(cfg, last.op) {
        KindCountSnoc(es, ToEvent(cfg, last), EventPut);
        KindCountSnoc(es, ToEvent(cfg, last), EventDelete);
        KindCountSnoc(es, ToEvent(cfg, last), EventResync);
      } else {
        assert es + [] == es;
      }
    }
  }

  /** From (w, held) to (w', held') the ledger is kept, nothing held is a resync, and the shape is kept. */
  predicate Holds(cfg: Config, w: World, held: seq<Event>, w': World, held': seq<Event>) {
    && LedgerOf(w', held') == LedgerOf(w, held)
    && KindCount(held', EventResync) == 0
    && (Shaped(cfg, w.log) ==> Shaped(cfg, w'.log))
  }

  lemma FlushHolds(cfg: Config, w: World, pending: seq<Event>)
    requires KindCount(pending, EventResync) == 0
    ensures Holds(cfg, w, pending, Flush(cfg, w, pending), [])
  {
    if pending != [] {
      var counted := w.(stats := w.stats.(totalDebounceFlushes := w.stats.totalDebounceFlushes + 1));
      DeliverLedger(cfg, counted, pending);
      if Shaped(cfg, w.log) { DeliverShape(cfg, counted, pending); }
    }
  }

  lemma AbsorbHolds(cfg: Config, w: World, b: Buffer, header: nat, changes: seq<Change>)
    requires KindCount(b.pending, EventResync) == 0
    ensures var (w', b') := Absorb(cfg, w, b, header, changes);
            Holds(cfg, w, b.pending, w', b'.pending)
  {
    TranslatedCounts(if header > b.newRev then w.(stats := w.stats.(revision := header)) else w, cfg, changes);
    KindCountAdds(b.pending, Translate(cfg, changes), EventPut);
    KindCountAdds(b.pending, Translate(cfg, changes), EventDelete);
    KindCountAdds(b.pending, Translate(cfg, changes), EventResync);
  }

  lemma FeedHolds(cfg: Config, w: World, b: Buffer, s: Signal)
    requires KindCount(b.pending, EventResync) == 0
    ensures var (w', b') := Feed(cfg, w, b, s);
            Holds(cfg, w, b.pending, w', b'.pending)
  {
    match s {
      case Expire =>
      case Tick => FlushHolds(cfg, w, b.pending);
      case Response(header, changes) =>
        AbsorbHolds(cfg, w, b, header, changes);
        var (w1, b1) := Absorb(cfg, w, b, header, changes);
        FlushHolds(cfg, w1, b1.pending);
    }
  }

  lemma {:induction false} FeedAllHolds(cfg: Config, w: World, signals: seq<Signal>)
    ensures var (w', b') := FeedAll(cfg, w, FRESH, signals);
            Holds(cfg, w, [], w', b'.pending)
  {
    if signals != [] {
      FeedAllHolds(cfg, w, signals[..|signals| - 1]);
      var (w1, b1) := FeedAll(cfg, w, FRESH, signals[..|signals| - 1]);
      FeedHolds(cfg, w1, b1, signals[|signals| - 1]);
    }
  }

  lemma SessionKeeps(cfg: Config, w: World, s: Session)
    ensures Keeps(cfg, w, Consume(cfg, w, s).0)
  {
    FeedAllHolds(cfg, w, s.signals);
    var (w1, b) := FeedAll(cfg, w, FRESH, s.signals);
    FlushHolds(cfg, w1, b.pending);
  }

  // ----- the loop

  lemma CompactionKeeps(cfg: Config, w: World, f: Failure, r: Reread)
    ensures Keeps(cfg, w, TryHandleCompaction(cfg, w, Some(f), r).0)
  {
    var told := WatchError(Report(Bare, f), ClassifyWatchError(f));
    ReportKeeps(cfg, w, told);
    var w2 := Emit(if f.Compacted? then w else CountError(w), told);
    if f.Compacted? {
      DoResyncKeeps(cfg, w2, r);
      var (w3, outcome) := DoResync(cfg, w2, r);
      if outcome.ReadFailed? { ReportKeeps(cfg, w3, WatchError(Report(Resync, outcome.failure), Transient)); }
    }
  }

  lemma RecoverKeeps(cfg: Config, s: State)
    ensures Keeps(cfg, s.world, Recover(s).world)
  {
    if s.loop.failedAttempts > 0 {
      ReportKeeps(cfg, s.world, Reconnected(s.loop.failedAttempts, s.loop.lastFailErr, s.world.stats.revision));
    }
  }

  lemma SleepKeeps(cfg: Config, w: World, s: State, wakes: bool)
    requires Keeps(cfg, w, s.world)
    ensures Keeps(cfg, w, SleepOrStop(s, wakes).world)
  {
    if wakes { ReportedKeeps(cfg, w, s.world, Slept(s.loop.attempt)); }
  }

  lemma BackoffKeeps(cfg: Config, s: State, err: Option<Report>, wakes: bool)
    ensures Keeps(cfg, s.world, Backoff(s, err, wakes).world)
  {
    StatsKeep(cfg, s.world, Fail(s, err).world);
    SleepKeeps(cfg, s.world, Fail(s, err), wakes);
  }

  lemma ReportedKeeps(cfg: Config, w: World, mid: World, o: Output)
    requires Keeps(cfg, w, mid) && Plain(o) && !CountsAsError(o)
    ensures Keeps(cfg, w, Emit(mid, o))
  {
    ReportKeeps(cfg, mid, o);
  }

  lemma ResyncRefusedKeeps(cfg: Config, s: State, f: Failure, wakes: bool)
    ensures Keeps(cfg, s.world, ResyncRefused(s, f, wakes).world)
  {
    var failed := Fail(s, Some(Report(PendingResync, f)));
    var o := WatchError(Report(PendingResync, f), Transient);
    StatsKeep(cfg, s.world, failed.world);
    ReportedKeeps(cfg, s.world, failed.world, o);
    SleepKeeps(cfg, s.world, failed.(world := Emit(failed.world, o)), wakes);
  }

  lemma RetryKeeps(cfg: Config, s: State, t: Turn)
    ensures Keeps(cfg, s.world, RetryResync(cfg, s, t).world)
  {
    DoResyncKeeps(cfg, s.world, t.reread);
    var (w, outcome) := DoResync(cfg, s.world, t.reread);
    match outcome {
      case ReadAt(rev) =>
        StatsKeep(cfg, w, StoreRead(w, t.userReads.report));
        RecoverKeeps(cfg, ResyncedAt(s, StoreRead(w, t.userReads.report), rev));
      case ReadFailed(f) =>
        ResyncRefusedKeeps(cfg, s.(world := w), f, t.wakes);
    }
  }

  lemma UnrecoveredKeeps(cfg: Config, s: State, r: SessionResult, t: Turn)
    ensures Keeps(cfg, s.world, Unrecovered(s, r, t).world)
  {
    var compacted := r.fatalErr.Some? && r.fatalErr.value.Compacted?;
    var s1 := if compacted then s.(loop := s.loop.(pendingResync := true)) else s;
    if r.fatalErr.Some? && IsFatalRPCError(r.fatalErr.value) {
      ReportKeeps(cfg, s.world, WatchError(Report(Fatal, r.fatalErr.value), Auth));
    } else if !(r.drained || t.cancelledAfter) {
      BackoffKeeps(cfg, Resume(s1, r.newRev), AsReport(r.fatalErr), t.wakes);
    }
  }

  lemma InlineKeeps(cfg: Config, w: World, s: State, fatalErr: Option<Failure>, rev: nat)
    requires Keeps(cfg, w, s.world)
    ensures Keeps(cfg, w, RecoverInline(s, fatalErr, rev).world)
  {
    ReportedKeeps(cfg, w, s.world,
                  Reconnected(s.loop.failedAttempts + 1, AsReport(fatalErr), s.world.stats.revision));
  }

  lemma ReadKeeps(cfg: Config, w: World, mid: World, userRead: nat)
    requires Keeps(cfg, w, mid)
    ensures Keeps(cfg, w, StoreRead(mid, userRead))
  {
    StatsKeep(cfg, mid, StoreRead(mid, userRead));
  }

  /** Past the compaction handling, in world w. */
  lemma HandledKeeps(cfg: Config, s: State, w: World, rev: Option<nat>, r: SessionResult, t: Turn)
    requires Keeps(cfg, s.world, w)
    ensures rev.Some? ==> Keeps(cfg, s.world, RecoverInline(s.(world := StoreRead(w, t.userReads.inline)),
                                                            r.fatalErr, rev.value).world)
    ensures rev.None? ==> Keeps(cfg, s.world, Unrecovered(s.(world := w), r, t).world)
  {
    if rev.Some? {
      ReadKeeps(cfg, s.world, w, t.userReads.inline);
      InlineKeeps(cfg, s.world, s.(world := StoreRead(w, t.userReads.inline)), r.fatalErr, rev.value);
    } else {
      UnrecoveredKeeps(cfg, s.(world := w), r, t);
      KeepsOn(cfg, s.world, w, Unrecovered(s.(world := w), r, t).world);
    }
  }

  lemma ResolveKeeps(cfg: Config, s: State, r: SessionResult, t: Turn)
    ensures Keeps(cfg, s.world, Resolve(cfg, s, r, t).world)
  {
    if r.fatalErr.Some? { CompactionKeeps(cfg, s.world, r.fatalErr.value, t.reread); }
    var (w, resynced) := TryHandleCompaction(cfg, s.world, r.fatalErr, t.reread);
    HandledKeeps(cfg, s, w, resynced, r, t);
  }

  lemma ActKeeps(cfg: Config, s: State, t: Turn)
    ensures Keeps(cfg, s.world, Act(cfg, s, t).world)
  {
    if !t.cancelledAtHead {
      if s.loop.pendingResync {
        RetryKeeps(cfg, s, t);
      } else {
        var atOpen := Emit(s.world, Opened(s.loop.startRev));
        ReportKeeps(cfg, s.world, Opened(s.loop.startRev));
        SessionKeeps(cfg, atOpen, t.session);
        SessionResultIs(cfg, atOpen, t.session);
        var (w, r) := Consume(cfg, atOpen, t.session);
        var read := StoreRead(w, t.userReads.report);
        StatsKeep(cfg, w, read);
        if r.madeProgress { RecoverKeeps(cfg, State(read, s.loop.(attempt := 0))); }
        ResolveKeeps(cfg, SettleProgress(s.(world := read), r.madeProgress), r, t);
      }
    }
  }

  /** Every counter counts what the log shows, over every run and under every environment: puts,
      deletes and resyncs delivered by kind, all events delivered, the reports that count as
      errors, the batches that are not resyncs, and the re-reads that succeeded. And the log keeps its
      shape: a panicking callback is reported at once, and each resync is announced, then delivered. */
  lemma {:induction false} CountersCountTheLog(cfg: Config, w: World, turns: seq<Turn>)
    ensures Keeps(cfg, w, Run(cfg, Begin(cfg, w), turns).world)
  {
    if turns != [] {
      var front, t := turns[..|turns| - 1], turns[|turns| - 1];
      CountersCountTheLog(cfg, w, front);
      var mid := Run(cfg, Begin(cfg, w), front);
      if mid.loop.running {
        var read := StoreRead(mid.world, t.userReads.head);
        StatsKeep(cfg, mid.world, read);
        ActKeeps(cfg, mid.(world := read), t);
      }
    }
  }

  function ErrorCount(log: seq<Output>): nat {
    if log == [] then 0
    else ErrorCount(log[..|log| - 1]) + (if CountsAsError(log[|log| - 1]) then 1 else 0)
  }

  /** The tally counts the delivered stream, the batches and the error reports. */
  lemma {:induction false} TallyCounts(log: seq<Output>)
    ensures var es := Stream(log);
            TallyOf(log) == Tally(KindCount(es, EventPut), KindCount(es, EventDelete), KindCount(es, EventResync),
                                  |es|, |Batches(log)|, ErrorCount(log))
  {
    if log != [] {
      var front, last := log[..|log| - 1], log[|log| - 1];
      TallyCounts(front);
      KindCountAdds(Stream(front), BatchOf(last), EventPut);
      KindCountAdds(Stream(front), BatchOf(last), EventDelete);
      KindCountAdds(Stream(front), BatchOf(last), EventResync);
    }
  }

  /** A provider whose counters are at zero, with nothing in its log. */
  predicate Unused(w: World) {
    && w.stats == Stats(w.stats.revision, 0, 0, 0, 0, 0, 0, 0, 0)
    && w.log == []
  }

  predicate CountsTheLog(s: Stats, log: seq<Output>) {
    var es := Stream(log);
    && s.totalPuts == KindCount(es, EventPut)
    && s.totalDeletes == KindCount(es, EventDelete)
    && s.totalResyncs == s.totalReads == KindCount(es, EventResync)
    && s.totalEventsDelivered == |es|
    && s.totalWatchErrors == ErrorCount(log)
    && s.totalDebounceFlushes == |Batches(log)| - s.totalResyncs
  }

  lemma UnusedLedger(w: World)
    requires Unused(w)
    ensures LedgerOf(w, []) == Ledger(0, 0, 0, 0, 0, 0, 0)
  {
  }

  lemma BalancedCounts(w: World)
    requires LedgerOf(w, []) == Ledger(0, 0, 0, 0, 0, 0, 0)
    ensures CountsTheLog(w.stats, w.log)
  {
    TallyCounts(w.log);
    assert KindCount([], EventPut) == KindCount([], EventDelete) == KindCount([], EventResync) == 0;
  }

  lemma KeptCounts(cfg: Config, w: World, w': World)
    requires Unused(w) && Keeps(cfg, w, w')
    ensures CountsTheLog(w'.stats, w'.log) && Shaped(cfg, w'.log)
  {
    UnusedLedger(w);
    BalancedCounts(w');
  }

  /** For a provider that starts with its counters at zero. */
  lemma CountersFromZero(cfg: Config, w: World, turns: seq<Turn>)
    requires Unused(w)
    ensures var w' := Run(cfg, Begin(cfg, w), turns).world;
            CountsTheLog(w'.stats, w'.log) && Shaped(cfg, w'.log)
  {
    CountersCountTheLog(cfg, w, turns);
    KeptCounts(cfg, w, Run(cfg, Begin(cfg, w), turns).world);
  }
}
