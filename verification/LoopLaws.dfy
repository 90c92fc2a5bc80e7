/** What every turn of the retry loop keeps, whatever the environment does:
    retry accounting, event counters, and pinned watch revisions. */
module LoopLaws {
  import opened Options
  import opened WatchModel
  import opened SessionLaws

  // ----- what the pieces of a turn put out

  /** Deliveries, and the report of a callback that panicked. */
  predicate Quiet(o: Output) {
    o.Delivered? || (o.WatchError? && o.errorClass == PanicClass && !o.report.failure.Compacted?)
  }

  predicate AllQuiet(log: seq<Output>) {
    forall i :: 0 <= i < |log| ==> Quiet(log[i])
  }

  lemma DeliverIsQuiet(cfg: Config, w: World, batch: seq<Event>) returns (ext: seq<Output>)
    ensures Deliver(cfg, w, batch).log == w.log + ext && AllQuiet(ext)
  {
    ext := if cfg.panics(|w.log|) then [Delivered(batch), WatchError(Report(Bare, CallbackPanic), PanicClass)]
           else [Delivered(batch)];
  }

  lemma FlushIsQuiet(cfg: Config, w: World, pending: seq<Event>) returns (ext: seq<Output>)
    ensures Flush(cfg, w, pending).log == w.log + ext && AllQuiet(ext)
  {
    if pending == [] {
      ext := [];
    } else {
      var counted := w.(stats := w.stats.(totalDebounceFlushes := w.stats.totalDebounceFlushes + 1));
      ext := DeliverIsQuiet(cfg, counted, pending);
    }
  }

  lemma FeedIsQuiet(cfg: Config, w: World, b: Buffer, s: Signal) returns (ext: seq<Output>)
    ensures Feed(cfg, w, b, s).0.log == w.log + ext && AllQuiet(ext)
  {
    match s {
      case Expire => ext := [];
      case Tick =>
        ext := FlushIsQuiet(cfg, w, b.pending);
        if Feed(cfg, w, b, s).0 == w { ext := []; }
      case Response(header, changes) =>
        AbsorbEffect(cfg, w, b, header, changes);
        var (w1, b1) := Absorb(cfg, w, b, header, changes);
        ext := FlushIsQuiet(cfg, w1, b1.pending);
        if Settle(cfg, w1, b1).0 == w1 { ext := []; }
    }
  }

  lemma {:induction false} FeedAllIsQuiet(cfg: Config, w: World, b: Buffer,
                                          signals: seq<Signal>) returns (ext: seq<Output>)
    ensures FeedAll(cfg, w, b, signals).0.log == w.log + ext && AllQuiet(ext)
  {
    if signals == [] {
      ext := [];
    } else {
      var front := FeedAllIsQuiet(cfg, w, b, signals[..|signals| - 1]);
      var (w1, b1) := FeedAll(cfg, w, b, signals[..|signals| - 1]);
      var last := FeedIsQuiet(cfg, w1, b1, signals[|signals| - 1]);
      ext := front + last;
    }
  }

  lemma ConsumeIsQuiet(cfg: Config, w: World, s: Session) returns (ext: seq<Output>)
    ensures Consume(cfg, w, s).0.log == w.log + ext && AllQuiet(ext)
  {
    var front := FeedAllIsQuiet(cfg, w, FRESH, s.signals);
    var (w1, b) := FeedAll(cfg, w, FRESH, s.signals);
    var last := FlushIsQuiet(cfg, w1, b.pending);
    ext := front + last;
  }

  // ----- sums over the log

  /** The attempts that OnReconnect has reported, added up. */
  function Reported(log: seq<Output>): int {
    if log == [] then 0
    else
      var last := log[|log| - 1];
      Reported(log[..|log| - 1]) + (if last.Reconnected? then last.attempts else 0)
  }

  /** Every report counts at least one failed attempt. */
  predicate ReportsPositive(log: seq<Output>) {
    forall i :: 0 <= i < |log| && log[i].Reconnected? ==> log[i].attempts >= 1
  }

  lemma ReportedEmit(w: World, o: Output)
    ensures Reported(Emit(w, o).log) == Reported(w.log) + (if o.Reconnected? then o.attempts else 0)
  {
    assert (w.log + [o])[..|w.log|] == w.log;
  }

  lemma {:induction false} ReportedQuiet(log: seq<Output>, ext: seq<Output>)
    requires AllQuiet(ext)
    ensures Reported(log + ext) == Reported(log)
    ensures ReportsPositive(log) ==> ReportsPositive(log + ext)
  {
    if ext == [] {
      assert log + ext == log;
    } else {
      var front := ext[..|ext| - 1];
      ReportedQuiet(log, front);
      assert (log + ext)[..|log + ext| - 1] == log + front;
    }
  }

  // ----- the bookkeeping of one turn

  /** The ledger of retries: what was reported and is still owed, against what was counted. */
  datatype Retries = Retries(reported: int, reconnects: int, balanced: bool, positive: bool)

  function RetriesOf(w: World): Retries {
    Retries(Reported(w.log), w.stats.totalReconnects, Balanced(w.stats, 0), ReportsPositive(w.log))
  }

  lemma StoreReadBooks(w: World, rev: nat)
    ensures RetriesOf(StoreRead(w, rev)) == RetriesOf(w)
  {
  }

  lemma DoResyncBooks(cfg: Config, w: World, r: Reread)
    requires Balanced(w.stats, 0) && ReportsPositive(w.log)
    ensures RetriesOf(DoResync(cfg, w, r).0) == RetriesOf(w)
  {
    match r {
      case Refused(f) =>
      case RefusedAfterStore(rev, f) =>
      case Loaded(_, rev) =>
        var read := w.(stats := w.stats.(revision := rev, totalReads := w.stats.totalReads + 1,
                                         totalResyncs := w.stats.totalResyncs + 1));
        var told := Emit(read, Resynced(rev));
        var e := [Event(EventResync, [], [], rev)];
        ReportedEmit(read, Resynced(rev));
        DeliverStreams(cfg, told, e);
        var ext := DeliverIsQuiet(cfg, told, e);
        ReportedQuiet(told.log, ext);
    }
  }

  lemma NoteBooks(w: World, o: Output)
    requires !o.Reconnected? && ReportsPositive(w.log)
    ensures RetriesOf(Emit(w, o)) == RetriesOf(w) == RetriesOf(Emit(CountError(w), o))
  {
    ReportedEmit(w, o);
    ReportedEmit(CountError(w), o);
  }

  lemma ResyncFailedBooks(cfg: Config, w: World, r: Reread)
    requires Balanced(w.stats, 0) && ReportsPositive(w.log)
    ensures var (w', outcome) := DoResync(cfg, w, r);
            && RetriesOf(w') == RetriesOf(w)
            && (outcome.ReadFailed? ==>
                  RetriesOf(w) ==
                    RetriesOf(Emit(CountError(w'), WatchError(Report(Resync, outcome.failure), Transient))))
  {
    DoResyncBooks(cfg, w, r);
    var (w', outcome) := DoResync(cfg, w, r);
    if outcome.ReadFailed? { NoteBooks(w', WatchError(Report(Resync, outcome.failure), Transient)); }
  }

  lemma CompactionBooks(cfg: Config, w: World, fatalErr: Option<Failure>, r: Reread)
    requires Balanced(w.stats, 0) && ReportsPositive(w.log)
    ensures RetriesOf(TryHandleCompaction(cfg, w, fatalErr, r).0) == RetriesOf(w)
    ensures TryHandleCompaction(cfg, w, fatalErr, r).1.Some? <==>
              fatalErr.Some? && fatalErr.value.Compacted? && r.Loaded?
  {
    if fatalErr.Some? {
      var told := WatchError(Report(Bare, fatalErr.value), ClassifyWatchError(fatalErr.value));
      NoteBooks(w, told);
      if fatalErr.value.Compacted? { ResyncFailedBooks(cfg, Emit(w, told), r); }
    }
  }

  lemma SessionBooks(cfg: Config, w: World, s: Session)
    requires Balanced(w.stats, 0) && ReportsPositive(w.log)
    ensures RetriesOf(Consume(cfg, w, s).0) == RetriesOf(w)
  {
    SessionBalances(cfg, w, s);
    var ext := ConsumeIsQuiet(cfg, w, s);
    ReportedQuiet(w.log, ext);
  }

  lemma RecoverBooks(s: State)
    requires Balanced(s.world.stats, 0) && ReportsPositive(s.world.log)
    ensures var s' := Recover(s);
            var before := RetriesOf(s.world);
            && RetriesOf(s'.world) == before.(reported := before.reported + s.loop.failedAttempts)
            && s'.loop == s.loop.(failedAttempts := 0, lastFailErr := s'.loop.lastFailErr)
            && s'.world.stats == s.world.stats
  {
    if s.loop.failedAttempts > 0 {
      ReportedEmit(s.world, Reconnected(s.loop.failedAttempts, s.loop.lastFailErr, s.world.stats.revision));
    }
  }

  predicate Compacts(t: Turn) {
    t.session.ending.Failed? && t.session.ending.failure.Compacted?
  }

  /** The session ends in compaction and the re-read that follows succeeds. */
  predicate Inline(t: Turn) {
    Compacts(t) && t.reread.Loaded?
  }

  /** A turn recovered from compaction without leaving the session's turn. */
  predicate InlineRecovery(s: State, t: Turn) {
    s.loop.running && !t.cancelledAtHead && !s.loop.pendingResync && Inline(t)
  }

  /** What holds at every loop head: the owed count is the attempt count, and a pending resync has
      failed at least once. */
  predicate HeadOk(l: Loop) {
    && l.failedAttempts == l.attempt
    && (l.running && l.pendingResync ==> l.attempt >= 1)
  }

  function Owed(s: State): int {
    Reported(s.world.log) + s.loop.failedAttempts - s.world.stats.totalReconnects
  }

  predicate BooksOk(s: State) {
    HeadOk(s.loop) && Balanced(s.world.stats, 0) && ReportsPositive(s.world.log)
  }

  lemma FailBooks(s: State, err: Option<Report>)
    requires BooksSettled(s)
    ensures BooksOk(Fail(s, err)) && Owed(Fail(s, err)) == Owed(s)
  {
  }

  lemma EmitBooks(s: State, o: Output)
    requires BooksOk(s) && !o.Reconnected?
    ensures BooksOk(s.(world := Emit(s.world, o))) && Owed(s.(world := Emit(s.world, o))) == Owed(s)
  {
    ReportedEmit(s.world, o);
  }

  lemma SleepBooks(s: State, wakes: bool)
    requires BooksOk(s)
    ensures BooksOk(SleepOrStop(s, wakes)) && Owed(SleepOrStop(s, wakes)) == Owed(s)
  {
    EmitBooks(s, Slept(s.loop.attempt));
  }

  lemma ResyncRefusedBooks(s: State, f: Failure, wakes: bool)
    requires BooksOk(s)
    ensures BooksOk(ResyncRefused(s, f, wakes)) && Owed(ResyncRefused(s, f, wakes)) == Owed(s)
  {
    var failed := Fail(s, Some(Report(PendingResync, f)));
    FailBooks(s, Some(Report(PendingResync, f)));
    var o := WatchError(Report(PendingResync, f), Transient);
    EmitBooks(failed, o);
    SleepBooks(failed.(world := Emit(failed.world, o)), wakes);
  }

  lemma RetryBooks(cfg: Config, s: State, t: Turn)
    requires BooksOk(s)
    ensures BooksOk(RetryResync(cfg, s, t)) && Owed(RetryResync(cfg, s, t)) == Owed(s)
  {
    DoResyncBooks(cfg, s.world, t.reread);
    var (w, outcome) := DoResync(cfg, s.world, t.reread);
    match outcome {
      case ReadAt(rev) =>
        StoreReadBooks(w, t.userReads.report);
        RecoverBooks(ResyncedAt(s, StoreRead(w, t.userReads.report), rev));
      case ReadFailed(f) =>
        ResyncRefusedBooks(s.(world := w), f, t.wakes);
    }
  }

  /** Between observing compaction and counting the failure, a pending resync may not have failed yet. */
  predicate BooksSettled(s: State) {
    s.loop.failedAttempts == s.loop.attempt && Balanced(s.world.stats, 0) && ReportsPositive(s.world.log)
  }

  lemma BackoffBooks(s: State, err: Option<Report>, wakes: bool)
    requires BooksSettled(s)
    ensures BooksOk(Backoff(s, err, wakes)) && Owed(Backoff(s, err, wakes)) == Owed(s)
  {
    FailBooks(s, err);
    SleepBooks(Fail(s, err), wakes);
  }

  lemma StopBooks(s: State)
    requires BooksSettled(s)
    ensures BooksOk(s.(loop := s.loop.(running := false))) && Owed(s.(loop := s.loop.(running := false))) == Owed(s)
  {
  }

  lemma FatalBooks(s: State, o: Output)
    requires BooksSettled(s) && !o.Reconnected?
    ensures var s' := State(Emit(CountError(s.world), o), s.loop.(running := false));
            BooksOk(s') && Owed(s') == Owed(s)
  {
    ReportedEmit(CountError(s.world), o);
  }

  lemma UnrecoveredBooks(s: State, r: SessionResult, t: Turn)
    requires BooksOk(s)
    ensures BooksOk(Unrecovered(s, r, t)) && Owed(Unrecovered(s, r, t)) == Owed(s)
  {
    var compacted := r.fatalErr.Some? && r.fatalErr.value.Compacted?;
    var s1 := if compacted then s.(loop := s.loop.(pendingResync := true)) else s;
    assert BooksSettled(s1) && Owed(s1) == Owed(s);
    if r.fatalErr.Some? && IsFatalRPCError(r.fatalErr.value) {
      FatalBooks(s1, WatchError(Report(Fatal, r.fatalErr.value), Auth));
    } else if r.drained || t.cancelledAfter {
      StopBooks(s1);
    } else {
      BackoffBooks(Resume(s1, r.newRev), AsReport(r.fatalErr), t.wakes);
    }
  }

  lemma InlineBooks(s: State, fatalErr: Option<Failure>, rev: nat)
    requires BooksOk(s) && !s.loop.pendingResync
    ensures BooksOk(RecoverInline(s, fatalErr, rev)) && Owed(RecoverInline(s, fatalErr, rev)) == Owed(s) + 1
  {
    ReportedEmit(s.world, Reconnected(s.loop.failedAttempts + 1, AsReport(fatalErr), s.world.stats.revision));
  }

  lemma AfterSessionBooks(cfg: Config, s: State, r: SessionResult, t: Turn)
    requires BooksOk(s) && !s.loop.pendingResync
    ensures var s' := AfterSession(cfg, s, r, t);
            var compacted := r.fatalErr.Some? && r.fatalErr.value.Compacted?;
            && BooksOk(s')
            && Owed(s') == Owed(s) + (if compacted && t.reread.Loaded? then 1 else 0)
  {
    var s1 := SettleProgress(s, r.madeProgress);
    if r.madeProgress { RecoverBooks(s.(loop := s.loop.(attempt := 0))); }
    CompactionBooks(cfg, s1.world, r.fatalErr, t.reread);
    var (w, resynced) := TryHandleCompaction(cfg, s1.world, r.fatalErr, t.reread);
    if resynced.Some? {
      StoreReadBooks(w, t.userReads.inline);
      InlineBooks(s1.(world := StoreRead(w, t.userReads.inline)), r.fatalErr, resynced.value);
    } else {
      UnrecoveredBooks(s1.(world := w), r, t);
    }
  }

  lemma ActBooks(cfg: Config, s: State, t: Turn)
    requires BooksOk(s) && s.loop.running
    ensures var s' := Act(cfg, s, t);
            && BooksOk(s')
            && Owed(s') == Owed(s) + (if InlineRecovery(s, t) then 1 else 0)
  {
    if !t.cancelledAtHead {
      if s.loop.pendingResync {
        RetryBooks(cfg, s, t);
      } else {
        var atOpen := Emit(s.world, Opened(s.loop.startRev));
        ReportedEmit(s.world, Opened(s.loop.startRev));
        SessionBooks(cfg, atOpen, t.session);
        SessionResultIs(cfg, atOpen, t.session);
        var (w, r) := Consume(cfg, atOpen, t.session);
        StoreReadBooks(w, t.userReads.report);
        AfterSessionBooks(cfg, s.(world := StoreRead(w, t.userReads.report)), r, t);
      }
    }
  }

  lemma IterateBooks(cfg: Config, s: State, t: Turn)
    requires BooksOk(s)
    ensures var s' := Iterate(cfg, s, t);
            && BooksOk(s')
            && Owed(s') == Owed(s) + (if InlineRecovery(s, t) then 1 else 0)
  {
    if s.loop.running {
      StoreReadBooks(s.world, t.userReads.head);
      ActBooks(cfg, s.(world := StoreRead(s.world, t.userReads.head)), t);
    }
  }

  /** Inline compaction recoveries over a run. */
  function InlineRecoveries(cfg: Config, s: State, turns: seq<Turn>): nat {
    if turns == [] then 0
    else
      var front := turns[..|turns| - 1];
      InlineRecoveries(cfg, s, front) + (if InlineRecovery(Run(cfg, s, front), turns[|turns| - 1]) then 1 else 0)
  }

  /** Retry accounting is conserved over every run, under every environment: the attempts
      reported plus those still owed are the reconnects recorded plus the inline recoveries;
      every report is positive; and events delivered are events translated plus resyncs. */
  lemma {:induction false} AccountingConserved(cfg: Config, w: World, turns: seq<Turn>)
    requires Balanced(w.stats, 0) && ReportsPositive(w.log)
    ensures var s := Begin(cfg, w);
            var s' := Run(cfg, s, turns);
            && HeadOk(s'.loop)
            && ReportsPositive(s'.world.log)
            && Balanced(s'.world.stats, 0)
            && (Reported(s'.world.log) - Reported(w.log)) + s'.loop.failedAttempts
               == (s'.world.stats.totalReconnects - w.stats.totalReconnects) + InlineRecoveries(cfg, s, turns)
  {
    if turns != [] {
      var front := turns[..|turns| - 1];
      AccountingConserved(cfg, w, front);
      IterateBooks(cfg, Run(cfg, Begin(cfg, w), front), turns[|turns| - 1]);
    }
  }
}
