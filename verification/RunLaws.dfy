/** Whole runs of the watch loop against an etcd history: the delivered stream is the
    history, cut into contiguous spans, with a resync wherever history was skipped. */
module RunLaws {
  import opened History
  import opened Options
  import opened WatchModel
  import opened SessionLaws
  import opened LoopLaws

  // ----- what etcd promises

  /** Position after a session that started at start: its highest header, if it saw any, is done. */
  function PositionAfter(start: nat, signals: seq<Signal>): nat {
    if MaxHeader(signals) > 0 then MaxHeader(signals) + 1 else start
  }

  /** Every response header is a frontier: it is not below the position the watch was
      opened at, and every wanted change up to it has been sent by then, once, in order. */
  predicate Frontier(cfg: Config, h: History, start: nat, signals: seq<Signal>) {
    if signals == [] then start <= |h|
    else
      var front := signals[..|signals| - 1];
      var last := signals[|signals| - 1];
      && Frontier(cfg, h, start, front)
      && (last.Response? ==>
            var before, after := PositionAfter(start, front), PositionAfter(start, signals);
            && start <= last.header + 1 <= |h|
            && before <= after <= |h|
            && Translate(cfg, last.changes) == Translate(cfg, Changes(h, cfg.scope, before, after)))
  }

  /** A position and a revision in the history that are at or past the position reached and every
      compaction observed. */
  predicate Onward(h: History, rev: nat, position: nat, floor: nat) {
    position <= rev + 1 <= |h| && floor <= rev
  }

  /** A re-read is not stale. The same holds of one that fails after storing its revision. */
  predicate NotStale(h: History, r: Reread, position: nat, floor: nat) {
    match r
    case Loaded(found, _) => Onward(h, found, position, floor)
    case Refused(_) => true
    case RefusedAfterStore(rev, _) => Onward(h, rev, position, floor)
  }

  /** What the loop loads back is not stale either: no older Read by the user has stored in between. */
  predicate LoadsOnward(h: History, r: Reread, position: nat, floor: nat) {
    r.Loaded? ==> Onward(h, r.rev, position, floor)
  }

  // ----- a monitor of the output

  /** Reads the output. `doomed`: compaction has been reported and no resync has completed since.
      `floor`: the highest compacted revision reported. `promised`: the revision of the last recovery
      report since a watch was opened. Of every watch opened so far it records whether each was
      opened while not doomed (`clean`), above the floor (`above`), and just after the promised
      revision (`exact`). */
  datatype Watcher = Watcher(doomed: bool, floor: nat, promised: Option<nat>, clean: bool, above: bool, exact: bool)

  function Max(a: nat, b: nat): nat {
    if a > b then a else b
  }

  function Watch1(m: Watcher, o: Output): Watcher {
    match o
    case Opened(r) =>
      m.(clean := m.clean && !m.doomed,
         above := m.above && r > m.floor,
         exact := m.exact && (m.promised.Some? ==> r == m.promised.value + 1),
         promised := None)
    case Reconnected(_, _, rev) => m.(promised := Some(rev))
    case Resynced(_) => m.(doomed := false)
    case WatchError(Report(Bare, Compacted(c)), Compaction) => m.(doomed := true, floor := Max(c, m.floor))
    case _ => m
  }

  function Watching(log: seq<Output>): Watcher {
    if log == [] then Watcher(false, 0, None, true, true, true) else Watch1(Watching(log[..|log| - 1]), log[|log| - 1])
  }

  lemma WatchingEmit(w: World, o: Output)
    ensures Watching(Emit(w, o).log) == Watch1(Watching(w.log), o)
  {
    assert (w.log + [o])[..|w.log|] == w.log;
  }

  lemma {:induction false} WatchingQuiet(log: seq<Output>, ext: seq<Output>)
    requires AllQuiet(ext)
    ensures Watching(log + ext) == Watching(log)
  {
    if ext == [] {
      assert log + ext == log;
    } else {
      WatchingQuiet(log, ext[..|ext| - 1]);
      assert (log + ext)[..|log + ext| - 1] == log + ext[..|ext| - 1];
    }
  }

  /** The position from which a turn re-reads, and the compaction seen by then. */
  function RereadFrom(l: Loop, t: Turn): nat {
    if l.pendingResync then l.startRev else PositionAfter(l.startRev, t.session.signals)
  }

  function RereadFloor(s: State, t: Turn): nat {
    var floor := Watching(s.world.log).floor;
    if !s.loop.pendingResync && Compacts(t) then Max(t.session.ending.failure.at, floor) else floor
  }

  predicate Rereads(s: State, t: Turn) {
    s.loop.running && !t.cancelledAtHead && (s.loop.pendingResync || Compacts(t))
  }

  /** A turn in which etcd keeps its promises. */
  predicate EtcdIsFair(cfg: Config, h: History, s: State, t: Turn) {
    && (s.loop.running && !t.cancelledAtHead && !s.loop.pendingResync ==>
          Frontier(cfg, h, s.loop.startRev, t.session.signals))
    && (Rereads(s, t) ==> NotStale(h, t.reread, RereadFrom(s.loop, t), RereadFloor(s, t)))
  }

  /** And in which no older Read by the user gets between a re-read's store and its load. */
  predicate FairTurn(cfg: Config, h: History, s: State, t: Turn) {
    && EtcdIsFair(cfg, h, s, t)
    && (Rereads(s, t) ==> LoadsOnward(h, t.reread, RereadFrom(s.loop, t), RereadFloor(s, t)))
  }

  /** The revisions that the user's Reads store during a turn. */
  function TurnReads(t: Turn): set<nat> {
    {t.userReads.head, t.userReads.report, t.userReads.inline} - {0}
  }

  function RunReads(turns: seq<Turn>): set<nat> {
    if turns == [] then {} else RunReads(turns[..|turns| - 1]) + TurnReads(turns[|turns| - 1])
  }

  predicate FairRun(cfg: Config, h: History, s: State, turns: seq<Turn>) {
    turns == [] ||
    var front := turns[..|turns| - 1];
    FairRun(cfg, h, s, front) && FairTurn(cfg, h, Run(cfg, s, front), turns[|turns| - 1])
  }

  // ----- spans of history

  /** Live(lo, hi): the changes of revisions lo..hi-1 were delivered. Jump(rev): a resync at rev. */
  datatype Span = Live(lo: nat, hi: nat) | Jump(rev: nat)

  function End(spans: seq<Span>, from: nat): nat {
    if spans == [] then from
    else match spans[|spans| - 1]
      case Live(_, hi) => hi
      case Jump(rev) => rev + 1
  }

  /** A span that may come next at position `at`: live from there, or a jump that does not go back. */
  predicate Follows(h: History, at: nat, s: Span) {
    match s
    case Live(lo, hi) => lo == at && lo <= hi <= |h|
    case Jump(rev) => at <= rev + 1 <= |h|
  }

  /** Each span starts where the one before it ended, and none goes back. */
  predicate Chained(h: History, spans: seq<Span>, from: nat) {
    if spans == [] then from <= |h|
    else
      var front := spans[..|spans| - 1];
      Chained(h, front, from) && Follows(h, End(front, from), spans[|spans| - 1])
  }

  function ResyncEvent(rev: nat): Event {
    Event(EventResync, [], [], rev)
  }

  function SpanEvents(cfg: Config, h: History, s: Span): seq<Event> {
    match s
    case Live(lo, hi) => if lo <= hi <= |h| then Translate(cfg, Changes(h, cfg.scope, lo, hi)) else []
    case Jump(rev) => [ResyncEvent(rev)]
  }

  function Expand(cfg: Config, h: History, spans: seq<Span>): seq<Event> {
    if spans == [] then [] else Expand(cfg, h, spans[..|spans| - 1]) + SpanEvents(cfg, h, spans[|spans| - 1])
  }

  /** The spans that one turn adds. */
  function TurnSpans(s: State, t: Turn): seq<Span> {
    if !s.loop.running || t.cancelledAtHead then []
    else if s.loop.pendingResync then
      if t.reread.Loaded? then [Jump(t.reread.rev)] else []
    else
      var live := Live(s.loop.startRev, PositionAfter(s.loop.startRev, t.session.signals));
      if Inline(t) then [live, Jump(t.reread.rev)] else [live]
  }

  function RunSpans(cfg: Config, s: State, turns: seq<Turn>): seq<Span> {
    if turns == [] then []
    else
      var front := turns[..|turns| - 1];
      RunSpans(cfg, s, front) + TurnSpans(Run(cfg, s, front), turns[|turns| - 1])
  }

  // ----- what the pieces of a turn do to the stream, the revision and the monitor

  lemma {:induction false} FrontierReceives(cfg: Config, h: History, start: nat, signals: seq<Signal>)
    requires start >= 1 && Frontier(cfg, h, start, signals)
    ensures start <= PositionAfter(start, signals) <= |h|
    ensures Translate(cfg, Received(signals))
         == Translate(cfg, Changes(h, cfg.scope, start, PositionAfter(start, signals)))
  {
    if signals != [] {
      var front := signals[..|signals| - 1];
      var last := signals[|signals| - 1];
      FrontierReceives(cfg, h, start, front);
      var mid, end := PositionAfter(start, front), PositionAfter(start, signals);
      var extra := if last.Response? then last.changes else [];
      TranslateConcatenates(cfg, Received(front), extra);
      ChangesConcatenate(h, cfg.scope, start, mid, end);
      TranslateConcatenates(cfg, Changes(h, cfg.scope, start, mid), Changes(h, cfg.scope, mid, end));
    }
  }

  /** What a world shows of a run. */
  datatype Sight = Sight(stream: seq<Event>, revision: nat, watcher: Watcher)

  function SightOf(w: World): Sight {
    Sight(Stream(w.log), w.stats.revision, Watching(w.log))
  }

  lemma EmitSeen(w: World, o: Output)
    requires !o.Delivered?
    ensures SightOf(Emit(w, o)) == SightOf(w).(watcher := Watch1(Watching(w.log), o))
  {
    StreamEmit(w, o);
    WatchingEmit(w, o);
  }

  lemma DoResyncSeen(cfg: Config, w: World, r: Reread)
    ensures var see := SightOf(w);
            SightOf(DoResync(cfg, w, r).0) ==
              match r
              case Refused(_) => see
              case RefusedAfterStore(rev, _) => see.(revision := rev)
              case Loaded(_, rev) => Sight(see.stream + [ResyncEvent(rev)], rev, see.watcher.(doomed := false))
  {
    if r.Loaded? {
      var read := w.(stats := w.stats.(revision := r.rev, totalReads := w.stats.totalReads + 1,
                                       totalResyncs := w.stats.totalResyncs + 1));
      var told := Emit(read, Resynced(r.rev));
      EmitSeen(read, Resynced(r.rev));
      DeliverStreams(cfg, told, [ResyncEvent(r.rev)]);
      var ext := DeliverIsQuiet(cfg, told, [ResyncEvent(r.rev)]);
      WatchingQuiet(told.log, ext);
    }
  }

  lemma SessionSeen(cfg: Config, w: World, s: Session)
    ensures var w' := Consume(cfg, w, s).0;
            SightOf(w') == Sight(Stream(w.log) + Translate(cfg, Received(s.signals)),
                                 if MaxHeader(s.signals) > 0 then MaxHeader(s.signals) else w.stats.revision,
                                 Watching(w.log))
  {
    BatchingRefinesStream(cfg, w, s);
    SessionResultIs(cfg, w, s);
    var ext := ConsumeIsQuiet(cfg, w, s);
    WatchingQuiet(w.log, ext);
  }

  lemma CompactionSeen(cfg: Config, w: World, fatalErr: Option<Failure>, r: Reread)
    ensures var (w', resynced) := TryHandleCompaction(cfg, w, fatalErr, r);
            if fatalErr.Some? && fatalErr.value.Compacted? then
              var c := fatalErr.value.at;
              var told := Emit(w, WatchError(Report(Bare, fatalErr.value), Compaction));
              var m := Watching(w.log);
              && SightOf(w') == SightOf(DoResync(cfg, told, r).0)
              && SightOf(told) == SightOf(w).(watcher := m.(doomed := true, floor := Max(c, m.floor)))
              && resynced == (if r.Loaded? then Some(r.rev) else None)
            else
              SightOf(w') == SightOf(w) && resynced == None
  {
    if fatalErr.Some? {
      var f := fatalErr.value;
      var w1 := if f.Compacted? then w else CountError(w);
      EmitSeen(w1, WatchError(Report(Bare, f), ClassifyWatchError(f)));
      if f.Compacted? {
        var (w3, outcome) := DoResync(cfg, Emit(w1, WatchError(Report(Bare, f), Compaction)), r);
        if outcome.ReadFailed? {
          EmitSeen(CountError(w3), WatchError(Report(Resync, outcome.failure), Transient));
        }
      }
    }
  }

  lemma RecoverSeen(s: State)
    ensures var m := Watching(s.world.log);
            SightOf(Recover(s).world) == SightOf(s.world).(watcher :=
              if s.loop.failedAttempts > 0 then m.(promised := Some(s.world.stats.revision)) else m)
    ensures Recover(s).loop.startRev == s.loop.startRev && Recover(s).loop.pendingResync == s.loop.pendingResync
    ensures Recover(s).loop.running == s.loop.running
  {
    if s.loop.failedAttempts > 0 {
      EmitSeen(s.world, Reconnected(s.loop.failedAttempts, s.loop.lastFailErr, s.world.stats.revision));
    }
  }

  /** The loop has counted a failure and kept its place. */
  predicate FailedInPlace(s: State, s': State) {
    && s'.loop.startRev == s.loop.startRev
    && s'.loop.pendingResync == s.loop.pendingResync
    && s'.loop.failedAttempts >= 1
  }

  lemma SleepSeen(s: State, wakes: bool)
    ensures var s' := SleepOrStop(s, wakes);
            && SightOf(s'.world) == SightOf(s.world)
            && s'.loop == s.loop.(running := s.loop.running && wakes)
  {
    if wakes { EmitSeen(s.world, Slept(s.loop.attempt)); }
  }

  lemma BackoffSeen(s: State, err: Option<Report>, wakes: bool)
    ensures SightOf(Backoff(s, err, wakes).world) == SightOf(s.world)
    ensures FailedInPlace(s, Backoff(s, err, wakes))
  {
    SleepSeen(Fail(s, err), wakes);
  }

  lemma ResyncRefusedSeen(s: State, f: Failure, wakes: bool)
    ensures SightOf(ResyncRefused(s, f, wakes).world) == SightOf(s.world)
    ensures FailedInPlace(s, ResyncRefused(s, f, wakes))
  {
    var failed := Fail(s, Some(Report(PendingResync, f)));
    var o := WatchError(Report(PendingResync, f), Transient);
    EmitSeen(failed.world, o);
    SleepSeen(failed.(world := Emit(failed.world, o)), wakes);
  }

  lemma InlineSeen(s: State, fatalErr: Option<Failure>, rev: nat)
    requires !s.loop.pendingResync
    ensures var s' := RecoverInline(s, fatalErr, rev);
            var m := Watching(s.world.log);
            && SightOf(s'.world) == SightOf(s.world).(watcher := m.(promised := Some(s.world.stats.revision)))
            && s'.loop.startRev == rev + 1 && !s'.loop.pendingResync
  {
    EmitSeen(s.world, Reconnected(s.loop.failedAttempts + 1, AsReport(fatalErr), s.world.stats.revision));
  }

  lemma UnrecoveredSeen(s: State, r: SessionResult, t: Turn)
    requires !s.loop.pendingResync
    ensures var s' := Unrecovered(s, r, t);
            && SightOf(s'.world) == SightOf(s.world)
            && s'.loop.pendingResync == (r.fatalErr.Some? && r.fatalErr.value.Compacted?)
            && (s'.loop.running ==> s'.loop.failedAttempts >= 1)
            && (s'.loop.running ==> s'.loop.startRev == if r.newRev > 0 then r.newRev + 1 else s.loop.startRev)
  {
    var compacted := r.fatalErr.Some? && r.fatalErr.value.Compacted?;
    var s1 := if compacted then s.(loop := s.loop.(pendingResync := true)) else s;
    if r.fatalErr.Some? && IsFatalRPCError(r.fatalErr.value) {
      EmitSeen(CountError(s1.world), WatchError(Report(Fatal, r.fatalErr.value), Auth));
    } else if !(r.drained || t.cancelledAfter) {
      BackoffSeen(Resume(s1, r.newRev), AsReport(r.fatalErr), t.wakes);
    }
  }

  lemma StoreReadSeen(w: World, rev: nat)
    ensures SightOf(StoreRead(w, rev)) == SightOf(w).(revision := Over(rev, w.stats.revision))
  {
  }

  // ----- one turn, whatever the environment does

  function PendingSight(see: Sight, failedAttempts: nat, r: Reread, report: nat): Sight {
    match r
    case Refused(_) => see
    case RefusedAfterStore(rev, _) => see.(revision := rev)
    case Loaded(_, rev) =>
      var shown := Over(report, rev);
      Sight(see.stream + [ResyncEvent(rev)], shown,
            see.watcher.(doomed := false, promised := if failedAttempts > 0 then Some(shown) else see.watcher.promised))
  }

  /** After the session and its recovery report. */
  function SessionSight(cfg: Config, see: Sight, l: Loop, t: Turn): Sight {
    var open := Watch1(see.watcher, Opened(l.startRev));
    var header := MaxHeader(t.session.signals);
    var shown := Over(t.userReads.report, if header > 0 then header else see.revision);
    Sight(see.stream + Translate(cfg, Received(t.session.signals)), shown,
          if Responded(t.session.signals) && l.failedAttempts > 0 then open.(promised := Some(shown)) else open)
  }

  /** After compaction at c and the re-read that follows it. */
  function CompactionSight(see: Sight, c: nat, r: Reread, inline: nat): Sight {
    var m := see.watcher.(doomed := true, floor := Max(c, see.watcher.floor));
    match r
    case Refused(_) => see.(watcher := m)
    case RefusedAfterStore(rev, _) => see.(revision := rev, watcher := m)
    case Loaded(_, rev) =>
      var shown := Over(inline, rev);
      Sight(see.stream + [ResyncEvent(rev)], shown, m.(doomed := false, promised := Some(shown)))
  }

  function SightAfter(cfg: Config, see: Sight, l: Loop, t: Turn): Sight {
    if t.cancelledAtHead then see
    else if l.pendingResync then PendingSight(see, l.failedAttempts, t.reread, t.userReads.report)
    else
      var one := SessionSight(cfg, see, l, t);
      if Compacts(t) then CompactionSight(one, t.session.ending.failure.at, t.reread, t.userReads.inline) else one
  }

  /** What a turn does to the position, the pending flag and the failure count. */
  predicate LoopAfter(l: Loop, l': Loop, t: Turn) {
    if t.cancelledAtHead then l' == l.(running := false)
    else if l.pendingResync then
      && l'.pendingResync == !t.reread.Loaded?
      && l'.startRev == (if t.reread.Loaded? then t.reread.rev + 1 else l.startRev)
      && (!t.reread.Loaded? ==> l'.failedAttempts >= 1)
    else
      && l'.pendingResync == (Compacts(t) && !t.reread.Loaded?)
      && (l'.running && !Inline(t) ==>
            l'.failedAttempts >= 1 && l'.startRev == PositionAfter(l.startRev, t.session.signals))
      && (Inline(t) ==> l'.startRev == t.reread.rev + 1)
  }

  lemma PendingActSeen(cfg: Config, s: State, t: Turn)
    requires s.loop.pendingResync
    ensures SightOf(RetryResync(cfg, s, t).world)
         == PendingSight(SightOf(s.world), s.loop.failedAttempts, t.reread, t.userReads.report)
    ensures !t.cancelledAtHead ==> LoopAfter(s.loop, RetryResync(cfg, s, t).loop, t)
  {
    DoResyncSeen(cfg, s.world, t.reread);
    var (w, outcome) := DoResync(cfg, s.world, t.reread);
    match outcome {
      case ReadAt(rev) =>
        StoreReadSeen(w, t.userReads.report);
        RecoverSeen(ResyncedAt(s, StoreRead(w, t.userReads.report), rev));
      case ReadFailed(f) =>
        ResyncRefusedSeen(s.(world := w), f, t.wakes);
    }
  }

  /** Only the retry counts differ. */
  predicate SamePlace(l: Loop, l': Loop) {
    l' == l.(attempt := l'.attempt, failedAttempts := l'.failedAttempts, lastFailErr := l'.lastFailErr)
  }

  lemma SettleSeen(cfg: Config, s: State, t: Turn)
    requires !s.loop.pendingResync
    ensures var atOpen := Emit(s.world, Opened(s.loop.startRev));
            var (w, r) := Consume(cfg, atOpen, t.session);
            var s1 := SettleProgress(s.(world := StoreRead(w, t.userReads.report)), r.madeProgress);
            && SightOf(s1.world) == SessionSight(cfg, SightOf(s.world), s.loop, t)
            && SamePlace(s.loop, s1.loop)
  {
    var atOpen := Emit(s.world, Opened(s.loop.startRev));
    EmitSeen(s.world, Opened(s.loop.startRev));
    SessionSeen(cfg, atOpen, t.session);
    SessionResultIs(cfg, atOpen, t.session);
    var (w, r) := Consume(cfg, atOpen, t.session);
    StoreReadSeen(w, t.userReads.report);
    var s0 := s.(world := StoreRead(w, t.userReads.report));
    if r.madeProgress { RecoverSeen(s0.(loop := s0.loop.(attempt := 0))); }
  }

  lemma AfterSettleSeen(cfg: Config, s: State, r: SessionResult, t: Turn, l: Loop, see: Sight)
    requires !s.loop.pendingResync && see == SightOf(s.world)
    requires SamePlace(l, s.loop)
    requires r.newRev == MaxHeader(t.session.signals)
    requires r.fatalErr == if t.session.ending.Failed? then Some(t.session.ending.failure) else None
    requires !t.cancelledAtHead
    ensures LoopAfter(l, Resolve(cfg, s, r, t).loop, t)
    ensures SightOf(Resolve(cfg, s, r, t).world) ==
              if Compacts(t) then CompactionSight(see, t.session.ending.failure.at, t.reread, t.userReads.inline)
              else see
  {
    CompactionSeen(cfg, s.world, r.fatalErr, t.reread);
    var (w, resynced) := TryHandleCompaction(cfg, s.world, r.fatalErr, t.reread);
    if Compacts(t) {
      DoResyncSeen(cfg, Emit(s.world, WatchError(Report(Bare, r.fatalErr.value), Compaction)), t.reread);
    }
    if resynced.Some? {
      StoreReadSeen(w, t.userReads.inline);
      InlineSeen(s.(world := StoreRead(w, t.userReads.inline)), r.fatalErr, resynced.value);
    } else {
      UnrecoveredSeen(s.(world := w), r, t);
    }
  }

  /** What one turn shows, under every environment: the events delivered, the revision stored and the monitor. */
  lemma ActSeen(cfg: Config, s: State, t: Turn)
    ensures SightOf(Act(cfg, s, t).world) == SightAfter(cfg, SightOf(s.world), s.loop, t)
    ensures LoopAfter(s.loop, Act(cfg, s, t).loop, t)
  {
    if !t.cancelledAtHead {
      if s.loop.pendingResync {
        PendingActSeen(cfg, s, t);
      } else {
        var atOpen := Emit(s.world, Opened(s.loop.startRev));
        var (w, r) := Consume(cfg, atOpen, t.session);
        SettleSeen(cfg, s, t);
        SessionResultIs(cfg, atOpen, t.session);
        var s1 := SettleProgress(s.(world := StoreRead(w, t.userReads.report)), r.madeProgress);
        AfterSettleSeen(cfg, s1, r, t, s.loop, SightOf(s1.world));
      }
    }
  }

  lemma IterateSeen(cfg: Config, s: State, t: Turn)
    requires s.loop.running
    ensures var see := SightOf(s.world).(revision := Over(t.userReads.head, s.world.stats.revision));
            SightOf(Iterate(cfg, s, t).world) == SightAfter(cfg, see, s.loop, t)
    ensures LoopAfter(s.loop, Iterate(cfg, s, t).loop, t)
  {
    StoreReadSeen(s.world, t.userReads.head);
    ActSeen(cfg, s.(world := StoreRead(s.world, t.userReads.head)), t);
  }

  // ----- one turn in which etcd keeps its promises

  predicate InPlace(see: Sight, l: Loop, at: nat) {
    && see.watcher.clean && see.watcher.above
    && (l.running ==> l.startRev == at)
    && (l.pendingResync ==> see.watcher.doomed)
    && (!l.pendingResync ==> !see.watcher.doomed && at > see.watcher.floor)
  }

  /** At a loop head, and when the loop has stopped: the position reached is `at`. */
  predicate Settled(s: State, at: nat) {
    InPlace(SightOf(s.world), s.loop, at)
  }

  /** The session alone leaves everything in place at its highest header. */
  lemma SessionInPlace(cfg: Config, h: History, see: Sight, l: Loop, t: Turn, at: nat)
    requires l.running && !l.pendingResync && InPlace(see, l, l.startRev) && l.startRev >= 1
    requires Frontier(cfg, h, l.startRev, t.session.signals) && at == PositionAfter(l.startRev, t.session.signals)
    ensures var one := SessionSight(cfg, see, l, t);
            InPlace(one, l.(startRev := at), at) && one.watcher.floor == see.watcher.floor
  {
    FrontierReceives(cfg, h, l.startRev, t.session.signals);
  }

  lemma CompactionInPlace(one: Sight, l: Loop, l': Loop, c: nat, r: Reread, inline: nat, h: History, at: nat)
    requires InPlace(one, l, at) && l.running && !l.pendingResync
    requires LoadsOnward(h, r, at, Max(c, one.watcher.floor))
    requires l'.pendingResync == !r.Loaded? && (l'.running ==> l'.startRev == if r.Loaded? then r.rev + 1 else at)
    ensures InPlace(CompactionSight(one, c, r, inline), l', if r.Loaded? then r.rev + 1 else at)
  {
  }

  lemma PendingTurn(cfg: Config, h: History, s: State, t: Turn)
    requires s.loop.running && s.loop.pendingResync && !t.cancelledAtHead && Settled(s, s.loop.startRev)
    requires FairTurn(cfg, h, s, t)
    ensures var s' := Iterate(cfg, s, t);
            var at := if t.reread.Loaded? then t.reread.rev + 1 else s.loop.startRev;
            && Settled(s', at)
            && Stream(s'.world.log)
               == Stream(s.world.log) + (if t.reread.Loaded? then [ResyncEvent(t.reread.rev)] else [])
            && s'.loop.pendingResync == !t.reread.Loaded?
  {
    IterateSeen(cfg, s, t);
  }

  lemma SessionTurn(cfg: Config, h: History, s: State, t: Turn)
    requires s.loop.running && !t.cancelledAtHead && !s.loop.pendingResync
    requires s.loop.startRev >= 1 && Settled(s, s.loop.startRev)
    requires FairTurn(cfg, h, s, t)
    ensures var s' := Iterate(cfg, s, t);
            var at := PositionAfter(s.loop.startRev, t.session.signals);
            && Settled(s', if Inline(t) then t.reread.rev + 1 else at)
            && Stream(s'.world.log) == Stream(s.world.log) + Translate(cfg, Received(t.session.signals))
                                       + (if Inline(t) then [ResyncEvent(t.reread.rev)] else [])
            && s'.loop.pendingResync == (Compacts(t) && !t.reread.Loaded?)
  {
    IterateSeen(cfg, s, t);
    var see := SightOf(s.world).(revision := Over(t.userReads.head, s.world.stats.revision));
    var at := PositionAfter(s.loop.startRev, t.session.signals);
    SessionInPlace(cfg, h, see, s.loop, t, at);
    if Compacts(t) {
      CompactionInPlace(SessionSight(cfg, see, s.loop, t), s.loop.(startRev := at), Iterate(cfg, s, t).loop,
                        t.session.ending.failure.at, t.reread, t.userReads.inline, h, at);
    }
  }
}
