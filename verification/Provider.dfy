/** The provider object: the watch goroutine's methods, which update its counters and call
    out in place. Each is proved to do exactly what the state machine of WatchModel does, so
    the theorems about runs are theorems about these methods. */
module Providers {
  import opened History
  import opened Options
  import opened WatchModel

  lemma {:induction false} StoppedStays(cfg: Config, s: State, turns: seq<Turn>, i: nat)
    requires i <= |turns| && !Run(cfg, s, turns[..i]).loop.running
    ensures Run(cfg, s, turns) == Run(cfg, s, turns[..i])
    decreases |turns| - i
  {
    if i < |turns| {
      assert turns[..i + 1][..i] == turns[..i];
      StoppedStays(cfg, s, turns, i + 1);
    } else {
      assert turns[..i] == turns;
    }
  }

  class Provider {
    const cfg: Config
    var stats: Stats
    var log: seq<Output>

    ghost function W(): World
      reads this
    {
      World(stats, log)
    }

    constructor (cfg: Config)
      ensures this.cfg == cfg
      ensures W() == World(Stats(0, 0, 0, 0, 0, 0, 0, 0, 0), [])
    {
      this.cfg := cfg;
      stats := Stats(0, 0, 0, 0, 0, 0, 0, 0, 0);
      log := [];
    }

    method CallOut(o: Output)
      modifies this`log
      ensures W() == Emit(old(W()), o)
    {
      log := log + [o];
    }

    method RecordWatchError()
      modifies this`stats
      ensures W() == CountError(old(W()))
    {
      stats := stats.(totalWatchErrors := stats.totalWatchErrors + 1);
    }

    /** What a Read by the user leaves behind in the counters the loop shares with it. */
    method UserRead(rev: nat)
      modifies this`stats
      ensures W() == StoreRead(old(W()), rev)
    {
      if rev > 0 {
        stats := stats.(revision := rev);
      }
    }

    method TranslateEvent(c: Change) returns (e: Option<Event>)
      modifies this`stats
      ensures W() == CountTranslated(old(W()), cfg, c)
      ensures e == if Wanted(cfg, c.op) then Some(ToEvent(cfg, c)) else None
    {
      var put := c.op.Put?;
      if cfg.filterSet {
        if put && !cfg.wantPut {
          return None;
        }
        if !put && !cfg.wantDelete {
          return None;
        }
      }
      if put {
        e := Some(Event(EventPut, cfg.keyTransform(c.op.key), c.op.value, c.rev));
        stats := stats.(totalPuts := stats.totalPuts + 1);
      } else {
        e := Some(Event(EventDelete, cfg.keyTransform(c.op.key), [], c.rev));
        stats := stats.(totalDeletes := stats.totalDeletes + 1);
      }
    }

    method DeliverBatch(batch: seq<Event>)
      modifies this
      ensures W() == Deliver(cfg, old(W()), batch)
    {
      stats := stats.(totalEventsDelivered := stats.totalEventsDelivered + |batch|);
      var panicked := cfg.panics(|log|);
      CallOut(Delivered(batch));
      if panicked {
        RecordWatchError();
        CallOut(WatchError(Report(Bare, CallbackPanic), PanicClass));
      }
    }

    method FlushPending(pending: seq<Event>)
      modifies this
      ensures W() == Flush(cfg, old(W()), pending)
    {
      if |pending| == 0 {
        return;
      }
      stats := stats.(totalDebounceFlushes := stats.totalDebounceFlushes + 1);
      DeliverBatch(pending);
    }

    method TranslateAll(changes: seq<Change>, before: seq<Event>) returns (pending: seq<Event>)
      modifies this`stats
      ensures W() == CountAll(old(W()), cfg, changes)
      ensures pending == before + Translate(cfg, changes)
    {
      pending := before;
      for i := 0 to |changes|
        invariant W() == CountAll(old(W()), cfg, changes[..i])
        invariant pending == before + Translate(cfg, changes[..i])
      {
        assert changes[..i + 1][..i] == changes[..i];
        var e := TranslateEvent(changes[i]);
        if e.Some? {
          pending := pending + [e.value];
        }
      }
      assert changes[..|changes|] == changes;
    }

    /** `consumeWatch`: drain one session. */
    method ConsumeWatch(s: Session) returns (drained: bool, newRev: nat, madeProgress: bool, fatalErr: Option<Failure>)
      modifies this
      ensures (W(), SessionResult(drained, newRev, madeProgress, fatalErr)) == Consume(cfg, old(W()), s)
    {
      var pending: seq<Event>, timer, armed := [], NoTimer, false;
      newRev, madeProgress := 0, false;
      for i := 0 to |s.signals|
        invariant (W(), Buffer(pending, newRev, madeProgress, timer, armed))
               == FeedAll(cfg, old(W()), FRESH, s.signals[..i])
      {
        assert s.signals[..i + 1][..i] == s.signals[..i];
        match s.signals[i] {
          case Response(header, changes) =>
            pending, newRev, timer, armed := OnResponse(header, changes, pending, newRev, timer, armed, madeProgress);
            madeProgress := true;
          case Expire =>
            if timer.Timer? && timer.running {
              timer := Timer(false, true);
            }
          case Tick =>
            if armed && timer.Timer? && timer.queued {
              FlushPending(pending);
              pending, timer, armed := [], timer.(queued := false), false;
            }
        }
      }
      assert s.signals[..|s.signals|] == s.signals;
      FlushPending(pending);
      drained := s.ending.Cancelled?;
      fatalErr := if s.ending.Failed? then Some(s.ending.failure) else None;
    }

    /** One response inside the session's select. */
    method OnResponse(header: nat, changes: seq<Change>, before: seq<Event>, highest: nat, clock: Timer, ready: bool,
                      ghost progress: bool)
      returns (pending: seq<Event>, newRev: nat, timer: Timer, armed: bool)
      modifies this
      ensures (W(), Buffer(pending, newRev, true, timer, armed))
           == Feed(cfg, old(W()), Buffer(before, highest, progress, clock, ready), Response(header, changes))
    {
      newRev, timer, armed := highest, clock, ready;
      if header > newRev {
        newRev := header;
        stats := stats.(revision := newRev);
      }
      pending := TranslateAll(changes, before);
      if cfg.maxPendingEvents > 0 && |pending| >= cfg.maxPendingEvents {
        FlushPending(pending);
        pending, timer, armed := [], StopTimer(timer), false;
      } else if cfg.debounce > 0 {
        timer, armed := Armed(timer), true;
      } else {
        FlushPending(pending);
        pending := [];
      }
    }

    method ResyncState(r: Reread) returns (outcome: ReadOutcome)
      modifies this
      ensures (W(), outcome) == DoResync(cfg, old(W()), r)
    {
      match r {
        case Refused(f) =>
          outcome := ReadFailed(f);
        case RefusedAfterStore(rev, f) =>
          stats := stats.(revision := rev);
          outcome := ReadFailed(f);
        case Loaded(found, rev) =>
          stats := stats.(revision := found);
          stats := stats.(totalReads := stats.totalReads + 1);
          stats := stats.(revision := rev);  // a user's Read may have stored meanwhile
          var loaded := stats.revision;
          stats := stats.(totalResyncs := stats.totalResyncs + 1);
          CallOut(Resynced(loaded));
          DeliverBatch([Event(EventResync, [], [], loaded)]);
          outcome := ReadAt(loaded);
      }
    }

    method HandleCompaction(fatalErr: Option<Failure>, r: Reread) returns (resynced: Option<nat>)
      modifies this
      ensures (W(), resynced) == TryHandleCompaction(cfg, old(W()), fatalErr, r)
    {
      if fatalErr.None? {
        return None;
      }
      var f := fatalErr.value;
      if !f.Compacted? {
        RecordWatchError();
      }
      CallOut(WatchError(Report(Bare, f), ClassifyWatchError(f)));
      if !f.Compacted? {
        return None;
      }
      var outcome := ResyncState(r);
      if outcome.ReadFailed? {
        RecordWatchError();
        CallOut(WatchError(Report(Resync, outcome.failure), Transient));
        return None;
      }
      return Some(outcome.rev);
    }

    method RecordReconnect()
      modifies this`stats
      ensures W() == old(W()).(stats := old(stats).(totalReconnects := old(stats).totalReconnects + 1))
    {
      stats := stats.(totalReconnects := stats.totalReconnects + 1);
    }

    /** `watchLoop`, driven by any finite script of what the environment does. When the loop
        returns, `running` is false and the rest of the script is not used. */
    method WatchLoop(turns: seq<Turn>) returns (end: Loop)
      modifies this
      ensures State(W(), end) == Run(cfg, Begin(cfg, old(W())), turns)
    {
      ghost var begin := Begin(cfg, W());
      var startRev: nat := if !cfg.resumeFromRevision then 0 else if stats.revision > 0 then stats.revision + 1 else 0;
      var attempt: nat, pendingResync, failedAttempts: nat, lastFailErr := 0, false, 0, None;
      for i := 0 to |turns|
        invariant State(W(), Loop(startRev, attempt, pendingResync, failedAttempts, lastFailErr, true))
               == Run(cfg, begin, turns[..i])
      {
        assert turns[..i + 1][..i] == turns[..i];
        var t := turns[i];
        ghost var head := Run(cfg, begin, turns[..i]);
        var running: bool;
        UserRead(t.userReads.head);
        ghost var acting := State(W(), head.loop);
        if t.cancelledAtHead {
          running := false;
        } else if pendingResync {
          startRev, attempt, pendingResync, failedAttempts, lastFailErr, running :=
            RetryPending(t, startRev, attempt, failedAttempts, lastFailErr);
        } else {
          startRev, attempt, pendingResync, failedAttempts, lastFailErr, running :=
            WatchOnce(t, startRev, attempt, failedAttempts, lastFailErr);
        }
        end := Loop(startRev, attempt, pendingResync, failedAttempts, lastFailErr, running);
        assert State(W(), end) == Act(cfg, acting, t) == Iterate(cfg, head, t) == Run(cfg, begin, turns[..i + 1]);
        if !running {
          StoppedStays(cfg, begin, turns, i + 1);
          return;
        }
      }
      assert turns[..|turns|] == turns;
      end := Loop(startRev, attempt, pendingResync, failedAttempts, lastFailErr, true);
    }

    /** The loop body while a resync is pending. */
    method RetryPending(t: Turn, start: nat, attempts: nat, failed: nat, lastErr: Option<Report>)
      returns (startRev: nat, attempt: nat, pendingResync: bool, failedAttempts: nat, lastFailErr: Option<Report>,
               running: bool)
      requires !t.cancelledAtHead
      modifies this
      ensures State(W(), Loop(startRev, attempt, pendingResync, failedAttempts, lastFailErr, running))
           == Act(cfg, State(old(W()), Loop(start, attempts, true, failed, lastErr, true)), t)
    {
      startRev, attempt, pendingResync := start, attempts, true;
      failedAttempts, lastFailErr, running := failed, lastErr, true;
      var outcome := ResyncState(t.reread);
      if outcome.ReadAt? {
        UserRead(t.userReads.report);
        startRev := outcome.rev + 1;
        pendingResync := false;
        attempt := 0;
        if failedAttempts > 0 {
          CallOut(Reconnected(failedAttempts, lastFailErr, stats.revision));
          failedAttempts, lastFailErr := 0, None;
        }
        return;
      }
      attempt := attempt + 1;
      var wrapped := Report(PendingResync, outcome.failure);
      RecordReconnect();
      failedAttempts, lastFailErr := attempt, Some(wrapped);
      CallOut(WatchError(wrapped, Transient));
      if t.wakes {
        CallOut(Slept(attempt));
      } else {
        running := false;
      }
    }

    /** The loop body while nothing is pending: open, drain, then recover, stop or back off. */
    method WatchOnce(t: Turn, start: nat, attempts: nat, failed: nat, lastErr: Option<Report>)
      returns (startRev: nat, attempt: nat, pendingResync: bool, failedAttempts: nat, lastFailErr: Option<Report>,
               running: bool)
      requires !t.cancelledAtHead
      modifies this
      ensures State(W(), Loop(startRev, attempt, pendingResync, failedAttempts, lastFailErr, running))
           == Act(cfg, State(old(W()), Loop(start, attempts, false, failed, lastErr, true)), t)
    {
      startRev, attempt, pendingResync := start, attempts, false;
      failedAttempts, lastFailErr, running := failed, lastErr, true;
      CallOut(Opened(startRev));
      var drained, newRev, madeProgress, fatalErr := ConsumeWatch(t.session);
      UserRead(t.userReads.report);
      startRev, attempt, pendingResync, failedAttempts, lastFailErr, running :=
        AfterWatch(t, SessionResult(drained, newRev, madeProgress, fatalErr), startRev, attempt, failedAttempts,
                   lastFailErr);
    }

    /** What that body does with the session's result. */
    method AfterWatch(t: Turn, r: SessionResult, start: nat, attempts: nat, failed: nat, lastErr: Option<Report>)
      returns (startRev: nat, attempt: nat, pendingResync: bool, failedAttempts: nat, lastFailErr: Option<Report>,
               running: bool)
      modifies this
      ensures State(W(), Loop(startRev, attempt, pendingResync, failedAttempts, lastFailErr, running))
           == AfterSession(cfg, State(old(W()), Loop(start, attempts, false, failed, lastErr, true)), r, t)
    {
      startRev, attempt, pendingResync := start, attempts, false;
      failedAttempts, lastFailErr, running := failed, lastErr, true;
      if r.madeProgress {
        attempt := 0;
        if failedAttempts > 0 {
          CallOut(Reconnected(failedAttempts, lastFailErr, stats.revision));
          failedAttempts, lastFailErr := 0, None;
        }
      }
      var resynced := HandleCompaction(r.fatalErr, t.reread);
      if resynced.Some? {
        startRev := resynced.value + 1;
        attempt := 0;
        UserRead(t.userReads.inline);
        CallOut(Reconnected(failedAttempts + 1, AsReport(r.fatalErr), stats.revision));
        failedAttempts, lastFailErr := 0, None;
        return;
      }
      startRev, attempt, pendingResync, failedAttempts, lastFailErr, running :=
        StopOrBackOff(t, r, startRev, attempt, failedAttempts, lastFailErr);
    }

    /** The rest of that body: no recovery, so remember compaction, then stop or count the failure. */
    method StopOrBackOff(t: Turn, r: SessionResult, start: nat, attempts: nat, failed: nat, lastErr: Option<Report>)
      returns (startRev: nat, attempt: nat, pendingResync: bool, failedAttempts: nat, lastFailErr: Option<Report>,
               running: bool)
      modifies this
      ensures State(W(), Loop(startRev, attempt, pendingResync, failedAttempts, lastFailErr, running))
           == Unrecovered(State(old(W()), Loop(start, attempts, false, failed, lastErr, true)), r, t)
    {
      startRev, attempt, pendingResync := start, attempts, false;
      failedAttempts, lastFailErr, running := failed, lastErr, true;
      if r.fatalErr.Some? && r.fatalErr.value.Compacted? {
        pendingResync := true;
      }
      if r.fatalErr.Some? && IsFatalRPCError(r.fatalErr.value) {
        RecordWatchError();
        CallOut(WatchError(Report(Fatal, r.fatalErr.value), Auth));
        running := false;
        return;
      }
      if r.drained || t.cancelledAfter {
        running := false;
        return;
      }
      if r.newRev > 0 {
        startRev := r.newRev + 1;
      }
      attempt := attempt + 1;
      RecordReconnect();
      failedAttempts, lastFailErr := attempt, AsReport(r.fatalErr);
      if t.wakes {
        CallOut(Slept(attempt));
      } else {
        running := false;
      }
    }
  }
}
