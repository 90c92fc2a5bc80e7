/** When the retry loop stops, what it makes of permanent errors, and what the backoff counts. */
module RetryLaws {
  import opened Options
  import opened WatchModel
  import opened SessionLaws
  import opened LoopLaws

  /** The failures that no retry can cure: etcd's authentication and permission errors, and the
      gRPC codes of the same meaning. */
  predicate Permanent(f: Failure) {
    || f == PermissionDenied || f == UserNotFound || f == AuthFailed || f == InvalidAuthToken
    || f == Status(PermissionDeniedCode) || f == Status(UnauthenticatedCode)
  }

  /** How a session's failure is classed when it is reported. */
  function ClassOf(f: Failure): ErrorClass {
    if Permanent(f) then Auth else if f.Compacted? then Compaction else Transient
  }

  lemma ClassesAre(f: Failure)
    ensures IsFatalRPCError(f) <==> Permanent(f)
    ensures ClassifyWatchError(f) == ClassOf(f)
  {
  }

  /** The session's error is an authentication or permission failure. */
  predicate Forbidden(t: Turn) {
    t.session.ending.Failed? && Permanent(t.session.ending.failure)
  }

  /** Nothing ends the loop at the end of this turn: it reaches the backoff. */
  predicate ReachesBackoff(t: Turn) {
    !Forbidden(t) && !t.session.ending.Cancelled? && !t.cancelledAfter
  }

  /** The attempt count and the running flag after one session's turn. */
  lemma SessionAttempt(cfg: Config, s: State, t: Turn)
    requires s.loop.running && !t.cancelledAtHead && !s.loop.pendingResync
    ensures var s' := Iterate(cfg, s, t);
            var kept := if Responded(t.session.signals) then 0 else s.loop.attempt;
            if Inline(t) then s'.loop.running && s'.loop.attempt == 0
            else if ReachesBackoff(t) then s'.loop.running == t.wakes && s'.loop.attempt == kept + 1
            else !s'.loop.running && s'.loop.attempt == kept
  {
    var atOpen := Emit(StoreRead(s.world, t.userReads.head), Opened(s.loop.startRev));
    SessionResultIs(cfg, atOpen, t.session);
    var (w, r) := Consume(cfg, atOpen, t.session);
    var s1 := SettleProgress(s.(world := StoreRead(w, t.userReads.report)), r.madeProgress);
    assert s1.loop.attempt == if Responded(t.session.signals) then 0 else s.loop.attempt;
    SettledAttempt(cfg, s1, r, t);
  }

  lemma SettledAttempt(cfg: Config, s: State, r: SessionResult, t: Turn)
    requires s.loop.running && r.drained == t.session.ending.Cancelled?
    requires r.fatalErr == if t.session.ending.Failed? then Some(t.session.ending.failure) else None
    ensures var s' := Resolve(cfg, s, r, t);
            if Inline(t) then s'.loop.running && s'.loop.attempt == 0
            else if ReachesBackoff(t) then s'.loop.running == t.wakes && s'.loop.attempt == s.loop.attempt + 1
            else !s'.loop.running && s'.loop.attempt == s.loop.attempt
  {
    if r.fatalErr.Some? { ClassesAre(r.fatalErr.value); }
  }

  /** Consecutive failed turns at the end of a run: sessions without a response and refused
      re-reads. A response restarts the count, an event is not needed; a re-read that succeeds clears it. */
  function Streak(cfg: Config, s: State, turns: seq<Turn>): nat {
    if turns == [] then 0
    else
      var front := turns[..|turns| - 1];
      var t := turns[|turns| - 1];
      var mid := Run(cfg, s, front);
      if !mid.loop.running || t.cancelledAtHead then Streak(cfg, s, front)
      else if (mid.loop.pendingResync && t.reread.Loaded?) || (!mid.loop.pendingResync && Inline(t)) then 0
      else if mid.loop.pendingResync then Streak(cfg, s, front) + 1
      else
        (if Responded(t.session.signals) then 0 else Streak(cfg, s, front)) + (if ReachesBackoff(t) then 1 else 0)
  }

  /** What the backoff escalates on: over every run the attempt count is that streak. */
  lemma {:induction false} AttemptIsStreak(cfg: Config, w: World, turns: seq<Turn>)
    ensures Run(cfg, Begin(cfg, w), turns).loop.attempt == Streak(cfg, Begin(cfg, w), turns)
  {
    if turns != [] {
      var t := turns[|turns| - 1];
      var mid := Run(cfg, Begin(cfg, w), turns[..|turns| - 1]);
      AttemptIsStreak(cfg, w, turns[..|turns| - 1]);
      if mid.loop.running && !t.cancelledAtHead && !mid.loop.pendingResync { SessionAttempt(cfg, mid, t); }
    }
  }

  /** A turn ends the loop exactly when the context is cancelled, before, during or after the
      session or in the backoff, or the error is permanent; a re-read that succeeds comes first. */
  lemma StopsIff(cfg: Config, s: State, t: Turn)
    requires s.loop.running
    ensures Iterate(cfg, s, t).loop.running <==>
              && !t.cancelledAtHead
              && if s.loop.pendingResync then t.reread.Loaded? || t.wakes
                 else Inline(t) || (ReachesBackoff(t) && t.wakes)
  {
    if !t.cancelledAtHead && !s.loop.pendingResync { SessionAttempt(cfg, s, t); }
  }

  /** A permanent error ends the watch; it is counted twice and reported twice, bare and then wrapped. */
  lemma PermanentErrorsCountTwice(cfg: Config, s: State, t: Turn)
    requires s.loop.running && !t.cancelledAtHead && !s.loop.pendingResync && Forbidden(t)
    ensures var s' := Iterate(cfg, s, t);
            var w := Consume(cfg, Emit(StoreRead(s.world, t.userReads.head), Opened(s.loop.startRev)), t.session).0;
            var f := t.session.ending.failure;
            && !s'.loop.running
            && s'.world.stats.totalWatchErrors == w.stats.totalWatchErrors + 2
            && |s'.world.log| >= 2
            && s'.world.log[|s'.world.log| - 2..]
               == [WatchError(Report(Bare, f), Auth), WatchError(Report(Fatal, f), Auth)]
  {
    var atOpen := Emit(StoreRead(s.world, t.userReads.head), Opened(s.loop.startRev));
    SessionResultIs(cfg, atOpen, t.session);
    var (w, r) := Consume(cfg, atOpen, t.session);
    var s1 := SettleProgress(s.(world := StoreRead(w, t.userReads.report)), r.madeProgress);
    assert s1.world.stats.totalWatchErrors == w.stats.totalWatchErrors;
    ForbiddenTail(cfg, s1, r, t);
  }

  lemma ForbiddenTail(cfg: Config, s: State, r: SessionResult, t: Turn)
    requires Forbidden(t) && r.fatalErr == Some(t.session.ending.failure)
    ensures var s' := Resolve(cfg, s, r, t);
            var f := t.session.ending.failure;
            && !s'.loop.running
            && s'.world.stats.totalWatchErrors == s.world.stats.totalWatchErrors + 2
            && s'.world.log == s.world.log + [WatchError(Report(Bare, f), Auth), WatchError(Report(Fatal, f), Auth)]
  {
    ClassesAre(r.fatalErr.value);
  }
}
