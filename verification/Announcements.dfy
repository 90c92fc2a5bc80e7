/** What the retry loop tells the world, over whole runs: every watch it opens, every error and
    recovery it reports, and every backoff it asks for, against the script of what happened. */
module Announcements {
  import opened Options
  import opened WatchModel
  import opened SessionLaws
  import opened LoopLaws
  import opened RetryLaws
  import opened Sequences
  import Delays = Backoff

  /** The output without the deliveries and the reports of callbacks that panicked. */
  function Announced(log: seq<Output>): seq<Output> {
    if log == [] then []
    else
      var last := log[|log| - 1];
      Announced(log[..|log| - 1]) + (if Quiet(last) then [] else [last])
  }

  /** One more announcement. */
  function Say(said: seq<Output>, o: Output): seq<Output> {
    said + [o]
  }

  lemma EmitSays(w: World, o: Output)
    requires !Quiet(o)
    ensures Announced(Emit(w, o).log) == Say(Announced(w.log), o)
  {
    assert (w.log + [o])[..|w.log|] == w.log;
  }

  lemma {:induction false} QuietSaysNothing(log: seq<Output>, ext: seq<Output>)
    requires AllQuiet(ext)
    ensures Announced(log + ext) == Announced(log)
  {
    if ext == [] {
      assert log + ext == log;
    } else {
      QuietSaysNothing(log, ext[..|ext| - 1]);
      assert (log + ext)[..|log + ext| - 1] == log + ext[..|ext| - 1];
    }
  }

  // ----- what the pieces of a turn say

  lemma SessionSays(cfg: Config, w: World, s: Session)
    ensures Announced(Consume(cfg, w, s).0.log) == Announced(w.log)
  {
    var ext := ConsumeIsQuiet(cfg, w, s);
    QuietSaysNothing(w.log, ext);
  }

  function RereadSays(said: seq<Output>, r: Reread): seq<Output> {
    if r.Loaded? then Say(said, Resynced(r.rev)) else said
  }

  lemma DoResyncSays(cfg: Config, w: World, r: Reread)
    ensures Announced(DoResync(cfg, w, r).0.log) == RereadSays(Announced(w.log), r)
  {
    if r.Loaded? {
      var read := w.(stats := w.stats.(revision := r.rev, totalReads := w.stats.totalReads + 1,
                                       totalResyncs := w.stats.totalResyncs + 1));
      var told := Emit(read, Resynced(r.rev));
      EmitSays(read, Resynced(r.rev));
      var ext := DeliverIsQuiet(cfg, told, [Event(EventResync, [], [], r.rev)]);
      QuietSaysNothing(told.log, ext);
    }
  }

  /** A session's failure is reported with its class; compaction is followed by its re-read. */
  function FailureSays(said: seq<Output>, f: Failure, r: Reread): seq<Output> {
    var reported := Say(said, WatchError(Report(Bare, f), ClassOf(f)));
    if !f.Compacted? then reported
    else if r.Loaded? then Say(reported, Resynced(r.rev))
    else Say(reported, WatchError(Report(Resync, r.failure), Transient))
  }

  lemma CompactionSays(cfg: Config, w: World, f: Failure, r: Reread)
    ensures Announced(TryHandleCompaction(cfg, w, Some(f), r).0.log) == FailureSays(Announced(w.log), f, r)
  {
    ClassesAre(f);
    var w1 := if f.Compacted? then w else CountError(w);
    var w2 := Emit(w1, WatchError(Report(Bare, f), ClassOf(f)));
    EmitSays(w1, WatchError(Report(Bare, f), ClassOf(f)));
    if f.Compacted? {
      DoResyncSays(cfg, w2, r);
      var (w3, outcome) := DoResync(cfg, w2, r);
      if outcome.ReadFailed? { EmitSays(CountError(w3), WatchError(Report(Resync, r.failure), Transient)); }
    }
  }

  function RecoverySays(said: seq<Output>, owing: Owing, revision: nat): seq<Output> {
    if owing.count > 0 then Say(said, Reconnected(owing.count, owing.lastErr, revision)) else said
  }

  lemma RecoverSays(s: State)
    ensures Announced(Recover(s).world.log)
         == RecoverySays(Announced(s.world.log), OwedBy(s.loop), s.world.stats.revision)
    ensures (s.loop.failedAttempts == 0 ==> s.loop.lastFailErr.None?) ==> OwedBy(Recover(s).loop) == Owing(0, None)
  {
    if s.loop.failedAttempts > 0 {
      EmitSays(s.world, Reconnected(s.loop.failedAttempts, s.loop.lastFailErr, s.world.stats.revision));
    }
  }

  function SleepSays(said: seq<Output>, attempt: nat, wakes: bool): seq<Output> {
    if wakes then Say(said, Slept(attempt)) else said
  }

  lemma BackoffSays(s: State, err: Option<Report>, wakes: bool)
    ensures Announced(Backoff(s, err, wakes).world.log)
         == SleepSays(Announced(s.world.log), s.loop.attempt + 1, wakes)
    ensures OwedBy(Backoff(s, err, wakes).loop) == Owing(s.loop.attempt + 1, err)
  {
    if wakes { EmitSays(Fail(s, err).world, Slept(s.loop.attempt + 1)); }
  }

  /** A refused pending re-read is reported, then slept on. */
  function RefusalSays(said: seq<Output>, f: Failure, attempt: nat, wakes: bool): seq<Output> {
    SleepSays(Say(said, WatchError(Report(PendingResync, f), Transient)), attempt, wakes)
  }

  lemma ResyncRefusedSays(s: State, f: Failure, wakes: bool)
    ensures Announced(ResyncRefused(s, f, wakes).world.log)
         == RefusalSays(Announced(s.world.log), f, s.loop.attempt + 1, wakes)
    ensures OwedBy(ResyncRefused(s, f, wakes).loop) == Owing(s.loop.attempt + 1, Some(Report(PendingResync, f)))
  {
    var failed := Fail(s, Some(Report(PendingResync, f)));
    var o := WatchError(Report(PendingResync, f), Transient);
    EmitSays(failed.world, o);
    if wakes { EmitSays(Emit(failed.world, o), Slept(s.loop.attempt + 1)); }
  }

  // ----- what a turn says, from the failures in a row before it

  /** The failures since the last recovery report, and the error of the last of them. */
  datatype Owing = Owing(count: nat, lastErr: Option<Report>)

  function OwedBy(l: Loop): Owing {
    Owing(l.failedAttempts, l.lastFailErr)
  }

  function EndingError(t: Turn): Option<Report> {
    if t.session.ending.Failed? then Some(Report(Bare, t.session.ending.failure)) else None
  }

  /** What is owed once the session's own recovery has been reported. */
  function AfterProgress(owing: Owing, t: Turn): Owing {
    if Responded(t.session.signals) then Owing(0, None) else owing
  }

  /** What is owed after a session's ending. */
  function AfterEnding(owing: Owing, t: Turn): Owing {
    if Inline(t) then Owing(0, None)
    else if ReachesBackoff(t) then Owing(owing.count + 1, EndingError(t))
    else owing
  }

  /** What is owed after a turn. */
  function OwedAfter(owing: Owing, pending: bool, t: Turn): Owing {
    if t.cancelledAtHead then owing
    else if !pending then AfterEnding(AfterProgress(owing, t), t)
    else if t.reread.Loaded? then Owing(0, None)
    else Owing(owing.count + 1, Some(Report(PendingResync, t.reread.failure)))
  }

  /** The announcements after a turn. `revision` is the provider's revision at its head. */
  function TurnSays(said: seq<Output>, startRev: nat, pending: bool, owing: Owing, revision: nat, t: Turn)
    : seq<Output>
  {
    if t.cancelledAtHead then said
    else if pending then PendingSays(said, owing, t)
    else EndingSays(RespondedSays(Say(said, Opened(startRev)), owing, revision, t), AfterProgress(owing, t), t)
  }

  function PendingSays(said: seq<Output>, owing: Owing, t: Turn): seq<Output> {
    if t.reread.Loaded? then
      RecoverySays(Say(said, Resynced(t.reread.rev)), owing, Over(t.userReads.report, t.reread.rev))
    else RefusalSays(said, t.reread.failure, owing.count + 1, t.wakes)
  }

  /** A session that received a response is a recovery. */
  function RespondedSays(said: seq<Output>, owing: Owing, revision: nat, t: Turn): seq<Output> {
    var header := MaxHeader(t.session.signals);
    if Responded(t.session.signals) then
      RecoverySays(said, owing, Over(t.userReads.report, if header > 0 then header else revision))
    else said
  }

  function EndingSays(said: seq<Output>, owing: Owing, t: Turn): seq<Output> {
    var reported :=
      if t.session.ending.Failed? then FailureSays(said, t.session.ending.failure, t.reread) else said;
    if Inline(t) then
      Say(reported, Reconnected(owing.count + 1, EndingError(t), Over(t.userReads.inline, t.reread.rev)))
    else TailSays(reported, owing.count, t)
  }

  /** Without an inline recovery: a permanent error once more, or the backoff, or nothing. */
  function TailSays(said: seq<Output>, attempts: nat, t: Turn): seq<Output> {
    if Forbidden(t) then Say(said, WatchError(Report(Fatal, t.session.ending.failure), Auth))
    else if ReachesBackoff(t) then SleepSays(said, attempts + 1, t.wakes)
    else said
  }

  /** At a loop head the counts agree, and an error is remembered only with a failure. */
  predicate Counted(l: Loop) {
    l.failedAttempts == l.attempt && (l.failedAttempts == 0 ==> l.lastFailErr.None?)
  }

  lemma PendingTurnSays(cfg: Config, s: State, t: Turn)
    requires s.loop.pendingResync && Counted(s.loop)
    ensures var s' := RetryResync(cfg, s, t);
            && Announced(s'.world.log) == PendingSays(Announced(s.world.log), OwedBy(s.loop), t)
            && (!t.cancelledAtHead ==> OwedBy(s'.loop) == OwedAfter(OwedBy(s.loop), true, t))
            && Counted(s'.loop)
  {
    DoResyncSays(cfg, s.world, t.reread);
    var (w, outcome) := DoResync(cfg, s.world, t.reread);
    match outcome {
      case ReadAt(rev) =>
        RecoverSays(ResyncedAt(s, StoreRead(w, t.userReads.report), rev));
      case ReadFailed(f) =>
        ResyncRefusedSays(s.(world := w), f, t.wakes);
    }
  }

  /** The result of this turn's session. */
  predicate EndsAs(r: SessionResult, t: Turn) {
    && r.fatalErr == (if t.session.ending.Failed? then Some(t.session.ending.failure) else None)
    && r.drained == t.session.ending.Cancelled?
  }

  lemma ForbiddenSays(s: State, r: SessionResult, t: Turn)
    requires s.loop.running && Counted(s.loop) && Forbidden(t) && EndsAs(r, t)
    ensures var s' := Unrecovered(s, r, t);
            && Announced(s'.world.log)
               == Say(Announced(s.world.log), WatchError(Report(Fatal, t.session.ending.failure), Auth))
            && OwedBy(s'.loop) == OwedBy(s.loop) && Counted(s'.loop)
  {
    ClassesAre(r.fatalErr.value);
    EmitSays(CountError(s.world), WatchError(Report(Fatal, r.fatalErr.value), Auth));
  }

  lemma FailedSays(s: State, r: SessionResult, t: Turn)
    requires s.loop.running && Counted(s.loop) && ReachesBackoff(t) && EndsAs(r, t)
    ensures var s' := Unrecovered(s, r, t);
            && Announced(s'.world.log) == SleepSays(Announced(s.world.log), s.loop.failedAttempts + 1, t.wakes)
            && OwedBy(s'.loop) == Owing(s.loop.failedAttempts + 1, EndingError(t)) && Counted(s'.loop)
  {
    var compacted := r.fatalErr.Some? && r.fatalErr.value.Compacted?;
    var s1 := if compacted then s.(loop := s.loop.(pendingResync := true)) else s;
    if r.fatalErr.Some? { ClassesAre(r.fatalErr.value); }
    BackoffSays(Resume(s1, r.newRev), AsReport(r.fatalErr), t.wakes);
  }

  lemma UnrecoveredSays(s: State, r: SessionResult, t: Turn)
    requires s.loop.running && Counted(s.loop) && !Inline(t) && EndsAs(r, t)
    ensures var s' := Unrecovered(s, r, t);
            && Announced(s'.world.log) == TailSays(Announced(s.world.log), s.loop.failedAttempts, t)
            && OwedBy(s'.loop) == AfterEnding(OwedBy(s.loop), t) && Counted(s'.loop)
  {
    if Forbidden(t) {
      ForbiddenSays(s, r, t);
    } else if ReachesBackoff(t) {
      FailedSays(s, r, t);
    } else if r.fatalErr.Some? {
      ClassesAre(r.fatalErr.value);
    }
  }

  lemma CompactionRevision(cfg: Config, w: World, fatalErr: Option<Failure>, r: Reread)
    ensures var (w', resynced) := TryHandleCompaction(cfg, w, fatalErr, r);
            && (resynced.Some? <==> fatalErr.Some? && fatalErr.value.Compacted? && r.Loaded?)
            && (resynced.Some? ==> w'.stats.revision == r.rev)
  {
  }

  lemma InlineSays(s: State, fatalErr: Option<Failure>, rev: nat)
    ensures var s' := RecoverInline(s, fatalErr, rev);
            && Announced(s'.world.log)
               == Say(Announced(s.world.log),
                      Reconnected(s.loop.failedAttempts + 1, AsReport(fatalErr), s.world.stats.revision))
            && OwedBy(s'.loop) == Owing(0, None) && Counted(s'.loop)
  {
    EmitSays(s.world, Reconnected(s.loop.failedAttempts + 1, AsReport(fatalErr), s.world.stats.revision));
  }

  lemma ResolveSays(cfg: Config, s: State, r: SessionResult, t: Turn)
    requires s.loop.running && !s.loop.pendingResync && Counted(s.loop) && EndsAs(r, t)
    ensures var s' := Resolve(cfg, s, r, t);
            && Announced(s'.world.log) == EndingSays(Announced(s.world.log), OwedBy(s.loop), t)
            && OwedBy(s'.loop) == AfterEnding(OwedBy(s.loop), t) && Counted(s'.loop)
  {
    if r.fatalErr.Some? { CompactionSays(cfg, s.world, r.fatalErr.value, t.reread); }
    var (w, resynced) := TryHandleCompaction(cfg, s.world, r.fatalErr, t.reread);
    CompactionRevision(cfg, s.world, r.fatalErr, t.reread);
    if resynced.Some? {
      InlineSays(s.(world := StoreRead(w, t.userReads.inline)), r.fatalErr, resynced.value);
    } else {
      UnrecoveredSays(s.(world := w), r, t);
    }
  }

  /** Open, drain, and report the recovery if the session responded. */
  lemma ProgressSays(cfg: Config, s: State, t: Turn) returns (s1: State, r: SessionResult)
    requires s.loop.running && !s.loop.pendingResync && !t.cancelledAtHead && Counted(s.loop)
    ensures Act(cfg, s, t) == Resolve(cfg, s1, r, t) && EndsAs(r, t)
    ensures s1.loop.running && !s1.loop.pendingResync && Counted(s1.loop)
    ensures OwedBy(s1.loop) == AfterProgress(OwedBy(s.loop), t)
    ensures Announced(s1.world.log)
         == RespondedSays(Say(Announced(s.world.log), Opened(s.loop.startRev)), OwedBy(s.loop),
                          s.world.stats.revision, t)
  {
    var atOpen := Emit(s.world, Opened(s.loop.startRev));
    EmitSays(s.world, Opened(s.loop.startRev));
    SessionSays(cfg, atOpen, t.session);
    SessionResultIs(cfg, atOpen, t.session);
    var (w, result) := Consume(cfg, atOpen, t.session);
    r := result;
    var s0 := s.(world := StoreRead(w, t.userReads.report));
    s1 := SettleProgress(s0, r.madeProgress);
    if r.madeProgress { RecoverSays(s0.(loop := s0.loop.(attempt := 0))); }
  }

  lemma TurnIsSaid(cfg: Config, s: State, t: Turn)
    requires s.loop.running && Counted(s.loop)
    ensures var s' := Iterate(cfg, s, t);
            && Announced(s'.world.log)
               == TurnSays(Announced(s.world.log), s.loop.startRev, s.loop.pendingResync, OwedBy(s.loop),
                           Over(t.userReads.head, s.world.stats.revision), t)
            && OwedBy(s'.loop) == OwedAfter(OwedBy(s.loop), s.loop.pendingResync, t) && Counted(s'.loop)
  {
    var s0 := s.(world := StoreRead(s.world, t.userReads.head));
    if !t.cancelledAtHead {
      if s.loop.pendingResync {
        PendingTurnSays(cfg, s0, t);
      } else {
        var s1, r := ProgressSays(cfg, s0, t);
        ResolveSays(cfg, s1, r, t);
      }
    }
  }

  // ----- whole runs

  /** The error of the last of those failures in a row that `Streak` counts. */
  function LastError(cfg: Config, s: State, turns: seq<Turn>): Option<Report> {
    if turns == [] then None
    else
      var front := turns[..|turns| - 1];
      var t := turns[|turns| - 1];
      var mid := Run(cfg, s, front);
      if !mid.loop.running || t.cancelledAtHead then LastError(cfg, s, front)
      else if mid.loop.pendingResync then
        if t.reread.Loaded? then None else Some(Report(PendingResync, t.reread.failure))
      else if Inline(t) then None
      else if ReachesBackoff(t) then EndingError(t)
      else if Responded(t.session.signals) then None
      else LastError(cfg, s, front)
  }

  /** The failures in a row that the script shows. */
  function Failures(cfg: Config, s: State, turns: seq<Turn>): Owing {
    Owing(Streak(cfg, s, turns), LastError(cfg, s, turns))
  }

  /** The announcements of a run, turn by turn, from the failures in a row that the script shows. */
  function RunSays(cfg: Config, said: seq<Output>, s: State, turns: seq<Turn>): seq<Output> {
    if turns == [] then said
    else
      var front := turns[..|turns| - 1];
      var t := turns[|turns| - 1];
      var mid := Run(cfg, s, front);
      var before := RunSays(cfg, said, s, front);
      if !mid.loop.running then before
      else
        TurnSays(before, mid.loop.startRev, mid.loop.pendingResync, Failures(cfg, s, front),
                 Over(t.userReads.head, mid.world.stats.revision), t)
  }

  /** Everything the loop announces, over every run and under every environment: the watches it
      opens, each error with its wrapping and class, each recovery with the number of failures in
      a row before it and the error of the last, and each backoff with the number of failures in a
      row up to it. */
  lemma {:induction false} AnnouncementsAreScripted(cfg: Config, w: World, turns: seq<Turn>)
    ensures var s := Begin(cfg, w);
            var s' := Run(cfg, s, turns);
            && Announced(s'.world.log) == RunSays(cfg, Announced(w.log), s, turns)
            && Counted(s'.loop)
            && OwedBy(s'.loop) == Failures(cfg, s, turns)
  {
    if turns != [] {
      var front, t := turns[..|turns| - 1], turns[|turns| - 1];
      var mid := Run(cfg, Begin(cfg, w), front);
      AnnouncementsAreScripted(cfg, w, front);
      FailuresFollow(cfg, Begin(cfg, w), front, t);
      assert turns == front + [t];
      if mid.loop.running { TurnIsSaid(cfg, mid, t); }
    }
  }

  lemma FailuresFollow(cfg: Config, s: State, front: seq<Turn>, t: Turn)
    ensures var mid := Run(cfg, s, front);
            Failures(cfg, s, front + [t])
            == if mid.loop.running then OwedAfter(Failures(cfg, s, front), mid.loop.pendingResync, t)
               else Failures(cfg, s, front)
  {
    assert (front + [t])[..|front|] == front;
  }

  // ----- the backoffs

  /** The attempt numbers that the backoff was asked for. */
  function Sleeps(said: seq<Output>): seq<int> {
    if said == [] then []
    else
      var last := said[|said| - 1];
      Sleeps(said[..|said| - 1]) + (if last.Slept? then [last.attempt] else [])
  }

  lemma SleepsSay(said: seq<Output>, o: Output)
    ensures Sleeps(Say(said, o)) == if o.Slept? then Sleeps(said) + [o.attempt] else Sleeps(said)
  {
    assert (said + [o])[..|said|] == said;
    assert Sleeps(said) + [] == Sleeps(said);
  }

  /** The turn fails, and its backoff runs to the end. */
  predicate SleepsOut(l: Loop, t: Turn) {
    && l.running && !t.cancelledAtHead && t.wakes
    && (if l.pendingResync then !t.reread.Loaded? else !Inline(t) && ReachesBackoff(t))
  }

  function RunSleeps(cfg: Config, s: State, turns: seq<Turn>): seq<int> {
    if turns == [] then []
    else
      var front := turns[..|turns| - 1];
      RunSleeps(cfg, s, front) +
      (if SleepsOut(Run(cfg, s, front).loop, turns[|turns| - 1]) then [Streak(cfg, s, turns)] else [])
  }

  lemma RecoverySleepsNot(said: seq<Output>, owing: Owing, revision: nat)
    ensures Sleeps(RecoverySays(said, owing, revision)) == Sleeps(said)
  {
    if owing.count > 0 { SleepsSay(said, Reconnected(owing.count, owing.lastErr, revision)); }
  }

  lemma FailureSleepsNot(said: seq<Output>, f: Failure, r: Reread)
    ensures Sleeps(FailureSays(said, f, r)) == Sleeps(said)
  {
    var first := WatchError(Report(Bare, f), ClassOf(f));
    SleepsSay(said, first);
    if f.Compacted? {
      var second := if r.Loaded? then Resynced(r.rev) else WatchError(Report(Resync, r.failure), Transient);
      SleepsSay(Say(said, first), second);
    }
  }

  lemma EndingSleeps(said: seq<Output>, owing: Owing, t: Turn)
    ensures Sleeps(EndingSays(said, owing, t))
         == if !Inline(t) && ReachesBackoff(t) && t.wakes then Sleeps(said) + [owing.count + 1] else Sleeps(said)
  {
    if t.session.ending.Failed? { FailureSleepsNot(said, t.session.ending.failure, t.reread); }
    var reported :=
      if t.session.ending.Failed? then FailureSays(said, t.session.ending.failure, t.reread) else said;
    if Inline(t) {
      SleepsSay(reported, Reconnected(owing.count + 1, EndingError(t), Over(t.userReads.inline, t.reread.rev)));
    } else if Forbidden(t) {
      SleepsSay(reported, WatchError(Report(Fatal, t.session.ending.failure), Auth));
    } else if ReachesBackoff(t) && t.wakes {
      SleepsSay(reported, Slept(owing.count + 1));
    }
  }

  lemma PendingSleeps(said: seq<Output>, owing: Owing, t: Turn)
    ensures Sleeps(PendingSays(said, owing, t))
         == if !t.reread.Loaded? && t.wakes then Sleeps(said) + [owing.count + 1] else Sleeps(said)
  {
    if t.reread.Loaded? {
      SleepsSay(said, Resynced(t.reread.rev));
      RecoverySleepsNot(Say(said, Resynced(t.reread.rev)), owing, Over(t.userReads.report, t.reread.rev));
    } else {
      var o := WatchError(Report(PendingResync, t.reread.failure), Transient);
      SleepsSay(said, o);
      if t.wakes { SleepsSay(Say(said, o), Slept(owing.count + 1)); }
    }
  }

  lemma TurnSleeps(said: seq<Output>, l: Loop, owing: Owing, revision: nat, t: Turn)
    requires l.running
    ensures Sleeps(TurnSays(said, l.startRev, l.pendingResync, owing, revision, t))
         == if SleepsOut(l, t) then Sleeps(said) + [OwedAfter(owing, l.pendingResync, t).count] else Sleeps(said)
  {
    if !t.cancelledAtHead {
      if l.pendingResync {
        PendingSleeps(said, owing, t);
      } else {
        var open := Say(said, Opened(l.startRev));
        SleepsSay(said, Opened(l.startRev));
        var header := MaxHeader(t.session.signals);
        RecoverySleepsNot(open, owing, Over(t.userReads.report, if header > 0 then header else revision));
        EndingSleeps(RespondedSays(open, owing, revision, t), AfterProgress(owing, t), t);
      }
    }
  }

  /** What is slept, over every run: each turn that fails and wakes asks the backoff for the number
      of consecutive failures up to and including it, as the script shows them, and no other turn sleeps. */
  lemma {:induction false} SleepsAreStreaks(cfg: Config, w: World, turns: seq<Turn>)
    ensures Sleeps(Announced(Run(cfg, Begin(cfg, w), turns).world.log))
         == Sleeps(Announced(w.log)) + RunSleeps(cfg, Begin(cfg, w), turns)
  {
    AnnouncementsAreScripted(cfg, w, turns);
    SleepsAreScripted(cfg, Announced(w.log), Begin(cfg, w), turns);
  }

  lemma {:induction false} SleepsAreScripted(cfg: Config, said: seq<Output>, s: State, turns: seq<Turn>)
    ensures Sleeps(RunSays(cfg, said, s, turns)) == Sleeps(said) + RunSleeps(cfg, s, turns)
  {
    if turns != [] {
      var front, t := turns[..|turns| - 1], turns[|turns| - 1];
      var mid := Run(cfg, s, front);
      assert turns == front + [t];
      SleepsAreScripted(cfg, said, s, front);
      FailuresFollow(cfg, s, front, t);
      if mid.loop.running {
        TurnSleeps(RunSays(cfg, said, s, front), mid.loop, Failures(cfg, s, front),
                   Over(t.userReads.head, mid.world.stats.revision), t);
        Associates(Sleeps(said), RunSleeps(cfg, s, front), [Streak(cfg, s, turns) as int]);
      }
    }
  }

  lemma LastSleepIsStreak(cfg: Config, w: World, front: seq<Turn>, t: Turn)
    requires SleepsOut(Run(cfg, Begin(cfg, w), front).loop, t)
    ensures var k := Streak(cfg, Begin(cfg, w), front + [t]);
            var slept := Sleeps(Announced(Run(cfg, Begin(cfg, w), front + [t]).world.log));
            k >= 1 && slept != [] && slept[|slept| - 1] == k
  {
    assert (front + [t])[..|front|] == front;
    SleepsAreStreaks(cfg, w, front + [t]);
    FailuresFollow(cfg, Begin(cfg, w), front, t);
  }

  /** The k-th consecutive failure is slept on with a ceiling of min doubled k - 1 times, up to max,
      for every min and max that the machine shift is exact for; the draw lies between min and that. */
  lemma KthSleepIsExponential(cfg: Config, w: World, front: seq<Turn>, t: Turn, k: nat, min: int, max: int, e: nat)
    requires SleepsOut(Run(cfg, Begin(cfg, w), front).loop, t) && k == Streak(cfg, Begin(cfg, w), front + [t])
    requires 0 < min <= max && Delays.Int64(max) && min % Delays.Pow2(e) == 0
    requires min * max < Delays.TWO_TO_THE_63 * Delays.Pow2(e)
    ensures var slept := Sleeps(Announced(Run(cfg, Begin(cfg, w), front + [t]).world.log));
            && k >= 1 && slept != [] && slept[|slept| - 1] == k
            && Delays.Backoff(slept[|slept| - 1], min, max)
               == Delays.Between(min, Delays.Min(min * Delays.Pow2(k - 1), max))
  {
    LastSleepIsStreak(cfg, w, front, t);
    Delays.DelayIsExponential(k, min, max, e);
  }
}
