/** Where the promises of the watch end: what happens when a response header runs ahead of its
    events, when the first watch is not pinned, when the user reads beside the watch, and when a
    watch is stopped and started again. Each says exactly when nothing is lost. */
module Boundaries {
  import opened History
  import opened Options
  import opened WatchModel
  import opened SessionLaws
  import opened LoopLaws
  import opened RetryLaws
  import opened RunLaws
  import opened Sequences
  import opened WatchTheorems

  // ----- the environment's promises can be kept

  /** A session that just closes, and that has sent the changes up to position p. */
  function CatchUp(cfg: Config, h: History, start: nat, p: nat, userReads: Reads): Turn
    requires start <= p <= |h|
  {
    var signals := if p == start then [] else [Response(p - 1, Changes(h, cfg.scope, start, p))];
    Turn(false, Session(signals, Closed), Refused(OtherError(0)), false, true, userReads)
  }

  lemma CatchUpIsFrontier(cfg: Config, h: History, start: nat, p: nat)
    requires 1 <= start <= p <= |h|
    ensures var signals := CatchUp(cfg, h, start, p, NO_READS).session.signals;
            && Frontier(cfg, h, start, signals) && PositionAfter(start, signals) == p
            && (p > start ==> MaxHeader(signals) == p - 1)
  {
    if p > start {
      var r := Response(p - 1, Changes(h, cfg.scope, start, p));
      var none: seq<Signal> := [];
      assert [r][..0] == none;
      assert PositionAfter(start, none) == start && Frontier(cfg, h, start, none);
      assert MaxHeader([r]) == p - 1;
    }
  }

  /** At every head about to open a session, and for every later position, some turn keeps etcd's
      promises and brings the loop there. */
  lemma PromisesCanBeKept(cfg: Config, h: History, s: State, p: nat) returns (t: Turn)
    requires FreshHead(h, s) && s.loop.startRev <= p <= |h|
    ensures FairTurn(cfg, h, s, t)
    ensures AboutToOpen(Iterate(cfg, s, t)) && Iterate(cfg, s, t).loop.startRev == p
  {
    t := CatchUp(cfg, h, s.loop.startRev, p, NO_READS);
    CatchUpIsFrontier(cfg, h, s.loop.startRev, p);
    ClosedSession(cfg, s, t);
  }

  /** So does one at every head with a resync pending, for every position above the compactions reported. */
  lemma PendingPromisesCanBeKept(cfg: Config, h: History, s: State, p: nat) returns (t: Turn)
    requires s.loop.running && s.loop.pendingResync && Settled(s, s.loop.startRev)
    requires 1 <= s.loop.startRev <= p <= |h| && Watching(s.world.log).floor < p
    ensures FairTurn(cfg, h, s, t)
    ensures AboutToOpen(Iterate(cfg, s, t)) && Iterate(cfg, s, t).loop.startRev == p
  {
    t := Turn(false, Session([], Closed), Loaded(p - 1, p - 1), false, true, NO_READS);
    IterateSeen(cfg, s, t);
    StopsIff(cfg, s, t);
  }

  predicate JustCloses(s: State, t: Turn) {
    AboutToOpen(s) && !t.cancelledAtHead && !t.cancelledAfter && t.wakes && t.session.ending.Closed?
  }

  /** A session that just closes moves the loop to its highest header, or leaves it in place. */
  lemma ClosedSession(cfg: Config, s: State, t: Turn)
    requires JustCloses(s, t)
    ensures var s' := Iterate(cfg, s, t);
            && AboutToOpen(s')
            && s'.loop.startRev == PositionAfter(s.loop.startRev, t.session.signals)
            && Stream(s'.world.log) == Stream(s.world.log) + Translate(cfg, Received(t.session.signals))
            && NewEvents(s.world, s'.world) == Translate(cfg, Received(t.session.signals))
  {
    IterateSeen(cfg, s, t);
    StopsIff(cfg, s, t);
  }

  // ----- headers ahead of their events

  /** The loop resumes after the highest header it saw, not after the last event. If a session
      that closes had sent only the changes below position x, the reconnect loses nothing exactly
      when no wanted change lies between x and that header. A created-notify response, or a
      catch-up batch whose header is already the current revision, is such a header. */
  lemma HeaderAheadIff(cfg: Config, h: History, s: State, t: Turn, x: nat)
    requires JustCloses(s, t)
    requires s.loop.startRev <= x <= PositionAfter(s.loop.startRev, t.session.signals) <= |h|
    requires Translate(cfg, Received(t.session.signals)) == Translate(cfg, Changes(h, cfg.scope, s.loop.startRev, x))
    ensures var s' := Iterate(cfg, s, t);
            var p := PositionAfter(s.loop.startRev, t.session.signals);
            && s'.loop.startRev == p
            && (NewEvents(s.world, s'.world) == Translate(cfg, Changes(h, cfg.scope, s.loop.startRev, p))
                <==> Translate(cfg, Changes(h, cfg.scope, x, p)) == [])
  {
    ClosedSession(cfg, s, t);
    var p := PositionAfter(s.loop.startRev, t.session.signals);
    var a, b := Changes(h, cfg.scope, s.loop.startRev, x), Changes(h, cfg.scope, x, p);
    ChangesConcatenate(h, cfg.scope, s.loop.startRev, x, p);
    TranslateConcatenates(cfg, a, b);
    assert |Translate(cfg, a) + Translate(cfg, b)| == |Translate(cfg, a)| + |Translate(cfg, b)|;
    if Translate(cfg, b) == [] { assert Translate(cfg, a) + Translate(cfg, b) == Translate(cfg, a); }
  }

  /** Such losses happen at every head: a response with a header and no changes, then a close. Any
      wanted change up to that header is skipped; it is not delivered, and the next watch starts after it. */
  lemma HeaderAheadLoses(cfg: Config, h: History, s: State, p: nat, c: Change, t: Turn)
    requires AboutToOpen(s) && s.loop.startRev <= c.rev < p <= |h| && p >= 2
    requires c in Changes(h, cfg.scope, c.rev, c.rev + 1) && Wanted(cfg, c.op)
    requires t == Turn(false, Session([Response(p - 1, [])], Closed), Refused(OtherError(0)), false, true, NO_READS)
    ensures var s' := Iterate(cfg, s, t);
            && ToEvent(cfg, c) in Translate(cfg, Changes(h, cfg.scope, s.loop.startRev, p))
            && NewEvents(s.world, s'.world) == []
            && s'.loop.startRev == p > c.rev
  {
    var r := Response(p - 1, []);
    var none: seq<Signal> := [];
    assert [r][..0] == none;
    assert MaxHeader([r]) == p - 1 && Received([r]) == [];
    ClosedSession(cfg, s, t);
    ChangeIsIn(h, cfg.scope, s.loop.startRev, p, c);
    TranslateIn(cfg, Changes(h, cfg.scope, s.loop.startRev, p), c);
  }

  // ----- the first watch

  /** The first watch is pinned to a revision exactly when resuming is on and a read has been made. */
  lemma FirstWatchPinnedIff(cfg: Config, h: History, w: World)
    requires w.stats.revision < |h|
    requires var m := Watching(w.log);
             m.clean && m.above && !m.doomed && m.floor <= w.stats.revision
    ensures FreshHead(h, Begin(cfg, w)) <==> cfg.resumeFromRevision && w.stats.revision > 0
    ensures FreshHead(h, Begin(cfg, w)) ==> Begin(cfg, w).loop.startRev == w.stats.revision + 1
  {
  }

  /** An unpinned watch whose session closes without a response delivers nothing and opens
      unpinned again: what was committed in between is not asked for. */
  lemma UnpinnedWatchForgets(cfg: Config, s: State, t: Turn)
    requires JustCloses(s, t) && s.loop.startRev == 0 && t.session.signals == []
    ensures var s' := Iterate(cfg, s, t);
            && AboutToOpen(s') && s'.loop.startRev == 0
            && NewEvents(s.world, s'.world) == []
            && !Watching(s'.world.log).above
  {
    ClosedSession(cfg, s, t);
    IterateSeen(cfg, s, t);
  }

  // ----- what the recovery reports tell

  lemma ReportsGrow(cfg: Config, s: State, r: SessionResult, t: Turn)
    ensures var (w, resynced) := TryHandleCompaction(cfg, s.world, r.fatalErr, t.reread);
            var s' := Resolve(cfg, s, r, t);
            && s.world.log <= s'.world.log
            && (resynced.Some? ==>
                  var last := s'.world.log[|s'.world.log| - 1];
                  && last.Reconnected? && last.attempts == s.loop.failedAttempts + 1
                  && last.lastErr == AsReport(r.fatalErr)
                  && last.revision == Over(t.userReads.inline, w.stats.revision))
  {
  }

  /** A session that recovers from failures and then meets compaction makes two reports in one turn.
      The first, sent when the session ends, names the revision before the next watch exactly when
      no inline re-read moves the position; otherwise only the second does. */
  lemma ProgressReportTellsIff(cfg: Config, s: State, t: Turn)
    requires AboutToOpen(s) && s.loop.failedAttempts > 0 && !t.cancelledAtHead && t.userReads == NO_READS
    requires MaxHeader(t.session.signals) > 0 && Responded(t.session.signals)
    ensures var s' := Iterate(cfg, s, t);
            var header := MaxHeader(t.session.signals);
            var ended := Consume(cfg, Emit(s.world, Opened(s.loop.startRev)), t.session).0;
            && |ended.log| < |s'.world.log|
            && s'.world.log[|ended.log|] == Reconnected(s.loop.failedAttempts, s.loop.lastFailErr, header)
            && (s'.loop.running ==> (s'.loop.startRev == header + 1 <==> !Inline(t) || t.reread.rev == header))
            && (Inline(t) ==>
                  && s'.world.log[|s'.world.log| - 1]
                     == Reconnected(1, Some(Report(Bare, t.session.ending.failure)), t.reread.rev)
                  && s'.loop.startRev == t.reread.rev + 1)
  {
    var atOpen := Emit(s.world, Opened(s.loop.startRev));
    SessionResultIs(cfg, atOpen, t.session);
    var (w, r) := Consume(cfg, atOpen, t.session);
    var s1 := SettleProgress(s.(world := w), r.madeProgress);
    var header := MaxHeader(t.session.signals);
    assert s1.world.log == w.log + [Reconnected(s.loop.failedAttempts, s.loop.lastFailErr, header)];
    assert StoreRead(w, 0) == w && StoreRead(s.world, 0) == s.world;
    ReportsGrow(cfg, s1, r, t);
    IterateSeen(cfg, s, t);
    CompactionRevision(cfg, s1.world, r.fatalErr, t.reread);
  }

  /** Such turns are fair: at every head that still owes a report, a response, compaction and a
      re-read at a later revision make two reports, and the watch opens where only the second says. */
  lemma FirstReportMisleads(cfg: Config, h: History, s: State, p: nat, c: nat, rev: nat) returns (t: Turn)
    requires FreshHead(h, s) && s.loop.failedAttempts > 0 && s.loop.startRev < p <= rev < |h|
    requires c <= rev && Watching(s.world.log).floor <= rev
    ensures FairTurn(cfg, h, s, t)
    ensures var s' := Iterate(cfg, s, t);
            && Reconnected(s.loop.failedAttempts, s.loop.lastFailErr, p - 1) in s'.world.log
            && s'.world.log[|s'.world.log| - 1] == Reconnected(1, Some(Report(Bare, Compacted(c))), rev)
            && s'.loop.startRev == rev + 1 > p
  {
    var signals := CatchUp(cfg, h, s.loop.startRev, p, NO_READS).session.signals;
    CatchUpIsFrontier(cfg, h, s.loop.startRev, p);
    t := Turn(false, Session(signals, Failed(Compacted(c))), Loaded(rev, rev), false, true, NO_READS);
    assert signals[0].Response?;
    ProgressReportTellsIff(cfg, s, t);
  }

  lemma CompactionRevision(cfg: Config, w: World, fatalErr: Option<Failure>, r: Reread)
    ensures var (w', resynced) := TryHandleCompaction(cfg, w, fatalErr, r);
            && (resynced.Some? <==> fatalErr.Some? && fatalErr.value.Compacted? && r.Loaded?)
            && (resynced.Some? ==> w'.stats.revision == r.rev)
  {
  }

  // ----- reads beside the watch

  /** The provider's revision can fall: a response stores its header over a later revision that a
      user's Read has stored. The delivery and the watch position are not touched. */
  lemma RevisionCanFall(cfg: Config, h: History, s: State, p: nat, r: nat)
    requires FreshHead(h, s) && s.loop.startRev < p <= r && p <= |h|
    ensures var t := CatchUp(cfg, h, s.loop.startRev, p, Reads(r, 0, 0));
            var s' := Iterate(cfg, s, t);
            && FairTurn(cfg, h, s, t)
            && StoreRead(s.world, t.userReads.head).stats.revision == r > s'.world.stats.revision == p - 1
            && AboutToOpen(s') && s'.loop.startRev == p
  {
    var t := CatchUp(cfg, h, s.loop.startRev, p, Reads(r, 0, 0));
    CatchUpIsFrontier(cfg, h, s.loop.startRev, p);
    ClosedSession(cfg, s, t);
    IterateSeen(cfg, s, t);
  }

  /** A Read that was answered early and stores late moves the next watch to where it was answered,
      behind the position or ahead of it. */
  lemma LateReadMovesRestart(cfg: Config, h: History, s: State, r: nat, t: Turn)
    requires cfg.resumeFromRevision && s.loop.running && r > 0
    requires t.cancelledAtHead && t.userReads.head == r
    ensures FairTurn(cfg, h, s, t)
    ensures Stream(Iterate(cfg, s, t).world.log) == Stream(s.world.log)
    ensures Begin(cfg, Iterate(cfg, s, t).world).loop.startRev == r + 1
  {
    IterateSeen(cfg, s, t);
  }

  /** The loop loads the re-read's revision back from where the user's Reads store theirs. The resync
      event and the next watch follow what it loads; and if etcd keeps its promises, the turn keeps
      its place exactly when what it loads is at or past the position and every compaction seen. */
  lemma RereadKeepsPlaceIff(cfg: Config, h: History, s: State, t: Turn)
    requires 1 <= s.loop.startRev <= |h| && Settled(s, s.loop.startRev)
    requires EtcdIsFair(cfg, h, s, t) && Rereads(s, t) && t.reread.Loaded?
    ensures var s' := Iterate(cfg, s, t);
            && AboutToOpen(s') && s'.loop.startRev == t.reread.rev + 1
            && ResyncEvent(t.reread.rev) in NewEvents(s.world, s'.world)
    ensures TurnKeeps(cfg, h, s, Iterate(cfg, s, t), TurnSpans(s, t), s.loop.startRev)
       <==> LoadsOnward(h, t.reread, RereadFrom(s.loop, t), RereadFloor(s, t))
  {
    var s', at := Iterate(cfg, s, t), s.loop.startRev;
    if LoadsOnward(h, t.reread, RereadFrom(s.loop, t), RereadFloor(s, t)) { TurnIsChained(cfg, h, s, t, at); }
    RereadMoves(cfg, s, t);
    if TurnKeeps(cfg, h, s, s', TurnSpans(s, t), at) { KeptIsOnward(cfg, h, s, t); }
  }

  lemma RereadMoves(cfg: Config, s: State, t: Turn)
    requires Rereads(s, t) && t.reread.Loaded?
    ensures var s' := Iterate(cfg, s, t);
            && AboutToOpen(s') && s'.loop.startRev == t.reread.rev + 1
            && Watching(s'.world.log).floor == RereadFloor(s, t)
            && ResyncEvent(t.reread.rev) in NewEvents(s.world, s'.world)
  {
    IterateSeen(cfg, s, t);
    StopsIff(cfg, s, t);
    var s' := Iterate(cfg, s, t);
    var live := if s.loop.pendingResync then [] else Translate(cfg, Received(t.session.signals));
    assert Stream(s.world.log) + [] == Stream(s.world.log);
    AppendedIsNew(s.world, s'.world, live, ResyncEvent(t.reread.rev));
  }

  lemma AppendedIsNew(w: World, w': World, live: seq<Event>, last: Event)
    requires Stream(w'.log) == Stream(w.log) + live + [last]
    ensures last in NewEvents(w, w')
  {
    Associates(Stream(w.log), live, [last]);
    assert NewEvents(w, w') == live + [last];
  }

  lemma KeptIsOnward(cfg: Config, h: History, s: State, t: Turn)
    requires Rereads(s, t) && t.reread.Loaded?
    requires TurnKeeps(cfg, h, s, Iterate(cfg, s, t), TurnSpans(s, t), s.loop.startRev)
    ensures LoadsOnward(h, t.reread, RereadFrom(s.loop, t), RereadFloor(s, t))
  {
    RereadMoves(cfg, s, t);
    var spans := TurnSpans(s, t);
    assert spans[|spans| - 1] == Jump(t.reread.rev);
    assert Follows(h, End(spans[..|spans| - 1], s.loop.startRev), Jump(t.reread.rev));
    if !s.loop.pendingResync {
      assert spans[..1] == [Live(s.loop.startRev, RereadFrom(s.loop, t))];
    }
  }

  /** The race is real: at every head, compaction at c, a re-read served beyond it, and a user's Read
      served before it that stores between the re-read's store and its load. The loop tells the
      consumer the old revision, and opens the next watch at or below the compacted one. */
  lemma EarlyReadWinsRace(cfg: Config, h: History, s: State, c: nat, found: nat, early: nat, wakes: bool)
    requires FreshHead(h, s) && s.loop.startRev <= found + 1 <= |h|
    requires early < c <= found && Watching(s.world.log).floor <= found
    ensures var t := Turn(false, Session([], Failed(Compacted(c))), Loaded(found, early), false, wakes, NO_READS);
            var s' := Iterate(cfg, s, t);
            && EtcdIsFair(cfg, h, s, t)
            && AboutToOpen(s') && s'.loop.startRev == early + 1 <= c <= Watching(s'.world.log).floor
            && ResyncEvent(early) in NewEvents(s.world, s'.world)
            && !TurnKeeps(cfg, h, s, s', TurnSpans(s, t), s.loop.startRev)
  {
    var t := Turn(false, Session([], Failed(Compacted(c))), Loaded(found, early), false, wakes, NO_READS);
    RereadMoves(cfg, s, t);
    RereadKeepsPlaceIff(cfg, h, s, t);
  }

  // ----- stopping a watch and starting another

  /** A watch that stops with no resync pending can be followed by another without a Read in
      between: the new loop begins where the delivered chain ended, or just after a revision that a
      user's Read has stored. While the user makes no Read it never begins earlier, pending or not. */
  lemma RestartIsSeamless(cfg: Config, h: History, s: State, turns: seq<Turn>)
    requires cfg.resumeFromRevision && s.loop.startRev >= 2
    requires FreshHead(h, s) && FairRun(cfg, h, s, turns) && Punctual(s, s.loop.startRev, {})
    ensures SeamlessNext(cfg, h, Run(cfg, s, turns), End(RunSpans(cfg, s, turns), s.loop.startRev), RunReads(turns))
  {
    var s', at := Run(cfg, s, turns), End(RunSpans(cfg, s, turns), s.loop.startRev);
    StopsPunctual(cfg, h, s, turns, s', at);
    NextWatch(cfg, h, s', at, RunReads(turns));
  }

  /** A watch at position `at` is stopped in s and another is started; `past` is what user Reads have stored. */
  predicate SeamlessNext(cfg: Config, h: History, s: State, at: nat, past: set<nat>) {
    var next := Begin(cfg, s.world);
    && (!s.loop.pendingResync ==> next.loop.startRev == at || next.loop.startRev - 1 in past)
    && (!s.loop.pendingResync && next.loop.startRev == at ==> FreshHead(h, next))
    && (past == {} ==> at <= next.loop.startRev && (!s.loop.pendingResync ==> Punctual(next, at, {})))
  }

  lemma StopsPunctual(cfg: Config, h: History, s: State, turns: seq<Turn>, s': State, at: nat)
    requires FreshHead(h, s) && FairRun(cfg, h, s, turns) && Punctual(s, s.loop.startRev, {})
    requires s' == Run(cfg, s, turns) && at == End(RunSpans(cfg, s, turns), s.loop.startRev)
    ensures s.loop.startRev <= at <= |h| && Settled(s', at) && Punctual(s', at, RunReads(turns))
    ensures 0 !in RunReads(turns)
  {
    DeliveryIsGapFree(cfg, h, s, turns);
    EndIsReached(h, RunSpans(cfg, s, turns), s.loop.startRev);
    LastReportTells(cfg, h, s, turns, {});
    assert {} + RunReads(turns) == RunReads(turns);
    ReadsArePositive(turns);
  }

  lemma {:induction false} ReadsArePositive(turns: seq<Turn>)
    ensures 0 !in RunReads(turns)
  {
    if turns != [] { ReadsArePositive(turns[..|turns| - 1]); }
  }

  lemma NextWatch(cfg: Config, h: History, s: State, at: nat, past: set<nat>)
    requires cfg.resumeFromRevision && 2 <= at <= |h| && 0 !in past
    requires Settled(s, at) && Punctual(s, at, past)
    ensures SeamlessNext(cfg, h, s, at, past)
  {
  }

  /** The provider's revision was last written by something other than the watch's progress: by a
      user's Read of another revision, or by a re-read that was refused after storing one. */
  predicate StoredElsewhere(cfg: Config, s: State, turns: seq<Turn>) {
    turns != [] &&
    var front := turns[..|turns| - 1];
    var t := turns[|turns| - 1];
    var mid := Run(cfg, s, front);
    var at := End(RunSpans(cfg, s, front), s.loop.startRev);
    if !mid.loop.running then StoredElsewhere(cfg, s, front)
    else
      var before := ReadElsewhere(t.userReads.head, at, StoredElsewhere(cfg, s, front));
      if t.cancelledAtHead then before
      else if mid.loop.pendingResync then RereadElsewhere(t.reread, at, before, t.userReads.report)
      else
        var reached := PositionAfter(at, t.session.signals);
        var after := ReadElsewhere(t.userReads.report, reached, MaxHeader(t.session.signals) == 0 && before);
        if Compacts(t) then RereadElsewhere(t.reread, reached, after, t.userReads.inline) else after
  }

  /** A user's Read, if there was one, has stored something else than the revision before `at`. */
  predicate ReadElsewhere(userRead: nat, at: nat, before: bool) {
    if userRead > 0 then userRead + 1 != at else before
  }

  predicate RereadElsewhere(r: Reread, at: nat, before: bool, userRead: nat) {
    match r
    case Loaded(_, rev) => ReadElsewhere(userRead, rev + 1, false)
    case Refused(_) => before
    case RefusedAfterStore(rev, _) => rev + 1 != at
  }

  /** The revision is not the one before the position `at`. */
  predicate Elsewhere(see: Sight, at: nat) {
    see.revision + 1 != at
  }

  lemma SessionElsewhereIff(cfg: Config, see: Sight, l: Loop, t: Turn, at: nat, before: bool)
    requires at >= 1 && !l.pendingResync && !t.cancelledAtHead && (Elsewhere(see, at) <==> before)
    ensures var reached := PositionAfter(at, t.session.signals);
            var after := ReadElsewhere(t.userReads.report, reached, MaxHeader(t.session.signals) == 0 && before);
            Elsewhere(SightAfter(cfg, see, l, t), if Inline(t) then t.reread.rev + 1 else reached)
            <==> if Compacts(t) then RereadElsewhere(t.reread, reached, after, t.userReads.inline) else after
  {
  }

  lemma PendingElsewhereIff(cfg: Config, see: Sight, l: Loop, t: Turn, at: nat, before: bool)
    requires l.pendingResync && !t.cancelledAtHead && (Elsewhere(see, at) <==> before)
    ensures Elsewhere(SightAfter(cfg, see, l, t), if t.reread.Loaded? then t.reread.rev + 1 else at)
       <==> RereadElsewhere(t.reread, at, before, t.userReads.report)
  {
  }

  lemma ElsewhereAfterTurn(cfg: Config, mid: State, t: Turn, at: nat, before: bool)
    requires mid.loop.running && !t.cancelledAtHead && mid.loop.startRev == at >= 1
    requires mid.world.stats.revision + 1 != at <==> before
    ensures var head := ReadElsewhere(t.userReads.head, at, before);
            Iterate(cfg, mid, t).world.stats.revision + 1 != End(TurnSpans(mid, t), at) <==>
              if mid.loop.pendingResync then RereadElsewhere(t.reread, at, head, t.userReads.report)
              else
                var reached := PositionAfter(at, t.session.signals);
                var after := ReadElsewhere(t.userReads.report, reached, MaxHeader(t.session.signals) == 0 && head);
                if Compacts(t) then RereadElsewhere(t.reread, reached, after, t.userReads.inline) else after
  {
    IterateSeen(cfg, mid, t);
    var see := SightOf(mid.world).(revision := Over(t.userReads.head, mid.world.stats.revision));
    var head := ReadElsewhere(t.userReads.head, at, before);
    if mid.loop.pendingResync {
      PendingElsewhereIff(cfg, see, mid.loop, t, at, head);
    } else {
      SessionElsewhereIff(cfg, see, mid.loop, t, at, head);
    }
  }

  lemma {:induction false} ElsewhereIffStored(cfg: Config, h: History, s: State, turns: seq<Turn>)
    requires FreshHead(h, s) && FairRun(cfg, h, s, turns) && s.world.stats.revision + 1 == s.loop.startRev
    ensures Run(cfg, s, turns).world.stats.revision + 1 != End(RunSpans(cfg, s, turns), s.loop.startRev)
       <==> StoredElsewhere(cfg, s, turns)
  {
    if turns != [] {
      var front := turns[..|turns| - 1];
      var t := turns[|turns| - 1];
      ElsewhereIffStored(cfg, h, s, front);
      DeliveryIsGapFree(cfg, h, s, front);
      var mid := Run(cfg, s, front);
      var at := End(RunSpans(cfg, s, front), s.loop.startRev);
      EndIsReached(h, RunSpans(cfg, s, front), s.loop.startRev);
      EndAppends(RunSpans(cfg, s, front), TurnSpans(mid, t), s.loop.startRev);
      if mid.loop.running {
        IterateSeen(cfg, mid, t);
        if !t.cancelledAtHead { ElsewhereAfterTurn(cfg, mid, t, at, StoredElsewhere(cfg, s, front)); }
      }
    }
  }

  /** Exactly when a stopped watch can be followed by another without a Read: the new loop begins
      where the delivered chain ended unless the provider's revision was last written elsewhere. */
  lemma RestartIsExactIff(cfg: Config, h: History, s: State, turns: seq<Turn>)
    requires cfg.resumeFromRevision
    requires FreshHead(h, s) && s.loop.startRev >= 2 && FairRun(cfg, h, s, turns)
    requires s.world.stats.revision + 1 == s.loop.startRev
    ensures Begin(cfg, Run(cfg, s, turns).world).loop.startRev == End(RunSpans(cfg, s, turns), s.loop.startRev)
       <==> !StoredElsewhere(cfg, s, turns)
  {
    DeliveryIsGapFree(cfg, h, s, turns);
    EndIsReached(h, RunSpans(cfg, s, turns), s.loop.startRev);
    ElsewhereIffStored(cfg, h, s, turns);
  }

  /** With a resync pending it can begin too late. The re-read after compaction stores its
      revision before it can fail, for instance on a path collision; if the watch is then
      cancelled and started again without a Read, the new watch starts after that revision.
      The changes in between are neither delivered nor covered by a resync. */
  lemma RefusedRereadThenRestartSkips(cfg: Config, h: History, s: State, c: nat, rev: nat, f: Failure, wakes: bool)
    requires cfg.resumeFromRevision
    requires FreshHead(h, s) && s.loop.startRev <= rev < |h|
    requires c <= rev && Watching(s.world.log).floor <= rev
    ensures var t := Turn(false, Session([], Failed(Compacted(c))), RefusedAfterStore(rev, f), true, wakes, NO_READS);
            var s' := Iterate(cfg, s, t);
            && FairTurn(cfg, h, s, t)
            && !s'.loop.running && s'.loop.pendingResync
            && NewEvents(s.world, s'.world) == []
            && Begin(cfg, s'.world).loop.startRev == rev + 1 > s.loop.startRev
  {
    var t := Turn(false, Session([], Failed(Compacted(c))), RefusedAfterStore(rev, f), true, wakes, NO_READS);
    IterateSeen(cfg, s, t);
    StopsIff(cfg, s, t);
  }
}
