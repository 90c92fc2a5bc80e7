/** The main results about whole runs of the watch. */
module WatchTheorems {
  import opened History
  import opened Sequences
  import opened WatchModel
  import opened SessionLaws
  import opened LoopLaws
  import opened RunLaws

  // ----- chains of spans

  lemma EndAppends(spans: seq<Span>, more: seq<Span>, from: nat)
    ensures End(spans + more, from) == End(more, End(spans, from))
  {
    if more == [] { assert spans + more == spans; } else { SnocFront(spans, more); }
  }

  lemma {:induction false} ChainAppends(h: History, spans: seq<Span>, more: seq<Span>, from: nat)
    requires Chained(h, spans, from) && Chained(h, more, End(spans, from))
    ensures Chained(h, spans + more, from)
  {
    if more == [] {
      assert spans + more == spans;
    } else {
      var front := more[..|more| - 1];
      ChainAppends(h, spans, front, from);
      EndAppends(spans, front, from);
      SnocFront(spans, more);
    }
  }

  lemma ExpandSnoc(cfg: Config, h: History, spans: seq<Span>, last: Span)
    ensures Expand(cfg, h, spans + [last]) == Expand(cfg, h, spans) + SpanEvents(cfg, h, last)
  {
    assert (spans + [last])[..|spans|] == spans;
  }

  lemma {:induction false} ExpandAppends(cfg: Config, h: History, spans: seq<Span>, more: seq<Span>)
    ensures Expand(cfg, h, spans + more) == Expand(cfg, h, spans) + Expand(cfg, h, more)
  {
    if more == [] {
      assert spans + more == spans;
    } else {
      var front, last := more[..|more| - 1], more[|more| - 1];
      assert more == front + [last];
      ExpandAppends(cfg, h, spans, front);
      ExpandAppendsOne(cfg, h, spans, front, last);
    }
  }

  lemma ExpandAppendsOne(cfg: Config, h: History, spans: seq<Span>, front: seq<Span>, last: Span)
    requires Expand(cfg, h, spans + front) == Expand(cfg, h, spans) + Expand(cfg, h, front)
    ensures Expand(cfg, h, spans + (front + [last])) == Expand(cfg, h, spans) + Expand(cfg, h, front + [last])
  {
    Associates(spans, front, [last]);
    ExpandSnoc(cfg, h, spans + front, last);
    ExpandSnoc(cfg, h, front, last);
    Associates(Expand(cfg, h, spans), Expand(cfg, h, front), SpanEvents(cfg, h, last));
  }

  lemma ChainOne(cfg: Config, h: History, a: Span, from: nat)
    requires from <= |h| && Follows(h, from, a)
    ensures Chained(h, [a], from)
    ensures Expand(cfg, h, [a]) == SpanEvents(cfg, h, a)
    ensures End([a], from) == if a.Live? then a.hi else a.rev + 1
  {
    assert [a][..0] == [];
  }

  lemma ChainTwo(cfg: Config, h: History, a: Span, b: Span, from: nat)
    requires from <= |h| && Follows(h, from, a) && Follows(h, End([a], from), b)
    ensures Chained(h, [a, b], from)
    ensures Expand(cfg, h, [a, b]) == SpanEvents(cfg, h, a) + SpanEvents(cfg, h, b)
    ensures End([a, b], from) == if b.Live? then b.hi else b.rev + 1
  {
    ChainOne(cfg, h, a, from);
    assert [a, b][..1] == [a];
  }

  lemma {:induction false} EndIsReached(h: History, spans: seq<Span>, from: nat)
    requires Chained(h, spans, from)
    ensures from <= End(spans, from) <= |h|
  {
    if spans != [] { EndIsReached(h, spans[..|spans| - 1], from); }
  }

  lemma PendingTurnIsChained(cfg: Config, h: History, s: State, t: Turn)
    requires s.loop.running && !t.cancelledAtHead && s.loop.pendingResync
    requires FairTurn(cfg, h, s, t)
    requires 1 <= s.loop.startRev <= |h| && Settled(s, s.loop.startRev)
    ensures TurnKeeps(cfg, h, s, Iterate(cfg, s, t), TurnSpans(s, t), s.loop.startRev)
  {
    PendingTurn(cfg, h, s, t);
    if t.reread.Loaded? { ChainOne(cfg, h, Jump(t.reread.rev), s.loop.startRev); }
  }

  lemma SessionTurnIsChained(cfg: Config, h: History, s: State, t: Turn)
    requires s.loop.running && !t.cancelledAtHead && !s.loop.pendingResync
    requires FairTurn(cfg, h, s, t)
    requires 1 <= s.loop.startRev <= |h| && Settled(s, s.loop.startRev)
    ensures TurnKeeps(cfg, h, s, Iterate(cfg, s, t), TurnSpans(s, t), s.loop.startRev)
  {
    FrontierReceives(cfg, h, s.loop.startRev, t.session.signals);
    SessionTurn(cfg, h, s, t);
    SessionSpans(cfg, h, s, Iterate(cfg, s, t), t, PositionAfter(s.loop.startRev, t.session.signals));
  }

  lemma SessionSpans(cfg: Config, h: History, s: State, s': State, t: Turn, p: nat)
    requires s.loop.running && !t.cancelledAtHead && !s.loop.pendingResync
    requires s.loop.startRev <= p == PositionAfter(s.loop.startRev, t.session.signals) <= |h|
    requires Inline(t) ==> p <= t.reread.rev + 1 <= |h|
    requires Settled(s', if Inline(t) then t.reread.rev + 1 else p)
    requires Stream(s'.world.log) == Stream(s.world.log) + Translate(cfg, Changes(h, cfg.scope, s.loop.startRev, p))
                                     + (if Inline(t) then [ResyncEvent(t.reread.rev)] else [])
    ensures TurnKeeps(cfg, h, s, s', TurnSpans(s, t), s.loop.startRev)
  {
    var live := Live(s.loop.startRev, p);
    ChainOne(cfg, h, live, s.loop.startRev);
    if Inline(t) {
      ChainTwo(cfg, h, live, Jump(t.reread.rev), s.loop.startRev);
      Associates(Stream(s.world.log), SpanEvents(cfg, h, live), [ResyncEvent(t.reread.rev)]);
    }
  }

  /** A turn from s to s' at position `at` delivered exactly these spans. */
  predicate TurnKeeps(cfg: Config, h: History, s: State, s': State, spans: seq<Span>, at: nat) {
    && Chained(h, spans, at)
    && Settled(s', End(spans, at))
    && Stream(s'.world.log) == Stream(s.world.log) + Expand(cfg, h, spans)
  }

  lemma TurnIsChained(cfg: Config, h: History, s: State, t: Turn, at: nat)
    requires FairTurn(cfg, h, s, t)
    requires s.loop.running ==> s.loop.startRev == at
    requires 1 <= at <= |h| && Settled(s, at)
    ensures TurnKeeps(cfg, h, s, Iterate(cfg, s, t), TurnSpans(s, t), at)
  {
    if s.loop.running && !t.cancelledAtHead {
      if s.loop.pendingResync { PendingTurnIsChained(cfg, h, s, t); } else { SessionTurnIsChained(cfg, h, s, t); }
    }
  }

  /** A loop head as the first Watch after a Read finds it: nothing pending, positioned just after the read. */
  predicate FreshHead(h: History, s: State) {
    && s.loop.running && !s.loop.pendingResync
    && 1 <= s.loop.startRev <= |h|
    && Settled(s, s.loop.startRev)
  }

  /** Gap-free delivery. For every run in which etcd keeps its promises, through any mix of
      closed, failed and compacted sessions, refused re-reads and cancellation: what was
      delivered is exactly a chain of history spans and resyncs starting at the first watch
      revision, with no span missing, repeated or out of order; and at every loop head the
      next watch or re-read continues at the end of that chain. */
  lemma {:induction false} DeliveryIsGapFree(cfg: Config, h: History, s: State, turns: seq<Turn>)
    requires FreshHead(h, s) && FairRun(cfg, h, s, turns)
    ensures TurnKeeps(cfg, h, s, Run(cfg, s, turns), RunSpans(cfg, s, turns), s.loop.startRev)
  {
    if turns != [] {
      var front := turns[..|turns| - 1];
      var last := turns[|turns| - 1];
      DeliveryIsGapFree(cfg, h, s, front);
      var mid, spans := Run(cfg, s, front), RunSpans(cfg, s, front);
      EndIsReached(h, spans, s.loop.startRev);
      TurnIsChained(cfg, h, mid, last, End(spans, s.loop.startRev));
      KeepsCompose(cfg, h, s, mid, Iterate(cfg, mid, last), spans, TurnSpans(mid, last), s.loop.startRev);
    }
  }

  lemma KeepsCompose(cfg: Config, h: History, s: State, mid: State, s': State, a: seq<Span>, b: seq<Span>, at: nat)
    requires TurnKeeps(cfg, h, s, mid, a, at) && TurnKeeps(cfg, h, mid, s', b, End(a, at))
    ensures TurnKeeps(cfg, h, s, s', a + b, at)
  {
    ChainAppends(h, a, b, at);
    EndAppends(a, b, at);
    ExpandAppends(cfg, h, a, b);
    Associates(Stream(s.world.log), Expand(cfg, h, a), Expand(cfg, h, b));
  }

  // ----- compaction, reports and the revision

  /** A resync is pending exactly while compaction has been reported and no resync has completed,
      and no watch has been opened meanwhile. */
  predicate DoomIsPending(s: State) {
    var m := Watching(s.world.log);
    m.clean && (s.loop.running ==> (s.loop.pendingResync <==> m.doomed))
  }

  lemma SightKeepsDoom(cfg: Config, see: Sight, l: Loop, l': Loop, t: Turn)
    requires see.watcher.clean && (l.pendingResync <==> see.watcher.doomed) && LoopAfter(l, l', t)
    ensures var m := SightAfter(cfg, see, l, t).watcher;
            m.clean && (l'.running ==> (l'.pendingResync <==> m.doomed))
  {
  }

  lemma TurnKeepsDoom(cfg: Config, s: State, t: Turn)
    requires DoomIsPending(s)
    ensures DoomIsPending(Iterate(cfg, s, t))
  {
    if s.loop.running {
      IterateSeen(cfg, s, t);
      var see := SightOf(s.world).(revision := Over(t.userReads.head, s.world.stats.revision));
      SightKeepsDoom(cfg, see, s.loop, Iterate(cfg, s, t).loop, t);
    }
  }

  /** No doomed watch, under every environment, pinned or not: from the moment compaction is
      reported no Watch RPC is issued until a resync completes. */
  lemma {:induction false} NoDoomedWatch(cfg: Config, w: World, turns: seq<Turn>)
    requires Watching(w.log).clean && !Watching(w.log).doomed
    ensures DoomIsPending(Run(cfg, Begin(cfg, w), turns))
  {
    if turns != [] {
      NoDoomedWatch(cfg, w, turns[..|turns| - 1]);
      TurnKeepsDoom(cfg, Run(cfg, Begin(cfg, w), turns[..|turns| - 1]), turns[|turns| - 1]);
    }
  }

  /** Every watch opened in a fair run starts strictly above every compacted revision reported before it. */
  lemma OpensAboveCompaction(cfg: Config, h: History, s: State, turns: seq<Turn>)
    requires FreshHead(h, s) && FairRun(cfg, h, s, turns)
    ensures var s' := Run(cfg, s, turns);
            && Watching(s'.world.log).above
            && (AboutToOpen(s') ==> s'.loop.startRev > Watching(s'.world.log).floor)
  {
    DeliveryIsGapFree(cfg, h, s, turns);
  }

  /** The revision v is the one just before position `at`, or one that a user's Read has stored. */
  predicate Told(v: nat, at: nat, past: set<nat>) {
    v + 1 == at || v in past
  }

  /** The provider's revision, and the last recovery report, tell where the next watch opens. `past`
      holds the revisions that the user's Reads have stored; without any, they tell it exactly. */
  predicate TellsNext(see: Sight, l: Loop, at: nat, past: set<nat>) {
    && (past == {} ==> see.watcher.exact && see.revision + 1 >= at)
    && (l.running && l.pendingResync ==> l.failedAttempts >= 1)
    && (!l.pendingResync ==>
          && Told(see.revision, at, past)
          && (see.watcher.promised.Some? ==> Told(see.watcher.promised.value, at, past)))
  }

  predicate Punctual(s: State, at: nat, past: set<nat>) {
    TellsNext(SightOf(s.world), s.loop, at, past)
  }

  lemma SessionTells(cfg: Config, h: History, see: Sight, l: Loop, t: Turn, at: nat, past: set<nat>)
    requires l.running && !l.pendingResync && l.startRev >= 1 && TellsNext(see, l, l.startRev, past)
    requires Frontier(cfg, h, l.startRev, t.session.signals) && at == PositionAfter(l.startRev, t.session.signals)
    requires t.userReads.report > 0 ==> t.userReads.report in past
    ensures TellsNext(SessionSight(cfg, see, l, t), l.(startRev := at), at, past)
  {
    FrontierReceives(cfg, h, l.startRev, t.session.signals);
  }

  lemma CompactionTells(one: Sight, l: Loop, l': Loop, c: nat, r: Reread, inline: nat, at: nat, past: set<nat>)
    requires TellsNext(one, l, at, past) && !l.pendingResync
    requires inline > 0 ==> inline in past
    requires r.RefusedAfterStore? ==> r.rev + 1 >= at
    requires l'.pendingResync == !r.Loaded? && (l'.running && l'.pendingResync ==> l'.failedAttempts >= 1)
    ensures TellsNext(CompactionSight(one, c, r, inline), l', if r.Loaded? then r.rev + 1 else at, past)
  {
  }

  lemma SessionTurnTells(cfg: Config, h: History, s: State, t: Turn, past: set<nat>)
    requires s.loop.running && !s.loop.pendingResync && !t.cancelledAtHead && s.loop.startRev >= 1
    requires FairTurn(cfg, h, s, t) && Punctual(s, s.loop.startRev, past)
    ensures Punctual(Iterate(cfg, s, t), End(TurnSpans(s, t), s.loop.startRev), past + TurnReads(t))
  {
    IterateSeen(cfg, s, t);
    var all := past + TurnReads(t);
    var see := SightOf(s.world).(revision := Over(t.userReads.head, s.world.stats.revision));
    var at := PositionAfter(s.loop.startRev, t.session.signals);
    SessionTells(cfg, h, see, s.loop, t, at, all);
    if Compacts(t) {
      CompactionTells(SessionSight(cfg, see, s.loop, t), s.loop.(startRev := at), Iterate(cfg, s, t).loop,
                      t.session.ending.failure.at, t.reread, t.userReads.inline, at, all);
    }
  }

  lemma TurnTells(cfg: Config, h: History, s: State, t: Turn, at: nat, past: set<nat>)
    requires FairTurn(cfg, h, s, t) && Punctual(s, at, past)
    requires s.loop.running ==> s.loop.startRev == at >= 1
    ensures Punctual(Iterate(cfg, s, t), End(TurnSpans(s, t), at), past + TurnReads(t))
  {
    if s.loop.running {
      if t.cancelledAtHead || s.loop.pendingResync {
        IterateSeen(cfg, s, t);
      } else {
        SessionTurnTells(cfg, h, s, t, past);
      }
    }
  }

  /** What OnReconnect and Revision tell of the next watch, over every fair run. While the user
      makes no Read, every watch opens just after the last revision reported before it, and at every
      head about to open it will open just after the provider's revision. With user Reads either may
      be ahead or behind, and then it is a revision that such a Read has stored. */
  lemma {:induction false} LastReportTells(cfg: Config, h: History, s: State, turns: seq<Turn>, past: set<nat>)
    requires FreshHead(h, s) && FairRun(cfg, h, s, turns) && Punctual(s, s.loop.startRev, past)
    ensures Punctual(Run(cfg, s, turns), End(RunSpans(cfg, s, turns), s.loop.startRev), past + RunReads(turns))
    ensures past + RunReads(turns) == {} && AboutToOpen(Run(cfg, s, turns)) ==>
              Run(cfg, s, turns).loop.startRev == Run(cfg, s, turns).world.stats.revision + 1
  {
    DeliveryIsGapFree(cfg, h, s, turns);
    if turns == [] {
      assert past + {} == past;
    } else {
      var front, t := turns[..|turns| - 1], turns[|turns| - 1];
      LastReportTells(cfg, h, s, front, past);
      DeliveryIsGapFree(cfg, h, s, front);
      var mid, at := Run(cfg, s, front), End(RunSpans(cfg, s, front), s.loop.startRev);
      EndIsReached(h, RunSpans(cfg, s, front), s.loop.startRev);
      TurnTells(cfg, h, mid, t, at, past + RunReads(front));
      EndAppends(RunSpans(cfg, s, front), TurnSpans(mid, t), s.loop.startRev);
      assert past + RunReads(front) + TurnReads(t) == past + RunReads(turns);
    }
  }

  /** A loop head where a session is about to open. */
  predicate AboutToOpen(s: State) {
    s.loop.running && !s.loop.pendingResync
  }

  lemma {:induction false} RunReadsOfPrefix(turns: seq<Turn>, i: nat)
    requires i <= |turns|
    ensures RunReads(turns[..i]) <= RunReads(turns)
  {
    if i == |turns| {
      assert turns[..i] == turns;
    } else {
      RunReadsOfPrefix(turns[..|turns| - 1], i);
      assert turns[..|turns| - 1][..i] == turns[..i];
    }
  }

  /** From one such head to any later one the watch position never goes back; nor does the
      provider's revision, as long as the user makes no Read. */
  lemma RevisionOnlyGrows(cfg: Config, h: History, s: State, turns: seq<Turn>, i: nat)
    requires FreshHead(h, s) && FairRun(cfg, h, s, turns) && i <= |turns|
    requires AboutToOpen(Run(cfg, s, turns[..i])) && AboutToOpen(Run(cfg, s, turns))
    ensures Run(cfg, s, turns[..i]).loop.startRev <= Run(cfg, s, turns).loop.startRev
    ensures Punctual(s, s.loop.startRev, {}) && RunReads(turns) == {} ==>
              Run(cfg, s, turns[..i]).world.stats.revision <= Run(cfg, s, turns).world.stats.revision
  {
    PositionOnlyGrows(cfg, h, s, turns, i);
    DeliveryIsGapFree(cfg, h, s, turns);
    DeliveryIsGapFree(cfg, h, s, turns[..i]);
    if Punctual(s, s.loop.startRev, {}) && RunReads(turns) == {} {
      RunReadsOfPrefix(turns, i);
      LastReportTells(cfg, h, s, turns, {});
      LastReportTells(cfg, h, s, turns[..i], {});
    }
  }

  lemma {:induction false} PositionOnlyGrows(cfg: Config, h: History, s: State, turns: seq<Turn>, i: nat)
    requires FreshHead(h, s) && FairRun(cfg, h, s, turns) && i <= |turns|
    ensures FairRun(cfg, h, s, turns[..i])
    ensures End(RunSpans(cfg, s, turns[..i]), s.loop.startRev) <= End(RunSpans(cfg, s, turns), s.loop.startRev)
  {
    if i == |turns| {
      assert turns[..i] == turns;
    } else {
      var front := turns[..|turns| - 1];
      PositionOnlyGrows(cfg, h, s, front, i);
      assert front[..i] == turns[..i];
      DeliveryIsGapFree(cfg, h, s, front);
      var mid, at := Run(cfg, s, front), End(RunSpans(cfg, s, front), s.loop.startRev);
      EndIsReached(h, RunSpans(cfg, s, front), s.loop.startRev);
      TurnIsChained(cfg, h, mid, turns[|turns| - 1], at);
      EndAppends(RunSpans(cfg, s, front), TurnSpans(mid, turns[|turns| - 1]), s.loop.startRev);
      EndIsReached(h, TurnSpans(mid, turns[|turns| - 1]), at);
    }
  }

  // ----- coverage and order

  /** What was delivered between two worlds. */
  function NewEvents(w: World, w': World): seq<Event> {
    var a, b := Stream(w.log), Stream(w'.log);
    if |a| <= |b| then b[|a|..] else []
  }

  /** Revision r was delivered live by these spans. */
  predicate IsLive(spans: seq<Span>, r: nat) {
    exists i :: 0 <= i < |spans| && spans[i].Live? && spans[i].lo <= r < spans[i].hi
  }

  predicate IsJumped(spans: seq<Span>, r: nat) {
    exists i :: 0 <= i < |spans| && spans[i].Jump? && r <= spans[i].rev
  }

  lemma {:induction false} ChainCovers(h: History, spans: seq<Span>, from: nat, r: nat)
    requires Chained(h, spans, from) && from <= r < End(spans, from)
    ensures IsLive(spans, r) || IsJumped(spans, r)
  {
    var front := spans[..|spans| - 1];
    if r < End(front, from) {
      ChainCovers(h, front, from, r);
      if IsLive(front, r) {
        var i :| 0 <= i < |front| && front[i].Live? && front[i].lo <= r < front[i].hi;
        assert spans[i] == front[i];
      } else {
        var i :| 0 <= i < |front| && front[i].Jump? && r <= front[i].rev;
        assert spans[i] == front[i];
      }
    } else {
      assert spans[|spans| - 1] == spans[|front|];
    }
  }

  lemma {:induction false} SpanEventsIn(cfg: Config, h: History, spans: seq<Span>, i: nat, e: Event)
    requires i < |spans| && e in SpanEvents(cfg, h, spans[i])
    ensures e in Expand(cfg, h, spans)
  {
    if i < |spans| - 1 { SpanEventsIn(cfg, h, spans[..|spans| - 1], i, e); }
  }

  lemma {:induction false} TranslateIn(cfg: Config, cs: seq<Change>, c: Change)
    requires c in cs && Wanted(cfg, c.op)
    ensures ToEvent(cfg, c) in Translate(cfg, cs)
  {
    if c != cs[|cs| - 1] { TranslateIn(cfg, cs[..|cs| - 1], c); }
  }

  lemma {:induction false} ChangeIsIn(h: History, s: Scope, lo: nat, hi: nat, c: Change)
    requires lo <= c.rev < hi <= |h|
    requires c in Changes(h, s, c.rev, c.rev + 1)
    ensures c in Changes(h, s, lo, hi)
  {
    ChangesConcatenate(h, s, lo, c.rev, hi);
    ChangesConcatenate(h, s, c.rev, c.rev + 1, hi);
  }

  /** No gap: every wanted change committed since the first watch position and before the
      position reached is delivered in the run, or a resync at its revision or later is. */
  lemma NoGapCoverage(cfg: Config, h: History, s: State, turns: seq<Turn>, c: Change)
    requires FreshHead(h, s) && FairRun(cfg, h, s, turns)
    requires s.loop.startRev <= c.rev < End(RunSpans(cfg, s, turns), s.loop.startRev)
    requires c.rev < |h| && c in Changes(h, cfg.scope, c.rev, c.rev + 1) && Wanted(cfg, c.op)
    ensures var out := NewEvents(s.world, Run(cfg, s, turns).world);
            ToEvent(cfg, c) in out || exists rev :: c.rev <= rev < |h| && ResyncEvent(rev) in out
  {
    DeliveryIsGapFree(cfg, h, s, turns);
    var spans := RunSpans(cfg, s, turns);
    assert NewEvents(s.world, Run(cfg, s, turns).world) == Expand(cfg, h, spans);
    ChainCovers(h, spans, s.loop.startRev, c.rev);
    if IsLive(spans, c.rev) {
      var i :| 0 <= i < |spans| && spans[i].Live? && spans[i].lo <= c.rev < spans[i].hi;
      SpanIsInHistory(h, spans, s.loop.startRev, i);
      ChangeIsIn(h, cfg.scope, spans[i].lo, spans[i].hi, c);
      TranslateIn(cfg, Changes(h, cfg.scope, spans[i].lo, spans[i].hi), c);
      SpanEventsIn(cfg, h, spans, i, ToEvent(cfg, c));
    } else {
      var i :| 0 <= i < |spans| && spans[i].Jump? && c.rev <= spans[i].rev;
      SpanIsInHistory(h, spans, s.loop.startRev, i);
      SpanEventsIn(cfg, h, spans, i, ResyncEvent(spans[i].rev));
    }
  }

  lemma {:induction false} SpanIsInHistory(h: History, spans: seq<Span>, from: nat, i: nat)
    requires Chained(h, spans, from) && i < |spans|
    ensures match spans[i] case Live(lo, hi) => from <= lo <= hi <= |h| && hi <= End(spans, from)
                           case Jump(rev) => from <= rev + 1 <= |h| && rev + 1 <= End(spans, from)
  {
    EndIsReached(h, spans[..|spans| - 1], from);
    if i < |spans| - 1 { SpanIsInHistory(h, spans[..|spans| - 1], from, i); }
  }

  predicate RevisionsBetween(es: seq<Event>, lo: int, hi: int) {
    forall i :: 0 <= i < |es| ==> lo <= es[i].revision < hi
  }

  predicate NonDecreasing(es: seq<Event>) {
    forall i, j :: 0 <= i < j < |es| ==> es[i].revision <= es[j].revision
  }

  lemma {:induction false} TranslateKeepsOrder(cfg: Config, cs: seq<Change>, lo: int, hi: int)
    requires forall i :: 0 <= i < |cs| ==> lo <= cs[i].rev < hi
    requires forall i, j :: 0 <= i < j < |cs| ==> cs[i].rev <= cs[j].rev
    ensures RevisionsBetween(Translate(cfg, cs), lo, hi) && NonDecreasing(Translate(cfg, cs))
    ensures cs != [] ==> RevisionsBetween(Translate(cfg, cs), lo, cs[|cs| - 1].rev + 1)
  {
    if cs != [] {
      var front := cs[..|cs| - 1];
      TranslateKeepsOrder(cfg, front, lo, hi);
      assert front != [] ==> front[|front| - 1].rev <= cs[|cs| - 1].rev;
    }
  }

  lemma SpanOrdered(cfg: Config, h: History, s: Span, from: nat)
    requires match s case Live(lo, hi) => from <= lo <= hi <= |h| case Jump(rev) => from <= rev + 1
    ensures NonDecreasing(SpanEvents(cfg, h, s))
    ensures RevisionsBetween(SpanEvents(cfg, h, s), from - 1, End([s], from))
  {
    if s.Live? {
      ChangesInRange(h, cfg.scope, s.lo, s.hi);
      var cs := Changes(h, cfg.scope, s.lo, s.hi);
      forall i | 0 <= i < |cs| ensures s.lo <= cs[i].rev < s.hi { assert cs[i] in cs; }
      TranslateKeepsOrder(cfg, cs, s.lo, s.hi);
    }
  }

  lemma {:induction false} ExpandOrdered(cfg: Config, h: History, spans: seq<Span>, from: nat)
    requires Chained(h, spans, from)
    ensures NonDecreasing(Expand(cfg, h, spans))
    ensures RevisionsBetween(Expand(cfg, h, spans), from - 1, End(spans, from))
  {
    if spans != [] {
      var front := spans[..|spans| - 1];
      var last := spans[|spans| - 1];
      ExpandOrdered(cfg, h, front, from);
      EndIsReached(h, front, from);
      SpanOrdered(cfg, h, last, End(front, from));
      EndIsReached(h, spans, from);
      JoinOrdered(Expand(cfg, h, front), SpanEvents(cfg, h, last), from - 1, End(front, from), End(spans, from));
    }
  }

  lemma JoinOrdered(a: seq<Event>, b: seq<Event>, lo: int, mid: int, hi: int)
    requires NonDecreasing(a) && NonDecreasing(b) && lo < mid <= hi
    requires RevisionsBetween(a, lo, mid) && RevisionsBetween(b, mid - 1, hi)
    ensures NonDecreasing(a + b) && RevisionsBetween(a + b, lo, hi)
  {
  }

  /** Ordered delivery: revisions across all batches and resyncs of a run never go back. */
  lemma DeliveryIsOrdered(cfg: Config, h: History, s: State, turns: seq<Turn>)
    requires FreshHead(h, s) && FairRun(cfg, h, s, turns)
    ensures NonDecreasing(NewEvents(s.world, Run(cfg, s, turns).world))
  {
    DeliveryIsGapFree(cfg, h, s, turns);
    ExpandOrdered(cfg, h, RunSpans(cfg, s, turns), s.loop.startRev);
    assert NewEvents(s.world, Run(cfg, s, turns).world) == Expand(cfg, h, RunSpans(cfg, s, turns));
  }

  // ----- exactly once

  /** The changes whose revision a span delivered live. */
  function LiveOnly(spans: seq<Span>, cs: seq<Change>): seq<Change> {
    if cs == [] then []
    else
      var last := cs[|cs| - 1];
      LiveOnly(spans, cs[..|cs| - 1]) + (if IsLive(spans, last.rev) then [last] else [])
  }

  function WithoutResyncs(es: seq<Event>): seq<Event> {
    if es == [] then []
    else
      var last := es[|es| - 1];
      WithoutResyncs(es[..|es| - 1]) + (if last.kind == EventResync then [] else [last])
  }

  lemma {:induction false} WithoutResyncsConcatenates(a: seq<Event>, b: seq<Event>)
    ensures WithoutResyncs(a + b) == WithoutResyncs(a) + WithoutResyncs(b)
  {
    if b == [] {
      assert a + b == a;
    } else {
      WithoutResyncsConcatenates(a, b[..|b| - 1]);
      SnocFront(a, b);
    }
  }

  lemma {:induction false} TranslatedHasNoResync(cfg: Config, cs: seq<Change>)
    ensures WithoutResyncs(Translate(cfg, cs)) == Translate(cfg, cs)
  {
    if cs != [] {
      var front := Translate(cfg, cs[..|cs| - 1]);
      TranslatedHasNoResync(cfg, cs[..|cs| - 1]);
      var last := if Wanted(cfg, cs[|cs| - 1].op) then [ToEvent(cfg, cs[|cs| - 1])] else [];
      WithoutResyncsConcatenates(front, last);
      assert last == [] || last[..0] == [];
    }
  }

  lemma {:induction false} LiveOnlyConcatenates(spans: seq<Span>, a: seq<Change>, b: seq<Change>)
    ensures LiveOnly(spans, a + b) == LiveOnly(spans, a) + LiveOnly(spans, b)
  {
    if b == [] {
      assert a + b == a;
    } else {
      LiveOnlyConcatenates(spans, a, b[..|b| - 1]);
      assert (a + b)[..|a + b| - 1] == a + b[..|b| - 1];
    }
  }

  lemma {:induction false} LiveOnlyAll(spans: seq<Span>, cs: seq<Change>, live: bool)
    requires forall i :: 0 <= i < |cs| ==> (IsLive(spans, cs[i].rev) <==> live)
    ensures LiveOnly(spans, cs) == if live then cs else []
  {
    if cs != [] { LiveOnlyAll(spans, cs[..|cs| - 1], live); }
  }

  lemma {:induction false} LiveOnlySame(a: seq<Span>, b: seq<Span>, cs: seq<Change>)
    requires forall i :: 0 <= i < |cs| ==> (IsLive(a, cs[i].rev) <==> IsLive(b, cs[i].rev))
    ensures LiveOnly(a, cs) == LiveOnly(b, cs)
  {
    if cs != [] { LiveOnlySame(a, b, cs[..|cs| - 1]); }
  }

  lemma LiveWithLast(front: seq<Span>, last: Span, r: nat)
    ensures IsLive(front + [last], r) <==> IsLive(front, r) || (last.Live? && last.lo <= r < last.hi)
  {
    var spans := front + [last];
    if IsLive(front, r) {
      var i :| 0 <= i < |front| && front[i].Live? && front[i].lo <= r < front[i].hi;
      assert spans[i] == front[i];
    }
    if last.Live? && last.lo <= r < last.hi { assert spans[|front|] == last; }
    if i :| 0 <= i < |spans| && spans[i].Live? && spans[i].lo <= r < spans[i].hi && i < |front| {
      assert front[i] == spans[i];
    }
  }

  lemma {:induction false} LiveIsBelowEnd(h: History, spans: seq<Span>, from: nat, r: nat)
    requires Chained(h, spans, from) && IsLive(spans, r)
    ensures from <= r < End(spans, from)
  {
    var i :| 0 <= i < |spans| && spans[i].Live? && spans[i].lo <= r < spans[i].hi;
    SpanIsInHistory(h, spans, from, i);
  }

  /** The live events of a chain are the history's changes at its live revisions, each once. */
  lemma {:induction false} ExpandOnce(cfg: Config, h: History, spans: seq<Span>, from: nat)
    requires Chained(h, spans, from) && from <= End(spans, from) <= |h|
    ensures WithoutResyncs(Expand(cfg, h, spans))
         == Translate(cfg, LiveOnly(spans, Changes(h, cfg.scope, from, End(spans, from))))
  {
    if spans == [] {
    } else {
      var front := spans[..|spans| - 1];
      var last := spans[|spans| - 1];
      var mid, end := End(front, from), End(spans, from);
      EndIsReached(h, front, from);
      ExpandOnce(cfg, h, front, from);
      assert spans == front + [last];
      var a, b := Changes(h, cfg.scope, from, mid), Changes(h, cfg.scope, mid, end);
      ChangesConcatenate(h, cfg.scope, from, mid, end);
      LiveOnlyConcatenates(spans, a, b);
      LiveBelow(cfg, h, front, last, from);
      LiveAbove(cfg, h, front, last, from);
      TranslateConcatenates(cfg, LiveOnly(spans, a), LiveOnly(spans, b));
      WithoutResyncsConcatenates(Expand(cfg, h, front), SpanEvents(cfg, h, last));
      if last.Live? {
        TranslatedHasNoResync(cfg, b);
      } else {
        assert SpanEvents(cfg, h, last)[..0] == [];
      }
    }
  }

  lemma LiveBelow(cfg: Config, h: History, front: seq<Span>, last: Span, from: nat)
    requires Chained(h, front, from) && Chained(h, front + [last], from) && from <= End(front, from) <= |h|
    ensures LiveOnly(front + [last], Changes(h, cfg.scope, from, End(front, from)))
         == LiveOnly(front, Changes(h, cfg.scope, from, End(front, from)))
  {
    var cs := Changes(h, cfg.scope, from, End(front, from));
    ChangesInRange(h, cfg.scope, from, End(front, from));
    assert (front + [last])[..|front|] == front;
    forall i | 0 <= i < |cs| ensures IsLive(front + [last], cs[i].rev) <==> IsLive(front, cs[i].rev) {
      assert cs[i] in cs;
      LiveWithLast(front, last, cs[i].rev);
    }
    LiveOnlySame(front + [last], front, cs);
  }

  lemma LiveAbove(cfg: Config, h: History, front: seq<Span>, last: Span, from: nat)
    requires Chained(h, front, from) && Chained(h, front + [last], from)
    requires from <= End(front, from) <= End(front + [last], from) <= |h|
    ensures var cs := Changes(h, cfg.scope, End(front, from), End(front + [last], from));
            LiveOnly(front + [last], cs) == if last.Live? then cs else []
  {
    var mid, end := End(front, from), End(front + [last], from);
    var cs := Changes(h, cfg.scope, mid, end);
    ChangesInRange(h, cfg.scope, mid, end);
    assert (front + [last])[..|front|] == front;
    forall i | 0 <= i < |cs| ensures IsLive(front + [last], cs[i].rev) <==> last.Live? {
      assert cs[i] in cs;
      LiveWithLast(front, last, cs[i].rev);
      if IsLive(front, cs[i].rev) { LiveIsBelowEnd(h, front, from, cs[i].rev); }
    }
    LiveOnlyAll(front + [last], cs, last.Live?);
  }

  /** Exactly once: apart from resyncs, what a run delivers is the history's wanted changes,
      in commit order, restricted to the revisions its sessions covered: none twice, none
      foreign, and a revision is left out only if a resync jumped over it. */
  lemma ExactlyOnce(cfg: Config, h: History, s: State, turns: seq<Turn>)
    requires FreshHead(h, s) && FairRun(cfg, h, s, turns)
    ensures var start := s.loop.startRev;
            var spans := RunSpans(cfg, s, turns);
            var end := End(spans, start);
            && start <= end <= |h|
            && WithoutResyncs(Stream(Run(cfg, s, turns).world.log))
               == WithoutResyncs(Stream(s.world.log))
                  + Translate(cfg, LiveOnly(spans, Changes(h, cfg.scope, start, end)))
            && (forall r :: start <= r < end ==> IsLive(spans, r) || IsJumped(spans, r))
  {
    DeliveryIsGapFree(cfg, h, s, turns);
    var start := s.loop.startRev;
    var spans := RunSpans(cfg, s, turns);
    EndIsReached(h, spans, start);
    ExpandOnce(cfg, h, spans, start);
    WithoutResyncsConcatenates(Stream(s.world.log), Expand(cfg, h, spans));
    forall r: nat | start <= r < End(spans, start) ensures IsLive(spans, r) || IsJumped(spans, r) {
      ChainCovers(h, spans, start, r);
    }
  }
}
