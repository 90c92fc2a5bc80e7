/** How a session groups its events: the timer with its channel refines a plain debounce window, and
    the window says which batches the callback is given. */
module Batching {
  import opened History
  import opened WatchModel
  import opened SessionLaws

  /** The batches that the callback was given, in order. */
  function Batches(log: seq<Output>): seq<seq<Event>> {
    if log == [] then []
    else
      var last := log[|log| - 1];
      Batches(log[..|log| - 1]) + (if last.Delivered? then [last.batch] else [])
  }

  lemma EmitBatches(w: World, o: Output)
    ensures Batches(Emit(w, o).log) == if o.Delivered? then Batches(w.log) + [o.batch] else Batches(w.log)
  {
    assert (w.log + [o])[..|w.log|] == w.log;
    assert Batches(w.log) + [] == Batches(w.log);
  }

  /** A batch is shipped if there is anything to ship. */
  function Ship(done: seq<seq<Event>>, held: seq<Event>): seq<seq<Event>> {
    if held == [] then done else done + [held]
  }

  lemma FlushBatches(cfg: Config, w: World, pending: seq<Event>)
    ensures Batches(Flush(cfg, w, pending).log) == Ship(Batches(w.log), pending)
  {
    if pending != [] {
      var counted := w.(stats := w.stats.(totalDebounceFlushes := w.stats.totalDebounceFlushes + 1,
                                          totalEventsDelivered := w.stats.totalEventsDelivered + |pending|));
      EmitBatches(counted, Delivered(pending));
      EmitBatches(CountError(Emit(counted, Delivered(pending))), WatchError(Report(Bare, CallbackPanic), PanicClass));
    }
  }

  // ----- the window

  /** The batches shipped, the events held back, whether a window is open, and whether it is over. */
  datatype Window = Window(done: seq<seq<Event>>, held: seq<Event>, waiting: bool, over: bool)

  /** A response adds its events. At the cap they are shipped; otherwise, with a debounce window, one
      starts afresh; without one they are shipped at once. A tick ships when the window is over. */
  function Pass(cfg: Config, win: Window, s: Signal): Window {
    match s
    case Response(_, changes) =>
      var held := win.held + Translate(cfg, changes);
      if 0 < cfg.maxPendingEvents <= |held| then Window(Ship(win.done, held), [], false, false)
      else if cfg.debounce > 0 then Window(win.done, held, true, false)
      else Window(Ship(win.done, held), [], win.waiting, win.over)
    case Expire => win.(over := win.waiting)
    case Tick => if win.over then Window(Ship(win.done, win.held), [], false, false) else win
  }

  function PassAll(cfg: Config, win: Window, signals: seq<Signal>): Window {
    if signals == [] then win
    else Pass(cfg, PassAll(cfg, win, signals[..|signals| - 1]), signals[|signals| - 1])
  }

  /** The buffer and its timer stand for the window. */
  predicate Stands(w: World, b: Buffer, win: Window) {
    && Batches(w.log) == win.done && b.pending == win.held && b.armed == win.waiting
    && (if win.waiting then b.timer == Timer(!win.over, win.over)
        else !win.over && (b.timer.NoTimer? || b.timer == Timer(false, false)))
  }

  lemma AbsorbShipsNothing(cfg: Config, w: World, b: Buffer, header: nat, changes: seq<Change>)
    ensures Absorb(cfg, w, b, header, changes).0.log == w.log
    ensures Absorb(cfg, w, b, header, changes).1
         == b.(madeProgress := true, pending := b.pending + Translate(cfg, changes),
               newRev := if header > b.newRev then header else b.newRev)
  {
    CountAllCounts(if header > b.newRev then w.(stats := w.stats.(revision := header)) else w, cfg, changes);
  }

  lemma FeedPasses(cfg: Config, w: World, b: Buffer, win: Window, s: Signal)
    requires Stands(w, b, win)
    ensures var (w', b') := Feed(cfg, w, b, s);
            Stands(w', b', Pass(cfg, win, s))
  {
    match s {
      case Expire =>
      case Tick => FlushBatches(cfg, w, b.pending);
      case Response(header, changes) =>
        AbsorbShipsNothing(cfg, w, b, header, changes);
        var (w1, b1) := Absorb(cfg, w, b, header, changes);
        FlushBatches(cfg, w1, b1.pending);
    }
  }

  lemma {:induction false} FeedAllPasses(cfg: Config, w: World, b: Buffer, win: Window, signals: seq<Signal>)
    requires Stands(w, b, win)
    ensures var (w', b') := FeedAll(cfg, w, b, signals);
            Stands(w', b', PassAll(cfg, win, signals))
  {
    if signals != [] {
      var front := signals[..|signals| - 1];
      FeedAllPasses(cfg, w, b, win, front);
      var (w1, b1) := FeedAll(cfg, w, b, front);
      FeedPasses(cfg, w1, b1, PassAll(cfg, win, front), signals[|signals| - 1]);
    }
  }

  /** For every session: the batches are those of the window, and what it still holds at the end is
      shipped last. */
  lemma SessionBatches(cfg: Config, w: World, s: Session)
    ensures var win := PassAll(cfg, Window(Batches(w.log), [], false, false), s.signals);
            Batches(Consume(cfg, w, s).0.log) == Ship(win.done, win.held)
  {
    FeedAllPasses(cfg, w, FRESH, Window(Batches(w.log), [], false, false), s.signals);
    var (w1, b) := FeedAll(cfg, w, FRESH, s.signals);
    FlushBatches(cfg, w1, b.pending);
  }

  // ----- what the window does

  predicate BelowCap(cfg: Config, n: nat) {
    cfg.maxPendingEvents <= 0 || n < cfg.maxPendingEvents
  }

  /** With a debounce window, a response that leaves the buffer below the cap delivers nothing and
      announces nothing, keeps what was held, and starts the clock afresh: whatever was due is due
      no more, so a tick does nothing until the clock has run out again. */
  lemma ResponseIsHeld(cfg: Config, w: World, signals: seq<Signal>, header: nat, changes: seq<Change>)
    requires cfg.debounce > 0
    requires BelowCap(cfg, |FeedAll(cfg, w, FRESH, signals).1.pending + Translate(cfg, changes)|)
    ensures var (w1, b1) := FeedAll(cfg, w, FRESH, signals);
            var (w2, b2) := Feed(cfg, w1, b1, Response(header, changes));
            && w2.log == w1.log
            && b2.pending == b1.pending + Translate(cfg, changes)
            && b2.armed && b2.timer == Timer(true, false)
            && Feed(cfg, w2, b2, Tick) == (w2, b2)
  {
    FeedAllPasses(cfg, w, FRESH, Window(Batches(w.log), [], false, false), signals);
    var (w1, b1) := FeedAll(cfg, w, FRESH, signals);
    AbsorbShipsNothing(cfg, w1, b1, header, changes);
  }

  /** A run of responses with no tick taken. */
  predicate NoTick(signals: seq<Signal>) {
    forall i :: 0 <= i < |signals| ==> !signals[i].Tick?
  }

  lemma {:induction false} WindowHolds(cfg: Config, done: seq<seq<Event>>, signals: seq<Signal>)
    requires cfg.debounce > 0 && NoTick(signals) && BelowCap(cfg, |Translate(cfg, Received(signals))|)
    ensures var win := PassAll(cfg, Window(done, [], false, false), signals);
            win.done == done && win.held == Translate(cfg, Received(signals)) && (win.waiting <==> Responded(signals))
  {
    if signals != [] {
      var front, last := signals[..|signals| - 1], signals[|signals| - 1];
      var extra := if last.Response? then last.changes else [];
      TranslateConcatenates(cfg, Received(front), extra);
      WindowHolds(cfg, done, front);
      if Responded(front) {
        var i :| 0 <= i < |front| && front[i].Response?;
        assert signals[i].Response?;
      }
      if i :| 0 <= i < |signals| && signals[i].Response? && i < |front| { assert front[i].Response?; }
    }
  }

  lemma {:induction false} HeldIsSilent(cfg: Config, w: World, signals: seq<Signal>)
    requires cfg.debounce > 0 && NoTick(signals) && BelowCap(cfg, |Translate(cfg, Received(signals))|)
    ensures FeedAll(cfg, w, FRESH, signals).0.log == w.log
    ensures FeedAll(cfg, w, FRESH, signals).1.pending == Translate(cfg, Received(signals))
  {
    if signals != [] {
      var front, last := signals[..|signals| - 1], signals[|signals| - 1];
      var extra := if last.Response? then last.changes else [];
      TranslateConcatenates(cfg, Received(front), extra);
      HeldIsSilent(cfg, w, front);
      if last.Response? { ResponseIsHeld(cfg, w, front, last.header, last.changes); }
    }
  }

  lemma PassTwo(cfg: Config, win: Window, signals: seq<Signal>, a: Signal, b: Signal)
    ensures PassAll(cfg, win, signals + [a, b]) == Pass(cfg, Pass(cfg, PassAll(cfg, win, signals), a), b)
  {
    assert (signals + [a, b])[..|signals| + 1] == signals + [a];
    assert (signals + [a])[..|signals|] == signals;
  }

  lemma TickShipsAll(cfg: Config, w: World, signals: seq<Signal>)
    requires cfg.debounce > 0 && NoTick(signals) && BelowCap(cfg, |Translate(cfg, Received(signals))|)
    requires Responded(signals)
    ensures Batches(FeedAll(cfg, w, FRESH, signals + [Expire, Tick]).0.log)
         == Ship(Batches(w.log), Translate(cfg, Received(signals)))
  {
    var win := Window(Batches(w.log), [], false, false);
    WindowHolds(cfg, win.done, signals);
    PassTwo(cfg, win, signals, Expire, Tick);
    FeedAllPasses(cfg, w, FRESH, win, signals + [Expire, Tick]);
  }

  /** Over a session with a debounce window: while no tick is taken and the cap is not met, the log
      does not change, however many responses come; and the expiry with its tick, or the end of the
      session, then delivers one batch that holds the translation of everything received. */
  lemma DebounceMakesOneBatch(cfg: Config, w: World, signals: seq<Signal>, ending: Ending)
    requires cfg.debounce > 0 && NoTick(signals) && BelowCap(cfg, |Translate(cfg, Received(signals))|)
    ensures FeedAll(cfg, w, FRESH, signals).0.log == w.log
    ensures Batches(Consume(cfg, w, Session(signals, ending)).0.log)
         == Ship(Batches(w.log), Translate(cfg, Received(signals)))
    ensures Responded(signals) ==>
              Batches(FeedAll(cfg, w, FRESH, signals + [Expire, Tick]).0.log)
              == Ship(Batches(w.log), Translate(cfg, Received(signals)))
  {
    HeldIsSilent(cfg, w, signals);
    WindowHolds(cfg, Batches(w.log), signals);
    SessionBatches(cfg, w, Session(signals, ending));
    if Responded(signals) { TickShipsAll(cfg, w, signals); }
  }

  /** Without a debounce window each response that brings wanted events is its own batch, at once. */
  lemma EachResponseIsABatch(cfg: Config, w: World, signals: seq<Signal>, header: nat, changes: seq<Change>)
    requires cfg.debounce <= 0
    ensures var (w1, b1) := FeedAll(cfg, w, FRESH, signals);
            var (w2, b2) := Feed(cfg, w1, b1, Response(header, changes));
            Batches(w2.log) == Ship(Batches(w1.log), Translate(cfg, changes)) && b2.pending == []
  {
    NothingStranded(cfg, w, signals);
    var (w1, b1) := FeedAll(cfg, w, FRESH, signals);
    AbsorbShipsNothing(cfg, w1, b1, header, changes);
    var (w2, b2) := Absorb(cfg, w1, b1, header, changes);
    assert [] + Translate(cfg, changes) == Translate(cfg, changes);
    FlushBatches(cfg, w2, b2.pending);
  }

  /** The response that meets the cap delivers everything held, with its own events, as one batch at
      once, and no tick is then due. */
  lemma CapShipsAll(cfg: Config, w: World, signals: seq<Signal>, header: nat, changes: seq<Change>)
    requires !BelowCap(cfg, |FeedAll(cfg, w, FRESH, signals).1.pending + Translate(cfg, changes)|)
    ensures var (w1, b1) := FeedAll(cfg, w, FRESH, signals);
            var (w2, b2) := Feed(cfg, w1, b1, Response(header, changes));
            && Batches(w2.log) == Batches(w1.log) + [b1.pending + Translate(cfg, changes)]
            && b2.pending == [] && Feed(cfg, w2, b2, Tick) == (w2, b2)
  {
    var (w1, b1) := FeedAll(cfg, w, FRESH, signals);
    AbsorbShipsNothing(cfg, w1, b1, header, changes);
    var (w2, b2) := Absorb(cfg, w1, b1, header, changes);
    FlushBatches(cfg, w2, b2.pending);
  }
}
