/** The watch engine as a state machine over values: one session's event buffer
    and the retry loop around it. Every step of the environment is an input: what
    etcd sends, when the debounce timer fires, how a session ends, what a re-read
    finds, when the context is cancelled. */
module WatchModel {
  import opened Bytes
  import opened History
  import opened Options

  // ----- settings, events, errors, counters

  datatype Config = Config(
    scope: Scope,
    keyTransform: Bytes -> Bytes,
    debounce: int,
    maxPendingEvents: int,
    resumeFromRevision: bool,
    filterSet: bool,
    wantPut: bool,
    wantDelete: bool,
    panics: nat -> bool  // does the user callback panic when it is the n-th output?
  )

  datatype EventType = EventPut | EventDelete | EventResync

  datatype Event = Event(kind: EventType, key: Bytes, value: Bytes, revision: nat)

  datatype RpcCode = PermissionDeniedCode | UnauthenticatedCode | OtherCode(n: nat)

  datatype Failure =
    | Compacted(at: nat)
    | PermissionDenied | UserNotFound | AuthFailed | InvalidAuthToken
    | Status(code: RpcCode)
    | OtherError(n: nat)
    | CallbackPanic

  /** How the source wraps a failure before it reports it. */
  datatype Wrap = Bare | Fatal | Resync | PendingResync

  datatype Report = Report(wrap: Wrap, failure: Failure)

  datatype ErrorClass = Transient | Compaction | Auth | PanicClass

  predicate IsFatalRPCError(f: Failure) {
    match f
    case PermissionDenied => true
    case UserNotFound => true
    case AuthFailed => true
    case InvalidAuthToken => true
    case Status(code) => code == PermissionDeniedCode || code == UnauthenticatedCode
    case _ => false
  }

  function ClassifyWatchError(f: Failure): ErrorClass {
    if f.Compacted? then Compaction
    else if IsFatalRPCError(f) then Auth
    else Transient
  }

  datatype Stats = Stats(
    revision: nat,
    totalPuts: nat,
    totalDeletes: nat,
    totalResyncs: nat,
    totalReconnects: nat,
    totalWatchErrors: nat,
    totalEventsDelivered: nat,
    totalDebounceFlushes: nat,
    totalReads: nat
  )

  /** What the engine does that others can see, in order. */
  datatype Output =
    | Opened(startRev: nat)
    | Delivered(batch: seq<Event>)
    | Reconnected(attempts: int, lastErr: Option<Report>, revision: nat)
    | Resynced(revision: nat)
    | WatchError(report: Report, errorClass: ErrorClass)
    | Slept(attempt: int)

  /** The provider's counters and everything it has put out. */
  datatype World = World(stats: Stats, log: seq<Output>)

  function Emit(w: World, o: Output): World {
    w.(log := w.log + [o])
  }

  function CountError(w: World): World {
    w.(stats := w.stats.(totalWatchErrors := w.stats.totalWatchErrors + 1))
  }

  /** The provider's revision after the user's Reads: what the last of them stored, if there was one.
      A Read stores the revision it was served at, whatever is there. */
  function Over(userRead: nat, own: nat): nat {
    if userRead > 0 then userRead else own
  }

  function StoreRead(w: World, userRead: nat): World {
    w.(stats := w.stats.(revision := Over(userRead, w.stats.revision)))
  }

  // ----- translation and delivery

  predicate Wanted(cfg: Config, op: Op) {
    cfg.filterSet ==> if op.Put? then cfg.wantPut else cfg.wantDelete
  }

  function ToEvent(cfg: Config, c: Change): Event {
    match c.op
    case Put(k, v) => Event(EventPut, cfg.keyTransform(k), v, c.rev)
    case Delete(k) => Event(EventDelete, cfg.keyTransform(k), [], c.rev)
  }

  /** Filter, then translate. */
  function Translate(cfg: Config, cs: seq<Change>): seq<Event> {
    if cs == [] then []
    else
      var last := cs[|cs| - 1];
      Translate(cfg, cs[..|cs| - 1]) + (if Wanted(cfg, last.op) then [ToEvent(cfg, last)] else [])
  }

  function CountTranslated(w: World, cfg: Config, c: Change): World {
    if !Wanted(cfg, c.op) then w
    else if c.op.Put? then w.(stats := w.stats.(totalPuts := w.stats.totalPuts + 1))
    else w.(stats := w.stats.(totalDeletes := w.stats.totalDeletes + 1))
  }

  function CountAll(w: World, cfg: Config, cs: seq<Change>): World {
    if cs == [] then w else CountTranslated(CountAll(w, cfg, cs[..|cs| - 1]), cfg, cs[|cs| - 1])
  }

  function Deliver(cfg: Config, w: World, batch: seq<Event>): World {
    var counted := w.(stats := w.stats.(totalEventsDelivered := w.stats.totalEventsDelivered + |batch|));
    var called := Emit(counted, Delivered(batch));
    if cfg.panics(|w.log|) then Emit(CountError(called), WatchError(Report(Bare, CallbackPanic), PanicClass))
    else called
  }

  // ----- one session

  /** A timer is absent, or its clock runs, or its tick waits in the channel, or neither. */
  datatype Timer = NoTimer | Timer(running: bool, queued: bool)

  /** The locals of the session loop. `armed` is a non-nil timer channel. */
  datatype Buffer = Buffer(pending: seq<Event>, newRev: nat, madeProgress: bool, timer: Timer, armed: bool)

  const FRESH := Buffer([], 0, false, NoTimer, false)

  datatype Signal =
    | Response(header: nat, changes: seq<Change>)
    | Expire  // the debounce clock runs out
    | Tick    // the select takes the timer channel

  datatype Ending = Cancelled | Closed | Failed(failure: Failure)

  datatype Session = Session(signals: seq<Signal>, ending: Ending)

  function Flush(cfg: Config, w: World, pending: seq<Event>): World {
    if pending == [] then w
    else Deliver(cfg, w.(stats := w.stats.(totalDebounceFlushes := w.stats.totalDebounceFlushes + 1)), pending)
  }

  /** Stop, and drain the channel if the clock had already run out. */
  function StopTimer(t: Timer): Timer {
    match t
    case NoTimer => NoTimer
    case Timer(running, queued) => Timer(false, if running then queued else false)
  }

  function Armed(t: Timer): Timer {
    match StopTimer(t)
    case NoTimer => Timer(true, false)
    case Timer(_, queued) => Timer(true, queued)
  }

  /** Record the header and translate the changes of a response into the buffer. */
  function Absorb(cfg: Config, w: World, b: Buffer, header: nat, changes: seq<Change>): (World, Buffer) {
    var higher := header > b.newRev;
    var seen := if higher then w.(stats := w.stats.(revision := header)) else w;
    (CountAll(seen, cfg, changes),
     b.(madeProgress := true,
        newRev := if higher then header else b.newRev,
        pending := b.pending + Translate(cfg, changes)))
  }

  /** Flush at the cap, or wait for the debounce window, or flush at once. */
  function Settle(cfg: Config, w: World, b: Buffer): (World, Buffer) {
    if cfg.maxPendingEvents > 0 && |b.pending| >= cfg.maxPendingEvents then
      (Flush(cfg, w, b.pending), b.(pending := [], timer := StopTimer(b.timer), armed := false))
    else if cfg.debounce > 0 then
      (w, b.(timer := Armed(b.timer), armed := true))
    else
      (Flush(cfg, w, b.pending), b.(pending := []))
  }

  /** One turn of the session's select. A tick is taken only when one is queued on an armed channel. */
  function Feed(cfg: Config, w: World, b: Buffer, s: Signal): (World, Buffer) {
    match s
    case Response(header, changes) =>
      var (w1, b1) := Absorb(cfg, w, b, header, changes);
      Settle(cfg, w1, b1)
    case Expire =>
      if b.timer.Timer? && b.timer.running then (w, b.(timer := Timer(false, true))) else (w, b)
    case Tick =>
      if b.armed && b.timer.Timer? && b.timer.queued then
        (Flush(cfg, w, b.pending), b.(pending := [], timer := b.timer.(queued := false), armed := false))
      else (w, b)
  }

  function FeedAll(cfg: Config, w: World, b: Buffer, signals: seq<Signal>): (World, Buffer) {
    if signals == [] then (w, b)
    else
      var (w1, b1) := FeedAll(cfg, w, b, signals[..|signals| - 1]);
      Feed(cfg, w1, b1, signals[|signals| - 1])
  }

  datatype SessionResult = SessionResult(drained: bool, newRev: nat, madeProgress: bool, fatalErr: Option<Failure>)

  /** `consumeWatch`: feed every signal, then the deferred flush. */
  function Consume(cfg: Config, w: World, s: Session): (World, SessionResult) {
    var (w1, b) := FeedAll(cfg, w, FRESH, s.signals);
    (Flush(cfg, w1, b.pending),
     SessionResult(s.ending.Cancelled?, b.newRev, b.madeProgress,
                   if s.ending.Failed? then Some(s.ending.failure) else None))
  }

  // ----- the retry loop

  /** A full re-read fails before or after its revision was stored, or succeeds. `found` is the
      revision it was served at, and `rev` is what the loop then loads back from the provider's
      revision: another one if a user's Read has stored in between. */
  datatype Reread =
    | Loaded(found: nat, rev: nat)
    | Refused(failure: Failure)
    | RefusedAfterStore(rev: nat, failure: Failure)

  /** The revisions that the user's own Reads have stored by the head of a turn, by the report that
      follows its session or pending re-read, and by the report that follows its inline re-read; 0
      for none. The provider keeps one revision for the loop and for them. A Read that the loop
      overwrites before any of these points shows in no report. */
  datatype Reads = Reads(head: nat, report: nat, inline: nat)

  const NO_READS := Reads(0, 0, 0)

  /** What the environment does during one turn of the loop. */
  datatype Turn = Turn(
    cancelledAtHead: bool,
    session: Session,
    reread: Reread,
    cancelledAfter: bool,
    wakes: bool,
    userReads: Reads
  )

  /** The locals of the loop, and whether it is still running. */
  datatype Loop = Loop(
    startRev: nat,
    attempt: nat,
    pendingResync: bool,
    failedAttempts: nat,
    lastFailErr: Option<Report>,
    running: bool
  )

  datatype State = State(world: World, loop: Loop)

  datatype ReadOutcome = ReadAt(rev: nat) | ReadFailed(failure: Failure)

  function DoResync(cfg: Config, w: World, r: Reread): (World, ReadOutcome) {
    match r
    case Refused(f) => (w, ReadFailed(f))
    case RefusedAfterStore(rev, f) => (w.(stats := w.stats.(revision := rev)), ReadFailed(f))
    case Loaded(_, rev) =>
      var read := w.(stats := w.stats.(revision := rev, totalReads := w.stats.totalReads + 1,
                                       totalResyncs := w.stats.totalResyncs + 1));
      (Deliver(cfg, Emit(read, Resynced(rev)), [Event(EventResync, [], [], rev)]), ReadAt(rev))
  }

  function TryHandleCompaction(cfg: Config, w: World, fatalErr: Option<Failure>, r: Reread): (World, Option<nat>) {
    if fatalErr.None? then (w, None)
    else
      var f := fatalErr.value;
      var w1 := if f.Compacted? then w else CountError(w);
      var w2 := Emit(w1, WatchError(Report(Bare, f), ClassifyWatchError(f)));
      if !f.Compacted? then (w2, None)
      else
        var (w3, outcome) := DoResync(cfg, w2, r);
        match outcome
        case ReadAt(rev) => (w3, Some(rev))
        case ReadFailed(g) => (Emit(CountError(w3), WatchError(Report(Resync, g), Transient)), None)
  }

  /** The recovery callback, fired once per run of failures. */
  function Recover(s: State): State {
    if s.loop.failedAttempts > 0 then
      State(Emit(s.world, Reconnected(s.loop.failedAttempts, s.loop.lastFailErr, s.world.stats.revision)),
            s.loop.(failedAttempts := 0, lastFailErr := None))
    else s
  }

  /** Count a failed session or re-read, then back off. */
  function Fail(s: State, err: Option<Report>): State {
    var n := s.loop.attempt + 1;
    State(s.world.(stats := s.world.stats.(totalReconnects := s.world.stats.totalReconnects + 1)),
          s.loop.(attempt := n, failedAttempts := n, lastFailErr := err))
  }

  function SleepOrStop(s: State, wakes: bool): State {
    if wakes then s.(world := Emit(s.world, Slept(s.loop.attempt)))
    else s.(loop := s.loop.(running := false))
  }

  function Backoff(s: State, err: Option<Report>, wakes: bool): State {
    SleepOrStop(Fail(s, err), wakes)
  }

  /** A re-read that is still refused: count it, report it, back off. */
  function ResyncRefused(s: State, f: Failure, wakes: bool): State {
    var failed := Fail(s, Some(Report(PendingResync, f)));
    SleepOrStop(failed.(world := Emit(failed.world, WatchError(Report(PendingResync, f), Transient))), wakes)
  }

  /** The pending resync has been made at rev, leaving this world. */
  function ResyncedAt(s: State, w: World, rev: nat): State {
    State(w, s.loop.(startRev := rev + 1, pendingResync := false, attempt := 0))
  }

  function RetryResync(cfg: Config, s: State, t: Turn): State {
    var (w, outcome) := DoResync(cfg, s.world, t.reread);
    match outcome
    case ReadAt(rev) =>
      Recover(ResyncedAt(s, StoreRead(w, t.userReads.report), rev))
    case ReadFailed(f) => ResyncRefused(s.(world := w), f, t.wakes)
  }

  function AsReport(f: Option<Failure>): Option<Report> {
    if f.Some? then Some(Report(Bare, f.value)) else None
  }

  /** A session that received a response resets the attempt count and is the recovery signal. */
  function SettleProgress(s: State, madeProgress: bool): State {
    if madeProgress then Recover(s.(loop := s.loop.(attempt := 0))) else s
  }

  /** Compaction followed by a successful re-read: report one recovery and resume after it. */
  function RecoverInline(s: State, fatalErr: Option<Failure>, rev: nat): State {
    State(Emit(s.world, Reconnected(s.loop.failedAttempts + 1, AsReport(fatalErr), s.world.stats.revision)),
          s.loop.(startRev := rev + 1, attempt := 0, failedAttempts := 0, lastFailErr := None))
  }

  /** Resume after the session's highest header, if it saw one. */
  function Resume(s: State, newRev: nat): State {
    if newRev > 0 then s.(loop := s.loop.(startRev := newRev + 1)) else s
  }

  /** No inline recovery: remember compaction, stop on a permanent error or cancellation, else count a failure. */
  function Unrecovered(s: State, r: SessionResult, t: Turn): State {
    var compacted := r.fatalErr.Some? && r.fatalErr.value.Compacted?;
    var s1 := if compacted then s.(loop := s.loop.(pendingResync := true)) else s;
    if r.fatalErr.Some? && IsFatalRPCError(r.fatalErr.value) then
      State(Emit(CountError(s1.world), WatchError(Report(Fatal, r.fatalErr.value), Auth)), s1.loop.(running := false))
    else if r.drained || t.cancelledAfter then
      s1.(loop := s1.loop.(running := false))
    else
      Backoff(Resume(s1, r.newRev), AsReport(r.fatalErr), t.wakes)
  }

  /** Compaction first, then everything else. */
  function Resolve(cfg: Config, s: State, r: SessionResult, t: Turn): State {
    var (w, resynced) := TryHandleCompaction(cfg, s.world, r.fatalErr, t.reread);
    if resynced.Some? then
      RecoverInline(s.(world := StoreRead(w, t.userReads.inline)), r.fatalErr, resynced.value)
    else Unrecovered(s.(world := w), r, t)
  }

  function AfterSession(cfg: Config, s: State, r: SessionResult, t: Turn): State {
    Resolve(cfg, SettleProgress(s, r.madeProgress), r, t)
  }

  /** A turn from its head on. */
  function Act(cfg: Config, s: State, t: Turn): State {
    if t.cancelledAtHead then s.(loop := s.loop.(running := false))
    else if s.loop.pendingResync then RetryResync(cfg, s, t)
    else
      var (w, r) := Consume(cfg, Emit(s.world, Opened(s.loop.startRev)), t.session);
      AfterSession(cfg, s.(world := StoreRead(w, t.userReads.report)), r, t)
  }

  /** One turn of `watchLoop`. */
  function Iterate(cfg: Config, s: State, t: Turn): State {
    if !s.loop.running then s else Act(cfg, s.(world := StoreRead(s.world, t.userReads.head)), t)
  }

  function Run(cfg: Config, s: State, turns: seq<Turn>): State {
    if turns == [] then s else Iterate(cfg, Run(cfg, s, turns[..|turns| - 1]), turns[|turns| - 1])
  }

  function InitialWatchRevision(cfg: Config, w: World): nat {
    if !cfg.resumeFromRevision then 0
    else if w.stats.revision > 0 then w.stats.revision + 1
    else 0
  }

  function Begin(cfg: Config, w: World): State {
    State(w, Loop(InitialWatchRevision(cfg, w), 0, false, 0, None, true))
  }
}
