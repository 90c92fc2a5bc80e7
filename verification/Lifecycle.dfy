/** The watch slot: `Watch`, `WatchTyped`, `Close` and the exiting watch goroutine take
    turns under one mutex. Each critical section, the compare-and-swap in `Close` and each
    goroutine transition is one atomic step; a run is any interleaving of them. */
module Lifecycle {
  import opened Options

  /** A watch goroutine: in its loop, out of it, done channel closed, slot cleared. */
  datatype Phase = Running | Exiting | Signaled | Gone

  /** `Close` has not been called, has won the compare-and-swap, has run its critical section. */
  datatype CloseStage = Open | Marked | Swept

  /** The fields under the mutex. Goroutine, context and done channel n belong together. */
  datatype Slot = Slot(watchCancel: Option<nat>, watchCb: bool, watchTypedCb: bool, watchDone: Option<nat>)

  const EMPTY := Slot(None, false, false, None)

  datatype Shared = Shared(
    slot: Slot,
    stage: CloseStage,
    threads: seq<Phase>,   // goroutine n's phase
    cancelled: set<nat>,   // contexts cancelled so far
    closes: seq<nat>,      // how often done channel n was closed
    awaited: Option<nat>   // the channel `Close` waits on
  )

  const INITIAL := Shared(EMPTY, Open, [], {}, [], None)

  datatype CallResult = Started | ErrClosed | ErrWatchActive | ErrCtxDone

  datatype Step =
    | CallWatch
    | CallWatchTyped(ctxDone: bool)
    | CloseMark
    | CloseSweep
    | ParentCancel(n: nat)
    | LeaveLoop(n: nat)
    | SignalDone(n: nat)
    | ClearSlot(n: nat)

  function Refusal(s: Shared): Option<CallResult> {
    if s.stage != Open then Some(ErrClosed)
    else if s.slot.watchCancel.Some? then Some(ErrWatchActive)
    else None
  }

  /** The critical section of `Watch` and `WatchTyped`. */
  function Install(s: Shared, typed: bool): Shared {
    if Refusal(s).Some? then s
    else
      var n := |s.threads|;
      s.(slot := Slot(Some(n), s.slot.watchCb || !typed, s.slot.watchTypedCb || typed, Some(n)),
         threads := s.threads + [Running],
         closes := s.closes + [0])
  }

  /** The critical section of `Close`: cancel the context if one is stored, forget it, and note the channel. */
  function Sweep(s: Shared): Shared {
    s.(stage := Swept,
       cancelled := if s.slot.watchCancel.Some? then s.cancelled + {s.slot.watchCancel.value} else s.cancelled,
       slot := s.slot.(watchCancel := None),
       awaited := s.slot.watchDone)
  }

  /** `signalWatchDone`: close whatever channel the slot holds. */
  function CloseDone(s: Shared): Shared {
    if s.slot.watchDone.Some? && s.slot.watchDone.value < |s.closes| then
      var n := s.slot.watchDone.value;
      s.(closes := s.closes[n := s.closes[n] + 1])
    else s
  }

  predicate InPhase(s: Shared, n: nat, p: Phase) {
    n < |s.threads| && s.threads[n] == p
  }

  /** One atomic step; a step that is not enabled changes nothing. */
  function Next(s: Shared, t: Step): Shared {
    match t
    case CallWatch => Install(s, false)
    case CallWatchTyped(ctxDone) => if ctxDone then s else Install(s, true)
    case CloseMark => if s.stage == Open then s.(stage := Marked) else s
    case CloseSweep => if s.stage == Marked then Sweep(s) else s
    case ParentCancel(n) => if n < |s.threads| then s.(cancelled := s.cancelled + {n}) else s
    case LeaveLoop(n) => if InPhase(s, n, Running) then s.(threads := s.threads[n := Exiting]) else s
    case SignalDone(n) => if InPhase(s, n, Exiting) then CloseDone(s).(threads := s.threads[n := Signaled]) else s
    case ClearSlot(n) => if InPhase(s, n, Signaled) then s.(slot := EMPTY, threads := s.threads[n := Gone]) else s
  }

  function Reach(s: Shared, steps: seq<Step>): Shared {
    if steps == [] then s else Next(Reach(s, steps[..|steps| - 1]), steps[|steps| - 1])
  }

  // ----- the invariant

  predicate Live(s: Shared, n: nat) {
    n < |s.threads| && s.threads[n] != Gone
  }

  /** A goroutine that has not cleared the slot owns it: its channel, one callback, and its
      cancel function unless `Close` took that and used it. */
  predicate Owns(s: Shared, n: nat) {
    && s.slot.watchDone == Some(n)
    && s.slot.watchCb != s.slot.watchTypedCb
    && (if s.stage == Swept then s.slot.watchCancel == None && n in s.cancelled else s.slot.watchCancel == Some(n))
  }

  ghost predicate Consistent(s: Shared) {
    && |s.closes| == |s.threads|
    && (forall n: nat :: Live(s, n) ==> Owns(s, n))
    && (forall n: nat :: 0 <= n < |s.threads| ==>
          s.closes[n] == if s.threads[n] == Signaled || s.threads[n] == Gone then 1 else 0)
    && ((forall n: nat :: !Live(s, n)) ==> s.slot == EMPTY)
    && (s.awaited.Some? ==> s.stage == Swept && s.awaited.value < |s.threads|)
    && (s.stage == Swept && s.awaited.None? ==> forall n: nat :: !Live(s, n))
    && (s.stage == Swept ==> forall n: nat :: Live(s, n) ==> s.awaited == Some(n))
  }

  lemma InstallKeeps(s: Shared, typed: bool)
    requires Consistent(s)
    ensures Consistent(Install(s, typed))
  {
    var s' := Install(s, typed);
    if Refusal(s).None? {
      forall n: nat ensures !Live(s, n) { assert Live(s, n) ==> Owns(s, n); }
      assert s.slot == EMPTY;
      assert Live(s', |s.threads|);
      forall n: nat | Live(s', n) ensures Owns(s', n) {
        if n < |s.threads| { assert s'.threads[n] == s.threads[n] && Live(s, n); }
      }
      forall n | 0 <= n < |s'.threads|
        ensures s'.closes[n] == if s'.threads[n] == Signaled || s'.threads[n] == Gone then 1 else 0
      {
        if n < |s.threads| { assert s'.threads[n] == s.threads[n] && s'.closes[n] == s.closes[n]; }
      }
    }
  }

  lemma SweepKeeps(s: Shared)
    requires Consistent(s) && s.stage == Marked
    ensures Consistent(Sweep(s))
  {
    var s' := Sweep(s);
    forall n: nat | Live(s', n) ensures Owns(s', n) && s'.awaited == Some(n) {
      assert Live(s, n) && Owns(s, n);
    }
    if forall n: nat :: !Live(s', n) {
      forall n: nat ensures !Live(s, n) { assert Live(s, n) == Live(s', n); }
    }
    if s.slot.watchDone.Some? {
      var n: nat :| Live(s, n);
    }
  }

  lemma PhaseKeeps(s: Shared, n: nat, t: Step)
    requires Consistent(s)
    requires t == LeaveLoop(n) || t == SignalDone(n) || t == ClearSlot(n) || t == ParentCancel(n)
    ensures Consistent(Next(s, t))
  {
    var s' := Next(s, t);
    if s' != s && !t.ParentCancel? {
      assert Live(s, n) && Owns(s, n);
      forall m: nat | Live(s', m) ensures Live(s, m) { }
      forall m: nat | Live(s, m) ensures m == n { assert Owns(s, m); }
      if t.ClearSlot? { forall m: nat ensures !Live(s', m) { } } else { assert Live(s', n); }
    } else {
      forall m: nat ensures Live(s', m) == Live(s, m) { }
    }
  }

  lemma NextKeeps(s: Shared, t: Step)
    requires Consistent(s)
    ensures Consistent(Next(s, t))
  {
    match t {
      case CallWatch => InstallKeeps(s, false);
      case CallWatchTyped(ctxDone) => InstallKeeps(s, true);
      case CloseMark => forall n: nat ensures Live(Next(s, t), n) == Live(s, n) { }
      case CloseSweep => if s.stage == Marked { SweepKeeps(s); }
      case ParentCancel(n) => PhaseKeeps(s, n, t);
      case LeaveLoop(n) => PhaseKeeps(s, n, t);
      case SignalDone(n) => PhaseKeeps(s, n, t);
      case ClearSlot(n) => PhaseKeeps(s, n, t);
    }
  }

  lemma {:induction false} AlwaysConsistent(steps: seq<Step>)
    ensures Consistent(Reach(INITIAL, steps))
  {
    if steps != [] {
      AlwaysConsistent(steps[..|steps| - 1]);
      NextKeeps(Reach(INITIAL, steps[..|steps| - 1]), steps[|steps| - 1]);
    }
  }

  // ----- the results

  /** In every interleaving: at most one watch goroutine is unfinished, never both callbacks are
      set, and each done channel has been closed once if its goroutine has signalled and not before. */
  lemma SlotIsExclusive(steps: seq<Step>)
    ensures var s := Reach(INITIAL, steps);
            && (forall m: nat, n: nat :: Live(s, m) && Live(s, n) ==> m == n)
            && !(s.slot.watchCb && s.slot.watchTypedCb)
            && (forall n: nat :: 0 <= n < |s.threads| && |s.closes| == |s.threads| ==>
                  s.closes[n] == if s.threads[n] == Signaled || s.threads[n] == Gone then 1 else 0)
            && |s.closes| == |s.threads|
  {
    AlwaysConsistent(steps);
    var s := Reach(INITIAL, steps);
    forall m: nat, n: nat | Live(s, m) && Live(s, n) ensures m == n { assert Owns(s, m) && Owns(s, n); }
    if n: nat :| Live(s, n) { assert Owns(s, n); }
  }

  lemma {:induction false} SweptStays(s: Shared, steps: seq<Step>)
    requires s.stage == Swept
    ensures Reach(s, steps).stage == Swept && |Reach(s, steps).threads| == |s.threads|
    ensures s.cancelled <= Reach(s, steps).cancelled && Reach(s, steps).awaited == s.awaited
  {
    if steps != [] { SweptStays(s, steps[..|steps| - 1]); }
  }

  lemma {:induction false} ReachConcatenates(s: Shared, a: seq<Step>, b: seq<Step>)
    ensures Reach(s, a + b) == Reach(Reach(s, a), b)
  {
    if b == [] {
      assert a + b == a;
    } else {
      ReachConcatenates(s, a, b[..|b| - 1]);
      assert (a + b)[..|a + b| - 1] == a + b[..|b| - 1];
    }
  }

  /** Once `Close` has left its critical section, no goroutine is ever started again, every
      unfinished one runs under a cancelled context, and it is the one `Close` waits for. */
  lemma CloseIsFinal(before: seq<Step>, after: seq<Step>)
    requires Reach(INITIAL, before).stage == Swept
    ensures var s := Reach(INITIAL, before + after);
            && |s.threads| == |Reach(INITIAL, before).threads|
            && (forall n: nat :: Live(s, n) ==> n in s.cancelled && s.awaited == Some(n))
            && s.awaited == Reach(INITIAL, before).awaited
            && Refusal(s) == Some(ErrClosed)
  {
    ReachConcatenates(INITIAL, before, after);
    SweptStays(Reach(INITIAL, before), after);
    AlwaysConsistent(before + after);
    var s := Reach(INITIAL, before + after);
    forall n: nat | Live(s, n) ensures n in s.cancelled { assert Owns(s, n); }
  }

  /** `Close` never waits on a channel nobody will close: it has been closed, or its goroutine
      is still on its way to closing it. */
  lemma CloseIsNotStranded(steps: seq<Step>)
    ensures var s := Reach(INITIAL, steps);
            s.awaited.Some? ==>
              var n := s.awaited.value;
              n < |s.closes| && n < |s.threads| && (s.closes[n] == 1 || (Live(s, n) && s.slot.watchDone == Some(n)))
  {
    AlwaysConsistent(steps);
    var s := Reach(INITIAL, steps);
    if s.awaited.Some? && Live(s, s.awaited.value) { assert Owns(s, s.awaited.value); }
  }

  /** Which call is refused and why: every one once `Close` has been called, and every one while an
      earlier goroutine has not cleared the slot. */
  lemma WatchAcceptedIff(steps: seq<Step>)
    ensures var s := Reach(INITIAL, steps);
            && (Refusal(s) == Some(ErrClosed) <==> CloseMark in steps)
            && (Refusal(s) == Some(ErrWatchActive) <==> CloseMark !in steps && exists n: nat :: Live(s, n))
            && (Refusal(s) == None <==> CloseMark !in steps && forall n: nat :: !Live(s, n))
  {
    AlwaysConsistent(steps);
    ClosedIff(steps);
    var s := Reach(INITIAL, steps);
    if n: nat :| Live(s, n) { assert Owns(s, n); }
  }

  lemma {:induction false} ClosedIff(steps: seq<Step>)
    ensures Reach(INITIAL, steps).stage == Open <==> CloseMark !in steps
  {
    if steps != [] {
      ClosedIff(steps[..|steps| - 1]);
      assert steps == steps[..|steps| - 1] + [steps[|steps| - 1]];
    }
  }

  // ----- whose callback is in the slot

  predicate Calls(t: Step) {
    t == CallWatch || t.CallWatchTyped?
  }

  /** A call that starts a watch: made before any `Close`, with no goroutine unfinished, and for
      `WatchTyped` under a context that is not done. */
  ghost predicate Accepted(before: seq<Step>, t: Step) {
    && (t == CallWatch || t == CallWatchTyped(false))
    && CloseMark !in before
    && forall n: nat :: !Live(Reach(INITIAL, before), n)
  }

  ghost function LastAccepted(steps: seq<Step>): Option<Step> {
    if steps == [] then None
    else if Accepted(steps[..|steps| - 1], steps[|steps| - 1]) then Some(steps[|steps| - 1])
    else LastAccepted(steps[..|steps| - 1])
  }

  ghost function AcceptedCount(steps: seq<Step>): nat {
    if steps == [] then 0
    else AcceptedCount(steps[..|steps| - 1]) + if Accepted(steps[..|steps| - 1], steps[|steps| - 1]) then 1 else 0
  }

  /** A call that is not accepted changes nothing, and an accepted one starts one goroutine that is
      unfinished and leaves everything outside the slot as it was. */
  lemma CallsStartOrNot(steps: seq<Step>, t: Step)
    requires Calls(t)
    ensures var s, s' := Reach(INITIAL, steps), Reach(INITIAL, steps + [t]);
            if !Accepted(steps, t) then s' == s
            else
              && s'.threads == s.threads + [Running]
              && Live(s', |s.threads|)
              && s'.stage == s.stage && s'.cancelled == s.cancelled && s'.awaited == s.awaited
              && s'.slot.watchTypedCb == t.CallWatchTyped?
              && s'.slot.watchCb == t.CallWatch?
  {
    assert (steps + [t])[..|steps|] == steps;
    WatchAcceptedIff(steps);
    AlwaysConsistent(steps);
    var s' := Reach(INITIAL, steps + [t]);
    assert Accepted(steps, t) ==> s'.threads[|Reach(INITIAL, steps).threads|] == Running;
  }

  /** What the slot says of the last accepted call. */
  ghost predicate Remembers(s: Shared, last: Option<Step>) {
    && (forall n: nat :: Live(s, n) ==>
          && n == |s.threads| - 1
          && last.Some?
          && (s.slot.watchTypedCb <==> last.value.CallWatchTyped?)
          && (s.slot.watchCb <==> last.value.CallWatch?))
    && ((forall n: nat :: !Live(s, n)) ==> s.slot == EMPTY)
  }

  lemma StepRemembers(s: Shared, t: Step, last: Option<Step>)
    requires Consistent(s) && Remembers(s, last) && !Calls(t)
    ensures Remembers(Next(s, t), last)
    ensures |Next(s, t).threads| == |s.threads|
  {
    var s' := Next(s, t);
    NextKeeps(s, t);
    forall n: nat | Live(s', n)
      ensures Live(s, n) && s'.slot.watchTypedCb == s.slot.watchTypedCb && s'.slot.watchCb == s.slot.watchCb
    {
      assert Live(s, n);
      assert Owns(s, n) && Owns(s', n);
    }
  }

  /** In every interleaving, while a goroutine is unfinished it is the one that the last accepted
      call started, and the callback in the slot is of that call's kind; otherwise the slot is empty.
      Each accepted call has started one goroutine. */
  lemma {:induction false} CallbackIsTheCallers(steps: seq<Step>)
    ensures Remembers(Reach(INITIAL, steps), LastAccepted(steps))
    ensures |Reach(INITIAL, steps).threads| == AcceptedCount(steps)
  {
    if steps != [] {
      var front, t := steps[..|steps| - 1], steps[|steps| - 1];
      CallbackIsTheCallers(front);
      AlwaysConsistent(front);
      AlwaysConsistent(steps);
      if Calls(t) {
        assert steps == front + [t];
        CallsStartOrNot(front, t);
      } else {
        StepRemembers(Reach(INITIAL, front), t, LastAccepted(front));
      }
    }
  }

  // ----- what each step leaves alone

  /** A context is cancelled by its caller, or by `Close` if its goroutine is unfinished when `Close`
      takes the mutex, and by nothing else. */
  lemma CancelledBy(steps: seq<Step>, t: Step, n: nat)
    ensures var s := Reach(INITIAL, steps);
            n in Next(s, t).cancelled <==>
              || n in s.cancelled
              || (t == ParentCancel(n) && n < |s.threads|)
              || (t == CloseSweep && s.stage == Marked && Live(s, n))
  {
    AlwaysConsistent(steps);
    var s := Reach(INITIAL, steps);
    if Live(s, n) { assert Owns(s, n); }
    if m: nat :| Live(s, m) { assert Owns(s, m); }
  }

  // ----- the critical sections as methods

  class WatchSlot {
    var watchCancel: Option<nat>
    var watchCb: bool
    var watchTypedCb: bool
    var watchDone: Option<nat>
    var closed: bool
    ghost var rest: Shared  // goroutines, contexts and channels, which live outside the object

    /** The object's fields together with the world outside it. */
    ghost function Abs(): Shared
      reads this
    {
      rest.(slot := Slot(watchCancel, watchCb, watchTypedCb, watchDone))
    }

    ghost predicate Valid()
      reads this
    {
      closed == (rest.stage != Open)
    }

    constructor ()
      ensures Valid() && Abs() == INITIAL
    {
      watchCancel, watchCb, watchTypedCb, watchDone, closed := None, false, false, None, false;
      rest := INITIAL;
    }

    method Watch(n: nat) returns (r: CallResult)
      requires Valid() && n == |rest.threads|
      modifies this
      ensures Valid() && Abs() == Next(old(Abs()), CallWatch)
      ensures r == Started <==> Refusal(old(Abs())).None?
      ensures r != Started ==> Some(r) == Refusal(old(Abs()))
    {
      if closed {
        return ErrClosed;
      }
      if watchCancel.Some? {
        return ErrWatchActive;
      }
      watchCancel := Some(n);
      watchCb := true;
      watchDone := Some(n);
      rest := rest.(threads := rest.threads + [Running], closes := rest.closes + [0]);
      return Started;
    }

    method WatchTyped(n: nat, ctxDone: bool) returns (r: CallResult)
      requires Valid() && n == |rest.threads|
      modifies this
      ensures Valid() && Abs() == Next(old(Abs()), CallWatchTyped(ctxDone))
      ensures r == Started <==> !ctxDone && Refusal(old(Abs())).None?
      ensures r != Started ==> if ctxDone then r == ErrCtxDone else Some(r) == Refusal(old(Abs()))
    {
      if ctxDone {
        return ErrCtxDone;
      }
      if closed {
        return ErrClosed;
      }
      if watchCancel.Some? {
        return ErrWatchActive;
      }
      watchCancel := Some(n);
      watchTypedCb := true;
      watchDone := Some(n);
      rest := rest.(threads := rest.threads + [Running], closes := rest.closes + [0]);
      return Started;
    }

    method MarkClosed() returns (won: bool)
      requires Valid()
      modifies this
      ensures Valid() && Abs() == Next(old(Abs()), CloseMark)
      ensures won == (old(Abs()).stage == Open)
    {
      won := !closed;
      if won {
        closed := true;
        rest := rest.(stage := Marked);
      }
    }

    method SweepOnClose() returns (done: Option<nat>)
      requires Valid() && rest.stage == Marked
      modifies this
      ensures Valid() && Abs() == Next(old(Abs()), CloseSweep)
      ensures done == Abs().awaited
    {
      if watchCancel.Some? {
        rest := rest.(cancelled := rest.cancelled + {watchCancel.value});
        watchCancel := None;
      }
      done := watchDone;
      rest := rest.(stage := Swept, awaited := done);
    }

    method SignalWatchDone(n: nat)
      requires Valid() && Consistent(Abs()) && InPhase(Abs(), n, Exiting)
      modifies this
      ensures Valid() && Abs() == Next(old(Abs()), SignalDone(n))
    {
      assert Live(Abs(), n) && Owns(Abs(), n);
      if watchDone.Some? {
        var c := watchDone.value;
        rest := rest.(closes := rest.closes[c := rest.closes[c] + 1]);
      }
      rest := rest.(threads := rest.threads[n := Signaled]);
    }

    method ClearWatchState(n: nat)
      requires Valid() && InPhase(Abs(), n, Signaled)
      modifies this
      ensures Valid() && Abs() == Next(old(Abs()), ClearSlot(n))
    {
      watchCancel := None;
      watchCb := false;
      watchTypedCb := false;
      watchDone := None;
      rest := rest.(threads := rest.threads[n := Gone]);
    }
  }
}
