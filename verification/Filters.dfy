/** What the event filter lets through, and what an event says of its change. */
module Filters {
  import opened History
  import opened WatchModel
  import opened SessionLaws

  /** The settings with no event filter. */
  function Open(cfg: Config): Config {
    cfg.(filterSet := false)
  }

  /** The filter's flags admit events of this kind. */
  predicate Admits(cfg: Config, kind: EventType) {
    match kind
    case EventPut => !cfg.filterSet || cfg.wantPut
    case EventDelete => !cfg.filterSet || cfg.wantDelete
    case EventResync => true
  }

  function Keep(cfg: Config, es: seq<Event>): seq<Event> {
    if es == [] then []
    else
      var last := es[|es| - 1];
      Keep(cfg, es[..|es| - 1]) + (if Admits(cfg, last.kind) then [last] else [])
  }

  lemma KeepSnoc(cfg: Config, es: seq<Event>, e: Event)
    ensures Keep(cfg, es + [e]) == Keep(cfg, es) + (if Admits(cfg, e.kind) then [e] else [])
  {
    assert (es + [e])[..|es|] == es;
  }

  /** The event reports the change: its kind, path, raw value and revision. */
  predicate Reports(cfg: Config, e: Event, c: Change) {
    && e.key == cfg.keyTransform(c.op.key)
    && e.revision == c.rev
    && (c.op.Put? ==> e.kind == EventPut && e.value == c.op.value)
    && (c.op.Delete? ==> e.kind == EventDelete && e.value == [])
  }

  /** Without a filter each change is reported by one event, in order. */
  lemma {:induction false} OpenReportsAll(cfg: Config, cs: seq<Change>)
    ensures var es := Translate(Open(cfg), cs);
            |es| == |cs| && forall i :: 0 <= i < |cs| ==> Reports(cfg, es[i], cs[i])
  {
    if cs != [] { OpenReportsAll(cfg, cs[..|cs| - 1]); }
  }

  /** With a filter the events are those of the unfiltered watch, less the kinds that are not wanted. */
  lemma {:induction false} FilterIsExact(cfg: Config, cs: seq<Change>)
    ensures Translate(cfg, cs) == Keep(cfg, Translate(Open(cfg), cs))
  {
    if cs != [] {
      var front, last := cs[..|cs| - 1], cs[|cs| - 1];
      FilterIsExact(cfg, front);
      KeepSnoc(cfg, Translate(Open(cfg), front), ToEvent(Open(cfg), last));
    }
  }

  /** For every session and every filter: what is delivered is what the unfiltered watch would
      deliver, less the unwanted kinds. */
  lemma SessionIsFiltered(cfg: Config, w: World, s: Session)
    ensures Stream(Consume(cfg, w, s).0.log)
         == Stream(w.log) + Keep(cfg, Translate(Open(cfg), Received(s.signals)))
  {
    BatchingRefinesStream(cfg, w, s);
    FilterIsExact(cfg, Received(s.signals));
  }

  lemma {:induction false} KeepIsAdmitted(cfg: Config, es: seq<Event>, e: Event)
    ensures e in Keep(cfg, es) <==> e in es && Admits(cfg, e.kind)
  {
    if es != [] {
      KeepIsAdmitted(cfg, es[..|es| - 1], e);
      assert es == es[..|es| - 1] + [es[|es| - 1]];
    }
  }

  /** A put is delivered only if puts are wanted, and a delete only if deletes are; and each change
      received is delivered, with its path, value and revision, if its own kind is wanted. */
  lemma FilterByKind(cfg: Config, cs: seq<Change>)
    ensures forall e :: e in Translate(cfg, cs) ==>
              && (e.kind == EventPut ==> !cfg.filterSet || cfg.wantPut)
              && (e.kind == EventDelete ==> !cfg.filterSet || cfg.wantDelete)
    ensures forall c :: c in cs && (!cfg.filterSet || if c.op.Put? then cfg.wantPut else cfg.wantDelete) ==>
              exists e :: e in Translate(cfg, cs) && Reports(cfg, e, c)
  {
    var all := Translate(Open(cfg), cs);
    FilterIsExact(cfg, cs);
    OpenReportsAll(cfg, cs);
    forall e | e in Translate(cfg, cs) ensures Admits(cfg, e.kind) { KeepIsAdmitted(cfg, all, e); }
    forall c | c in cs && (!cfg.filterSet || if c.op.Put? then cfg.wantPut else cfg.wantDelete)
      ensures exists e :: e in Translate(cfg, cs) && Reports(cfg, e, c)
    {
      var i :| 0 <= i < |cs| && cs[i] == c;
      KeepIsAdmitted(cfg, all, all[i]);
      assert Reports(cfg, all[i], c);
    }
  }
}
