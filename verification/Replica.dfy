/** A consumer that applies delivered puts and deletes in order, and replaces its state
    with a Read of its own at every resync, agrees with the store. */
module Replica {
  import opened Bytes
  import opened History
  import opened Sequences
  import opened WatchModel
  import opened SessionLaws
  import opened RunLaws
  import opened WatchTheorems

  /** The consumer's state: transformed values by transformed key. */
  type Copy<V> = map<Bytes, V>

  /** The value transform of a provider or a consumer: from a key and raw bytes. */
  type Values<V> = (Bytes, Bytes) -> V

  /** Values as etcd has them, which is how events carry them. */
  const RAW: Values<Bytes> := (k, v) => v

  /** The copy holds the store's entries, transformed, under their transformed keys, and nothing else. */
  ghost predicate Mirrors<V>(cfg: Config, vt: Values<V>, m: Store, copy: Copy<V>) {
    && (forall k :: k in m ==> cfg.keyTransform(k) in copy && copy[cfg.keyTransform(k)] == vt(k, m[k]))
    && (forall p :: p in copy ==> exists k :: k in m && cfg.keyTransform(k) == p)
  }

  /** k is one of the store's keys at path p. */
  ghost predicate Holds(cfg: Config, m: Store, p: Bytes, k: Bytes) {
    k in m && cfg.keyTransform(k) == p
  }

  ghost function HolderOf(cfg: Config, m: Store, p: Bytes): (k: Bytes)
    requires exists k :: Holds(cfg, m, p, k)
    ensures Holds(cfg, m, p, k)
  {
    var k :| Holds(cfg, m, p, k);
    k
  }

  /** What a read returns for a store. Where several keys share a path, it holds one of them. */
  ghost function Load<V>(cfg: Config, vt: Values<V>, m: Store): Copy<V> {
    var paths := set k | k in m :: cfg.keyTransform(k);
    assert forall k :: k in m ==> Holds(cfg, m, cfg.keyTransform(k), k);
    map p | p in paths :: vt(HolderOf(cfg, m, p), m[HolderOf(cfg, m, p)])
  }

  /** No two of these keys share a path. */
  ghost predicate InjectiveOn(cfg: Config, ks: iset<Bytes>) {
    forall k, l :: k in ks && l in ks && cfg.keyTransform(k) == cfg.keyTransform(l) ==> k == l
  }

  /** A read transforms a value with its etcd key, a consumer of events with the event's path: for
      these keys it makes no difference. */
  ghost predicate PathBlind<V>(cfg: Config, vt: Values<V>, ks: iset<Bytes>) {
    forall k, v: Bytes :: k in ks ==> vt(k, v) == vt(cfg.keyTransform(k), v)
  }

  /** A consumer can follow these keys. */
  ghost predicate Followable<V>(cfg: Config, vt: Values<V>, ks: iset<Bytes>) {
    InjectiveOn(cfg, ks) && PathBlind(cfg, vt, ks)
  }

  /** The keys that a history puts or deletes in scope. */
  ghost function KeysOf(h: History, s: Scope): iset<Bytes> {
    iset c: Change | c in Changes(h, s, 0, |h|) :: c.op.key
  }

  predicate Unfiltered(cfg: Config) {
    cfg.filterSet ==> cfg.wantPut && cfg.wantDelete
  }

  ghost predicate KeysIn(m: Store, ks: iset<Bytes>) {
    forall k :: k in m ==> k in ks
  }

  lemma ChangesUseKeys(h: History, s: Scope, lo: nat, hi: nat)
    requires lo <= hi <= |h|
    ensures forall i :: 0 <= i < |Changes(h, s, lo, hi)| ==> Changes(h, s, lo, hi)[i].op.key in KeysOf(h, s)
  {
    ChangesConcatenate(h, s, 0, lo, |h|);
    ChangesConcatenate(h, s, lo, hi, |h|);
    var cs := Changes(h, s, lo, hi);
    forall i | 0 <= i < |cs| ensures cs[i].op.key in KeysOf(h, s) { assert cs[i] in cs; }
  }

  lemma {:induction false} ReplayUsesKeys(m: Store, cs: seq<Change>, ks: iset<Bytes>)
    requires KeysIn(m, ks) && forall i :: 0 <= i < |cs| ==> cs[i].op.key in ks
    ensures KeysIn(Replay(m, cs), ks)
  {
    if cs != [] { ReplayUsesKeys(m, cs[..|cs| - 1], ks); }
  }

  lemma SnapshotUsesKeys(h: History, s: Scope, n: nat)
    requires n <= |h|
    ensures KeysIn(Snapshot(h, s, n), KeysOf(h, s))
  {
    SnapshotReplays(h, s, 0, n);
    ChangesUseKeys(h, s, 0, n);
    ReplayUsesKeys(Snapshot(h, s, 0), Changes(h, s, 0, n), KeysOf(h, s));
  }

  // ----- the consumer

  function TakeEvent<V>(vt: Values<V>, copy: Copy<V>, e: Event): Copy<V> {
    match e.kind
    case EventPut => copy[e.key := vt(e.key, e.value)]
    case EventDelete => copy - {e.key}
    case EventResync => copy
  }

  /** Apply puts and deletes in order. */
  function TakeLive<V>(vt: Values<V>, copy: Copy<V>, es: seq<Event>): Copy<V> {
    if es == [] then copy else TakeEvent(vt, TakeLive(vt, copy, es[..|es| - 1]), es[|es| - 1])
  }

  ghost function Reload<V>(cfg: Config, vt: Values<V>, h: History, rev: nat): Copy<V> {
    if rev < |h| then Load(cfg, vt, Snapshot(h, cfg.scope, rev + 1)) else map[]
  }

  /** Apply them, and answer each resync. A resync carries no data: the consumer makes a Read of its
      own, and rereads[i] is the revision at which the Read that answers event i is served. */
  ghost function TakeAll<V>(cfg: Config, vt: Values<V>, h: History, rereads: seq<nat>, copy: Copy<V>,
                            es: seq<Event>): Copy<V>
    requires |es| <= |rereads|
  {
    if es == [] then copy
    else
      var last := |es| - 1;
      if es[last].kind == EventResync then Reload(cfg, vt, h, rereads[last])
      else TakeEvent(vt, TakeAll(cfg, vt, h, rereads, copy, es[..last]), es[last])
  }

  /** Each Read is served at the revision of the resync it answers, or later. */
  predicate Answered(h: History, rereads: seq<nat>, es: seq<Event>) {
    |es| <= |rereads| && forall i :: 0 <= i < |es| && es[i].kind == EventResync ==> es[i].revision <= rereads[i] < |h|
  }

  /** Each Read is served at exactly that revision. */
  predicate AnsweredAtOnce(rereads: seq<nat>, es: seq<Event>) {
    |es| <= |rereads| && forall i :: 0 <= i < |es| && es[i].kind == EventResync ==> rereads[i] == es[i].revision
  }

  /** The position that the consumer has seen by the end of some events: that of its last Read. */
  function Seen(rereads: seq<nat>, first: nat, es: seq<Event>): nat
    requires |es| <= |rereads|
  {
    if es == [] then first
    else if es[|es| - 1].kind == EventResync then rereads[|es| - 1] + 1
    else Seen(rereads, first, es[..|es| - 1])
  }

  lemma TakeLiveSnoc<V>(vt: Values<V>, copy: Copy<V>, a: seq<Event>, e: Event)
    ensures TakeLive(vt, copy, a + [e]) == TakeEvent(vt, TakeLive(vt, copy, a), e)
  {
    assert (a + [e])[..|a|] == a;
  }

  lemma {:induction false} TakeLiveConcatenates<V>(vt: Values<V>, copy: Copy<V>, a: seq<Event>, b: seq<Event>)
    ensures TakeLive(vt, copy, a + b) == TakeLive(vt, TakeLive(vt, copy, a), b)
  {
    if b == [] {
      assert a + b == a;
    } else {
      var front, last := b[..|b| - 1], b[|b| - 1];
      assert b == front + [last];
      TakeLiveConcatenates(vt, copy, a, front);
      Associates(a, front, [last]);
      TakeLiveSnoc(vt, copy, a + front, last);
    }
  }

  lemma TakeAllSnoc<V>(cfg: Config, vt: Values<V>, h: History, rereads: seq<nat>, copy: Copy<V>, first: nat,
                       a: seq<Event>, e: Event)
    requires |a| < |rereads|
    ensures TakeAll(cfg, vt, h, rereads, copy, a + [e])
         == if e.kind == EventResync then Reload(cfg, vt, h, rereads[|a|])
            else TakeEvent(vt, TakeAll(cfg, vt, h, rereads, copy, a), e)
    ensures Seen(rereads, first, a + [e]) == if e.kind == EventResync then rereads[|a|] + 1 else Seen(rereads, first, a)
  {
    assert (a + [e])[..|a|] == a;
  }

  /** Translated changes are live: no Read answers them. */
  lemma {:induction false} TakeTranslated<V>(cfg: Config, vt: Values<V>, h: History, rereads: seq<nat>,
                                             copy: Copy<V>, first: nat, a: seq<Event>, cs: seq<Change>)
    requires |a + Translate(cfg, cs)| <= |rereads|
    ensures TakeAll(cfg, vt, h, rereads, copy, a + Translate(cfg, cs))
         == TakeLive(vt, TakeAll(cfg, vt, h, rereads, copy, a), Translate(cfg, cs))
    ensures Seen(rereads, first, a + Translate(cfg, cs)) == Seen(rereads, first, a)
  {
    if cs == [] {
      assert a + Translate(cfg, cs) == a;
    } else {
      var front, last := Translate(cfg, cs[..|cs| - 1]), cs[|cs| - 1];
      TakeTranslated(cfg, vt, h, rereads, copy, first, a, cs[..|cs| - 1]);
      if Wanted(cfg, last.op) {
        var e := ToEvent(cfg, last);
        Associates(a, front, [e]);
        TakeAllSnoc(cfg, vt, h, rereads, copy, first, a + front, e);
        TakeLiveSnoc(vt, TakeAll(cfg, vt, h, rereads, copy, a), front, e);
      } else {
        assert front + [] == front;
      }
    }
  }

  lemma LoadMirrors<V>(cfg: Config, vt: Values<V>, m: Store, ks: iset<Bytes>)
    requires InjectiveOn(cfg, ks) && KeysIn(m, ks)
    ensures Mirrors(cfg, vt, m, Load(cfg, vt, m))
  {
    var copy := Load(cfg, vt, m);
    forall k | k in m ensures cfg.keyTransform(k) in copy && copy[cfg.keyTransform(k)] == vt(k, m[k]) {
      assert Holds(cfg, m, cfg.keyTransform(k), k);
    }
  }

  lemma PutMirrors<V>(cfg: Config, vt: Values<V>, m: Store, copy: Copy<V>, k: Bytes, v: Bytes, ks: iset<Bytes>)
    requires InjectiveOn(cfg, ks) && KeysIn(m, ks) && k in ks && Mirrors(cfg, vt, m, copy)
    ensures Mirrors(cfg, vt, m[k := v], copy[cfg.keyTransform(k) := vt(k, v)])
  {
    var m', copy' := m[k := v], copy[cfg.keyTransform(k) := vt(k, v)];
    forall p | p in copy' ensures exists l :: l in m' && cfg.keyTransform(l) == p {
      if p == cfg.keyTransform(k) {
        assert k in m';
      } else {
        var l :| l in m && cfg.keyTransform(l) == p;
        assert l in m';
      }
    }
  }

  lemma DeleteMirrors<V>(cfg: Config, vt: Values<V>, m: Store, copy: Copy<V>, k: Bytes, ks: iset<Bytes>)
    requires InjectiveOn(cfg, ks) && KeysIn(m, ks) && k in ks && Mirrors(cfg, vt, m, copy)
    ensures Mirrors(cfg, vt, m - {k}, copy - {cfg.keyTransform(k)})
  {
    var m', copy' := m - {k}, copy - {cfg.keyTransform(k)};
    forall p | p in copy' ensures exists l :: l in m' && cfg.keyTransform(l) == p {
      var l :| l in m && cfg.keyTransform(l) == p;
      assert l in m';
    }
  }

  lemma TakeMirrors<V>(cfg: Config, vt: Values<V>, m: Store, copy: Copy<V>, c: Change, ks: iset<Bytes>)
    requires Followable(cfg, vt, ks) && KeysIn(m, ks) && c.op.key in ks
    requires Mirrors(cfg, vt, m, copy)
    ensures Mirrors(cfg, vt, Apply(m, c.op), TakeEvent(vt, copy, ToEvent(cfg, c)))
    ensures KeysIn(Apply(m, c.op), ks)
  {
    match c.op {
      case Put(k, v) => PutMirrors(cfg, vt, m, copy, k, v, ks);
      case Delete(k) => DeleteMirrors(cfg, vt, m, copy, k, ks);
    }
  }

  lemma {:induction false} ReplayMirrors<V>(cfg: Config, vt: Values<V>, m: Store, copy: Copy<V>, cs: seq<Change>,
                                            ks: iset<Bytes>)
    requires Followable(cfg, vt, ks) && Unfiltered(cfg) && KeysIn(m, ks) && Mirrors(cfg, vt, m, copy)
    requires forall i :: 0 <= i < |cs| ==> cs[i].op.key in ks
    ensures Mirrors(cfg, vt, Replay(m, cs), TakeLive(vt, copy, Translate(cfg, cs)))
    ensures KeysIn(Replay(m, cs), ks)
  {
    if cs != [] {
      var front := cs[..|cs| - 1];
      var last := cs[|cs| - 1];
      ReplayMirrors(cfg, vt, m, copy, front, ks);
      TakeMirrors(cfg, vt, Replay(m, front), TakeLive(vt, copy, Translate(cfg, front)), last, ks);
      TakeLiveSnoc(vt, copy, Translate(cfg, front), ToEvent(cfg, last));
    }
  }

  /** A copy read later than the revision it was told, and then sent changes it has already
      read, is right once the changes have passed its read. */
  lemma LateReadAgrees<V>(cfg: Config, vt: Values<V>, h: History, copy: Copy<V>, told: nat, read: nat, at: nat)
    requires Followable(cfg, vt, KeysOf(h, cfg.scope)) && Unfiltered(cfg) && told <= read <= at <= |h|
    requires Mirrors(cfg, vt, Snapshot(h, cfg.scope, read), copy)
    ensures Mirrors(cfg, vt, Snapshot(h, cfg.scope, at),
                    TakeLive(vt, copy, Translate(cfg, Changes(h, cfg.scope, told, at))))
  {
    SnapshotUsesKeys(h, cfg.scope, read);
    ChangesUseKeys(h, cfg.scope, told, at);
    ReplayMirrors(cfg, vt, Snapshot(h, cfg.scope, read), copy, Changes(h, cfg.scope, told, at), KeysOf(h, cfg.scope));
    LateRereadConverges(h, cfg.scope, told, read, at);
  }

  // ----- whole runs

  /** At position `at`: sent everything up to p, the copy will be right there. */
  ghost predicate RightAt<V>(cfg: Config, vt: Values<V>, h: History, copy: Copy<V>, at: nat, p: nat) {
    && at <= p <= |h|
    && Mirrors(cfg, vt, Snapshot(h, cfg.scope, p), TakeLive(vt, copy, Translate(cfg, Changes(h, cfg.scope, at, p))))
  }

  /** It will be right at every later position that has passed `seen`. */
  ghost predicate Pursues<V>(cfg: Config, vt: Values<V>, h: History, copy: Copy<V>, at: nat, seen: nat) {
    forall p: nat :: at <= p <= |h| && seen <= p ==> RightAt(cfg, vt, h, copy, at, p)
  }

  lemma ReadPursues<V>(cfg: Config, vt: Values<V>, h: History, copy: Copy<V>, told: nat, read: nat)
    requires Followable(cfg, vt, KeysOf(h, cfg.scope)) && Unfiltered(cfg) && told <= read <= |h|
    requires Mirrors(cfg, vt, Snapshot(h, cfg.scope, read), copy)
    ensures Pursues(cfg, vt, h, copy, told, read)
  {
    forall p: nat | told <= p <= |h| && read <= p ensures RightAt(cfg, vt, h, copy, told, p) {
      LateReadAgrees(cfg, vt, h, copy, told, read, p);
    }
  }

  lemma LiveStaysRight<V>(cfg: Config, vt: Values<V>, h: History, copy: Copy<V>, lo: nat, hi: nat, p: nat)
    requires lo <= hi <= p <= |h| && RightAt(cfg, vt, h, copy, lo, p)
    ensures RightAt(cfg, vt, h, TakeLive(vt, copy, Translate(cfg, Changes(h, cfg.scope, lo, hi))), hi, p)
  {
    var a, b := Changes(h, cfg.scope, lo, hi), Changes(h, cfg.scope, hi, p);
    ChangesConcatenate(h, cfg.scope, lo, hi, p);
    TranslateConcatenates(cfg, a, b);
    TakeLiveConcatenates(vt, copy, Translate(cfg, a), Translate(cfg, b));
  }

  lemma LivePursues<V>(cfg: Config, vt: Values<V>, h: History, copy: Copy<V>, copy': Copy<V>, lo: nat, hi: nat,
                       seen: nat)
    requires lo <= hi <= |h| && Pursues(cfg, vt, h, copy, lo, seen)
    requires copy' == TakeLive(vt, copy, Translate(cfg, Changes(h, cfg.scope, lo, hi)))
    ensures Pursues(cfg, vt, h, copy', hi, seen)
  {
    forall p: nat | hi <= p <= |h| && seen <= p ensures RightAt(cfg, vt, h, copy', hi, p) {
      LiveStaysRight(cfg, vt, h, copy, lo, hi, p);
    }
  }

  lemma JumpPursues<V>(cfg: Config, vt: Values<V>, h: History, rev: nat, reread: nat)
    requires Followable(cfg, vt, KeysOf(h, cfg.scope)) && Unfiltered(cfg) && rev <= reread < |h|
    ensures Pursues(cfg, vt, h, Reload(cfg, vt, h, reread), rev + 1, reread + 1)
  {
    SnapshotUsesKeys(h, cfg.scope, reread + 1);
    LoadMirrors(cfg, vt, Snapshot(h, cfg.scope, reread + 1), KeysOf(h, cfg.scope));
    ReadPursues(cfg, vt, h, Reload(cfg, vt, h, reread), rev + 1, reread + 1);
  }

  lemma SpanPursues<V>(cfg: Config, vt: Values<V>, h: History, rereads: seq<nat>, copy: Copy<V>, first: nat,
                       before: seq<Event>, s: Span, at: nat)
    requires Followable(cfg, vt, KeysOf(h, cfg.scope)) && Unfiltered(cfg) && Follows(h, at, s)
    requires Answered(h, rereads, before + SpanEvents(cfg, h, s))
    requires Pursues(cfg, vt, h, TakeAll(cfg, vt, h, rereads, copy, before), at, Seen(rereads, first, before))
    ensures var es := before + SpanEvents(cfg, h, s);
            Pursues(cfg, vt, h, TakeAll(cfg, vt, h, rereads, copy, es), if s.Live? then s.hi else s.rev + 1,
                    Seen(rereads, first, es))
  {
    var es := before + SpanEvents(cfg, h, s);
    match s {
      case Live(lo, hi) =>
        TakeTranslated(cfg, vt, h, rereads, copy, first, before, Changes(h, cfg.scope, lo, hi));
        LivePursues(cfg, vt, h, TakeAll(cfg, vt, h, rereads, copy, before), TakeAll(cfg, vt, h, rereads, copy, es),
                    lo, hi, Seen(rereads, first, before));
      case Jump(rev) =>
        assert es[|before|] == ResyncEvent(rev);
        TakeAllSnoc(cfg, vt, h, rereads, copy, first, before, ResyncEvent(rev));
        JumpPursues(cfg, vt, h, rev, rereads[|before|]);
    }
  }

  lemma AnsweredFront(h: History, rereads: seq<nat>, a: seq<Event>, b: seq<Event>)
    requires Answered(h, rereads, a + b)
    ensures Answered(h, rereads, a)
  {
    forall i | 0 <= i < |a| && a[i].kind == EventResync ensures a[i].revision <= rereads[i] < |h| {
      assert (a + b)[i] == a[i];
    }
  }

  /** Consuming a chain of spans keeps the copy in pursuit of the store. */
  lemma {:induction false} ChainPursues<V>(cfg: Config, vt: Values<V>, h: History, rereads: seq<nat>,
                                           spans: seq<Span>, from: nat, copy: Copy<V>, first: nat)
    requires Followable(cfg, vt, KeysOf(h, cfg.scope)) && Unfiltered(cfg)
    requires Chained(h, spans, from) && Answered(h, rereads, Expand(cfg, h, spans))
    requires Pursues(cfg, vt, h, copy, from, first)
    ensures var es := Expand(cfg, h, spans);
            Pursues(cfg, vt, h, TakeAll(cfg, vt, h, rereads, copy, es), End(spans, from), Seen(rereads, first, es))
  {
    if spans != [] {
      var front := spans[..|spans| - 1];
      var last := spans[|spans| - 1];
      AnsweredFront(h, rereads, Expand(cfg, h, front), SpanEvents(cfg, h, last));
      ChainPursues(cfg, vt, h, rereads, front, from, copy, first);
      SpanPursues(cfg, vt, h, rereads, copy, first, Expand(cfg, h, front), last, End(front, from));
    }
  }

  /** Replica agreement, with Reads served when they are served. A consumer starts from a Read at
      position `first`, at or past the first watch position, applies everything the watch delivers,
      and answers each resync with a Read of its own, served at that revision or later. In every
      fair run, through every mix of closes, errors, compactions, refused re-reads, user Reads,
      debounce groupings and callback panics: once the watch has passed the consumer's last Read,
      the copy mirrors the store at the position reached. */
  lemma LateReplicaAgreement<V>(cfg: Config, vt: Values<V>, h: History, s: State, turns: seq<Turn>,
                                rereads: seq<nat>, copy: Copy<V>, first: nat)
    requires Followable(cfg, vt, KeysOf(h, cfg.scope)) && Unfiltered(cfg)
    requires FreshHead(h, s) && FairRun(cfg, h, s, turns)
    requires s.loop.startRev <= first <= |h| && Mirrors(cfg, vt, Snapshot(h, cfg.scope, first), copy)
    requires Answered(h, rereads, NewEvents(s.world, Run(cfg, s, turns).world))
    ensures var s' := Run(cfg, s, turns);
            var es := NewEvents(s.world, s'.world);
            var at := End(RunSpans(cfg, s, turns), s.loop.startRev);
            && at <= |h|
            && (s'.loop.running ==> s'.loop.startRev == at)
            && (Seen(rereads, first, es) <= at ==>
                  Mirrors(cfg, vt, Snapshot(h, cfg.scope, at), TakeAll(cfg, vt, h, rereads, copy, es)))
  {
    DeliveryIsGapFree(cfg, h, s, turns);
    var spans := RunSpans(cfg, s, turns);
    var es := Expand(cfg, h, spans);
    var at := End(spans, s.loop.startRev);
    assert NewEvents(s.world, Run(cfg, s, turns).world) == es;
    EndIsReached(h, spans, s.loop.startRev);
    ReadPursues(cfg, vt, h, copy, s.loop.startRev, first);
    ChainPursues(cfg, vt, h, rereads, spans, s.loop.startRev, copy, first);
    NothingMore(cfg, vt, h, TakeAll(cfg, vt, h, rereads, copy, es), at, Seen(rereads, first, es));
  }

  lemma NothingMore<V>(cfg: Config, vt: Values<V>, h: History, copy: Copy<V>, at: nat, seen: nat)
    requires at <= |h| && Pursues(cfg, vt, h, copy, at, seen)
    ensures seen <= at ==> Mirrors(cfg, vt, Snapshot(h, cfg.scope, at), copy)
  {
    if seen <= at { assert RightAt(cfg, vt, h, copy, at, at); }
  }

  lemma {:induction false} AtOnceIsSeen(rereads: seq<nat>, first: nat, es: seq<Event>, at: nat)
    requires AnsweredAtOnce(rereads, es) && first <= at
    requires forall i :: 0 <= i < |es| ==> es[i].revision < at
    ensures Seen(rereads, first, es) <= at
  {
    if es != [] { AtOnceIsSeen(rereads, first, es[..|es| - 1], at); }
  }

  predicate AllBelow(es: seq<Event>, at: nat) {
    forall i :: 0 <= i < |es| ==> es[i].revision < at
  }

  lemma AtOnceAnswers(h: History, rereads: seq<nat>, first: nat, es: seq<Event>, at: nat)
    requires AnsweredAtOnce(rereads, es) && first <= at <= |h| && AllBelow(es, at)
    ensures Seen(rereads, first, es) <= at && Answered(h, rereads, es)
  {
    AtOnceIsSeen(rereads, first, es, at);
  }

  lemma AtOnceIsSeenInRun(cfg: Config, h: History, s: State, turns: seq<Turn>, rereads: seq<nat>)
    requires FreshHead(h, s) && FairRun(cfg, h, s, turns)
    requires AnsweredAtOnce(rereads, NewEvents(s.world, Run(cfg, s, turns).world))
    ensures var at := End(RunSpans(cfg, s, turns), s.loop.startRev);
            var es := NewEvents(s.world, Run(cfg, s, turns).world);
            && s.loop.startRev <= at <= |h|
            && Seen(rereads, s.loop.startRev, es) <= at
            && Answered(h, rereads, es)
  {
    RunRevisions(cfg, h, s, turns);
    AtOnceAnswers(h, rereads, s.loop.startRev, NewEvents(s.world, Run(cfg, s, turns).world),
                  End(RunSpans(cfg, s, turns), s.loop.startRev));
  }

  /** When each Read is served at the revision it answers, and the first at the watch position,
      the copy mirrors the store at every head and wherever the loop stops. */
  lemma ReplicaAgreement<V>(cfg: Config, vt: Values<V>, h: History, s: State, turns: seq<Turn>, rereads: seq<nat>,
                            copy: Copy<V>)
    requires Followable(cfg, vt, KeysOf(h, cfg.scope)) && Unfiltered(cfg)
    requires FreshHead(h, s) && FairRun(cfg, h, s, turns)
    requires Mirrors(cfg, vt, Snapshot(h, cfg.scope, s.loop.startRev), copy)
    requires AnsweredAtOnce(rereads, NewEvents(s.world, Run(cfg, s, turns).world))
    ensures var s' := Run(cfg, s, turns);
            var at := End(RunSpans(cfg, s, turns), s.loop.startRev);
            && at <= |h|
            && Mirrors(cfg, vt, Snapshot(h, cfg.scope, at),
                       TakeAll(cfg, vt, h, rereads, copy, NewEvents(s.world, s'.world)))
            && (s'.loop.running ==> s'.loop.startRev == at)
  {
    AtOnceIsSeenInRun(cfg, h, s, turns, rereads);
    LateReplicaAgreement(cfg, vt, h, s, turns, rereads, copy, s.loop.startRev);
  }

  lemma RunRevisions(cfg: Config, h: History, s: State, turns: seq<Turn>)
    requires FreshHead(h, s) && FairRun(cfg, h, s, turns)
    ensures var at := End(RunSpans(cfg, s, turns), s.loop.startRev);
            var es := NewEvents(s.world, Run(cfg, s, turns).world);
            s.loop.startRev <= at <= |h| && AllBelow(es, at)
  {
    DeliveryIsGapFree(cfg, h, s, turns);
    var spans := RunSpans(cfg, s, turns);
    assert NewEvents(s.world, Run(cfg, s, turns).world) == Expand(cfg, h, spans);
    EndIsReached(h, spans, s.loop.startRev);
    ExpandOrdered(cfg, h, spans, s.loop.startRev);
  }

  // ----- the exact condition

  /** Two keys that share a path, put at revisions 1 and 2; the second is deleted at 3. */
  function Clash(k: Bytes, l: Bytes): History {
    [[], [Put(k, [])], [Put(l, [])], [Delete(l)]]
  }

  lemma ClashChanges(s: Scope, k: Bytes, l: Bytes)
    requires InScope(s, k) && InScope(s, l) && k != l
    ensures Changes(Clash(k, l), s, 0, 4) == [Change(Put(k, []), 1), Change(Put(l, []), 2), Change(Delete(l), 3)]
    ensures k in Snapshot(Clash(k, l), s, 4)
  {
    var h := Clash(k, l);
    assert Changes(h, s, 0, 1) == [];
    assert ChangesAt([Put(k, [])], s, 1) == [Change(Put(k, []), 1)];
    assert ChangesAt([Put(l, [])], s, 2) == [Change(Put(l, []), 2)];
    assert ChangesAt([Delete(l)], s, 3) == [Change(Delete(l), 3)];
    assert Changes(h, s, 0, 2) == [Change(Put(k, []), 1)];
    assert Changes(h, s, 0, 3) == [Change(Put(k, []), 1), Change(Put(l, []), 2)];
    var cs := [Change(Put(k, []), 1), Change(Put(l, []), 2), Change(Delete(l), 3)];
    assert Changes(h, s, 0, 4) == cs;
    ClashLeavesFirst(k, l);
    SnapshotReplays(h, s, 0, 4);
    ReplayAtKey(Snapshot(h, s, 0), cs, k);
  }

  lemma ClashLeavesFirst(k: Bytes, l: Bytes)
    requires k != l
    ensures LastOn([Change(Put(k, []), 1), Change(Put(l, []), 2), Change(Delete(l), 3)], k) == 0
  {
    var cs := [Change(Put(k, []), 1), Change(Put(l, []), 2), Change(Delete(l), 3)];
    assert cs[..2] == [cs[0], cs[1]] && cs[..2][..1] == [cs[0]];
    assert LastOn(cs[..2][..1], k) == 0;
    assert LastOn(cs[..2], k) == 0;
  }

  lemma ClashKeys(s: Scope, k: Bytes, l: Bytes)
    requires InScope(s, k) && InScope(s, l) && k != l
    ensures KeysOf(Clash(k, l), s) <= iset{k, l}
  {
    ClashChanges(s, k, l);
  }

  lemma ClashBreaksMirror<V>(cfg: Config, vt: Values<V>, k: Bytes, l: Bytes)
    requires Unfiltered(cfg) && InScope(cfg.scope, k) && InScope(cfg.scope, l) && k != l
    requires cfg.keyTransform(k) == cfg.keyTransform(l)
    ensures !FollowsFromStart(cfg, vt, Clash(k, l), 4)
  {
    var h := Clash(k, l);
    ClashChanges(cfg.scope, k, l);
    var cs := Changes(h, cfg.scope, 0, 4);
    var es := Translate(cfg, cs);
    assert cs[..2] == [cs[0], cs[1]];
    assert Translate(cfg, cs) == Translate(cfg, cs[..2]) + [ToEvent(cfg, cs[2])];
    assert es[|es| - 1] == Event(EventDelete, cfg.keyTransform(l), [], 3);
    assert cfg.keyTransform(k) !in TakeLive(vt, map[], es);
  }

  /** One put, at revision 1. */
  function OnePut(k: Bytes, v: Bytes): History {
    [[], [Put(k, v)]]
  }

  lemma OnePutChanges(s: Scope, k: Bytes, v: Bytes)
    requires InScope(s, k)
    ensures Changes(OnePut(k, v), s, 0, 2) == [Change(Put(k, v), 1)]
    ensures KeysOf(OnePut(k, v), s) <= iset{k}
    ensures k in Snapshot(OnePut(k, v), s, 2) && Snapshot(OnePut(k, v), s, 2)[k] == v
  {
    var h, c := OnePut(k, v), Change(Put(k, v), 1);
    assert Changes(h, s, 0, 1) == [];
    assert ChangesAt([Put(k, v)], s, 1) == [c];
    assert Changes(h, s, 0, 2) == [c];
    SnapshotReplays(h, s, 0, 2);
    ReplayAtKey(Snapshot(h, s, 0), [c], k);
  }

  lemma PathMattersBreaksMirror<V>(cfg: Config, vt: Values<V>, k: Bytes, v: Bytes)
    requires Unfiltered(cfg) && InScope(cfg.scope, k) && vt(k, v) != vt(cfg.keyTransform(k), v)
    ensures !FollowsFromStart(cfg, vt, OnePut(k, v), 2)
  {
    OnePutChanges(cfg.scope, k, v);
    var e := ToEvent(cfg, Change(Put(k, v), 1));
    assert [] + [e] == [e] && [Change(Put(k, v), 1)][..0] == [];
    assert Translate(cfg, [Change(Put(k, v), 1)]) == [e];
    TakeLiveSnoc(vt, map[], [], e);
  }

  /** Following the watch from an empty copy mirrors the store at position n. */
  ghost predicate FollowsFromStart<V>(cfg: Config, vt: Values<V>, h: History, n: nat)
    requires n <= |h|
  {
    Mirrors(cfg, vt, Snapshot(h, cfg.scope, n), TakeLive(vt, map[], Translate(cfg, Changes(h, cfg.scope, 0, n))))
  }

  /** Following the watch mirrors every history over these keys at every position. */
  ghost predicate FollowsAll<V>(cfg: Config, vt: Values<V>, ks: iset<Bytes>) {
    forall h: History, n: nat ::
      n <= |h| && KeysOf(h, cfg.scope) <= ks ==> FollowsFromStart(cfg, vt, h, n)
  }

  ghost function Scoped(cfg: Config, ks: iset<Bytes>): iset<Bytes> {
    iset k | k in ks && InScope(cfg.scope, k)
  }

  lemma FollowableAgrees<V>(cfg: Config, vt: Values<V>, ks: iset<Bytes>, h: History, n: nat)
    requires Unfiltered(cfg) && n <= |h| && KeysOf(h, cfg.scope) <= ks && Followable(cfg, vt, Scoped(cfg, ks))
    ensures FollowsFromStart(cfg, vt, h, n)
  {
    ChangesInRange(h, cfg.scope, 0, |h|);
    assert KeysOf(h, cfg.scope) <= Scoped(cfg, ks);
    LateReadAgrees(cfg, vt, h, map[], 0, 0, n);
  }

  lemma ClashRefutes<V>(cfg: Config, vt: Values<V>, ks: iset<Bytes>, k: Bytes, l: Bytes)
    requires Unfiltered(cfg) && k in Scoped(cfg, ks) && l in Scoped(cfg, ks)
    requires cfg.keyTransform(k) == cfg.keyTransform(l) && k != l
    ensures !FollowsAll(cfg, vt, ks)
  {
    var h := Clash(k, l);
    ClashKeys(cfg.scope, k, l);
    assert KeysOf(h, cfg.scope) <= ks && |h| == 4;
    ClashBreaksMirror(cfg, vt, k, l);
  }

  lemma PutRefutes<V>(cfg: Config, vt: Values<V>, ks: iset<Bytes>, k: Bytes, v: Bytes)
    requires Unfiltered(cfg) && k in Scoped(cfg, ks) && vt(k, v) != vt(cfg.keyTransform(k), v)
    ensures !FollowsAll(cfg, vt, ks)
  {
    var h := OnePut(k, v);
    OnePutChanges(cfg.scope, k, v);
    assert KeysOf(h, cfg.scope) <= ks && |h| == 2;
    PathMattersBreaksMirror(cfg, vt, k, v);
  }

  /** For every set of keys and every value transform: consumers follow every history over those
      keys at every position exactly when no two of them in scope share a path, and values transform
      by the path as they do by the key. */
  lemma AgreementIffFollowable<V>(cfg: Config, vt: Values<V>, ks: iset<Bytes>)
    requires Unfiltered(cfg)
    ensures FollowsAll(cfg, vt, ks) <==> Followable(cfg, vt, Scoped(cfg, ks))
  {
    var scoped := Scoped(cfg, ks);
    if Followable(cfg, vt, scoped) {
      forall h: History, n: nat | n <= |h| && KeysOf(h, cfg.scope) <= ks ensures FollowsFromStart(cfg, vt, h, n) {
        FollowableAgrees(cfg, vt, ks, h, n);
      }
    } else if !InjectiveOn(cfg, scoped) {
      var k, l :| k in scoped && l in scoped && cfg.keyTransform(k) == cfg.keyTransform(l) && k != l;
      ClashRefutes(cfg, vt, ks, k, l);
    } else {
      var k, v: Bytes :| k in scoped && vt(k, v) != vt(cfg.keyTransform(k), v);
      PutRefutes(cfg, vt, ks, k, v);
    }
  }
}
