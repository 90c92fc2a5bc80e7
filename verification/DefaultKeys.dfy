/** Providers that keep the default transforms: which keys the default key transform keeps apart, and
    the replica results for them. */
module DefaultKeys {
  import opened Bytes
  import opened History
  import opened Options
  import opened Pagination
  import opened Paths
  import opened ReadThenWatch
  import opened Replica
  import opened RunLaws
  import opened TornReads
  import opened WatchModel
  import opened WatchTheorems
  import opened Whitespace

  /** A provider in prefix mode that keeps the default key transform. */
  ghost predicate UsesDefault(cfg: Config, prefix: Bytes, delim: Bytes, trimPrefix: bool) {
    && cfg.scope == Prefix(prefix)
    && forall k: Bytes :: cfg.keyTransform(k) == DefaultTransform(prefix, delim, trimPrefix, k)
  }

  /** The delimiter contains "/", or the "/" segments of every one of these keys come through it. */
  ghost predicate ComeThrough(prefix: Bytes, delim: Bytes, trimPrefix: bool, ks: iset<Bytes>) {
    SLASH in delim || forall k :: k in ks ==> Survives(prefix, delim, trimPrefix, k)
  }

  /** The value transform does not look at the key, as the default one does not. */
  ghost predicate IgnoresKey<V>(vt: Values<V>) {
    forall k: Bytes, l: Bytes, v: Bytes :: vt(k, v) == vt(l, v)
  }

  const TRIMMED: Values<Bytes> := (k, v) => TrimSpace(v)

  lemma ComeThroughApart(cfg: Config, prefix: Bytes, delim: Bytes, trimPrefix: bool, ks: iset<Bytes>)
    requires UsesDefault(cfg, prefix, delim, trimPrefix) && ComeThrough(prefix, delim, trimPrefix, ks)
    requires forall k :: k in ks ==> InScope(cfg.scope, k)
    ensures InjectiveOn(cfg, ks)
  {
    forall k, l | k in ks && l in ks && cfg.keyTransform(k) == cfg.keyTransform(l) ensures k == l {
      if SLASH in delim {
        SlashDelimiterIsInjective(prefix, delim, trimPrefix, k, l);
      } else {
        DefaultTransformInjective(prefix, delim, trimPrefix, k, l);
      }
    }
  }

  /** Exactly when the default transform keeps all keys in scope apart: its delimiter contains "/". */
  lemma DefaultKeepsApartIff(cfg: Config, prefix: Bytes, delim: Bytes, trimPrefix: bool)
    requires UsesDefault(cfg, prefix, delim, trimPrefix) && delim != []
    ensures InjectiveOn(cfg, iset k: Bytes | InScope(cfg.scope, k)) <==> SLASH in delim
  {
    var ks := iset k: Bytes | InScope(cfg.scope, k);
    if SLASH in delim {
      ComeThroughApart(cfg, prefix, delim, trimPrefix, ks);
    } else {
      DefaultTransformClashes(prefix, delim, trimPrefix);
      assert prefix + delim in ks && prefix + [SLASH] in ks;
    }
  }

  lemma HistoryKeysInScope(h: History, s: Scope)
    ensures forall k :: k in KeysOf(h, s) ==> InScope(s, k)
  {
    ChangesInRange(h, s, 0, |h|);
  }

  lemma DefaultIsFollowable<V>(cfg: Config, vt: Values<V>, prefix: Bytes, delim: Bytes, trimPrefix: bool,
                               ks: iset<Bytes>)
    requires UsesDefault(cfg, prefix, delim, trimPrefix) && ComeThrough(prefix, delim, trimPrefix, ks)
    requires IgnoresKey(vt) && forall k :: k in ks ==> InScope(cfg.scope, k)
    ensures Followable(cfg, vt, ks)
  {
    ComeThroughApart(cfg, prefix, delim, trimPrefix, ks);
  }

  /** Replica agreement for providers with the default key transform and any value transform that
      ignores the key: for every history if the delimiter contains "/", and otherwise for every
      history whose keys come through it. */
  lemma DefaultReplicaAgreement<V>(cfg: Config, vt: Values<V>, prefix: Bytes, delim: Bytes, trimPrefix: bool,
                                   h: History, s: State, turns: seq<Turn>,
                                   rereads: seq<nat>, copy: Copy<V>, first: nat)
    requires UsesDefault(cfg, prefix, delim, trimPrefix) && IgnoresKey(vt) && Unfiltered(cfg)
    requires ComeThrough(prefix, delim, trimPrefix, KeysOf(h, cfg.scope))
    requires FreshHead(h, s) && FairRun(cfg, h, s, turns)
    requires s.loop.startRev <= first <= |h| && Mirrors(cfg, vt, Snapshot(h, cfg.scope, first), copy)
    requires Answered(h, rereads, NewEvents(s.world, Run(cfg, s, turns).world))
    ensures var s' := Run(cfg, s, turns);
            var es := NewEvents(s.world, s'.world);
            var at := End(RunSpans(cfg, s, turns), s.loop.startRev);
            && at <= |h|
            && (s'.loop.running ==> s'.loop.startRev == at)
            && (Seen(rereads, first, es) <= at ==>
                  Mirrors(cfg, vt, Snapshot(h, cfg.scope, at), TakeAll(cfg, vt, h, rereads, copy, es)))
  {
    HistoryKeysInScope(h, cfg.scope);
    DefaultIsFollowable(cfg, vt, prefix, delim, trimPrefix, KeysOf(h, cfg.scope));
    LateReplicaAgreement(cfg, vt, h, s, turns, rereads, copy, first);
  }

  /** A provider left at its default transforms. */
  ghost predicate AtDefaults(cfg: Config, rc: ReadConfig<Bytes>, delim: Bytes, trimPrefix: bool) {
    && UsesDefault(cfg, rc.prefix, delim, trimPrefix)
    && rc.keyTransform == cfg.keyTransform
    && forall k: Bytes, v: Bytes :: rc.valueTransform(k, v) == Some(TrimSpace(v))
  }

  lemma KeysMetInScope(cfg: Config, rc: ReadConfig<Bytes>, h: History, replies: seq<Reply>)
    requires cfg.scope == Prefix(rc.prefix) && rc.prefix != [] && AllServed(replies)
    ensures forall k :: k in KeysMet(cfg, rc, h, replies) ==> InScope(cfg.scope, k)
  {
    HistoryKeysInScope(h, cfg.scope);
    GatheredInScope(rc, replies);
  }

  /** Read, then watch, for a provider left at its default transforms: the consumer trims values as
      the read does, and holds the store's trimmed entries; for every history and all pages if the
      delimiter contains "/", and otherwise if their keys come through it. */
  lemma DefaultReadThenWatch(cfg: Config, rc: ReadConfig<Bytes>, delim: Bytes, trimPrefix: bool, h: History,
                             replies: seq<Reply>, turns: seq<Turn>, rereads: seq<nat>)
    requires AtDefaults(cfg, rc, delim, trimPrefix) && Unfiltered(cfg) && cfg.resumeFromRevision
    requires rc.prefix != [] && AllServed(replies) && Untorn(rc, replies)
    requires ComeThrough(rc.prefix, delim, trimPrefix, KeysMet(cfg, rc, h, replies))
    requires ServedFrom(h, LastReply(rc, replies)) && LastReply(rc, replies).rev > 0
    requires FairFirstWatch(cfg, h, LastReply(rc, replies).rev, turns, rereads)
    ensures var r := Scan(rc, replies, 0, rc.prefix, map[]);
            && r.Flat? && r.rev == LastReply(rc, replies).rev
            && FollowsFrom(cfg, TRIMMED, h, r.rev, r.entries, turns, rereads)
  {
    KeysMetInScope(cfg, rc, h, replies);
    DefaultIsFollowable(cfg, TRIMMED, rc.prefix, delim, trimPrefix, KeysMet(cfg, rc, h, replies));
    ReadThenWatchAgrees(cfg, rc, TRIMMED, h, replies, turns, rereads);
  }
}
