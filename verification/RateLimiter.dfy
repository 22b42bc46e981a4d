/** The limiter as it runs: a map of entries updated on every request. */
module RateLimiter {
  import opened RateLimiterModel

  class Limiter {
    const cfg: Config
    var hits: map<Key, Entry>
    var lastCleanupAt: int

    function View(): State
      reads this
    {
      State(hits, lastCleanupAt)
    }

    constructor (cfg: Config, now: int)
      ensures this.cfg == cfg && View() == State(map[], now)
    {
      this.cfg := cfg;
      hits := map[];
      lastCleanupAt := now;
    }

    method Cleanup(now: int)
      modifies this`hits
      ensures CleanedUp(cfg, old(hits), now, hits)
      ensures cfg.maxKeys > 0 ==> |hits| <= cfg.maxKeys
    {
      var rest := hits.Keys;
      while rest != {}
        invariant rest <= hits.Keys
        invariant forall k | k in hits :: k in old(hits) && hits[k] == old(hits)[k]
        invariant forall k | k in old(hits) :: k in hits <==>
                  k in rest || now - old(hits)[k].lastSeenAt <= cfg.staleAfter
        decreases rest
      {
        var k :| k in rest;
        rest := rest - {k};
        if now - hits[k].lastSeenAt > cfg.staleAfter {
          hits := hits - {k};
        }
      }
      assert hits == Unstale(cfg, old(hits), now);
      if cfg.maxKeys > 0 && |hits| > cfg.maxKeys {
        DropOldest(|hits| - cfg.maxKeys);
      }
    }

    /** Removes `count` entries in order of last sight. */
    method DropOldest(count: nat)
      requires count <= |hits|
      modifies this`hits
      ensures |hits| == old(|hits|) - count
      ensures forall k | k in hits :: k in old(hits) && hits[k] == old(hits)[k]
      ensures forall k, d | k in hits && d in old(hits) && d !in hits :: old(hits)[d].lastSeenAt <= hits[k].lastSeenAt
    {
      for i := 0 to count
        invariant |hits| == old(|hits|) - i
        invariant forall k | k in hits :: k in old(hits) && hits[k] == old(hits)[k]
        invariant forall k, d | k in hits && d in old(hits) && d !in hits ::
                  old(hits)[d].lastSeenAt <= hits[k].lastSeenAt
      {
        var oldest := Oldest();
        ghost var before := hits;
        hits := hits - {oldest};
        assert hits.Keys == before.Keys - {oldest};
        assert |hits| == |hits.Keys| && |before| == |before.Keys|;
      }
    }

    method Oldest() returns (oldest: Key)
      requires |hits| > 0
      ensures oldest in hits && forall k | k in hits :: hits[oldest].lastSeenAt <= hits[k].lastSeenAt
    {
      assert |hits.Keys| > 0;
      oldest :| oldest in hits;
      var rest := hits.Keys - {oldest};
      while rest != {}
        invariant rest <= hits.Keys && oldest in hits
        invariant forall k | k in hits && k !in rest :: hits[oldest].lastSeenAt <= hits[k].lastSeenAt
        decreases rest
      {
        var k :| k in rest;
        rest := rest - {k};
        if hits[k].lastSeenAt < hits[oldest].lastSeenAt {
          oldest := k;
        }
      }
    }

    method Handle(key: Key, now: int) returns (v: Verdict)
      modifies this
      ensures Step(cfg, old(View()), Request(key, now), View(), v)
    {
      if cfg.cleanupInterval > 0 && now - lastCleanupAt >= cfg.cleanupInterval {
        Cleanup(now);
        lastCleanupAt := now;
      }
      ghost var kept := hits;
      var entry := if key in hits then hits[key] else Entry(0, now + cfg.window, now);
      if now > entry.resetAt {
        entry := Entry(0, now + cfg.window, entry.lastSeenAt);
      }
      entry := Entry(entry.count + 1, entry.resetAt, now);
      hits := hits[key := entry];
      assert hits == kept[key := Touch(cfg, kept, key, now)];
      var remaining := if entry.count <= cfg.max then cfg.max - entry.count else 0;
      v := Verdict(!(entry.count > cfg.max), remaining, entry.resetAt);
    }
  }
}
