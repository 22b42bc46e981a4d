/** Which window a request falls into, and what it is told, from the requests before it alone. */
module RateLimiterOutcomes {
  import opened RateLimiterModel
  import T = RateLimiterTheorems

  /** Request `i` opens a window: every window of its key opened before is over. */
  ghost predicate Opens(cfg: Config, rs: seq<Request>, i: nat)
    requires i < |rs|
    decreases i
  {
    forall o: nat | o < i && rs[o].key == rs[i].key && Opens(cfg, rs, o) :: rs[o].now + cfg.window < rs[i].now
  }

  /** Request `o` opened the window that request `i` falls into. */
  ghost predicate OpenedBy(cfg: Config, rs: seq<Request>, i: nat, o: nat)
    requires i < |rs|
  {
    o <= i && rs[o].key == rs[i].key && Opens(cfg, rs, o) && rs[i].now <= rs[o].now + cfg.window
  }

  /** Requests of `key` from number `o` up to number `n`. */
  function Asked(rs: seq<Request>, key: Key, o: nat, n: nat): nat
    requires o <= n <= |rs|
  {
    if o == n then 0 else Asked(rs, key, o, n - 1) + if rs[n - 1].key == key then 1 else 0
  }

  /** The entry of `key` counts the requests since the last one that opened a window. */
  ghost predicate CountsFrom(cfg: Config, rs: seq<Request>, n: nat, key: Key, e: Entry, o: nat)
    requires n <= |rs|
  {
    && o < n && rs[o].key == key && Opens(cfg, rs, o)
    && (forall p: nat | o < p < n && rs[p].key == key :: !Opens(cfg, rs, p))
    && e.resetAt == rs[o].now + cfg.window && e.count == Asked(rs, key, o, n)
  }

  ghost predicate Counts(cfg: Config, rs: seq<Request>, n: nat, key: Key, e: Entry)
    requires n <= |rs|
  {
    exists o: nat :: CountsFrom(cfg, rs, n, key, e, o)
  }

  ghost predicate AllCount(cfg: Config, rs: seq<Request>, n: nat)
    requires n <= |rs|
  {
    var plain := PlainAt(cfg, rs, n);
    && (forall k | k in plain :: Counts(cfg, rs, n, k, plain[k]))
    && (forall i: nat | i < n :: rs[i].key in plain)
  }

  /** Of windows opened in order of time, only the last one can still be open. */
  lemma {:induction false} LastDecides(cfg: Config, rs: seq<Request>, n: nat, e: Entry, o: nat)
    requires Monotone(rs) && n < |rs| && CountsFrom(cfg, rs, n, rs[n].key, e, o)
    ensures Opens(cfg, rs, n) <==> e.resetAt < rs[n].now
  {
    forall p: nat | p < n && rs[p].key == rs[n].key && Opens(cfg, rs, p) ensures rs[p].now <= rs[o].now {
      assert p <= o;
    }
  }

  /** The entry after request `n` counts from the request that opened its window. */
  lemma {:induction false} TouchCounts(cfg: Config, rs: seq<Request>, n: nat)
    requires Monotone(rs) && n < |rs| && AllCount(cfg, rs, n)
    ensures Counts(cfg, rs, n + 1, rs[n].key, Touch(cfg, PlainAt(cfg, rs, n), rs[n].key, rs[n].now))
  {
    var plain, key := PlainAt(cfg, rs, n), rs[n].key;
    var e := Touch(cfg, plain, key, rs[n].now);
    if key in plain {
      var o: nat :| CountsFrom(cfg, rs, n, key, plain[key], o);
      LastDecides(cfg, rs, n, plain[key], o);
      assert CountsFrom(cfg, rs, n + 1, key, e, if Opens(cfg, rs, n) then n else o);
    } else {
      assert Asked(rs, key, n, n) == 0;
      assert CountsFrom(cfg, rs, n + 1, key, e, n);
    }
  }

  lemma {:induction false} OthersCount(cfg: Config, rs: seq<Request>, n: nat, key: Key, e: Entry)
    requires n < |rs| && key != rs[n].key && Counts(cfg, rs, n, key, e)
    ensures Counts(cfg, rs, n + 1, key, e)
  {
    var o: nat :| CountsFrom(cfg, rs, n, key, e, o);
    assert CountsFrom(cfg, rs, n + 1, key, e, o);
  }

  lemma {:induction false} NextCounts(cfg: Config, rs: seq<Request>, n: nat, k: Key)
    requires Monotone(rs) && n < |rs| && AllCount(cfg, rs, n) && k in PlainAt(cfg, rs, n + 1)
    ensures Counts(cfg, rs, n + 1, k, PlainAt(cfg, rs, n + 1)[k])
  {
    if k == rs[n].key {
      TouchCounts(cfg, rs, n);
    } else {
      OthersCount(cfg, rs, n, k, PlainAt(cfg, rs, n)[k]);
    }
  }

  lemma {:induction false} PlainCounted(cfg: Config, rs: seq<Request>, n: nat)
    requires Monotone(rs) && n <= |rs|
    ensures AllCount(cfg, rs, n)
  {
    if n > 0 {
      PlainCounted(cfg, rs, n - 1);
      forall k | k in PlainAt(cfg, rs, n) ensures Counts(cfg, rs, n, k, PlainAt(cfg, rs, n)[k]) {
        NextCounts(cfg, rs, n - 1, k);
      }
    }
  }

  /** Request `i` is told what the requests of its key since the opening of its window amount to. */
  ghost predicate ToldBy(cfg: Config, rs: seq<Request>, i: nat, o: nat, v: Verdict)
    requires i < |rs|
  {
    && OpenedBy(cfg, rs, i, o)
    && var n := Asked(rs, rs[i].key, o, i + 1);
    && (v.accepted <==> n <= cfg.max)
    && (if v.accepted then v.remaining + n == cfg.max else v.remaining == 0)
    && v.resetAt == rs[o].now + cfg.window
  }

  lemma {:induction false} PlainTold(cfg: Config, rs: seq<Request>, i: nat)
    requires Monotone(rs) && i < |rs|
    ensures exists o: nat :: ToldBy(cfg, rs, i, o, PlainVerdict(cfg, rs, i))
  {
    PlainCounted(cfg, rs, i);
    TouchCounts(cfg, rs, i);
    var plain, key := PlainAt(cfg, rs, i), rs[i].key;
    var e := Touch(cfg, plain, key, rs[i].now);
    var o: nat :| CountsFrom(cfg, rs, i + 1, key, e, o);
    if o < i {
      assert !Opens(cfg, rs, i);
      var p: nat :| p < i && rs[p].key == key && Opens(cfg, rs, p) && rs[i].now <= rs[p].now + cfg.window;
      assert p <= o;
    }
    assert ToldBy(cfg, rs, i, o, PlainVerdict(cfg, rs, i));
  }

  /**
   * What the limiter answers, cleanup and all: each request falls into exactly one window, it passes exactly if
   * it is among the first `max` of its key in that window, and it is told what is left and when the window ends.
   */
  lemma {:induction false} VerdictOutcome(cfg: Config, rs: seq<Request>, states: seq<State>, vs: seq<Verdict>, i: nat)
    requires IsRun(cfg, rs, states, vs) && Monotone(rs) && WithinCapacity(cfg, rs, states)
    requires cfg.staleAfter >= cfg.window && i < |rs|
    ensures exists o: nat :: ToldBy(cfg, rs, i, o, vs[i])
    ensures forall o: nat, p: nat | OpenedBy(cfg, rs, i, o) && OpenedBy(cfg, rs, i, p) :: o == p
  {
    T.CleanupUnnoticed(cfg, rs, states, vs, i);
    PlainTold(cfg, rs, i);
  }
}
