/** The cleanup cannot be noticed, and no window of time lets too many requests through. */
module RateLimiterTheorems {
  import opened RateLimiterModel

  // ---- Cleanup against no cleanup ----

  /** `hits` is `plain` less entries whose window had ended by `now`. */
  ghost predicate Mirrors(cfg: Config, hits: map<Key, Entry>, plain: map<Key, Entry>, now: int) {
    && (forall k | k in hits :: k in plain && hits[k] == plain[k])
    && (forall k | k in plain && k !in hits :: plain[k].resetAt < now)
    && (forall k | k in plain :: plain[k].resetAt <= plain[k].lastSeenAt + cfg.window && plain[k].lastSeenAt <= now)
  }

  lemma {:induction false} CleanupMirrors(cfg: Config, hits: map<Key, Entry>, plain: map<Key, Entry>, now: int,
                                          after: map<Key, Entry>)
    requires Mirrors(cfg, hits, plain, now) && CleanedUp(cfg, hits, now, after)
    requires cfg.staleAfter >= cfg.window
    requires cfg.maxKeys <= 0 || |Unstale(cfg, hits, now)| <= cfg.maxKeys
    ensures Mirrors(cfg, after, plain, now)
  {
    assert after == Unstale(cfg, hits, now);
  }

  lemma {:induction false} TouchMirrors(cfg: Config, hits: map<Key, Entry>, plain: map<Key, Entry>, key: Key, now: int)
    requires Mirrors(cfg, hits, plain, now)
    ensures Touch(cfg, hits, key, now) == Touch(cfg, plain, key, now)
    ensures Mirrors(cfg, hits[key := Touch(cfg, hits, key, now)], plain[key := Touch(cfg, plain, key, now)], now)
  {
  }

  lemma {:induction false} StepMirrors(cfg: Config, s: State, r: Request, t: State, v: Verdict, plain: map<Key, Entry>)
    requires Mirrors(cfg, s.hits, plain, r.now) && Step(cfg, s, r, t, v)
    requires cfg.staleAfter >= cfg.window
    requires CleanupDue(cfg, s, r.now) ==> cfg.maxKeys <= 0 || |Unstale(cfg, s.hits, r.now)| <= cfg.maxKeys
    ensures Mirrors(cfg, t.hits, plain[r.key := Touch(cfg, plain, r.key, r.now)], r.now)
    ensures v == Report(cfg, Touch(cfg, plain, r.key, r.now))
  {
    var hits :| && (if CleanupDue(cfg, s, r.now) then CleanedUp(cfg, s.hits, r.now, hits) else hits == s.hits)
                && t.hits == hits[r.key := Touch(cfg, hits, r.key, r.now)];
    if CleanupDue(cfg, s, r.now) {
      CleanupMirrors(cfg, s.hits, plain, r.now, hits);
    }
    TouchMirrors(cfg, hits, plain, r.key, r.now);
  }

  lemma {:induction false} LaterMirrors(cfg: Config, hits: map<Key, Entry>, plain: map<Key, Entry>, now: int,
                                        later: int)
    requires Mirrors(cfg, hits, plain, now) && now <= later
    ensures Mirrors(cfg, hits, plain, later)
  {
  }

  lemma {:induction false} RunMirrors(cfg: Config, rs: seq<Request>, states: seq<State>, vs: seq<Verdict>, n: nat)
    requires IsRun(cfg, rs, states, vs) && Monotone(rs) && WithinCapacity(cfg, rs, states)
    requires cfg.staleAfter >= cfg.window && n <= |rs|
    ensures n > 0 ==> Mirrors(cfg, states[n].hits, PlainAt(cfg, rs, n), rs[n - 1].now)
    ensures n == 0 ==> states[n].hits == PlainAt(cfg, rs, n) == map[]
    ensures forall i | 0 <= i < n :: vs[i] == PlainVerdict(cfg, rs, i)
  {
    if n > 0 {
      RunMirrors(cfg, rs, states, vs, n - 1);
      if n > 1 {
        LaterMirrors(cfg, states[n - 1].hits, PlainAt(cfg, rs, n - 1), rs[n - 2].now, rs[n - 1].now);
      }
      assert Step(cfg, states[n - 1], rs[n - 1], states[n - 1 + 1], vs[n - 1]);
      StepMirrors(cfg, states[n - 1], rs[n - 1], states[n], vs[n - 1], PlainAt(cfg, rs, n - 1));
    }
  }

  /** With entries kept at least one window, every answer is the one the limiter without cleanup gives. */
  lemma {:induction false} CleanupUnnoticed(cfg: Config, rs: seq<Request>, states: seq<State>, vs: seq<Verdict>, i: nat)
    requires IsRun(cfg, rs, states, vs) && Monotone(rs) && WithinCapacity(cfg, rs, states)
    requires cfg.staleAfter >= cfg.window && i < |rs|
    ensures vs[i] == PlainVerdict(cfg, rs, i)
  {
    RunMirrors(cfg, rs, states, vs, |rs|);
  }

  // ---- When entries are kept for less than a window ----

  function Repeat(key: Key, now: int, n: nat): (rs: seq<Request>)
    ensures |rs| == n && forall i | 0 <= i < n :: rs[i] == Request(key, now)
  {
    if n == 0 then [] else Repeat(key, now, n - 1) + [Request(key, now)]
  }

  lemma {:induction false} Repeated(key: Key, cfg: Config, rs: seq<Request>, start: nat, now: int, n: nat)
    requires start + n <= |rs| && forall i | start <= i < start + n :: rs[i] == Request(key, now)
    requires n > 0
    ensures var before, after := PlainAt(cfg, rs, start), PlainAt(cfg, rs, start + n);
            && key in after && after[key].lastSeenAt == now
            && (if key in before && now <= before[key].resetAt
                then after[key].count == before[key].count + n && after[key].resetAt == before[key].resetAt
                else after[key].count == n && after[key].resetAt == now + cfg.window)
  {
    if n > 1 {
      Repeated(key, cfg, rs, start, now, n - 1);
    }
  }

  /** `max` requests just before the first cleanup, one more when their entry has just become stale. */
  function ForgetfulRun(key: Key, cfg: Config): seq<Request>
    requires cfg.cleanupInterval > 0
  {
    Repeat(key, cfg.cleanupInterval - 1, cfg.max) + [Request(key, cfg.cleanupInterval + cfg.staleAfter)]
  }

  /** The limiter before each of `n` requests at `now` and after the last, nothing being cleaned up. */
  function RepeatStates(key: Key, cfg: Config, now: int, n: nat): (states: seq<State>)
    ensures |states| == n + 1
    ensures forall i | 0 <= i <= n ::
              states[i] == State(if i == 0 then map[] else map[key := Entry(i, now + cfg.window, now)], 0)
  {
    if n == 0 then [State(map[], 0)]
    else RepeatStates(key, cfg, now, n - 1) + [State(map[key := Entry(n, now + cfg.window, now)], 0)]
  }

  function RepeatVerdicts(key: Key, cfg: Config, now: int, n: nat): (vs: seq<Verdict>)
    ensures |vs| == n && forall i | 0 <= i < n :: vs[i] == Report(cfg, Entry(i + 1, now + cfg.window, now))
  {
    if n == 0 then [] else RepeatVerdicts(key, cfg, now, n - 1) + [Report(cfg, Entry(n, now + cfg.window, now))]
  }

  function ForgetfulStates(key: Key, cfg: Config): seq<State>
    requires cfg.cleanupInterval > 0
  {
    var t2 := cfg.cleanupInterval + cfg.staleAfter;
    RepeatStates(key, cfg, cfg.cleanupInterval - 1, cfg.max) + [State(map[key := Entry(1, t2 + cfg.window, t2)], t2)]
  }

  function ForgetfulVerdicts(key: Key, cfg: Config): seq<Verdict>
    requires cfg.cleanupInterval > 0
  {
    var t2 := cfg.cleanupInterval + cfg.staleAfter;
    RepeatVerdicts(key, cfg, cfg.cleanupInterval - 1, cfg.max) + [Report(cfg, Entry(1, t2 + cfg.window, t2))]
  }

  lemma {:induction false} RepeatStep(key: Key, cfg: Config, s: State, i: nat, now: int)
    requires !CleanupDue(cfg, s, now)
    requires s.hits == if i == 0 then map[] else map[key := Entry(i, now + cfg.window, now)]
    ensures var e := Entry(i + 1, now + cfg.window, now);
            Step(cfg, s, Request(key, now), State(map[key := e], s.lastCleanupAt), Report(cfg, e))
  {
    assert map[key := Entry(i + 1, now + cfg.window, now)] == s.hits[key := Touch(cfg, s.hits, key, now)];
  }

  lemma {:induction false} ForgetStep(key: Key, cfg: Config, s: State, i: nat, before: int, now: int)
    requires CleanupDue(cfg, s, now) && now - before > cfg.staleAfter
    requires s.hits == if i == 0 then map[] else map[key := Entry(i, before + cfg.window, before)]
    ensures var e := Entry(1, now + cfg.window, now);
            Step(cfg, s, Request(key, now), State(map[key := e], now), Report(cfg, e))
  {
    var hits: map<Key, Entry> := map[];
    assert Unstale(cfg, s.hits, now) == hits;
    assert CleanedUp(cfg, s.hits, now, hits);
    assert map[key := Entry(1, now + cfg.window, now)] == hits[key := Touch(cfg, hits, key, now)];
  }

  lemma {:induction false} ForgetfulIsRun(key: Key, cfg: Config)
    requires cfg.cleanupInterval > 0
    ensures IsRun(cfg, ForgetfulRun(key, cfg), ForgetfulStates(key, cfg), ForgetfulVerdicts(key, cfg))
  {
    var rs, states, vs := ForgetfulRun(key, cfg), ForgetfulStates(key, cfg), ForgetfulVerdicts(key, cfg);
    var t1, t2 := cfg.cleanupInterval - 1, cfg.cleanupInterval + cfg.staleAfter;
    forall i | 0 <= i < |rs| ensures Step(cfg, states[i], rs[i], states[i + 1], vs[i]) {
      if i < cfg.max {
        RepeatStep(key, cfg, states[i], i, t1);
      } else {
        ForgetStep(key, cfg, states[i], i, t1, t2);
      }
    }
  }

  lemma {:induction false} AtMostOneKey(hits: map<Key, Entry>, key: Key)
    requires hits.Keys <= {key}
    ensures |hits| <= 1
  {
    assert |hits| == |hits.Keys|;
    assert hits.Keys == {} || hits.Keys == {key};
  }

  lemma {:induction false} Forgetful(key: Key, cfg: Config)
    requires cfg.cleanupInterval > 0 && cfg.max >= 1 && cfg.staleAfter < cfg.window
    ensures Monotone(ForgetfulRun(key, cfg)) && WithinCapacity(cfg, ForgetfulRun(key, cfg), ForgetfulStates(key, cfg))
    ensures ForgetfulVerdicts(key, cfg)[cfg.max].accepted &&
              !PlainVerdict(cfg, ForgetfulRun(key, cfg), cfg.max).accepted
  {
    var rs := ForgetfulRun(key, cfg);
    Repeated(key, cfg, rs, 0, cfg.cleanupInterval - 1, cfg.max);
    var states := ForgetfulStates(key, cfg);
    forall i | 0 <= i < |rs| && CleanupDue(cfg, states[i], rs[i].now)
      ensures cfg.maxKeys <= 0 || |Unstale(cfg, states[i].hits, rs[i].now)| <= cfg.maxKeys
    {
      AtMostOneKey(Unstale(cfg, states[i].hits, rs[i].now), key);
    }
  }

  ghost predicate Indistinguishable(cfg: Config) {
    forall rs: seq<Request>, states: seq<State>, vs: seq<Verdict>, i
      | IsRun(cfg, rs, states, vs) && Monotone(rs) && WithinCapacity(cfg, rs, states) && 0 <= i < |rs| ::
      vs[i].accepted == PlainVerdict(cfg, rs, i).accepted
  }

  lemma {:induction false} ForgetfulNoticed(key: Key, cfg: Config)
    requires cfg.cleanupInterval > 0 && cfg.max >= 1 && cfg.staleAfter < cfg.window
    ensures !Indistinguishable(cfg)
  {
    ForgetfulIsRun(key, cfg);
    Forgetful(key, cfg);
    assert |ForgetfulRun(key, cfg)| == cfg.max + 1;
  }

  /** A limiter that does clean up and lets something through: its cleanup is unnoticed exactly when
      entries are kept at least one window. */
  lemma {:induction false} CleanupUnnoticedExactly(cfg: Config)
    requires cfg.cleanupInterval > 0 && cfg.max >= 1
    ensures Indistinguishable(cfg) <==> cfg.staleAfter >= cfg.window
  {
    if cfg.staleAfter >= cfg.window {
      forall rs: seq<Request>, states: seq<State>, vs: seq<Verdict>, i
        | IsRun(cfg, rs, states, vs) && Monotone(rs) && WithinCapacity(cfg, rs, states) && 0 <= i < |rs|
        ensures vs[i].accepted == PlainVerdict(cfg, rs, i).accepted
      {
        CleanupUnnoticed(cfg, rs, states, vs, i);
      }
    } else {
      ForgetfulNoticed("", cfg);
    }
  }

  // ---- Bursts ----

  predicate Within(r: Request, key: Key, from: int, to: int) {
    r.key == key && from <= r.now <= to
  }

  /** How many of the first `n` answers let a request of `key` through in [from, to]. */
  function Passed(rs: seq<Request>, vs: seq<Verdict>, n: nat, key: Key, from: int, to: int): nat
    requires n <= |rs| && n <= |vs|
  {
    if n == 0 then 0
    else Passed(rs, vs, n - 1, key, from, to) + if vs[n - 1].accepted && Within(rs[n - 1], key, from, to) then 1 else 0
  }

  function Min(a: int, b: int): int {
    if a <= b then a else b
  }

  /** How the accepted count of [from, to] depends on where the key's current window started. */
  ghost predicate Tallied(cfg: Config, plain: map<Key, Entry>, key: Key, from: int, to: int, passed: nat) {
    if key !in plain then passed == 0
    else
      var e := plain[key];
      var start := e.resetAt - cfg.window;
      && e.count >= 1 && start <= e.lastSeenAt
      && (passed > 0 ==> e.lastSeenAt >= from)
      && (start < from ==> passed <= Min(e.count, cfg.max) - 1)
      && (from <= start <= to ==> passed <= cfg.max - 1 + Min(e.count, cfg.max))
      && passed <= 2 * cfg.max - 1
  }

  lemma {:induction false} PassedTallied(cfg: Config, rs: seq<Request>, vs: seq<Verdict>, n: nat, key: Key, from: int,
                                         to: int)
    requires cfg.max >= 1 && Monotone(rs) && to - from <= cfg.window
    requires n <= |rs| == |vs| && forall i | 0 <= i < |rs| :: vs[i] == PlainVerdict(cfg, rs, i)
    ensures Tallied(cfg, PlainAt(cfg, rs, n), key, from, to, Passed(rs, vs, n, key, from, to))
    ensures key in PlainAt(cfg, rs, n) ==> n > 0 && PlainAt(cfg, rs, n)[key].lastSeenAt <= rs[n - 1].now
  {
    if n > 0 {
      PassedTallied(cfg, rs, vs, n - 1, key, from, to);
      assert vs[n - 1] == PlainVerdict(cfg, rs, n - 1);
    }
  }

  /** In any span no longer than the window, whatever the history, at most 2 * max - 1 requests of a key pass. */
  lemma {:induction false} BurstBound(cfg: Config, rs: seq<Request>, states: seq<State>, vs: seq<Verdict>, key: Key,
                                      from: int, to: int)
    requires IsRun(cfg, rs, states, vs) && Monotone(rs) && WithinCapacity(cfg, rs, states)
    requires cfg.staleAfter >= cfg.window && to - from <= cfg.window
    ensures Passed(rs, vs, |rs|, key, from, to) <= if cfg.max == 0 then 0 else 2 * cfg.max - 1
  {
    forall i | 0 <= i < |rs| ensures vs[i] == PlainVerdict(cfg, rs, i) {
      CleanupUnnoticed(cfg, rs, states, vs, i);
    }
    if cfg.max == 0 {
      NonePassed(cfg, rs, vs, |rs|, key, from, to);
    } else {
      PassedTallied(cfg, rs, vs, |rs|, key, from, to);
    }
  }

  lemma {:induction false} NonePassed(cfg: Config, rs: seq<Request>, vs: seq<Verdict>, n: nat, key: Key, from: int,
                                      to: int)
    requires cfg.max == 0 && n <= |rs| == |vs| && forall i | 0 <= i < |rs| :: vs[i] == PlainVerdict(cfg, rs, i)
    ensures Passed(rs, vs, n, key, from, to) == 0
  {
    if n > 0 {
      NonePassed(cfg, rs, vs, n - 1, key, from, to);
      PlainCounts(cfg, rs, n - 1);
      assert vs[n - 1] == PlainVerdict(cfg, rs, n - 1);
    }
  }

  lemma {:induction false} PlainCounts(cfg: Config, rs: seq<Request>, n: nat)
    requires n <= |rs|
    ensures forall k | k in PlainAt(cfg, rs, n) :: PlainAt(cfg, rs, n)[k].count >= 1
  {
    if n > 0 {
      PlainCounts(cfg, rs, n - 1);
    }
  }

  /** One request opens a window, the rest of the allowance comes at its end, a full allowance right after it. */
  function BurstRun(key: Key, cfg: Config): seq<Request>
    requires cfg.max >= 1
  {
    [Request(key, 0)] + Repeat(key, cfg.window, cfg.max - 1) + Repeat(key, cfg.window + 1, cfg.max)
  }

  lemma {:induction false} BurstAccepted(key: Key, cfg: Config, i: nat)
    requires cfg.max >= 1 && cfg.window >= 1 && 1 <= i < |BurstRun(key, cfg)|
    ensures PlainVerdict(cfg, BurstRun(key, cfg), i).accepted
  {
    var rs := BurstRun(key, cfg);
    Repeated(key, cfg, rs, 0, 0, 1);
    if i < cfg.max {
      if i > 1 { Repeated(key, cfg, rs, 1, cfg.window, i - 1); }
    } else {
      if cfg.max > 1 { Repeated(key, cfg, rs, 1, cfg.window, cfg.max - 1); }
      if i > cfg.max { Repeated(key, cfg, rs, cfg.max, cfg.window + 1, i - cfg.max); }
    }
  }

  lemma {:induction false} AllPassed(rs: seq<Request>, vs: seq<Verdict>, n: nat, key: Key, from: int, to: int)
    requires 1 <= n <= |rs| == |vs| && !Within(rs[0], key, from, to)
    requires forall i | 1 <= i < n :: vs[i].accepted && Within(rs[i], key, from, to)
    ensures Passed(rs, vs, n, key, from, to) == n - 1
  {
    if n > 1 {
      AllPassed(rs, vs, n - 1, key, from, to);
    } else {
      assert Passed(rs, vs, 0, key, from, to) == 0;
    }
  }

  lemma {:induction false} BurstTimes(key: Key, cfg: Config)
    requires cfg.max >= 1
    ensures |BurstRun(key, cfg)| == 2 * cfg.max && BurstRun(key, cfg)[0] == Request(key, 0)
    ensures forall i | 1 <= i < 2 * cfg.max ::
              BurstRun(key, cfg)[i] == Request(key, if i < cfg.max then cfg.window else cfg.window + 1)
    ensures Monotone(BurstRun(key, cfg))
  {
  }

  // ---- A run of one key ----

  /** The state after a request, when a due cleanup finds room for every unstale entry. */
  function After(cfg: Config, s: State, r: Request): State {
    var due := CleanupDue(cfg, s, r.now);
    var hits := if due then Unstale(cfg, s.hits, r.now) else s.hits;
    State(hits[r.key := Touch(cfg, hits, r.key, r.now)], if due then r.now else s.lastCleanupAt)
  }

  function StateAt(cfg: Config, start: int, rs: seq<Request>, n: nat): State
    requires n <= |rs|
  {
    if n == 0 then State(map[], start) else After(cfg, StateAt(cfg, start, rs, n - 1), rs[n - 1])
  }

  function StatesOf(cfg: Config, start: int, rs: seq<Request>): seq<State> {
    seq(|rs| + 1, i requires 0 <= i <= |rs| => StateAt(cfg, start, rs, i))
  }

  function VerdictsOf(cfg: Config, start: int, rs: seq<Request>): seq<Verdict> {
    seq(|rs|, i requires 0 <= i < |rs| =>
      Report(cfg, StateAt(cfg, start, rs, i + 1).hits[rs[i].key]))
  }

  lemma {:induction false} OneKey(cfg: Config, start: int, rs: seq<Request>, key: Key, n: nat)
    requires n <= |rs| && forall i | 0 <= i < |rs| :: rs[i].key == key
    ensures StateAt(cfg, start, rs, n).hits.Keys <= {key}
  {
    if n > 0 { OneKey(cfg, start, rs, key, n - 1); }
  }

  lemma {:induction false} AfterIsStep(cfg: Config, s: State, r: Request)
    requires CleanupDue(cfg, s, r.now) ==> cfg.maxKeys <= 0 || |Unstale(cfg, s.hits, r.now)| <= cfg.maxKeys
    ensures Step(cfg, s, r, After(cfg, s, r), Report(cfg, After(cfg, s, r).hits[r.key]))
  {
    var hits := if CleanupDue(cfg, s, r.now) then Unstale(cfg, s.hits, r.now) else s.hits;
    if CleanupDue(cfg, s, r.now) { assert CleanedUp(cfg, s.hits, r.now, hits); }
    assert After(cfg, s, r).hits == hits[r.key := Touch(cfg, hits, r.key, r.now)];
  }

  lemma {:induction false} OneKeyRun(cfg: Config, start: int, rs: seq<Request>, key: Key)
    requires forall i | 0 <= i < |rs| :: rs[i].key == key
    ensures IsRun(cfg, rs, StatesOf(cfg, start, rs), VerdictsOf(cfg, start, rs))
    ensures WithinCapacity(cfg, rs, StatesOf(cfg, start, rs))
  {
    var states, vs := StatesOf(cfg, start, rs), VerdictsOf(cfg, start, rs);
    forall i | 0 <= i < |rs|
      ensures cfg.maxKeys <= 0 || |Unstale(cfg, states[i].hits, rs[i].now)| <= cfg.maxKeys
      ensures Step(cfg, states[i], rs[i], states[i + 1], vs[i])
    {
      OneKey(cfg, start, rs, key, i);
      AtMostOneKey(Unstale(cfg, states[i].hits, rs[i].now), key);
      AfterIsStep(cfg, states[i], rs[i]);
    }
  }

  lemma {:induction false} BurstRunPasses(key: Key, cfg: Config, vs: seq<Verdict>)
    requires cfg.max >= 1 && cfg.window >= 1 && |vs| == |BurstRun(key, cfg)|
    requires forall i | 0 <= i < |vs| :: vs[i] == PlainVerdict(cfg, BurstRun(key, cfg), i)
    ensures Passed(BurstRun(key, cfg), vs, |vs|, key, cfg.window, cfg.window + 1) == 2 * cfg.max - 1
  {
    BurstTimes(key, cfg);
    forall i | 1 <= i < |vs| ensures vs[i].accepted {
      BurstAccepted(key, cfg, i);
    }
    AllPassed(BurstRun(key, cfg), vs, |vs|, key, cfg.window, cfg.window + 1);
  }

  /** The limiter itself, whenever its last cleanup was, reaches the bound within a single millisecond step. */
  lemma {:induction false} BurstAttained(key: Key, cfg: Config, start: int)
    requires cfg.max >= 1 && cfg.window >= 1 && cfg.staleAfter >= cfg.window
    ensures var rs := BurstRun(key, cfg);
            var states, vs := StatesOf(cfg, start, rs), VerdictsOf(cfg, start, rs);
            && IsRun(cfg, rs, states, vs) && Monotone(rs) && WithinCapacity(cfg, rs, states)
            && Passed(rs, vs, |rs|, key, cfg.window, cfg.window + 1) == 2 * cfg.max - 1
  {
    var rs := BurstRun(key, cfg);
    var states, vs := StatesOf(cfg, start, rs), VerdictsOf(cfg, start, rs);
    BurstTimes(key, cfg);
    assert forall i | 0 <= i < |rs| :: rs[i].key == key;
    OneKeyRun(cfg, start, rs, key);
    forall i | 0 <= i < |vs| ensures vs[i] == PlainVerdict(cfg, rs, i) {
      CleanupUnnoticed(cfg, rs, states, vs, i);
    }
    BurstRunPasses(key, cfg, vs);
  }
}
