/** Fixed-window request limiter, with and without its periodic cleanup. */
module RateLimiterModel {
  import opened Tables

  type Key = string

  /** Durations in milliseconds; `cleanupInterval` and `maxKeys` switch their feature off when not positive. */
  datatype Config = Config(window: nat, max: nat, cleanupInterval: int, staleAfter: nat, maxKeys: int)

  datatype Entry = Entry(count: nat, resetAt: int, lastSeenAt: int)

  /** What the handler reports: whether the request passes, and the numbers in its headers. */
  datatype Verdict = Verdict(accepted: bool, remaining: nat, resetAt: int)

  datatype Request = Request(key: Key, now: int)

  function Touch(cfg: Config, hits: map<Key, Entry>, key: Key, now: int): Entry {
    if key in hits && now <= hits[key].resetAt
    then Entry(hits[key].count + 1, hits[key].resetAt, now)
    else Entry(1, now + cfg.window, now)
  }

  function Report(cfg: Config, e: Entry): Verdict {
    Verdict(e.count <= cfg.max, if e.count <= cfg.max then cfg.max - e.count else 0, e.resetAt)
  }

  // ---- The plain limiter: entries are never removed ----

  /** The entries after the first `n` requests of a run that starts with none. */
  function PlainAt(cfg: Config, rs: seq<Request>, n: nat): map<Key, Entry>
    requires n <= |rs|
  {
    if n == 0 then map[]
    else
      var before, r := PlainAt(cfg, rs, n - 1), rs[n - 1];
      before[r.key := Touch(cfg, before, r.key, r.now)]
  }

  /** The verdict on request `i`. */
  function PlainVerdict(cfg: Config, rs: seq<Request>, i: nat): Verdict
    requires i < |rs|
  {
    Report(cfg, Touch(cfg, PlainAt(cfg, rs, i), rs[i].key, rs[i].now))
  }

  // ---- The limiter with cleanup ----

  datatype State = State(hits: map<Key, Entry>, lastCleanupAt: int)

  function Unstale(cfg: Config, hits: map<Key, Entry>, now: int): map<Key, Entry> {
    map k | k in hits && now - hits[k].lastSeenAt <= cfg.staleAfter :: hits[k]
  }

  /** Stale entries go; if still over capacity, the least recently seen go too (which of equals is not fixed). */
  ghost predicate CleanedUp(cfg: Config, before: map<Key, Entry>, now: int, after: map<Key, Entry>) {
    var live := Unstale(cfg, before, now);
    && (forall k | k in after :: k in live && after[k] == live[k])
    && (if cfg.maxKeys > 0 && |live| > cfg.maxKeys
        then |after| == cfg.maxKeys
          && (forall k, d | k in after && d in live && d !in after :: live[d].lastSeenAt <= live[k].lastSeenAt)
        else after == live)
  }

  predicate CleanupDue(cfg: Config, s: State, now: int) {
    cfg.cleanupInterval > 0 && now - s.lastCleanupAt >= cfg.cleanupInterval
  }

  ghost predicate Step(cfg: Config, s: State, r: Request, t: State, v: Verdict) {
    && r.key in t.hits
    && (exists hits ::
          && (if CleanupDue(cfg, s, r.now) then CleanedUp(cfg, s.hits, r.now, hits) else hits == s.hits)
          && t.hits == hits[r.key := Touch(cfg, hits, r.key, r.now)])
    && t.lastCleanupAt == (if CleanupDue(cfg, s, r.now) then r.now else s.lastCleanupAt)
    && v == Report(cfg, t.hits[r.key])
  }

  /** `states[i]` is the limiter before request `i`; it starts with no entries. */
  ghost predicate IsRun(cfg: Config, rs: seq<Request>, states: seq<State>, vs: seq<Verdict>) {
    && |states| == |rs| + 1 && |vs| == |rs|
    && states[0].hits == map[]
    && (forall i | 0 <= i < |rs| :: Step(cfg, states[i], rs[i], states[i + 1], vs[i]))
  }

  ghost predicate Monotone(rs: seq<Request>) {
    forall i, j | 0 <= i < j < |rs| :: rs[i].now <= rs[j].now
  }

  /** Every cleanup of the run finds no more unstale entries than the capacity, if there is one. */
  ghost predicate WithinCapacity(cfg: Config, rs: seq<Request>, states: seq<State>)
    requires |states| == |rs| + 1
  {
    forall i | 0 <= i < |rs| && CleanupDue(cfg, states[i], rs[i].now) ::
      cfg.maxKeys <= 0 || |Unstale(cfg, states[i].hits, rs[i].now)| <= cfg.maxKeys
  }
}
