/** Timed minigame sessions: start, complete, status, and the boosts completions grant. Times are in milliseconds. */
module MinigameModel {
  import opened Tables

  const DURATION := 69_000
  const COOLDOWN := 180_000
  const EARLY := 1_500
  const LATE := 120_000
  const DAY := 86_400_000

  /** The least time between two rewarded completions of one user. */
  const GAP := COOLDOWN + DURATION - EARLY

  datatype Status = Active | Completed | Expired

  datatype Session = Session(user: nat, status: Status, startedAt: int, endsAt: int, completedAt: Option<int>,
                             rewardGranted: bool)

  datatype Boost = Boost(user: nat, playedAt: int, expiresAt: int)

  /** Session `i` has id `i + 1`. `audits[k]` is the index of the session that granted `boosts[k]`. */
  datatype Store = Store(sessions: seq<Session>, boosts: seq<Boost>, audits: seq<nat>)

  /** Days a boost lasts: the configured number, 7 if it is not one, cut to 1..365. */
  function PowerDays(configured: Option<real>): (days: nat)
    ensures 1 <= days <= 365
  {
    var n := if configured.Some? then configured.value.Floor else 7;
    if n < 1 then 1 else if n > 365 then 365 else n
  }

  function CooldownEndsAt(completedAt: Option<int>, now: int): Option<int> {
    match completedAt
    case None => None
    case Some(at) => if at + COOLDOWN > now then Some(at + COOLDOWN) else None
  }

  predicate WithinCompleteWindow(endsAt: int, now: int) {
    endsAt - EARLY <= now <= endsAt + LATE
  }

  // ---- Expiry of stale sessions ----

  predicate Stale(x: Session, user: nat, now: int) {
    x.user == user && x.status == Active && x.endsAt <= now - LATE
  }

  function ExpireOne(x: Session, user: nat, now: int): Session {
    if Stale(x, user, now) then x.(status := Expired) else x
  }

  function ExpireStale(xs: seq<Session>, user: nat, now: int): (ys: seq<Session>)
    ensures |ys| == |xs| && forall i | 0 <= i < |xs| :: ys[i] == ExpireOne(xs[i], user, now)
  {
    if xs == [] then [] else ExpireStale(xs[..|xs| - 1], user, now) + [ExpireOne(xs[|xs| - 1], user, now)]
  }

  // ---- Queries ----

  predicate Rewarded(x: Session, user: nat) {
    x.user == user && x.status == Completed && x.rewardGranted
  }

  function Later(a: Option<int>, b: Option<int>): Option<int> {
    if a.None? then b else if b.None? then a else Some(if a.value >= b.value then a.value else b.value)
  }

  /** Completion time of the user's latest rewarded session. */
  function LastRewardedAt(xs: seq<Session>, user: nat): Option<int> {
    if xs == [] then None
    else
      var rest, x := LastRewardedAt(xs[..|xs| - 1], user), xs[|xs| - 1];
      if Rewarded(x, user) then Later(rest, x.completedAt) else rest
  }

  /** Index of the user's active session with the highest id. */
  function ActiveOf(xs: seq<Session>, user: nat): (found: Option<nat>)
    ensures found.Some? ==> found.value < |xs| && xs[found.value].user == user && xs[found.value].status == Active
    ensures found.None? ==> forall i | 0 <= i < |xs| :: !(xs[i].user == user && xs[i].status == Active)
  {
    if xs == [] then None
    else
      var x := xs[|xs| - 1];
      if x.user == user && x.status == Active then Some(|xs| - 1) else ActiveOf(xs[..|xs| - 1], user)
  }

  // ---- Requests ----

  datatype Reply =
    | State(allowNewStart: bool, cooldownEndsAt: Option<int>, active: Option<nat>)
    | CooldownActive(until: int) | Reused(id: nat) | Started(id: nat)
    | InvalidSession | NotFound | AlreadyRewarded(nextPlay: Option<int>) | NotActive | TooEarly | LateExpired
    | RewardGranted(nextPlayAt: int)

  datatype Op =
    | GetStatus(user: nat, now: int)
    | Start(user: nat, now: int)
    | Complete(user: nat, sid: int, now: int)

  function StatusReply(s: Store, user: nat, now: int): Reply {
    var xs := ExpireStale(s.sessions, user, now);
    var cooldown, active := CooldownEndsAt(LastRewardedAt(xs, user), now), ActiveOf(xs, user);
    State(cooldown.None? && active.None?, cooldown, active)
  }

  function StartStep(s: Store, user: nat, now: int): (Store, Reply) {
    var xs := ExpireStale(s.sessions, user, now);
    var t := s.(sessions := xs);
    var cooldown := CooldownEndsAt(LastRewardedAt(xs, user), now);
    if cooldown.Some? then (t, CooldownActive(cooldown.value))
    else
      var existing := ActiveOf(xs, user);
      if existing.Some? then (t, Reused(existing.value + 1))
      else (t.(sessions := xs + [Session(user, Active, now, now + DURATION, None, false)]), Started(|xs| + 1))
  }

  function CompleteStep(s: Store, user: nat, sid: int, now: int, days: nat): (Store, Reply) {
    if sid == 0 then (s, InvalidSession)
    else
      var xs := ExpireStale(s.sessions, user, now);
      var t := s.(sessions := xs);
      var i := sid - 1;
      if !(0 <= i < |xs|) || xs[i].user != user then (t, NotFound)
      else if xs[i].status == Completed && xs[i].rewardGranted then
        (t, AlreadyRewarded(CooldownEndsAt(xs[i].completedAt, now)))
      else if xs[i].status != Active then (t, NotActive)
      else if !WithinCompleteWindow(xs[i].endsAt, now) then
        if now < xs[i].endsAt - EARLY then (t, TooEarly)
        else (t.(sessions := xs[i := xs[i].(status := Expired)]), LateExpired)
      else
        (Store(xs[i := xs[i].(status := Completed, completedAt := Some(now), rewardGranted := true)],
               s.boosts + [Boost(user, now, now + days * DAY)],
               s.audits + [i]),
         RewardGranted(now + COOLDOWN))
  }

  function Step(s: Store, op: Op, days: nat): (Store, Reply) {
    match op
    case GetStatus(user, now) => (s.(sessions := ExpireStale(s.sessions, user, now)), StatusReply(s, user, now))
    case Start(user, now) => StartStep(s, user, now)
    case Complete(user, sid, now) => CompleteStep(s, user, sid, now, days)
  }

  function Exec(s: Store, ops: seq<Op>, days: nat): Store {
    if ops == [] then s else Step(Exec(s, ops[..|ops| - 1], days), ops[|ops| - 1], days).0
  }

  const EMPTY := Store([], [], [])
}
