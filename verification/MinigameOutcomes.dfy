/** What a caller of the minigame gets: which reply when, and what becomes of sessions and boosts. Times are in ms. */
module MinigameOutcomes {
  import opened Tables
  import opened MinigameModel

  // ---- Sessions as they are before a request ----

  /** A session of the user that was rewarded at this time. */
  predicate RewardAt(x: Session, user: nat, at: int) {
    x.user == user && x.status.Completed? && x.rewardGranted && x.completedAt == Some(at)
  }

  ghost predicate SomeReward(xs: seq<Session>, user: nat, at: int) {
    exists i :: 0 <= i < |xs| && RewardAt(xs[i], user, at)
  }

  /** The user may play again from `until` on, 180 seconds after its latest reward, and that is still to come. */
  ghost predicate CoolsUntil(xs: seq<Session>, user: nat, now: int, until: int) {
    && SomeReward(xs, user, until - 180_000) && until > now
    && forall at: int | SomeReward(xs, user, at) :: at + 180_000 <= until
  }

  ghost predicate Cools(xs: seq<Session>, user: nat, now: int) {
    exists until :: CoolsUntil(xs, user, now, until)
  }

  /** An active session of the user whose end is less than 120 seconds ago. */
  predicate Playing(x: Session, user: nat, now: int) {
    x.user == user && x.status.Active? && now < x.endsAt + 120_000
  }

  /** The last session the user is playing. */
  ghost predicate LastPlaying(xs: seq<Session>, user: nat, now: int, i: nat) {
    i < |xs| && Playing(xs[i], user, now) && forall j | i < j < |xs| :: !Playing(xs[j], user, now)
  }

  ghost predicate NonePlaying(xs: seq<Session>, user: nat, now: int) {
    forall i | 0 <= i < |xs| :: !Playing(xs[i], user, now)
  }

  /** Sessions of the user that ended 120 seconds ago or more are expired, and nothing else has changed. */
  ghost predicate Aged(xs: seq<Session>, ys: seq<Session>, user: nat, now: int) {
    && |ys| == |xs|
    && forall i | 0 <= i < |xs| ::
         ys[i] == if xs[i].user == user && xs[i].status.Active? && xs[i].endsAt + 120_000 <= now
                  then xs[i].(status := Expired) else xs[i]
  }

  // ---- The queries ----

  lemma {:induction false} LastReward(xs: seq<Session>, user: nat)
    ensures match LastRewardedAt(xs, user)
            case None => forall at: int :: !SomeReward(xs, user, at)
            case Some(last) => SomeReward(xs, user, last) && forall at: int | SomeReward(xs, user, at) :: at <= last
  {
    if xs != [] {
      var n := |xs| - 1;
      LastReward(xs[..n], user);
      forall at: int ensures SomeReward(xs, user, at) <==> SomeReward(xs[..n], user, at) || RewardAt(xs[n], user, at) {
        if i :| 0 <= i < n && RewardAt(xs[..n][i], user, at) { assert RewardAt(xs[i], user, at); }
        if i :| 0 <= i < |xs| && RewardAt(xs[i], user, at) { assert i < n ==> RewardAt(xs[..n][i], user, at); }
      }
    }
  }

  lemma {:induction false} SameRewards(xs: seq<Session>, ys: seq<Session>, user: nat, now: int, at: int)
    requires Aged(xs, ys, user, now)
    ensures SomeReward(xs, user, at) <==> SomeReward(ys, user, at)
  {
    if i :| 0 <= i < |xs| && RewardAt(xs[i], user, at) { assert RewardAt(ys[i], user, at); }
    if i :| 0 <= i < |ys| && RewardAt(ys[i], user, at) { assert RewardAt(xs[i], user, at); }
  }

  lemma {:induction false} CooldownIs(xs: seq<Session>, user: nat, now: int)
    ensures var ys := ExpireStale(xs, user, now);
            && Aged(xs, ys, user, now)
            && match CooldownEndsAt(LastRewardedAt(ys, user), now)
               case None => !Cools(xs, user, now)
               case Some(until) => CoolsUntil(xs, user, now, until)
  {
    var ys := ExpireStale(xs, user, now);
    LastReward(ys, user);
    forall at: int ensures SomeReward(xs, user, at) <==> SomeReward(ys, user, at) {
      SameRewards(xs, ys, user, now, at);
    }
  }

  lemma {:induction false} LastActive(xs: seq<Session>, user: nat)
    ensures match ActiveOf(xs, user)
            case None => true
            case Some(i) => forall j | i < j < |xs| :: !(xs[j].user == user && xs[j].status == Active)
  {
    if xs != [] { LastActive(xs[..|xs| - 1], user); }
  }

  lemma {:induction false} PlayingIs(xs: seq<Session>, user: nat, now: int)
    ensures match ActiveOf(ExpireStale(xs, user, now), user)
            case None => NonePlaying(xs, user, now)
            case Some(i) => LastPlaying(xs, user, now, i)
  {
    var ys := ExpireStale(xs, user, now);
    LastActive(ys, user);
    forall i | 0 <= i < |xs| ensures Playing(xs[i], user, now) <==> ys[i].user == user && ys[i].status == Active {
    }
  }

  lemma {:induction false} OneUntil(xs: seq<Session>, user: nat, now: int, a: int, b: int)
    requires CoolsUntil(xs, user, now, a) && CoolsUntil(xs, user, now, b)
    ensures a == b
  {
  }

  // ---- The requests ----

  /** Status tells the cooldown and the session being played; a start is allowed exactly without either. */
  lemma {:induction false} StatusOutcome(s: Store, user: nat, now: int, days: nat)
    ensures var (t, reply) := Step(s, GetStatus(user, now), days);
            && Aged(s.sessions, t.sessions, user, now) && t.boosts == s.boosts && t.audits == s.audits && reply.State?
            && (if reply.cooldownEndsAt.Some? then CoolsUntil(s.sessions, user, now, reply.cooldownEndsAt.value)
                else !Cools(s.sessions, user, now))
            && (if reply.active.Some? then LastPlaying(s.sessions, user, now, reply.active.value)
                else NonePlaying(s.sessions, user, now))
            && (reply.allowNewStart <==> !Cools(s.sessions, user, now) && NonePlaying(s.sessions, user, now))
  {
    CooldownIs(s.sessions, user, now);
    PlayingIs(s.sessions, user, now);
  }

  /** A start is refused while the user cools down, returns the session being played, or opens one of 69 seconds. */
  lemma {:induction false} StartOutcome(s: Store, user: nat, now: int, days: nat)
    ensures var (t, reply) := Step(s, Start(user, now), days);
            var n := |s.sessions|;
            && t.boosts == s.boosts && t.audits == s.audits && |t.sessions| >= n
            && Aged(s.sessions, t.sessions[..n], user, now)
            && (reply.CooldownActive? <==> Cools(s.sessions, user, now))
            && (reply.CooldownActive? ==> CoolsUntil(s.sessions, user, now, reply.until))
            && (reply.Reused? <==> !Cools(s.sessions, user, now) && !NonePlaying(s.sessions, user, now))
            && (reply.Reused? ==> reply.id > 0 && LastPlaying(s.sessions, user, now, reply.id - 1))
            && (reply.Started? <==> !Cools(s.sessions, user, now) && NonePlaying(s.sessions, user, now))
            && (if reply.Started?
                then reply.id == n + 1 && t.sessions[n..] == [Session(user, Active, now, now + 69_000, None, false)]
                else |t.sessions| == n)
  {
    CooldownIs(s.sessions, user, now);
    PlayingIs(s.sessions, user, now);
    var t := Step(s, Start(user, now), days).0;
    assert t.sessions[..|s.sessions|] == ExpireStale(s.sessions, user, now);
  }

  /** What a completion of session number `sid` meets. */
  predicate Own(s: Store, user: nat, sid: int) {
    1 <= sid <= |s.sessions| && s.sessions[sid - 1].user == user
  }

  predicate Done(x: Session) {
    x.status.Completed? && x.rewardGranted
  }

  lemma {:induction false} CompleteReplies(s: Store, user: nat, sid: int, now: int, days: nat)
    ensures var reply := Step(s, Complete(user, sid, now), days).1;
            && (reply.InvalidSession? <==> sid == 0)
            && (reply.NotFound? <==> sid != 0 && !Own(s, user, sid))
            && (Own(s, user, sid) ==>
                  var x := s.sessions[sid - 1];
                  && (reply.AlreadyRewarded? <==> Done(x))
                  && (reply.NotActive? <==> !Done(x) && !Playing(x, user, now))
                  && (reply.TooEarly? <==> Playing(x, user, now) && now < x.endsAt - 1_500)
                  && (reply.RewardGranted? <==> Playing(x, user, now) && now >= x.endsAt - 1_500))
  {
  }

  /** A completion that is too early, late, repeated or unknown changes nothing but expiry. */
  lemma {:induction false} RefusedCompletion(s: Store, user: nat, sid: int, now: int, days: nat)
    requires !Step(s, Complete(user, sid, now), days).1.RewardGranted?
    ensures var (t, reply) := Step(s, Complete(user, sid, now), days);
            && t.boosts == s.boosts && t.audits == s.audits
            && (if sid == 0 then t == s else Aged(s.sessions, t.sessions, user, now))
            && (reply.AlreadyRewarded? && s.sessions[sid - 1].completedAt.Some? ==>
                  var again := s.sessions[sid - 1].completedAt.value + 180_000;
                  reply.nextPlay == if now < again then Some(again) else None)
  {
  }

  /** A rewarded completion ends its session now, grants one boost for the configured days and starts the cooldown. */
  lemma {:induction false} GrantedCompletion(s: Store, user: nat, sid: int, now: int, days: nat)
    requires Step(s, Complete(user, sid, now), days).1.RewardGranted?
    ensures var (t, reply) := Step(s, Complete(user, sid, now), days);
            && Own(s, user, sid) && |t.sessions| == |s.sessions| && reply.nextPlayAt == now + 180_000
            && t.boosts == s.boosts + [Boost(user, now, now + days * 86_400_000)] && t.audits == s.audits + [sid - 1]
            && Aged(s.sessions, t.sessions[sid - 1 := s.sessions[sid - 1]], user, now)
            && var x := s.sessions[sid - 1];
               t.sessions[sid - 1] == Session(user, Completed, x.startedAt, x.endsAt, Some(now), true)
  {
  }

  /** A reward keeps its user out for 180 seconds and no longer. */
  lemma {:induction false} RewardCoolsExactly(s: Store, user: nat, sid: int, at: int, days: nat, now: int)
    requires Step(s, Complete(user, sid, at), days).1.RewardGranted?
    requires forall earlier: int | SomeReward(s.sessions, user, earlier) :: earlier <= at
    ensures Cools(Step(s, Complete(user, sid, at), days).0.sessions, user, now) <==> now < at + 180_000
  {
    GrantedCompletion(s, user, sid, at, days);
    var t := Step(s, Complete(user, sid, at), days).0;
    assert RewardAt(t.sessions[sid - 1], user, at);
    forall v: int | SomeReward(t.sessions, user, v) ensures v <= at {
      var i :| 0 <= i < |t.sessions| && RewardAt(t.sessions[i], user, v);
      if i != sid - 1 {
        var restored := t.sessions[sid - 1 := s.sessions[sid - 1]];
        assert restored[i] == t.sessions[i];
        assert restored[i] == s.sessions[i];
        assert RewardAt(s.sessions[i], user, v);
        assert SomeReward(s.sessions, user, v);
      }
    }
    if now < at + 180_000 { assert CoolsUntil(t.sessions, user, now, at + 180_000); }
  }

  /** Boosts last the configured whole number of days from 1 to 365, and 7 if none is configured. */
  lemma {:induction false} DaysOutcome(configured: Option<real>)
    ensures PowerDays(None) == 7
    ensures configured.Some? ==>
              && (1.0 <= configured.value < 366.0 ==>
                    PowerDays(configured) as real <= configured.value < PowerDays(configured) as real + 1.0)
              && (configured.value < 1.0 ==> PowerDays(configured) == 1)
              && (configured.value >= 366.0 ==> PowerDays(configured) == 365)
  {
  }
}
