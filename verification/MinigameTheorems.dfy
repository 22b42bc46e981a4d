/** What holds of sessions and boosts in every run, whatever times its requests read. */
module MinigameTheorems {
  import opened Tables
  import opened MinigameModel

  /** Status, reward flag and completion time agree, and a completion came inside its window. */
  predicate SessionOk(x: Session) {
    && x.endsAt == x.startedAt + DURATION
    && (x.rewardGranted <==> x.status == Completed)
    && (x.completedAt.Some? <==> x.status == Completed)
    && (x.status == Completed ==> x.endsAt - EARLY <= x.completedAt.value < x.endsAt + LATE)
  }

  /** A user's later session starts when the earlier one is over and its cooldown has passed. */
  predicate Follows(x: Session, y: Session) {
    x.user == y.user ==>
      && x.status != Active
      && (x.status == Completed && x.completedAt.Some? ==> y.startedAt >= x.completedAt.value + COOLDOWN)
  }

  ghost predicate SessionsOk(xs: seq<Session>) {
    && (forall i | 0 <= i < |xs| :: SessionOk(xs[i]))
    && (forall i, j | 0 <= i < j < |xs| :: Follows(xs[i], xs[j]))
  }

  /** Boosts are exactly the completed sessions' rewards, one each, in session order per user. */
  ghost predicate BoostsOk(s: Store, days: nat) {
    && |s.boosts| == |s.audits|
    && (forall k | 0 <= k < |s.audits| ::
          && s.audits[k] < |s.sessions|
          && s.sessions[s.audits[k]].completedAt.Some?
          && s.boosts[k] == Boost(s.sessions[s.audits[k]].user, s.sessions[s.audits[k]].completedAt.value,
                                  s.sessions[s.audits[k]].completedAt.value + days * DAY))
    && (forall k, l | 0 <= k < l < |s.audits| :: s.audits[k] != s.audits[l])
    && (forall k, l | 0 <= k < l < |s.audits| && s.boosts[k].user == s.boosts[l].user :: s.audits[k] < s.audits[l])
    && (forall i | 0 <= i < |s.sessions| && s.sessions[i].status == Completed :: i in s.audits)
  }

  ghost predicate Inv(s: Store, days: nat) {
    SessionsOk(s.sessions) && BoostsOk(s, days)
  }

  lemma {:induction false} ExpireKeepsSessions(xs: seq<Session>, user: nat, now: int)
    requires SessionsOk(xs)
    ensures SessionsOk(ExpireStale(xs, user, now))
  {
    var ys := ExpireStale(xs, user, now);
    forall i, j | 0 <= i < j < |ys| ensures Follows(ys[i], ys[j]) {
      assert Follows(xs[i], xs[j]);
    }
  }

  lemma {:induction false} ExpireKeepsBoosts(s: Store, days: nat, user: nat, now: int)
    requires BoostsOk(s, days)
    ensures BoostsOk(s.(sessions := ExpireStale(s.sessions, user, now)), days)
  {
    var t := s.(sessions := ExpireStale(s.sessions, user, now));
    forall i | 0 <= i < |t.sessions| && t.sessions[i].status == Completed ensures i in t.audits {
      assert s.sessions[i].status == Completed;
    }
  }

  lemma {:induction false} ExpireKeeps(s: Store, days: nat, user: nat, now: int)
    requires Inv(s, days)
    ensures Inv(s.(sessions := ExpireStale(s.sessions, user, now)), days)
  {
    ExpireKeepsSessions(s.sessions, user, now);
    ExpireKeepsBoosts(s, days, user, now);
  }

  lemma {:induction false} LastRewardedIsLast(xs: seq<Session>, user: nat)
    requires forall i | 0 <= i < |xs| :: SessionOk(xs[i])
    ensures forall i | 0 <= i < |xs| && Rewarded(xs[i], user) ::
              xs[i].completedAt.Some? && LastRewardedAt(xs, user).Some? &&
                LastRewardedAt(xs, user).value >= xs[i].completedAt.value
  {
    if xs != [] {
      LastRewardedIsLast(xs[..|xs| - 1], user);
    }
  }

  /** A session that opens with nothing active and no cooldown running follows all earlier ones. */
  lemma {:induction false} OpenKeepsSessions(xs: seq<Session>, user: nat, now: int)
    requires SessionsOk(xs) && ActiveOf(xs, user).None? && CooldownEndsAt(LastRewardedAt(xs, user), now).None?
    ensures SessionsOk(xs + [Session(user, Active, now, now + DURATION, None, false)])
  {
    var x := Session(user, Active, now, now + DURATION, None, false);
    LastRewardedIsLast(xs, user);
    forall i | 0 <= i < |xs| ensures Follows(xs[i], x) {
      assert SessionOk(xs[i]);
      if xs[i].user == user && xs[i].status == Completed { assert Rewarded(xs[i], user); }
    }
  }

  lemma {:induction false} OpenKeepsBoosts(s: Store, days: nat, user: nat, now: int)
    requires BoostsOk(s, days)
    ensures BoostsOk(s.(sessions := s.sessions + [Session(user, Active, now, now + DURATION, None, false)]), days)
  {
  }

  lemma {:induction false} StartKeeps(s: Store, days: nat, user: nat, now: int)
    requires Inv(s, days)
    ensures Inv(StartStep(s, user, now).0, days)
  {
    ExpireKeeps(s, days, user, now);
    var e := s.(sessions := ExpireStale(s.sessions, user, now));
    if StartStep(s, user, now).1.Started? {
      OpenKeepsSessions(e.sessions, user, now);
      OpenKeepsBoosts(e, days, user, now);
    }
  }

  /** The store after active session `i` is rewarded. */
  function Reward(s: Store, i: nat, now: int, days: nat): Store
    requires i < |s.sessions|
  {
    var x := s.sessions[i];
    Store(s.sessions[i := x.(status := Completed, completedAt := Some(now), rewardGranted := true)],
          s.boosts + [Boost(x.user, now, now + days * DAY)],
          s.audits + [i])
  }

  lemma {:induction false} RewardKeepsSessions(s: Store, i: nat, now: int, days: nat)
    requires SessionsOk(s.sessions) && i < |s.sessions| && s.sessions[i].status == Active
    requires s.sessions[i].endsAt - EARLY <= now < s.sessions[i].endsAt + LATE
    ensures SessionsOk(Reward(s, i, now, days).sessions)
  {
    var t := Reward(s, i, now, days);
    forall j, k | 0 <= j < k < |t.sessions| ensures Follows(t.sessions[j], t.sessions[k]) {
      assert Follows(s.sessions[j], s.sessions[k]);
    }
  }

  /** No session of a user comes after the active one. */
  lemma {:induction false} ActiveIsLast(xs: seq<Session>, i: nat, j: nat)
    requires SessionsOk(xs) && i < |xs| && j < |xs| && xs[i].status == Active && xs[j].user == xs[i].user
    ensures j <= i
  {
  }

  lemma {:induction false} RewardKeepsBoosts(s: Store, i: nat, now: int, days: nat)
    requires Inv(s, days) && i < |s.sessions| && s.sessions[i].status == Active
    ensures BoostsOk(Reward(s, i, now, days), days)
  {
    var t := Reward(s, i, now, days);
    forall k | 0 <= k < |s.audits| ensures s.audits[k] != i {
      assert SessionOk(s.sessions[s.audits[k]]);
    }
    forall k | 0 <= k < |s.audits| && s.boosts[k].user == s.sessions[i].user ensures s.audits[k] < i {
      ActiveIsLast(s.sessions, i, s.audits[k]);
    }
    forall j | 0 <= j < |t.sessions| && t.sessions[j].status == Completed ensures j in t.audits {
      if j == i {
        assert t.audits[|s.audits|] == i;
      } else {
        assert s.sessions[j].status == Completed && j in s.audits;
      }
    }
  }

  lemma {:induction false} CompleteKeeps(s: Store, days: nat, user: nat, sid: int, now: int)
    requires Inv(s, days)
    ensures Inv(CompleteStep(s, user, sid, now, days).0, days)
  {
    ExpireKeeps(s, days, user, now);
    var e := s.(sessions := ExpireStale(s.sessions, user, now));
    var (t, r) := CompleteStep(s, user, sid, now, days);
    if r.RewardGranted? {
      RewardKeepsSessions(e, sid - 1, now, days);
      RewardKeepsBoosts(e, sid - 1, now, days);
      assert t == Reward(e, sid - 1, now, days);
    } else {
      LateBranchDead(s, user, sid, now, days);
      assert sid != 0 ==> t == e;
    }
  }

  lemma {:induction false} StepKeeps(s: Store, days: nat, op: Op)
    requires Inv(s, days)
    ensures Inv(Step(s, op, days).0, days)
  {
    match op
    case GetStatus(user, now) => ExpireKeeps(s, days, user, now);
    case Start(user, now) => StartKeeps(s, days, user, now);
    case Complete(user, sid, now) => CompleteKeeps(s, days, user, sid, now);
  }

  lemma {:induction false} RunKeeps(ops: seq<Op>, days: nat)
    ensures Inv(Exec(EMPTY, ops, days), days)
    decreases |ops|
  {
    if ops != [] {
      RunKeeps(ops[..|ops| - 1], days);
      StepKeeps(Exec(EMPTY, ops[..|ops| - 1], days), days, ops[|ops| - 1]);
    }
  }

  // ---- The results ----

  /** A user never has two active sessions. */
  lemma {:induction false} OneActive(ops: seq<Op>, days: nat, i: nat, j: nat)
    requires var xs := Exec(EMPTY, ops, days).sessions;
             i < |xs| && j < |xs| && xs[i].user == xs[j].user && xs[i].status == xs[j].status == Active
    ensures i == j
  {
    RunKeeps(ops, days);
    var xs := Exec(EMPTY, ops, days).sessions;
    ActiveIsLast(xs, i, j);
    ActiveIsLast(xs, j, i);
  }

  /** Rewards and completed sessions correspond one to one. */
  lemma {:induction false} RewardedOnce(ops: seq<Op>, days: nat)
    ensures var s := Exec(EMPTY, ops, days);
            && |s.boosts| == |s.audits|
            && (forall k, l | 0 <= k < l < |s.audits| :: s.audits[k] != s.audits[l])
            && (forall i :: i in s.audits <==> 0 <= i < |s.sessions| && s.sessions[i].status == Completed)
  {
    var s := Exec(EMPTY, ops, days);
    RunKeeps(ops, days);
    forall i | i in s.audits ensures 0 <= i < |s.sessions| && s.sessions[i].status == Completed {
      var k :| 0 <= k < |s.audits| && s.audits[k] == i;
      assert SessionOk(s.sessions[s.audits[k]]);
    }
  }

  /** Two rewards of one user are at least 247.5 seconds apart. */
  lemma {:induction false} RewardsApart(ops: seq<Op>, days: nat, k: nat, l: nat)
    requires var bs := Exec(EMPTY, ops, days).boosts; k < l < |bs| && bs[k].user == bs[l].user
    ensures GAP == 247_500
    ensures var bs := Exec(EMPTY, ops, days).boosts; bs[l].playedAt - bs[k].playedAt >= GAP
  {
    var s := Exec(EMPTY, ops, days);
    RunKeeps(ops, days);
    var i, j := s.audits[k], s.audits[l];
    assert Follows(s.sessions[i], s.sessions[j]);
    assert SessionOk(s.sessions[i]) && SessionOk(s.sessions[j]);
  }

  predicate LiveAt(b: Boost, user: nat, t: int) {
    b.user == user && b.playedAt <= t < b.expiresAt
  }

  lemma {:induction false} SpreadOut(ops: seq<Op>, days: nat, user: nat, ks: seq<nat>)
    requires |ks| > 0
    requires var bs := Exec(EMPTY, ops, days).boosts;
             && (forall i | 0 <= i < |ks| :: ks[i] < |bs| && bs[ks[i]].user == user)
             && (forall i, j | 0 <= i < j < |ks| :: ks[i] < ks[j])
    ensures var bs := Exec(EMPTY, ops, days).boosts;
            bs[ks[|ks| - 1]].playedAt - bs[ks[0]].playedAt >= (|ks| - 1) * GAP
    decreases |ks|
  {
    if |ks| > 1 {
      SpreadOut(ops, days, user, ks[..|ks| - 1]);
      RewardsApart(ops, days, ks[|ks| - 2], ks[|ks| - 1]);
    }
  }

  /** However many of a user's boosts are live at once, n of them take (n - 1) gaps of the boost's lifetime. */
  lemma {:induction false} LiveBoostsBounded(ops: seq<Op>, days: nat, user: nat, t: int, ks: seq<nat>)
    requires var bs := Exec(EMPTY, ops, days).boosts;
             && (forall i | 0 <= i < |ks| :: ks[i] < |bs| && LiveAt(bs[ks[i]], user, t))
             && (forall i, j | 0 <= i < j < |ks| :: ks[i] < ks[j])
    ensures |ks| > 0 ==> (|ks| - 1) * GAP < days * DAY
  {
    if |ks| > 0 {
      SpreadOut(ops, days, user, ks);
      var s := Exec(EMPTY, ops, days);
      RunKeeps(ops, days);
      assert s.boosts[ks[0]].expiresAt == s.boosts[ks[0]].playedAt + days * DAY;
      assert LiveAt(s.boosts[ks[0]], user, t) && LiveAt(s.boosts[ks[|ks| - 1]], user, t);
    }
  }

  /** The branch that expires a late session is never taken: expiry has already been done. */
  lemma {:induction false} LateBranchDead(s: Store, user: nat, sid: int, now: int, days: nat)
    ensures !CompleteStep(s, user, sid, now, days).1.LateExpired?
  {
  }

  /** An active session is rewarded exactly from 1.5 seconds before its end up to, not including, 120 seconds after. */
  lemma {:induction false} RewardWindow(s: Store, user: nat, sid: int, now: int, days: nat)
    requires 1 <= sid <= |s.sessions| && s.sessions[sid - 1].user == user && s.sessions[sid - 1].status == Active
    ensures CompleteStep(s, user, sid, now, days).1.RewardGranted?
       <==> s.sessions[sid - 1].endsAt - EARLY <= now < s.sessions[sid - 1].endsAt + LATE
  {
  }

  /** Status says a new start is allowed exactly when starting right away opens a new session. */
  lemma {:induction false} StatusAgreesWithStart(s: Store, user: nat, now: int)
    ensures StatusReply(s, user, now).allowNewStart
       <==> StartStep(Step(s, GetStatus(user, now), 1).0, user, now).1.Started?
  {
    var xs := ExpireStale(s.sessions, user, now);
    assert ExpireStale(xs, user, now) == xs;
  }

  lemma {:induction false} StepLeavesRewarded(s: Store, op: Op, days: nat, i: nat, user: nat)
    requires i < |s.sessions| && Rewarded(s.sessions[i], user)
    ensures var t := Step(s, op, days).0; i < |t.sessions| && t.sessions[i] == s.sessions[i]
  {
  }

  /** A rewarded session stays rewarded: completing it again grants nothing. */
  lemma {:induction false} RewardIsFinal(s: Store, ops: seq<Op>, days: nat, user: nat, i: nat, now: int)
    requires i < |s.sessions| && Rewarded(s.sessions[i], user)
    ensures var t := Exec(s, ops, days);
            && i < |t.sessions| && t.sessions[i] == s.sessions[i]
            && CompleteStep(t, user, i + 1, now, days).1.AlreadyRewarded?
            && CompleteStep(t, user, i + 1, now, days).0.boosts == t.boosts
    decreases |ops|
  {
    if ops != [] {
      RewardIsFinal(s, ops[..|ops| - 1], days, user, i, now);
      StepLeavesRewarded(Exec(s, ops[..|ops| - 1], days), ops[|ops| - 1], days, i, user);
    }
  }
}
