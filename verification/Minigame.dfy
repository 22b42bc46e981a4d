/** The minigame service over its session, boost and audit rows; each method is one locked transaction. */
module Minigame {
  import opened Tables
  import opened MinigameModel
  import opened MinigameTheorems

  class Service {
    const days: nat
    var sessions: seq<Session>
    var boosts: seq<Boost>
    var audits: seq<nat>

    function View(): Store
      reads this
    {
      Store(sessions, boosts, audits)
    }

    constructor (configured: Option<real>)
      ensures View() == EMPTY && days == PowerDays(configured)
    {
      days := PowerDays(configured);
      sessions, boosts, audits := [], [], [];
    }

    method ExpireStaleActiveSessions(user: nat, now: int)
      modifies this`sessions
      ensures sessions == ExpireStale(old(sessions), user, now)
    {
      for i := 0 to |sessions|
        invariant |sessions| == |old(sessions)|
        invariant forall j | 0 <= j < |sessions| ::
                    sessions[j] == if j < i then ExpireOne(old(sessions)[j], user, now) else old(sessions)[j]
      {
        var x := sessions[i];
        if x.user == user && x.status == Active && x.endsAt <= now - LATE {
          sessions := sessions[i := x.(status := Expired)];
        }
      }
    }

    method FindLastRewarded(user: nat) returns (at: Option<int>)
      ensures at == LastRewardedAt(sessions, user)
    {
      at := None;
      for i := 0 to |sessions|
        invariant at == LastRewardedAt(sessions[..i], user)
      {
        var x := sessions[i];
        assert sessions[..i + 1][..i] == sessions[..i];
        if x.user == user && x.status == Completed && x.rewardGranted {
          if at.None? || (x.completedAt.Some? && x.completedAt.value > at.value) {
            at := x.completedAt;
          }
        }
      }
      assert sessions[..|sessions|] == sessions;
    }

    method FindActive(user: nat) returns (found: Option<nat>)
      ensures found == ActiveOf(sessions, user)
    {
      found := None;
      for i := 0 to |sessions|
        invariant found == ActiveOf(sessions[..i], user)
      {
        assert sessions[..i + 1][..i] == sessions[..i];
        if sessions[i].user == user && sessions[i].status == Active {
          found := Some(i);
        }
      }
      assert sessions[..|sessions|] == sessions;
    }

    method GetMinigameStatus(user: nat, now: int) returns (reply: Reply)
      modifies this
      ensures (View(), reply) == Step(old(View()), GetStatus(user, now), days)
    {
      ExpireStaleActiveSessions(user, now);
      var last := FindLastRewarded(user);
      var cooldown := CooldownEndsAt(last, now);
      var active := FindActive(user);
      reply := State(cooldown.None? && active.None?, cooldown, active);
    }

    method StartMinigameSession(user: nat, now: int) returns (reply: Reply)
      modifies this
      ensures (View(), reply) == Step(old(View()), Start(user, now), days)
    {
      ExpireStaleActiveSessions(user, now);
      var last := FindLastRewarded(user);
      var cooldown := CooldownEndsAt(last, now);
      if cooldown.Some? { return CooldownActive(cooldown.value); }
      var existing := FindActive(user);
      if existing.Some? { return Reused(existing.value + 1); }
      sessions := sessions + [Session(user, Active, now, now + DURATION, None, false)];
      reply := Started(|sessions|);
    }

    method CompleteMinigameSession(user: nat, sid: int, now: int) returns (reply: Reply)
      modifies this
      ensures (View(), reply) == Step(old(View()), Complete(user, sid, now), days)
      ensures !reply.LateExpired?
    {
      if sid == 0 { return InvalidSession; }
      ExpireStaleActiveSessions(user, now);
      if !(1 <= sid <= |sessions|) || sessions[sid - 1].user != user { return NotFound; }
      var row := sessions[sid - 1];
      if row.status == Completed && row.rewardGranted {
        return AlreadyRewarded(CooldownEndsAt(row.completedAt, now));
      }
      if row.status != Active { return NotActive; }
      if !WithinCompleteWindow(row.endsAt, now) {
        if now < row.endsAt - EARLY { return TooEarly; }
        // The source expires the session here; the expiry above never leaves one this late active.
        assert false;
      }
      boosts := boosts + [Boost(user, now, now + days * DAY)];
      sessions := sessions[sid - 1 := row.(status := Completed, completedAt := Some(now), rewardGranted := true)];
      audits := audits + [sid - 1];
      reply := RewardGranted(now + COOLDOWN);
    }
  }
}
