/** What the events between engine and database do to the two balances of every user. */
module LedgerOutcomes {
  import opened Tables
  import M = MiningModel
  import T = MiningTheorems
  import R = MiningRollback
  import W = WalletModel
  import opened Ledger

  /** In the database this user's balance has changed by `change`, and no other. */
  ghost predicate Moved(w: W.Wallet, t: W.Wallet, user: nat, change: real) {
    && t.rows == w.rows && W.BalanceOf(t, user) == W.BalanceOf(w, user) + change
    && forall u: nat | u != user :: W.BalanceOf(t, u) == W.BalanceOf(w, u)
  }

  /** In memory only miner `id` has changed, to balance `b` of which `p` counts as written. */
  ghost predicate Holds(e: M.Engine, t: M.Engine, id: nat, b: real, p: real) {
    && id < |e.miners|
    && t == e.(miners := e.miners[id := e.miners[id].(balance := b, persisted := p)])
  }

  /** What a miner with a user has not written, when it is at least a ten-millionth of a POL either way. */
  ghost predicate Writes(m: M.Miner, amount: real) {
    m.user != 0 && amount == m.balance - m.persisted && (amount >= 0.0000001 || amount <= -0.0000001)
  }

  /** A write begins exactly when there is enough to write, and its amount stays what it is then. */
  lemma {:induction false} BeginWriteOutcome(s: System, id: nat, amount: real, cfg: W.Config)
    requires Ready(s) && id < |s.e.miners|
    ensures Next(s, BeginWrite(id), cfg) == s.(writes := s.writes + [Write(id, amount, false)]) <==>
              Writes(s.e.miners[id], amount)
    ensures (forall a :: !Writes(s.e.miners[id], a)) ==> Next(s, BeginWrite(id), cfg) == s
  {
    var m := s.e.miners[id];
    if !Writes(m, m.balance - m.persisted) {
      assert Next(s, BeginWrite(id), cfg) == s;
      assert |s.writes + [Write(id, amount, false)]| != |s.writes|;
    } else {
      assert (s.writes + [Write(id, amount, false)])[|s.writes|].delta == amount;
    }
  }

  /** A write that ends adds its amount to the user's balance in the database; all in memory counts as written. */
  lemma {:induction false} EndWriteOutcome(s: System, k: nat, cfg: W.Config)
    requires Ready(s) && k < |s.writes| && !s.writes[k].ended && s.writes[k].id < |s.e.miners|
    ensures var t, w, m := Next(s, EndWrite(k), cfg), s.writes[k], s.e.miners[s.writes[k].id];
            && Moved(s.wallet, t.wallet, m.user, w.delta) && Holds(s.e, t.e, w.id, m.balance, m.balance)
            && t.writes == s.writes[k := Write(w.id, w.delta, true)] && t.payouts == s.payouts
  {
  }

  /** One that fails leaves memory alone, and the database too unless only the answer was lost. */
  lemma {:induction false} FailWriteOutcome(s: System, k: nat, committed: bool, cfg: W.Config)
    requires Ready(s) && k < |s.writes| && !s.writes[k].ended && s.writes[k].id < |s.e.miners|
    ensures var t, w, m := Next(s, FailWrite(k, committed), cfg), s.writes[k], s.e.miners[s.writes[k].id];
            && (if committed then Moved(s.wallet, t.wallet, m.user, w.delta) else t.wallet == s.wallet)
            && t.e == s.e && t.writes == s.writes[k := Write(w.id, w.delta, true)] && t.payouts == s.payouts
  {
  }

  /** The reward of this miner in the payout. */
  function RewardOf(t: R.Snapshots, id: nat): real {
    if id < |t| && t[id].Some? then t[id].value.reward else 0.0
  }

  /** The rewards of the user's miners. */
  function RewardTo(ms: seq<M.Miner>, t: R.Snapshots, user: nat): real
    requires |t| <= |ms|
  {
    if t == [] then 0.0
    else
      var n := |t| - 1;
      RewardTo(ms, t[..n], user) + if ms[n].user == user then RewardOf(t, n) else 0.0
  }

  lemma {:induction false} AllStored(w: W.Wallet, ms: seq<M.Miner>, t: R.Snapshots, user: nat)
    requires |t| <= |ms|
    ensures StoreAll(w, ms, t).rows == w.rows
    ensures W.BalanceOf(StoreAll(w, ms, t), user) == W.BalanceOf(w, user) + RewardTo(ms, t, user)
  {
    if t != [] { AllStored(w, ms, t[..|t| - 1], user); }
  }

  lemma {:induction false} OneReward(ms: seq<M.Miner>, t: R.Snapshots, id: nat)
    requires |t| <= |ms| && id < |ms| && forall i | 0 <= i < |ms| && ms[i].user == ms[id].user :: i == id
    ensures RewardTo(ms, t, ms[id].user) == RewardOf(t, id)
  {
    if t != [] { OneReward(ms, t[..|t| - 1], id); }
  }

  lemma {:induction false} NoReward(ms: seq<M.Miner>, t: R.Snapshots, user: nat)
    requires |t| <= |ms| && forall i | 0 <= i < |ms| :: ms[i].user != user
    ensures RewardTo(ms, t, user) == 0.0
  {
    if t != [] { NoReward(ms, t[..|t| - 1], user); }
  }

  /** Storing a payout gives each user with a miner its own reward in the database, and nobody else anything. */
  lemma {:induction false} StoreOutcome(s: System, k: nat, user: nat, cfg: W.Config)
    requires Ready(s) && k < |s.payouts| && s.payouts[k].state == Waiting && user != 0
    ensures var t := Next(s, Store(k), cfg);
            && t.e == s.e && t.wallet.rows == s.wallet.rows && t.writes == s.writes
            && (forall id | 0 <= id < |s.e.miners| && s.e.miners[id].user == user ::
                  W.BalanceOf(t.wallet, user) == W.BalanceOf(s.wallet, user) + RewardOf(s.payouts[k].t, id))
            && ((forall id | 0 <= id < |s.e.miners| :: s.e.miners[id].user != user) ==>
                  W.BalanceOf(t.wallet, user) == W.BalanceOf(s.wallet, user))
  {
    AllStored(s.wallet, s.e.miners, s.payouts[k].t, user);
    if id: nat :| id < |s.e.miners| && s.e.miners[id].user == user {
      OneMiner(s.e, id);
      OneReward(s.e.miners, s.payouts[k].t, id);
    } else {
      NoReward(s.e.miners, s.payouts[k].t, user);
    }
  }

  /** A change that the engine is told of reaches the balance on both sides, a direct one the database alone. */
  lemma {:induction false} TransferOutcome(s: System, user: nat, amount: real, id: nat, cfg: W.Config)
    requires Ready(s) && Known(s.e, id) && s.e.miners[id].user == user
    ensures var t, m := Next(s, Transfer(user, amount), cfg), s.e.miners[id];
            && Moved(s.wallet, t.wallet, user, amount)
            && Holds(s.e, t.e, id, m.balance + amount, m.persisted + amount)
    ensures var t := Next(s, Direct(user, amount), cfg);
            Moved(s.wallet, t.wallet, user, amount) && t.e == s.e
  {
    OneMiner(s.e, id);
  }
}
