/** A round of the verifier starts its visits together: the order in which they go through does not matter. */
module WalletRounds {
  import opened Tables
  import opened WalletModel
  import opened WalletTheorems

  /** The row after a visit that meets no other completed row with its hash. */
  function VisitedRow(r: Row, ev: Evidence, cfg: Config): Row
    requires r.Deposit?
  {
    var n := r.(attempts := r.attempts + 1);
    if n.attempts > MAX_ATTEMPTS then n.(status := Failed)
    else
      match Judge(ev, cfg)
      case Retry => n
      case Refuse => n.(status := Failed)
      case Credit(amount) => n.(status := Completed, amount := amount)
  }

  /** ... and what it puts on the balance of the row's user. */
  function Gain(r: Row, ev: Evidence, cfg: Config): Option<real>
    requires r.Deposit?
  {
    if r.attempts + 1 > MAX_ATTEMPTS then None
    else
      match Judge(ev, cfg)
      case Credit(amount) => Some(amount)
      case _ => None
  }

  function Gained(w: Wallet, user: nat, gain: Option<real>): Wallet {
    if gain.Some? then WithBalance(w, user, gain.value) else w
  }

  /** A visit as a change of its own row and of one balance. */
  function VisitAlone(w: Wallet, id: nat, ev: Evidence, cfg: Config): Wallet {
    if UnderVerification(w.rows, id)
    then Gained(WithRow(w, id, VisitedRow(w.rows[id], ev, cfg)), w.rows[id].user, Gain(w.rows[id], ev, cfg))
    else w
  }

  lemma {:induction false} VisitIsAlone(w: Wallet, id: nat, ev: Evidence, cfg: Config)
    requires OneLive(w.rows)
    ensures Step(w, Verify(id, ev), cfg) == VisitAlone(w, id, ev, cfg)
  {
    if UnderVerification(w.rows, id) {
      forall i | 0 <= i < |w.rows| && i != id ensures !(Live(w.rows[i]) && w.rows[i].hash == w.rows[id].hash) {
        assert Live(w.rows[id]);
      }
      assert !Duplicate(w.rows, id);
    }
  }

  lemma {:induction false} VisitKeepsLive(w: Wallet, id: nat, ev: Evidence, cfg: Config)
    requires OneLive(w.rows)
    ensures OneLive(Step(w, Verify(id, ev), cfg).rows)
  {
    var t := Step(w, Verify(id, ev), cfg);
    assert |t.rows| == |w.rows|;
    forall i | 0 <= i < |t.rows| && Live(t.rows[i]) ensures Live(w.rows[i]) && t.rows[i].hash == w.rows[i].hash {
    }
  }

  lemma {:induction false} GainsCommute(w: Wallet, u: nat, a: Option<real>, v: nat, b: Option<real>)
    ensures Gained(Gained(w, u, a), v, b) == Gained(Gained(w, v, b), u, a)
  {
    if a.Some? && b.Some? {
      var s, t := Gained(Gained(w, u, a), v, b).balance, Gained(Gained(w, v, b), u, a).balance;
      forall k | k in s ensures k in t && s[k] == t[k] {
      }
      assert s.Keys == t.Keys;
      assert s == t;
    }
  }

  lemma {:induction false} VisitBoth(w: Wallet, x: nat, y: nat, ev: Evidence, ev': Evidence, cfg: Config)
    requires x != y && UnderVerification(w.rows, x) && UnderVerification(w.rows, y)
    ensures var r, q := w.rows[x], w.rows[y];
            var both := w.(rows := w.rows[x := VisitedRow(r, ev, cfg)][y := VisitedRow(q, ev', cfg)]);
            VisitAlone(VisitAlone(w, x, ev, cfg), y, ev', cfg)
              == Gained(Gained(both, r.user, Gain(r, ev, cfg)), q.user, Gain(q, ev', cfg))
  {
  }

  lemma {:induction false} VisitsCommute(w: Wallet, x: nat, y: nat, ev: Evidence, ev': Evidence, cfg: Config)
    requires x != y
    ensures VisitAlone(VisitAlone(w, x, ev, cfg), y, ev', cfg) == VisitAlone(VisitAlone(w, y, ev', cfg), x, ev, cfg)
  {
    if UnderVerification(w.rows, x) && UnderVerification(w.rows, y) {
      var r, q := w.rows[x], w.rows[y];
      var both := w.(rows := w.rows[x := VisitedRow(r, ev, cfg)][y := VisitedRow(q, ev', cfg)]);
      assert both.rows == w.rows[y := VisitedRow(q, ev', cfg)][x := VisitedRow(r, ev, cfg)];
      VisitBoth(w, x, y, ev, ev', cfg);
      VisitBoth(w, y, x, ev', ev, cfg);
      GainsCommute(both, r.user, Gain(r, ev, cfg), q.user, Gain(q, ev', cfg));
    }
  }

  // ---- Orders of a round ----

  predicate Within(ids: seq<nat>, n: nat) {
    forall k | 0 <= k < |ids| :: ids[k] < n
  }

  /** Visits to these rows one after another. */
  function VisitAll(w: Wallet, ids: seq<nat>, evidence: seq<Evidence>, cfg: Config): Wallet
    requires Within(ids, |evidence|)
  {
    if ids == [] then w
    else
      var id := ids[|ids| - 1];
      Step(VisitAll(w, ids[..|ids| - 1], evidence, cfg), Verify(id, evidence[id]), cfg)
  }

  lemma {:induction false} VisitAllExec(w: Wallet, ids: seq<nat>, evidence: seq<Evidence>, cfg: Config)
    requires Within(ids, |evidence|)
    ensures VisitAll(w, ids, evidence, cfg) == Exec(w, VisitsOf(ids, evidence), cfg)
  {
    if ids != [] {
      VisitAllExec(w, ids[..|ids| - 1], evidence, cfg);
      assert VisitsOf(ids, evidence)[..|ids| - 1] == VisitsOf(ids[..|ids| - 1], evidence);
    }
  }

  lemma {:induction false} VisitAllKeepsLive(w: Wallet, ids: seq<nat>, evidence: seq<Evidence>, cfg: Config)
    requires OneLive(w.rows) && Within(ids, |evidence|)
    ensures OneLive(VisitAll(w, ids, evidence, cfg).rows)
  {
    if ids != [] {
      var id := ids[|ids| - 1];
      VisitAllKeepsLive(w, ids[..|ids| - 1], evidence, cfg);
      VisitKeepsLive(VisitAll(w, ids[..|ids| - 1], evidence, cfg), id, evidence[id], cfg);
    }
  }

  lemma {:induction false} LastVisit(w: Wallet, ids: seq<nat>, id: nat, evidence: seq<Evidence>, cfg: Config)
    requires id < |evidence| && Within(ids, |evidence|)
    ensures VisitAll(w, ids + [id], evidence, cfg) ==
              Step(VisitAll(w, ids, evidence, cfg), Verify(id, evidence[id]), cfg)
  {
    assert (ids + [id])[..|ids|] == ids;
  }

  lemma {:induction false} SwapLast(w: Wallet, ids: seq<nat>, x: nat, y: nat, evidence: seq<Evidence>, cfg: Config)
    requires OneLive(w.rows) && x != y && x < |evidence| && y < |evidence|
    requires Within(ids, |evidence|)
    ensures VisitAll(w, ids + [x] + [y], evidence, cfg) == VisitAll(w, ids + [y] + [x], evidence, cfg)
  {
    var s := VisitAll(w, ids, evidence, cfg);
    LastVisit(w, ids, x, evidence, cfg);
    LastVisit(w, ids, y, evidence, cfg);
    LastVisit(w, ids + [x], y, evidence, cfg);
    LastVisit(w, ids + [y], x, evidence, cfg);
    VisitAllKeepsLive(w, ids, evidence, cfg);
    VisitKeepsLive(s, x, evidence[x], cfg);
    VisitKeepsLive(s, y, evidence[y], cfg);
    VisitIsAlone(s, x, evidence[x], cfg);
    VisitIsAlone(s, y, evidence[y], cfg);
    VisitIsAlone(Step(s, Verify(x, evidence[x]), cfg), y, evidence[y], cfg);
    VisitIsAlone(Step(s, Verify(y, evidence[y]), cfg), x, evidence[x], cfg);
    VisitsCommute(s, x, y, evidence[x], evidence[y], cfg);
  }

  lemma {:induction false} WithinParts(a: seq<nat>, b: seq<nat>, n: nat)
    ensures Within(a + b, n) <==> Within(a, n) && Within(b, n)
  {
    if Within(a + b, n) {
      assert forall k | 0 <= k < |a| :: a[k] == (a + b)[k];
      assert forall k | 0 <= k < |b| :: b[k] == (a + b)[|a| + k];
    }
  }

  /** With `y` after both, `x` still may as well come last. */
  lemma {:induction false} OneFurther(w: Wallet, ids: seq<nat>, moved: seq<nat>, x: nat, y: nat,
                                      evidence: seq<Evidence>, cfg: Config)
    requires OneLive(w.rows) && x != y && x < |evidence| && y < |evidence|
    requires Within(ids, |evidence|) && Within(moved, |evidence|)
    requires VisitAll(w, ids, evidence, cfg) == VisitAll(w, moved + [x], evidence, cfg)
    ensures VisitAll(w, ids + [y], evidence, cfg) == VisitAll(w, moved + [y] + [x], evidence, cfg)
  {
    LastVisit(w, ids, y, evidence, cfg);
    LastVisit(w, moved + [x], y, evidence, cfg);
    SwapLast(w, moved, x, y, evidence, cfg);
  }

  /** A visit may as well come last. */
  lemma {:induction false} ToTheEnd(w: Wallet, before: seq<nat>, x: nat, after: seq<nat>, evidence: seq<Evidence>,
                                    cfg: Config)
    requires OneLive(w.rows) && x < |evidence| && x !in after && Within(before, |evidence|) && Within(after, |evidence|)
    ensures Within(before + [x] + after, |evidence|) && Within(before + after, |evidence|)
    ensures VisitAll(w, before + [x] + after, evidence, cfg) == VisitAll(w, before + after + [x], evidence, cfg)
    decreases |after|
  {
    WithinParts(before, [x], |evidence|);
    WithinParts(before + [x], after, |evidence|);
    WithinParts(before, after, |evidence|);
    if after == [] {
      assert before + [x] + after == before + after + [x];
    } else {
      var front, y := after[..|after| - 1], after[|after| - 1];
      assert after == front + [y];
      WithinParts(front, [y], |evidence|);
      ToTheEnd(w, before, x, front, evidence, cfg);
      OneFurther(w, before + [x] + front, before + front, x, y, evidence, cfg);
      assert before + after == before + front + [y];
      assert before + [x] + after == (before + [x] + front) + [y];
    }
  }

  ghost predicate Distinct(ids: seq<nat>) {
    forall j, k | 0 <= j < k < |ids| :: ids[j] != ids[k]
  }

  lemma {:induction false} SameElements(a: seq<nat>, b: seq<nat>, n: nat)
    requires multiset(a) == multiset(b) && Within(a, n)
    ensures Within(b, n)
  {
    forall k | 0 <= k < |b| ensures b[k] < n {
      assert b[k] in multiset(a);
    }
  }

  lemma {:induction false} MiddleOut(before: seq<nat>, x: nat, after: seq<nat>)
    ensures multiset(before + [x] + after) == multiset(before + after) + multiset{x}
  {
    assert multiset(before + after) == multiset(before) + multiset(after);
    assert multiset(before + [x] + after) == multiset(before + [x]) + multiset(after);
  }

  lemma {:induction false} Cancel(a: multiset<nat>, b: multiset<nat>, x: nat)
    requires a + multiset{x} == b + multiset{x}
    ensures a == b
  {
    forall k ensures a[k] == b[k] {
      assert (a + multiset{x})[k] == (b + multiset{x})[k];
    }
  }

  /** The last picked row splits the order into what comes before it and after. */
  lemma {:induction false} SplitAt(picked: seq<nat>, order: seq<nat>) returns (before: seq<nat>, after: seq<nat>)
    requires picked != [] && Distinct(picked) && multiset(order) == multiset(picked)
    ensures var x := picked[|picked| - 1];
            order == before + [x] + after && x !in after && multiset(before + after) == multiset(picked[..|picked| - 1])
  {
    var front, x := picked[..|picked| - 1], picked[|picked| - 1];
    assert picked == front + [x];
    assert x in multiset(order);
    var i :| 0 <= i < |order| && order[i] == x;
    before, after := order[..i], order[i + 1..];
    assert order == before + [x] + after;
    MiddleOut(before, x, after);
    Cancel(multiset(before + after), multiset(front), x);
    assert x !in front;
    assert x !in multiset(before + after);
  }

  /** Any order of the same visits, each to another row, gives the same wallet. */
  lemma {:induction false} AnyOrder(w: Wallet, picked: seq<nat>, order: seq<nat>, evidence: seq<Evidence>, cfg: Config)
    requires OneLive(w.rows) && Distinct(picked) && multiset(order) == multiset(picked)
    requires Within(picked, |evidence|)
    ensures Within(order, |evidence|)
    ensures VisitAll(w, order, evidence, cfg) == VisitAll(w, picked, evidence, cfg)
    decreases |picked|
  {
    SameElements(picked, order, |evidence|);
    if picked == [] {
      assert |order| == |multiset(order)| == |multiset(picked)|;
    } else {
      var front, x := picked[..|picked| - 1], picked[|picked| - 1];
      var before, after := SplitAt(picked, order);
      WithinParts(before + [x], after, |evidence|);
      WithinParts(before, [x], |evidence|);
      WithinParts(before, after, |evidence|);
      AnyOrder(w, front, before + after, evidence, cfg);
      ToTheEnd(w, before, x, after, evidence, cfg);
      LastVisit(w, before + after, x, evidence, cfg);
    }
  }

  /** Whatever order the picked visits go through in, `t` comes of it. */
  ghost predicate ComesOfAnyOrder(w: Wallet, picked: seq<nat>, evidence: seq<Evidence>, t: Wallet, cfg: Config)
    requires Within(picked, |evidence|)
  {
    forall order: seq<nat> | multiset(order) == multiset(picked) :: IsVisited(w, order, evidence, t, cfg)
  }

  ghost predicate IsVisited(w: Wallet, order: seq<nat>, evidence: seq<Evidence>, t: Wallet, cfg: Config) {
    Within(order, |evidence|) && t == Exec(w, VisitsOf(order, evidence), cfg)
  }

  lemma {:induction false} RoundInAnyOrder(w: Wallet, picked: seq<nat>, evidence: seq<Evidence>, cfg: Config)
    requires OneLive(w.rows) && IsBatch(w.rows, picked) && |evidence| == |w.rows|
    ensures ComesOfAnyOrder(w, picked, evidence, Exec(w, VisitsOf(picked, evidence), cfg), cfg)
  {
    var t := Exec(w, VisitsOf(picked, evidence), cfg);
    forall order: seq<nat> | multiset(order) == multiset(picked) ensures IsVisited(w, order, evidence, t, cfg) {
      AnyOrder(w, picked, order, evidence, cfg);
      VisitAllExec(w, order, evidence, cfg);
      VisitAllExec(w, picked, evidence, cfg);
    }
  }
}
