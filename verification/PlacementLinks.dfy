/** Owned rows: each move of a machine between tables keeps links unique and owned rows in step. */
module PlacementLinks {
  import opened Tables
  import opened PlacementModel
  import opened PlacementInvariants

  /** An owned row that no row links to. */
  ghost predicate Orphan(s: Store, o: nat) {
    o in s.owned.rows && forall c: Child | Live(s, c) :: Link(s, c) != Some(o)
  }

  ghost predicate SameOrphans(s: Store, t: Store) {
    forall o: nat :: Orphan(t, o) <==> Orphan(s, o)
  }

  /** `d` is the same row in both stores. */
  ghost predicate Same(s: Store, t: Store, d: Child) {
    && (Live(s, d) <==> Live(t, d))
    && (Live(s, d) ==> Link(s, d) == Link(t, d) && Snapshot(s, d) == Snapshot(t, d))
  }

  /** One child leaves and another takes over its owned row, or a new one if it had none. */
  lemma {:induction false} Handover(s: Store, t: Store, leaving: Child, entering: Child, link: nat)
    requires LinksOk(s) && s.owned.Fresh()
    requires leaving != entering && Live(s, leaving) && !Live(t, leaving)
    requires !Live(s, entering) && Live(t, entering)
    requires forall d: Child | d != leaving && d != entering :: Same(s, t, d)
    requires Link(t, entering) == Some(link)
    requires link == if Link(s, leaving).Some? then Link(s, leaving).value else s.owned.next
    requires t.owned.rows == s.owned.rows[link := Snapshot(t, entering)]
    ensures LinksOk(t) && SameOrphans(s, t)
  {
    HandoverOrphans(s, t, leaving, entering, link);
    forall c: Child | Live(t, c) && Link(t, c).Some?
      ensures Link(t, c).value in t.owned.rows && t.owned.rows[Link(t, c).value] == Snapshot(t, c)
    {
      if c != entering {
        assert Same(s, t, c);
        assert Live(s, c) && Link(s, c).Some?;
      }
    }
    forall c: Child, d: Child | Live(t, c) && Live(t, d) && Link(t, c).Some? && Link(t, c) == Link(t, d)
      ensures c == d
    {
      assert c != entering ==> Same(s, t, c) && Live(s, c);
      assert d != entering ==> Same(s, t, d) && Live(s, d);
    }
  }

  lemma {:induction false} HandoverOrphans(s: Store, t: Store, leaving: Child, entering: Child, link: nat)
    requires LinksOk(s) && s.owned.Fresh()
    requires leaving != entering && Live(s, leaving) && !Live(t, leaving)
    requires !Live(s, entering) && Live(t, entering)
    requires forall d: Child | d != leaving && d != entering :: Same(s, t, d)
    requires Link(t, entering) == Some(link)
    requires link == if Link(s, leaving).Some? then Link(s, leaving).value else s.owned.next
    requires t.owned.rows == s.owned.rows[link := Snapshot(t, entering)]
    ensures SameOrphans(s, t)
  {
    forall o: nat ensures Orphan(t, o) <==> Orphan(s, o) {
      if Orphan(s, o) {
        forall c: Child | Live(t, c) ensures Link(t, c) != Some(o) {
          if c != entering { assert Same(s, t, c); }
        }
      }
      if Orphan(t, o) {
        forall c: Child | Live(s, c) ensures Link(s, c) != Some(o) {
          if c != leaving { assert Same(s, t, c); }
        }
      }
    }
  }

  /** A child with a new owned row of its own enters. */
  lemma {:induction false} Newcomer(s: Store, t: Store, entering: Child)
    requires LinksOk(s) && s.owned.Fresh()
    requires !Live(s, entering) && Live(t, entering)
    requires forall d: Child | d != entering :: Same(s, t, d)
    requires Link(t, entering) == Some(s.owned.next)
    requires t.owned.rows == s.owned.rows[s.owned.next := Snapshot(t, entering)]
    ensures LinksOk(t) && SameOrphans(s, t)
  {
    NewcomerOrphans(s, t, entering);
    forall c: Child | Live(t, c) && Link(t, c).Some?
      ensures Link(t, c).value in t.owned.rows && t.owned.rows[Link(t, c).value] == Snapshot(t, c)
    {
      assert c != entering ==> Same(s, t, c) && Live(s, c);
    }
    forall c: Child, d: Child | Live(t, c) && Live(t, d) && Link(t, c).Some? && Link(t, c) == Link(t, d)
      ensures c == d
    {
      assert c != entering ==> Same(s, t, c) && Live(s, c);
      assert d != entering ==> Same(s, t, d) && Live(s, d);
    }
  }

  lemma {:induction false} NewcomerOrphans(s: Store, t: Store, entering: Child)
    requires LinksOk(s) && s.owned.Fresh()
    requires !Live(s, entering) && Live(t, entering)
    requires forall d: Child | d != entering :: Same(s, t, d)
    requires Link(t, entering) == Some(s.owned.next)
    requires t.owned.rows == s.owned.rows[s.owned.next := Snapshot(t, entering)]
    ensures SameOrphans(s, t)
  {
    forall o: nat ensures Orphan(t, o) <==> Orphan(s, o) {
      if Orphan(s, o) {
        forall c: Child | Live(t, c) ensures Link(t, c) != Some(o) {
          if c != entering { assert Same(s, t, c); }
        }
      }
      if Orphan(t, o) {
        forall c: Child | Live(s, c) ensures Link(s, c) != Some(o) {
          assert Same(s, t, c);
        }
      }
    }
  }

  /** A child leaves; its owned row may go with it. */
  lemma {:induction false} Departure(s: Store, t: Store, leaving: Child)
    requires LinksOk(s) && Live(s, leaving) && !Live(t, leaving)
    requires forall d: Child | d != leaving :: Same(s, t, d)
    requires t.owned.rows == s.owned.rows ||
              (Link(s, leaving).Some? && t.owned.rows == s.owned.rows - {Link(s, leaving).value})
    ensures LinksOk(t)
  {
    forall c: Child | Live(t, c) && Link(t, c).Some?
      ensures Link(t, c).value in t.owned.rows && t.owned.rows[Link(t, c).value] == Snapshot(t, c)
    {
      assert Same(s, t, c) && Live(s, c);
    }
    forall c: Child, d: Child | Live(t, c) && Live(t, d) && Link(t, c).Some? && Link(t, c) == Link(t, d)
      ensures c == d
    {
      assert Same(s, t, c) && Live(s, c) && Same(s, t, d) && Live(s, d);
    }
  }

  /** What a leaving child links to is orphaned, unless it is deleted. */
  lemma {:induction false} DepartureOrphans(s: Store, t: Store, leaving: Child, o: nat)
    requires LinksOk(s) && Live(s, leaving) && !Live(t, leaving)
    requires forall d: Child | d != leaving :: Same(s, t, d)
    requires t.owned.rows == s.owned.rows ||
              (Link(s, leaving).Some? && t.owned.rows == s.owned.rows - {Link(s, leaving).value})
    ensures Orphan(t, o) <==> o in t.owned.rows && (Orphan(s, o) || Link(s, leaving) == Some(o))
  {
    if Orphan(s, o) && o in t.owned.rows {
      forall c: Child | Live(t, c) ensures Link(t, c) != Some(o) {
        assert Same(s, t, c);
      }
    }
    if Link(s, leaving) == Some(o) {
      forall c: Child | Live(t, c) ensures Link(t, c) != Some(o) {
        assert Same(s, t, c) && Live(s, c);
      }
    }
    if Orphan(t, o) && Link(s, leaving) != Some(o) {
      forall c: Child | Live(s, c) ensures Link(s, c) != Some(o) {
        if c != leaving { assert Same(s, t, c); }
      }
    }
  }

  /** A change of slot or of racks is no change to the links. */
  lemma {:induction false} Unlinked(s: Store, t: Store)
    requires LinksOk(s) && t.owned.rows == s.owned.rows
    requires forall d: Child :: Same(s, t, d)
    ensures LinksOk(t) && SameOrphans(s, t)
  {
    UnlinkedOrphans(s, t);
    forall c: Child | Live(t, c) && Link(t, c).Some?
      ensures Link(t, c).value in t.owned.rows && t.owned.rows[Link(t, c).value] == Snapshot(t, c)
    {
      assert Same(s, t, c) && Live(s, c);
    }
    forall c: Child, d: Child | Live(t, c) && Live(t, d) && Link(t, c).Some? && Link(t, c) == Link(t, d)
      ensures c == d
    {
      assert Same(s, t, c) && Live(s, c) && Same(s, t, d) && Live(s, d);
    }
  }

  lemma {:induction false} UnlinkedOrphans(s: Store, t: Store)
    requires t.owned.rows == s.owned.rows && forall d: Child :: Same(s, t, d)
    ensures SameOrphans(s, t)
  {
    forall o: nat ensures Orphan(t, o) <==> Orphan(s, o) {
      if Orphan(s, o) {
        forall c: Child | Live(t, c) ensures Link(t, c) != Some(o) {
          assert Same(s, t, c);
        }
      }
      if Orphan(t, o) {
        forall c: Child | Live(s, c) ensures Link(s, c) != Some(o) {
          assert Same(s, t, c);
        }
      }
    }
  }
}
