/** One read repairs any stored list for good, and an accepted save is read back as it was sent. */
module SidebarTheorems {
  import opened Tables
  import opened SidebarModel

  // ---- What valid means ----

  /** A row the editor may store for its item. */
  predicate Fits(r: Raw) {
    && r.Row? && r.id.Exact? && r.visible.Some? && r.sortOrder.Some?
    && r.section == Some(SectionOf(r.id.item))
    && (r.parent == Null || (r.parent == Group && NestedByDefault(r.id.item)))
  }

  /** Exactly one fitting row for every item of the registry. */
  ghost predicate WellFormed(rows: seq<Raw>) {
    && (forall i | 0 <= i < |rows| :: Fits(rows[i]))
    && (forall i, j | 0 <= i < j < |rows| :: rows[i].id != rows[j].id)
    && (forall item :: Present(rows, item))
  }

  lemma {:induction false} FitsExactly(r: Raw)
    ensures RowError(r).None? <==> Fits(r)
  {
  }

  /** The place of an item among the defaults. */
  function Place(item: Item): (k: nat)
    ensures k < ITEMS && DefaultAt(k).0 == item
  {
    match item
    case Dashboard => 0 case PowerStats => 1 case Machines => 2 case Shop => 3 case Offers => 4 case Wallet => 5
    case Support => 6 case Checkin => 7 case MiniPass => 8 case DailyTasks => 9 case RewardsGroup => 10
    case InternalOfferwall => 11 case Faucet => 12 case Shortlinks => 13 case AutoMining => 14 case Youtube => 15
    case ReadEarn => 16 case Games => 17 case HashSprint => 18 case Calculator => 19 case Manual => 20
    case Ranking => 21 case Roadmap => 22 case Transparency => 23
  }

  lemma {:induction false} PlaceOfDefault(k: nat)
    requires k < ITEMS
    ensures Place(DefaultAt(k).0) == k
  {
  }

  /** Items of the first `n` default rows. */
  function ItemsUpTo(n: nat): (s: set<Item>)
    requires n <= ITEMS
    ensures |s| == n && forall item :: item in s <==> Place(item) < n
  {
    if n == 0 then {}
    else
      PlaceOfDefault(n - 1);
      ItemsUpTo(n - 1) + {DefaultAt(n - 1).0}
  }

  lemma {:induction false} AllItems() returns (all: set<Item>)
    ensures |all| == ITEMS && forall item: Item :: item in all
  {
    all := ItemsUpTo(ITEMS);
  }

  /** A set with as many items as the registry has them all. */
  lemma {:induction false} EveryItem(s: set<Item>)
    ensures |s| == ITEMS <==> forall item: Item :: item in s
  {
    var all := AllItems();
    assert s <= all;
    if forall item: Item :: item in s {
      assert s == all;
    }
    if |s| == ITEMS {
      assert |all - s| == 0;
      assert all == s;
    }
  }

  lemma {:induction false} SeenItems(rows: seq<Raw>, n: nat)
    requires n <= |rows| && forall i | 0 <= i < n :: Fits(rows[i])
    ensures forall i | 0 <= i < n :: RowError(rows[i]).None?
    ensures forall item :: item in Seen(rows, n) <==> exists i :: 0 <= i < n && Names(rows[i], item)
  {
    if n > 0 {
      SeenItems(rows, n - 1);
    }
  }

  /** A prefix without errors: every row fits and no item comes twice. */
  lemma {:induction false} NoFirstError(rows: seq<Raw>, n: nat)
    requires n <= |rows| && (forall i | 0 <= i < n :: Fits(rows[i]))
    ensures forall i | 0 <= i < n :: RowError(rows[i]).None?
    ensures FirstError(rows, n).None? <==>
              (forall i | n <= i < |rows| :: Fits(rows[i]))
              && (forall i, j | 0 <= i < j < |rows| && n <= j :: rows[i].Row? && rows[j].Row? ==>
                    rows[i].id != rows[j].id)
    decreases |rows| - n
  {
    if n < |rows| {
      FitsExactly(rows[n]);
      if Fits(rows[n]) {
        SeenItems(rows, n);
        NoFirstError(rows, n + 1);
      }
    }
  }

  lemma {:induction false} CompleteExactly(rows: seq<Raw>)
    requires forall i | 0 <= i < |rows| :: Fits(rows[i])
    ensures forall i | 0 <= i < |rows| :: RowError(rows[i]).None?
    ensures |Seen(rows, |rows|)| == ITEMS <==> forall item :: Present(rows, item)
  {
    SeenItems(rows, |rows|);
    EveryItem(Seen(rows, |rows|));
    forall item: Item ensures Present(rows, item) <==> item in Seen(rows, |rows|) {
    }
  }

  /** Validation accepts exactly the well-formed lists, so its last check can never fail. */
  lemma {:induction false} ValidExactly(rows: seq<Raw>)
    ensures Validate(rows).None? <==> WellFormed(rows)
    ensures Validate(rows) != Some(RewardsGroupRequired)
  {
    NoFirstError(rows, 0);
    if FirstError(rows, 0).None? { CompleteExactly(rows); }
  }

  // ---- Repair and merge ----

  lemma {:induction false} UnlockKeepsFitting(r: Raw)
    requires Fits(r)
    ensures Unlock(r) == r
  {
  }

  lemma {:induction false} MergeOfComplete(rows: seq<Raw>, defaults: seq<(Item, int)>)
    requires forall item :: Present(rows, item)
    ensures MergedWith(rows, defaults) == rows
  {
    if defaults != [] { MergeOfComplete(rows, defaults[..|defaults| - 1]); }
  }

  /** The merge keeps the given rows in front and adds only default rows. */
  lemma {:induction false} MergeAdds(rows: seq<Raw>, defaults: seq<(Item, int)>)
    ensures var m := MergedWith(rows, defaults);
            && |rows| <= |m| && m[..|rows|] == rows
            && forall i | |rows| <= i < |m| :: exists d :: d in defaults && m[i] == DefaultRow(d)
  {
    if defaults != [] { MergeAdds(rows, defaults[..|defaults| - 1]); }
  }

  /** The offerwall's own row is under the rewards group. */
  ghost predicate OfferwallNested(rows: seq<Raw>) {
    forall i | 0 <= i < |rows| :: Nest(rows[i]) == rows[i]
  }

  lemma {:induction false} NestTwice(r: Raw)
    ensures Nest(Nest(r)) == Nest(r)
  {
  }

  lemma {:induction false} DefaultRowsNested(d: (Item, int))
    ensures Nest(DefaultRow(d)) == DefaultRow(d) && Fits(DefaultRow(d))
  {
  }

  lemma {:induction false} MergedNested(rows: seq<Raw>)
    ensures OfferwallNested(Merged(Repaired(rows)))
  {
    var repaired := Repaired(rows);
    var m := Merged(repaired);
    MergeAdds(repaired, Defaults());
    forall i | 0 <= i < |m| ensures Nest(m[i]) == m[i] {
      if i < |repaired| {
        assert m[i] == m[..|repaired|][i];
        NestTwice(Unlock(rows[i]));
      } else {
        var d :| d in Defaults() && m[i] == DefaultRow(d);
        DefaultRowsNested(d);
      }
    }
  }

  lemma {:induction false} DefaultsWellFormed()
    ensures WellFormed(DefaultRows()) && OfferwallNested(DefaultRows())
  {
    var rows := DefaultRows();
    forall i | 0 <= i < |rows| ensures Fits(rows[i]) && Nest(rows[i]) == rows[i] {
      DefaultRowsNested(DefaultAt(i));
    }
    forall i, j | 0 <= i < j < |rows| ensures rows[i].id != rows[j].id {
      PlaceOfDefault(i);
      PlaceOfDefault(j);
    }
    forall item: Item ensures Present(rows, item) {
      assert Names(rows[Place(item)], item);
    }
  }

  // ---- The fixed point ----

  /** A list that a read returns as it is, without a write. */
  ghost predicate Settled(rows: seq<Raw>) {
    WellFormed(rows) && OfferwallNested(rows)
  }

  lemma {:induction false} RepairedSettled(rows: seq<Raw>)
    requires Settled(rows)
    ensures Repaired(rows) == rows && Merged(rows) == rows && Validate(rows).None?
  {
    forall i | 0 <= i < |rows| ensures Unlock(rows[i]) == rows[i] && Nest(rows[i]) == rows[i] {
      UnlockKeepsFitting(rows[i]);
    }
    assert UnlockAll(rows) == rows && NestAll(rows) == rows;
    MergeOfComplete(rows, Defaults());
    ValidExactly(rows);
  }

  /** A read leaves a stored list unwritten and unchanged exactly when it is settled. */
  lemma {:induction false} ReadUnchangedExactly(rows: seq<Raw>)
    ensures Get(Some(List(rows))) == Read(Some(List(rows)), rows, 0) <==> Settled(rows)
  {
    if Settled(rows) {
      RepairedSettled(rows);
    } else if Get(Some(List(rows))) == Read(Some(List(rows)), rows, 0) {
      assert Repaired(rows) == rows && Merged(rows) == rows;
      ValidExactly(rows);
      MergedNested(rows);
      assert false;
    }
  }

  lemma {:induction false} ReadIsSettled(stored: Option<Stored>)
    ensures Settled(Get(stored).rows)
  {
    var merged := Merged(Repaired(RawOf(stored)));
    assert Get(stored).rows == if Validate(merged).Some? then DefaultRows() else merged;
    if Validate(merged).Some? {
      DefaultsWellFormed();
    } else {
      MergedNested(RawOf(stored));
      ValidExactly(merged);
    }
  }

  lemma {:induction false} ReadIsStored(stored: Option<Stored>)
    ensures Get(stored).stored == Some(List(Get(stored).rows))
  {
    var raw := RawOf(stored);
    var merged := Merged(Repaired(raw));
    if Validate(merged).None? && Repaired(raw) == raw && merged == raw {
      if stored == Some(NotAList) { NothingStored(); }
      assert stored.None? || stored == Some(List(raw));
    }
  }

  /** Whatever is stored, one read returns and stores a settled list, and the next read changes nothing. */
  lemma {:induction false} ReadSettles(stored: Option<Stored>)
    ensures var r := Get(stored);
            && Settled(r.rows) && r.stored == Some(List(r.rows))
            && Get(r.stored) == Read(r.stored, r.rows, 0)
  {
    ReadIsSettled(stored);
    ReadIsStored(stored);
    ReadUnchangedExactly(Get(stored).rows);
  }

  /** Without a list to start from, the merge has something to add. */
  lemma {:induction false} NothingStored()
    ensures Repaired([]) == [] && Merged([]) != []
  {
    MergeIntoNothing(Defaults());
  }

  lemma {:induction false} MergeIntoNothing(defaults: seq<(Item, int)>)
    ensures |MergedWith([], defaults)| == |defaults|
  {
    if defaults != [] { MergeIntoNothing(defaults[..|defaults| - 1]); }
  }

  /** An accepted save is read back exactly as it was accepted, without a write; a refused one stores nothing. */
  lemma {:induction false} SaveReadsBack(stored: Option<Stored>, body: Stored)
    ensures match Save(body)
            case Accepted(rows) => Settled(rows) && Get(StoredAfter(stored, body)) == Read(Some(List(rows)), rows, 0)
            case Refused(code) => StoredAfter(stored, body) == stored
  {
    var raw := if body.List? then body.rows else [];
    var rows := Repaired(raw);
    ValidExactly(rows);
    if Validate(rows).None? {
      forall i | 0 <= i < |rows| ensures Nest(rows[i]) == rows[i] {
        NestTwice(Unlock(raw[i]));
      }
      ReadUnchangedExactly(rows);
    }
  }

  /** A settled list sent to be saved is accepted and stored as it is. */
  lemma {:induction false} SettledIsAccepted(rows: seq<Raw>)
    requires Settled(rows)
    ensures Save(List(rows)) == Accepted(rows)
  {
    RepairedSettled(rows);
  }

  // ---- Valid lists with the offerwall at the root ----

  lemma {:induction false} SameIdsWellFormed(rows: seq<Raw>, others: seq<Raw>)
    requires WellFormed(others) && |rows| == |others|
    requires forall i | 0 <= i < |rows| :: Fits(rows[i]) && rows[i].id == others[i].id
    ensures WellFormed(rows)
  {
    forall item: Item ensures Present(rows, item) {
      assert Present(others, item);
      var i :| 0 <= i < |others| && Names(others[i], item);
      assert Names(rows[i], item);
    }
  }

  lemma {:induction false} NestKeepsWellFormed(rows: seq<Raw>)
    requires WellFormed(rows)
    ensures WellFormed(NestAll(rows)) && OfferwallNested(NestAll(rows))
    ensures NestAll(rows) == rows <==> OfferwallNested(rows)
  {
    var nested := NestAll(rows);
    forall i | 0 <= i < |rows|
      ensures Fits(nested[i]) && nested[i].id == rows[i].id && Nest(nested[i]) == nested[i]
    {
      assert Fits(rows[i]);
      NestTwice(rows[i]);
    }
    SameIdsWellFormed(nested, rows);
    if OfferwallNested(rows) { assert nested == rows; }
  }

  /**
   * A list that validation accepts is read, and saved, with nothing but the offerwall moved into its group, and
   * the read writes once exactly when it has to move it.
   */
  lemma {:induction false} ValidReadExactly(rows: seq<Raw>)
    requires Validate(rows).None?
    ensures Get(Some(List(rows))) ==
              Read(Some(List(NestAll(rows))), NestAll(rows), if OfferwallNested(rows) then 0 else 1)
    ensures Save(List(rows)) == Accepted(NestAll(rows))
  {
    ValidExactly(rows);
    NestKeepsWellFormed(rows);
    forall i | 0 <= i < |rows| ensures Unlock(rows[i]) == rows[i] {
      UnlockKeepsFitting(rows[i]);
    }
    assert UnlockAll(rows) == rows;
    RepairedSettled(NestAll(rows));
  }

  /** The default rows with the offerwall at the root of the earn section. */
  function RootOfferwall(): seq<Raw> {
    DefaultRows()[11 := Row(Exact(InternalOfferwall), Some(true), Some(125), Some(Earn), Null, 0)]
  }

  lemma {:induction false} RootOfferwallNests()
    ensures var rows, defaults := RootOfferwall(), DefaultRows();
            forall i | 0 <= i < |rows| :: Fits(rows[i]) && rows[i].id == defaults[i].id && Nest(rows[i]) == defaults[i]
  {
    var rows, defaults := RootOfferwall(), DefaultRows();
    assert DefaultAt(11) == (InternalOfferwall, 125);
    forall i | 0 <= i < |rows| ensures Fits(rows[i]) && rows[i].id == defaults[i].id && Nest(rows[i]) == defaults[i] {
      DefaultRowsNested(DefaultAt(i));
      assert defaults[i] == DefaultRow(DefaultAt(i));
      if i != 11 { assert rows[i] == defaults[i]; }
    }
  }

  lemma {:induction false} RootOfferwallWellFormed()
    ensures WellFormed(RootOfferwall())
    ensures NestAll(RootOfferwall()) == DefaultRows() && DefaultRows() != RootOfferwall()
  {
    DefaultsWellFormed();
    RootOfferwallNests();
    SameIdsWellFormed(RootOfferwall(), DefaultRows());
    assert RootOfferwall()[11].parent == Null && Nest(RootOfferwall()[11]).parent == Group;
  }

  lemma {:induction false} MovedByRead(rows: seq<Raw>, nested: seq<Raw>)
    requires WellFormed(rows) && NestAll(rows) == nested && nested != rows
    ensures Validate(rows).None?
    ensures var r := Get(Some(List(rows)));
            r.rows == nested && r.rows != rows && r.writes == 1
  {
    ValidExactly(rows);
    NestKeepsWellFormed(rows);
    ValidReadExactly(rows);
  }

  /** Validation accepts these rows as they are; a read moves the offerwall. */
  lemma {:induction false} RootOfferwallMoves()
    ensures Validate(RootOfferwall()).None?
    ensures var r := Get(Some(List(RootOfferwall())));
            r.rows == DefaultRows() && r.rows != RootOfferwall() && r.writes == 1
  {
    RootOfferwallWellFormed();
    MovedByRead(RootOfferwall(), DefaultRows());
  }
}
