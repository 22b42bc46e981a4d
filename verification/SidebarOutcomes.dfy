/** What the editor of the sidebar and its readers get: repaired rows, the error told, the tree shown. */
module SidebarOutcomes {
  import opened Tables
  import opened SidebarModel
  import opened SidebarTheorems
  import opened SidebarTree
  import opened SidebarPaths

  // ---- Repair ----

  /** The row is used as the row of one of the four items that stay at the root. */
  predicate MustBeRoot(r: Raw) {
    r.Row? && (r.id.Exact? || r.id.Keyed?) && r.id.item in {Checkin, MiniPass, DailyTasks, RewardsGroup}
  }

  /** The row the repair makes of a row: the four root items go to the root, the offerwall into its group. */
  function RepairOf(r: Raw): Raw {
    if MustBeRoot(r) && r.parent in {Group, Other} then Row(r.id, r.visible, r.sortOrder, r.section, Null, r.extra)
    else if r.Row? && r.id == Exact(InternalOfferwall) && r.parent != Group
    then Row(r.id, r.visible, r.sortOrder, Some(Earn), Group, r.extra)
    else r
  }

  ghost predicate RepairedTo(rows: seq<Raw>, t: seq<Raw>) {
    |t| == |rows| && forall i | 0 <= i < |rows| :: t[i] == RepairOf(rows[i])
  }

  lemma {:induction false} RepairOutcome(rows: seq<Raw>)
    ensures RepairedTo(rows, Repaired(rows))
  {
    forall i | 0 <= i < |rows| ensures Repaired(rows)[i] == RepairOf(rows[i]) {
      assert Repaired(rows)[i] == Nest(Unlock(rows[i]));
    }
  }

  // ---- Merge ----

  /** The default rows at these places. */
  function RowsAt(places: seq<nat>): seq<Raw>
    requires forall i | 0 <= i < |places| :: places[i] < ITEMS
  {
    seq(|places|, i requires 0 <= i < |places| =>
      var (item, order) := DefaultAt(places[i]);
      Row(Exact(item), Some(true), Some(order), Some(SectionOf(item)),
          if NestedByDefault(item) then Group else Null, 0))
  }

  /** The places below `n` of the items no row names, in their order. */
  ghost predicate MissingPlaces(rows: seq<Raw>, n: nat, places: seq<nat>)
    requires n <= ITEMS
  {
    && (forall i | 0 <= i < |places| :: places[i] < n)
    && (forall i, j | 0 <= i < j < |places| :: places[i] < places[j])
    && (forall k: nat | k < n :: k in places <==> !Present(rows, DefaultAt(k).0))
  }

  lemma {:induction false} OnePlaceMore(rows: seq<Raw>, n: nat, before: seq<nat>) returns (places: seq<nat>)
    requires n < ITEMS && MissingPlaces(rows, n, before)
    ensures MissingPlaces(rows, n + 1, places)
    ensures RowsAt(places) ==
              RowsAt(before) + if Present(rows, DefaultAt(n).0) then [] else [DefaultRow(DefaultAt(n))]
  {
    places := if Present(rows, DefaultAt(n).0) then before else before + [n];
    assert forall k :: k in places <==> k in before || (k == n && !Present(rows, DefaultAt(n).0));
  }

  lemma {:induction false} MergedUpTo(rows: seq<Raw>, n: nat) returns (places: seq<nat>)
    requires n <= ITEMS
    ensures MissingPlaces(rows, n, places)
    ensures MergedWith(rows, Defaults()[..n]) == rows + RowsAt(places)
  {
    if n == 0 {
      places := [];
    } else {
      var before := MergedUpTo(rows, n - 1);
      places := OnePlaceMore(rows, n - 1, before);
      assert Defaults()[..n][..n - 1] == Defaults()[..n - 1];
    }
  }

  /** The merge appends the default rows of exactly the missing items, in the registry's order. */
  lemma {:induction false} MergeOutcome(rows: seq<Raw>) returns (places: seq<nat>)
    ensures MissingPlaces(rows, ITEMS, places) && Merged(rows) == rows + RowsAt(places)
  {
    places := MergedUpTo(rows, ITEMS);
    assert Defaults()[..ITEMS] == Defaults();
  }

  // ---- Reading ----

  /** Every row fits and no item has two. */
  ghost predicate Sound(rows: seq<Raw>) {
    && (forall i | 0 <= i < |rows| :: Fits(rows[i]))
    && (forall i, j | 0 <= i < j < |rows| :: rows[i].id != rows[j].id)
  }

  lemma {:induction false} AddedFit(places: seq<nat>)
    requires forall i | 0 <= i < |places| :: places[i] < ITEMS
    requires forall i, j | 0 <= i < j < |places| :: places[i] < places[j]
    ensures forall i | 0 <= i < |places| :: Fits(RowsAt(places)[i]) && Names(RowsAt(places)[i], DefaultAt(places[i]).0)
    ensures forall i, j | 0 <= i < j < |places| :: RowsAt(places)[i].id != RowsAt(places)[j].id
  {
    forall i | 0 <= i < |places| ensures Place(DefaultAt(places[i]).0) == places[i] {
      PlaceOfDefault(places[i]);
    }
  }

  lemma {:induction false} AllPresent(rows: seq<Raw>, places: seq<nat>)
    requires MissingPlaces(rows, ITEMS, places)
    ensures forall item :: Present(rows + RowsAt(places), item)
  {
    var all := rows + RowsAt(places);
    AddedFit(places);
    forall item: Item ensures Present(all, item) {
      if Present(rows, item) {
        var i :| 0 <= i < |rows| && Names(rows[i], item);
        assert Names(all[i], item);
      } else {
        assert Place(item) in places;
        var i :| 0 <= i < |places| && places[i] == Place(item);
        assert Names(all[|rows| + i], item);
      }
    }
  }

  lemma {:induction false} SoundMerge(rows: seq<Raw>, places: seq<nat>)
    requires MissingPlaces(rows, ITEMS, places)
    ensures WellFormed(rows + RowsAt(places)) <==> Sound(rows)
  {
    var all, added := rows + RowsAt(places), RowsAt(places);
    AddedFit(places);
    AllPresent(rows, places);
    if Sound(rows) {
      forall i, j | 0 <= i < j < |all| ensures all[i].id != all[j].id {
        if i < |rows| <= j {
          assert Names(added[j - |rows|], DefaultAt(places[j - |rows|]).0);
          assert places[j - |rows|] in places;
          assert !Names(rows[i], DefaultAt(places[j - |rows|]).0);
        }
      }
    } else if WellFormed(all) {
      assert forall i | 0 <= i < |rows| :: all[i] == rows[i];
      assert false;
    }
  }

  /**
   * A read gives the repaired rows with the missing items' default rows behind them, unless a row does not fit or
   * an item has two: then it gives the default rows. It writes once for each of: no row yet, a repair, something
   * missing, and the fallback.
   */
  lemma {:induction false} ReadOutcome(stored: Option<Stored>, rows: seq<Raw>) returns (places: seq<nat>)
    requires RepairedTo(RawOf(stored), rows)
    ensures MissingPlaces(rows, ITEMS, places)
    ensures var r := Get(stored);
            && r.rows == (if Sound(rows) then rows + RowsAt(places) else RowsAt(seq(ITEMS, i => i)))
            && r.stored == Some(List(r.rows))
            && r.writes == (if stored.None? then 1 else 0) + (if rows == RawOf(stored) then 0 else 1)
                           + (if places == [] then 0 else 1) + (if Sound(rows) then 0 else 1)
  {
    RepairOutcome(RawOf(stored));
    assert rows == Repaired(RawOf(stored));
    places := MergeOutcome(rows);
    SoundMerge(rows, places);
    ValidExactly(Merged(rows));
    ReadIsStored(stored);
    assert RowsAt(seq(ITEMS, i => i)) == DefaultRows();
  }

  // ---- Errors ----

  /** What is wrong with a single row: the checks in the order in which they are made. */
  ghost predicate Wrong(r: Raw, code: Code) {
    match code
    case InvalidEntryShape => r == NotAnObject
    case UnknownItemId => r.Row? && !r.id.Exact?
    case InvalidVisible => Known(r) && r.visible == None
    case InvalidSortOrder => Known(r) && r.sortOrder == None
    case InvalidSection => Known(r) && r.section == None
    case InvalidParent => Known(r) && r.parent in {Absent, Other}
    case SectionMismatch => Known(r) && r.section != Some(SectionOf(r.id.item))
    case LockedParent => Known(r) && MustBeRoot(r) && r.parent != Null
    case MainSocialParentMustBeNull => Known(r) && SectionOf(r.id.item) != Earn && r.parent != Null
    case CannotNestItem => Known(r) && SectionOf(r.id.item) == Earn && !NestedByDefault(r.id.item) && r.parent != Null
    case _ => false
  }

  predicate Known(r: Raw) {
    r.Row? && r.id.Exact?
  }

  /** The codes of single rows in the order of their checks. */
  function Order(code: Code): nat {
    match code
    case InvalidEntryShape => 0 case UnknownItemId => 1 case InvalidVisible => 2 case InvalidSortOrder => 3
    case InvalidSection => 4 case InvalidParent => 5 case SectionMismatch => 6 case LockedParent => 7
    case MainSocialParentMustBeNull => 8 case CannotNestItem => 9 case GroupMustBeRoot => 10
    case DuplicateItemId => 11 case IncompleteItemSet => 12 case RewardsGroupRequired => 13
  }

  /** This is wrong with the row, and nothing that is checked before it. */
  ghost predicate FirstWrong(r: Raw, code: Code) {
    Wrong(r, code) && forall other | Wrong(r, other) :: Order(code) <= Order(other)
  }

  lemma {:induction false} RowErrorExactly(r: Raw, code: Code)
    ensures RowError(r) == Some(code) <==> FirstWrong(r, code)
  {
    if RowError(r) == Some(code) {
      assert Wrong(r, code);
    } else if FirstWrong(r, code) {
      if RowError(r).Some? { assert Wrong(r, RowError(r).value); }
      assert false;
    }
  }

  /** Row `i` is the first at fault: its own first fault, or an item of an earlier row again. */
  ghost predicate FaultAt(rows: seq<Raw>, i: nat, code: Code)
    requires i < |rows|
  {
    if Fits(rows[i]) then code == DuplicateItemId && exists j :: 0 <= j < i && rows[j].Row? && rows[j].id == rows[i].id
    else FirstWrong(rows[i], code)
  }

  ghost predicate FirstFault(rows: seq<Raw>, n: nat, i: nat, code: Code)
    requires n <= i < |rows|
  {
    FaultAt(rows, i, code) && forall j, other | n <= j < i :: !FaultAt(rows, j, other)
  }

  lemma {:induction false} FaultAtExactly(rows: seq<Raw>, n: nat, code: Code)
    requires n < |rows| && forall i | 0 <= i < n :: Fits(rows[i])
    ensures forall i | 0 <= i < n :: RowError(rows[i]).None?
    ensures FaultAt(rows, n, code) <==>
              (if RowError(rows[n]).Some? then RowError(rows[n]) == Some(code)
               else code == DuplicateItemId && rows[n].id.item in Seen(rows, n))
  {
    FitsExactly(rows[n]);
    RowErrorExactly(rows[n], code);
    SeenItems(rows, n);
  }

  ghost predicate HasFirstFault(rows: seq<Raw>, n: nat, code: Code)
    requires n <= |rows|
  {
    exists i :: n <= i < |rows| && FirstFault(rows, n, i, code)
  }

  lemma {:induction false} FaultHere(rows: seq<Raw>, n: nat, c: Code, code: Code)
    requires n < |rows| && FaultAt(rows, n, c) && (FaultAt(rows, n, code) ==> code == c)
    ensures HasFirstFault(rows, n, code) <==> code == c
  {
    if code == c { assert FirstFault(rows, n, n, code); }
  }

  lemma {:induction false} FaultLater(rows: seq<Raw>, n: nat, code: Code)
    requires n < |rows| && forall c :: !FaultAt(rows, n, c)
    ensures HasFirstFault(rows, n, code) <==> HasFirstFault(rows, n + 1, code)
  {
    if HasFirstFault(rows, n + 1, code) {
      var i :| n + 1 <= i < |rows| && FirstFault(rows, n + 1, i, code);
      assert FirstFault(rows, n, i, code);
    }
    if HasFirstFault(rows, n, code) {
      var i :| n <= i < |rows| && FirstFault(rows, n, i, code);
      assert i != n;
      assert FirstFault(rows, n + 1, i, code);
    }
  }

  lemma {:induction false} FirstErrorExactly(rows: seq<Raw>, n: nat, code: Code)
    requires n <= |rows| && forall i | 0 <= i < n :: Fits(rows[i])
    ensures forall i | 0 <= i < n :: RowError(rows[i]).None?
    ensures FirstError(rows, n) == Some(code) <==> HasFirstFault(rows, n, code)
    decreases |rows| - n
  {
    SeenItems(rows, n);
    if n < |rows| {
      forall c: Code { FaultAtExactly(rows, n, c); }
      if RowError(rows[n]).Some? || rows[n].id.item in Seen(rows, n) {
        FaultHere(rows, n, FirstError(rows, n).value, code);
      } else {
        FitsExactly(rows[n]);
        FaultLater(rows, n, code);
        FirstErrorExactly(rows, n + 1, code);
      }
    }
  }

  /** The error told is that of the first row at fault, or else that an item is missing. */
  lemma {:induction false} ErrorOutcome(rows: seq<Raw>, code: Code)
    ensures Validate(rows) == Some(code) <==>
              || HasFirstFault(rows, 0, code)
              || (code == IncompleteItemSet && Sound(rows) && exists item :: !Present(rows, item))
  {
    FirstErrorExactly(rows, 0, code);
    NoFirstError(rows, 0);
    ValidExactly(rows);
    if FirstError(rows, 0).None? { CompleteExactly(rows); }
  }

  /** A save stores the repaired rows if nothing is wrong with them, and otherwise tells what is. */
  lemma {:induction false} SaveOutcome(stored: Option<Stored>, body: Stored, rows: seq<Raw>)
    requires RepairedTo(if body.List? then body.rows else [], rows)
    ensures WellFormed(rows) ==> Save(body) == Accepted(rows)
    ensures !WellFormed(rows) ==> Save(body).Refused? && Validate(rows) == Some(Save(body).code)
    ensures StoredAfter(stored, body) == if WellFormed(rows) then Some(List(rows)) else stored
  {
    RepairOutcome(if body.List? then body.rows else []);
    assert rows == Repaired(if body.List? then body.rows else []);
    ValidExactly(rows);
  }

  // ---- The tree ----

  /** `a` comes before `b` in the list. */
  ghost predicate Earlier(es: seq<Entry>, a: Entry, b: Entry) {
    exists i, j :: 0 <= i < j < |es| && es[i] == a && es[j] == b
  }

  ghost predicate SubOrder(es: seq<Entry>, fs: seq<Entry>) {
    forall i, j | 0 <= i < j < |fs| :: Earlier(es, fs[i], fs[j])
  }

  /** Less by sort order, and by place in the list among equals. */
  ghost predicate Ranks(es: seq<Entry>, a: Entry, b: Entry) {
    a.sortOrder < b.sortOrder || (a.sortOrder == b.sortOrder && Earlier(es, a, b))
  }

  ghost predicate Ranked(es: seq<Entry>, fs: seq<Entry>) {
    forall i, j | 0 <= i < j < |fs| :: Ranks(es, fs[i], fs[j])
  }

  lemma {:induction false} EarlierIn(es: seq<Entry>, more: seq<Entry>, a: Entry, b: Entry)
    requires Earlier(es, a, b)
    ensures Earlier(es + more, a, b)
  {
    var i, j :| 0 <= i < j < |es| && es[i] == a && es[j] == b;
    assert (es + more)[i] == a && (es + more)[j] == b;
  }

  /** Where an insertion puts its entry. */
  lemma {:induction false} InsertAt(e: Entry, es: seq<Entry>) returns (k: nat)
    ensures k <= |es| && Insert(e, es) == es[..k] + [e] + es[k..]
    ensures forall i | k <= i < |es| :: es[i].sortOrder > e.sortOrder
    ensures k > 0 ==> es[k - 1].sortOrder <= e.sortOrder
  {
    if es == [] || es[|es| - 1].sortOrder <= e.sortOrder {
      k := |es|;
    } else {
      var front := es[..|es| - 1];
      k := InsertAt(e, front);
      assert es[k..] == front[k..] + [es[|es| - 1]];
    }
  }

  lemma {:induction false} InsertRanks(es: seq<Entry>, e: Entry, sorted: seq<Entry>)
    requires Ranked(es, sorted) && forall x | x in sorted :: x in es
    ensures Ranked(es + [e], Insert(e, sorted))
    ensures forall x :: x in Insert(e, sorted) <==> x in sorted || x == e
  {
    var k := InsertAt(e, sorted);
    var all, t := es + [e], Insert(e, sorted);
    forall i, j | 0 <= i < j < |t| ensures Ranks(all, t[i], t[j]) {
      if i == k {
      } else if j == k {
        if k - 1 > i { assert Ranks(es, sorted[i], sorted[k - 1]); }
        assert sorted[i] in sorted;
        var p :| 0 <= p < |es| && es[p] == sorted[i];
        assert all[p] == t[i] && all[|es|] == t[j];
      } else {
        var a, b := if i < k then i else i - 1, if j < k then j else j - 1;
        assert Ranks(es, sorted[a], sorted[b]);
        if Earlier(es, t[i], t[j]) { EarlierIn(es, [e], t[i], t[j]); }
      }
    }
  }

  lemma {:induction false} SortRanks(es: seq<Entry>)
    ensures Ranked(es, Sort(es)) && forall x :: x in Sort(es) <==> x in es
  {
    if es != [] {
      var front, e := es[..|es| - 1], es[|es| - 1];
      SortRanks(front);
      InsertRanks(front, e, Sort(front));
      assert es == front + [e];
    }
  }

  /** `fs` holds the entries of `es` that are wanted, in their order. */
  ghost predicate Picks(es: seq<Entry>, fs: seq<Entry>, wanted: Entry -> bool) {
    SubOrder(es, fs) && forall x :: x in fs <==> x in es && wanted(x)
  }

  lemma {:induction false} PickOne(es: seq<Entry>, e: Entry, fs: seq<Entry>, wanted: Entry -> bool)
    requires Picks(es, fs, wanted)
    ensures Picks(es + [e], fs + if wanted(e) then [e] else [], wanted)
  {
    var all, t := es + [e], fs + if wanted(e) then [e] else [];
    forall i, j | 0 <= i < j < |t| ensures Earlier(all, t[i], t[j]) {
      if j < |fs| {
        assert Earlier(es, fs[i], fs[j]);
        EarlierIn(es, [e], fs[i], fs[j]);
      } else {
        assert fs[i] in fs;
        var p :| 0 <= p < |es| && es[p] == fs[i];
        assert all[p] == t[i] && all[|es|] == t[j];
      }
    }
  }

  function ShownRoot(section: Section): Entry -> bool {
    (e: Entry) => e.visible && !e.nested && SectionOf(e.item) == section
  }

  function ShownChild(groupShown: bool): Entry -> bool {
    (e: Entry) => e.visible && e.nested && groupShown
  }

  lemma {:induction false} ActiveOneMore(es: seq<Entry>, g: bool)
    requires es != []
    ensures var front, e := es[..|es| - 1], es[|es| - 1];
            && Active(es, g) == (if IsShown(e, g) then Active(front, g) + [e] else Active(front, g))
            && (Active(front, g) + [e])[..|Active(front, g)|] == Active(front, g)
  {
  }

  lemma {:induction false} RootsPicked(es: seq<Entry>, g: bool, section: Section)
    ensures Picks(es, RootsOf(Active(es, g), section), ShownRoot(section))
  {
    if es != [] {
      var front, e := es[..|es| - 1], es[|es| - 1];
      RootsPicked(front, g, section);
      PickOne(front, e, RootsOf(Active(front, g), section), ShownRoot(section));
      assert es == front + [e];
      ActiveOneMore(es, g);
      assert RootsOf(Active(es, g), section) ==
        RootsOf(Active(front, g), section) + if ShownRoot(section)(e) then [e] else [];
    }
  }

  lemma {:induction false} ChildrenPicked(es: seq<Entry>, g: bool)
    ensures Picks(es, NestedOf(Active(es, g)), ShownChild(g))
  {
    if es != [] {
      var front, e := es[..|es| - 1], es[|es| - 1];
      ChildrenPicked(front, g);
      PickOne(front, e, NestedOf(Active(front, g)), ShownChild(g));
      assert es == front + [e];
      ActiveOneMore(es, g);
      assert NestedOf(Active(es, g)) == NestedOf(Active(front, g)) + if ShownChild(g)(e) then [e] else [];
    }
  }

  /** Item `x` has a row that is wanted. */
  ghost predicate HasRow(es: seq<Entry>, x: Item, wanted: Entry -> bool) {
    exists e :: e in es && e.item == x && wanted(e)
  }

  /** Item `x` is listed before item `y`: by sort order, and by place among equals. */
  ghost predicate ItemRanks(es: seq<Entry>, x: Item, y: Item) {
    exists a, b :: a in es && b in es && a.item == x && b.item == y && Ranks(es, a, b)
  }

  /** Exactly the items with a wanted row, in the order of their ranks. */
  ghost predicate Lists(es: seq<Entry>, items: seq<Item>, wanted: Entry -> bool) {
    && (forall x :: x in items <==> HasRow(es, x, wanted))
    && (forall i, j | 0 <= i < j < |items| :: ItemRanks(es, items[i], items[j]))
  }

  lemma {:induction false} RanksWithin(es: seq<Entry>, fs: seq<Entry>, a: Entry, b: Entry)
    requires SubOrder(es, fs) && Ranks(fs, a, b)
    ensures Ranks(es, a, b)
  {
    if a.sortOrder == b.sortOrder {
      var i, j :| 0 <= i < j < |fs| && fs[i] == a && fs[j] == b;
      assert Earlier(es, fs[i], fs[j]);
    }
  }

  lemma {:induction false} PickedListed(es: seq<Entry>, fs: seq<Entry>, wanted: Entry -> bool)
    requires Picks(es, fs, wanted)
    ensures Lists(es, ItemsOf(Sort(fs)), wanted)
  {
    var sorted, items := Sort(fs), ItemsOf(Sort(fs));
    SortRanks(fs);
    forall x ensures x in items <==> HasRow(es, x, wanted) {
      if x in items {
        var i :| 0 <= i < |sorted| && sorted[i].item == x;
        assert sorted[i] in sorted;
      }
      if HasRow(es, x, wanted) {
        var e :| e in es && e.item == x && wanted(e);
        assert e in sorted;
        var i :| 0 <= i < |sorted| && sorted[i] == e;
        assert items[i] == x;
      }
    }
    forall i, j | 0 <= i < j < |items| ensures ItemRanks(es, items[i], items[j]) {
      assert Ranks(fs, sorted[i], sorted[j]) && sorted[i] in sorted && sorted[j] in sorted;
      RanksWithin(es, fs, sorted[i], sorted[j]);
    }
  }

  /** The items of the nodes, from the top. */
  function TopItems(nodes: seq<Node>): seq<Item> {
    seq(|nodes|, i requires 0 <= i < |nodes| => nodes[i].item)
  }

  /** A category of this section: its shown root items ranked, the group alone holding the shown nested ones. */
  ghost predicate Shows(es: seq<Entry>, c: Category, section: Section) {
    && c.section == section && Lists(es, TopItems(c.nodes), ShownRoot(section))
    && (forall i | 0 <= i < |c.nodes| :: c.nodes[i].Folder? <==> c.nodes[i].item == RewardsGroup)
    && (forall i | 0 <= i < |c.nodes| && c.nodes[i].Folder? ::
          Lists(es, c.nodes[i].children, ShownChild(GroupRowVisible(es))))
  }

  lemma {:induction false} SectionShows(es: seq<Entry>, section: Section)
    requires GroupVisible(es) <==> GroupRowVisible(es)
    ensures Shows(es, Category(section, NodesForSection(Active(es, GroupVisible(es)), section)), section)
  {
    var active := Active(es, GroupVisible(es));
    var roots, children := RootsOf(active, section), NestedOf(active);
    RootsPicked(es, GroupVisible(es), section);
    PickedListed(es, roots, ShownRoot(section));
    ChildrenPicked(es, GroupVisible(es));
    PickedListed(es, children, ShownChild(GroupVisible(es)));
    assert TopItems(NodesForSection(active, section)) == ItemsOf(Sort(roots));
  }

  /**
   * The tree has the three sections in order, each with its visible root items by sort order, and the group holds
   * the visible nested items by sort order; rows of one sort order stay in the order of the list.
   */
  lemma {:induction false} TreeOutcome(rows: seq<Raw>)
    requires WellFormed(rows)
    ensures var es, tree := Typed(rows), Resolve(Typed(rows));
            && |tree| == 3 && Shows(es, tree[0], Main) && Shows(es, tree[1], Earn) && Shows(es, tree[2], Social)
  {
    TypedOneEach(rows);
    GroupVisibleExactly(Typed(rows));
    SectionShows(Typed(rows), Main);
    SectionShows(Typed(rows), Earn);
    SectionShows(Typed(rows), Social);
  }

  // ---- Paths ----

  lemma {:induction false} CutAt(s: string)
    ensures var b := BeforeQuery(s);
            '?' !in b && (s == b || exists q :: s == b + ['?'] + q)
  {
    if s != [] && s[0] != '?' {
      CutAt(s[1..]);
      var b := BeforeQuery(s[1..]);
      if s[1..] != b {
        var q :| s[1..] == b + ['?'] + q;
        assert s == BeforeQuery(s) + ['?'] + q;
      }
    } else if s != [] {
      assert s == [] + ['?'] + s[1..];
    }
  }

  /** The path is `base`, with a query or without. */
  ghost predicate HasBase(path: string, base: string) {
    path == base || exists q :: path == base + ['?'] + q
  }

  /** A path is taken for a registered one exactly if it is that path, or it with a slash, a query, or both. */
  lemma {:induction false} NormalizeOutcome(p: string, path: string)
    requires Plain(p)
    ensures Normalize(path) == p <==> HasBase(path, p) || HasBase(path, p + ['/'])
  {
    if Normalize(path) == p {
      var base := BeforeQuery(path);
      CutAt(path);
      assert HasBase(path, base);
      assert base == p || base == p + ['/'];
    }
    PlainNormalizes(p, []);
    if q :| path == p + ['?'] + q || path == p + ['/'] + ['?'] + q {
      PlainNormalizes(p, q);
    }
  }
}
