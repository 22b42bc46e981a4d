/** The resolved navigation tree, its visible paths, and the simple predicate they agree with. */
module SidebarTree {
  import opened Tables
  import opened SidebarModel
  import opened SidebarTheorems

  /** A validated row. */
  datatype Entry = Entry(item: Item, visible: bool, sortOrder: int, nested: bool)

  datatype Node = Leaf(item: Item) | Folder(item: Item, children: seq<Item>)

  datatype Category = Category(section: Section, nodes: seq<Node>)

  function Typed(rows: seq<Raw>): (es: seq<Entry>)
    requires WellFormed(rows)
    ensures |es| == |rows|
  {
    seq(|rows|, i requires 0 <= i < |rows| =>
      assert Fits(rows[i]);
      Entry(rows[i].id.item, rows[i].visible.value, rows[i].sortOrder.value, rows[i].parent == Group))
  }

  // ---- Building the tree ----

  /** The last row of the rewards group counts. */
  function GroupVisible(es: seq<Entry>): bool {
    if es == [] then false
    else if es[|es| - 1].item == RewardsGroup then es[|es| - 1].visible
    else GroupVisible(es[..|es| - 1])
  }

  predicate IsShown(e: Entry, groupVisible: bool) {
    e.visible && (e.nested ==> groupVisible)
  }

  function Active(es: seq<Entry>, groupVisible: bool): seq<Entry> {
    if es == [] then []
    else Active(es[..|es| - 1], groupVisible) + if IsShown(es[|es| - 1], groupVisible) then [es[|es| - 1]] else []
  }

  function RootsOf(es: seq<Entry>, section: Section): seq<Entry> {
    if es == [] then []
    else
      var e := es[|es| - 1];
      RootsOf(es[..|es| - 1], section) + if SectionOf(e.item) == section && !e.nested then [e] else []
  }

  function NestedOf(es: seq<Entry>): seq<Entry> {
    if es == [] then [] else NestedOf(es[..|es| - 1]) + if es[|es| - 1].nested then [es[|es| - 1]] else []
  }

  /** Puts `e` behind every entry that does not sort after it. */
  function Insert(e: Entry, es: seq<Entry>): seq<Entry> {
    if es == [] || es[|es| - 1].sortOrder <= e.sortOrder then es + [e]
    else Insert(e, es[..|es| - 1]) + [es[|es| - 1]]
  }

  function Sort(es: seq<Entry>): seq<Entry> {
    if es == [] then [] else Insert(es[|es| - 1], Sort(es[..|es| - 1]))
  }

  function ItemsOf(es: seq<Entry>): seq<Item> {
    seq(|es|, i requires 0 <= i < |es| => es[i].item)
  }

  function NodesOf(roots: seq<Entry>, children: seq<Item>): seq<Node> {
    seq(|roots|, i requires 0 <= i < |roots| =>
      if roots[i].item == RewardsGroup then Folder(RewardsGroup, children) else Leaf(roots[i].item))
  }

  function NodesForSection(active: seq<Entry>, section: Section): seq<Node> {
    NodesOf(Sort(RootsOf(active, section)), ItemsOf(Sort(NestedOf(active))))
  }

  function Resolve(es: seq<Entry>): seq<Category> {
    var active := Active(es, GroupVisible(es));
    [Category(Main, NodesForSection(active, Main)),
     Category(Earn, NodesForSection(active, Earn)),
     Category(Social, NodesForSection(active, Social))]
  }

  // ---- The sort is stable ----

  ghost predicate Ordered(es: seq<Entry>) {
    forall i, j | 0 <= i < j < |es| :: es[i].sortOrder <= es[j].sortOrder
  }

  /** The entries with sort order `k`, in their order. */
  function WithOrder(es: seq<Entry>, k: int): seq<Entry> {
    if es == [] then []
    else WithOrder(es[..|es| - 1], k) + if es[|es| - 1].sortOrder == k then [es[|es| - 1]] else []
  }

  lemma {:induction false} WithOrderAppend(es: seq<Entry>, e: Entry, k: int)
    ensures WithOrder(es + [e], k) == WithOrder(es, k) + if e.sortOrder == k then [e] else []
  {
    assert (es + [e])[..|es|] == es;
  }

  lemma {:induction false} InsertWithOrder(e: Entry, es: seq<Entry>, k: int)
    ensures e.sortOrder != k ==> WithOrder(Insert(e, es), k) == WithOrder(es, k)
  {
    if es == [] || es[|es| - 1].sortOrder <= e.sortOrder {
      WithOrderAppend(es, e, k);
    } else {
      InsertWithOrder(e, es[..|es| - 1], k);
      WithOrderAppend(Insert(e, es[..|es| - 1]), es[|es| - 1], k);
    }
  }

  /** An entry goes behind those of its own sort order. */
  lemma {:induction false} InsertBehind(e: Entry, es: seq<Entry>)
    ensures WithOrder(Insert(e, es), e.sortOrder) == WithOrder(es, e.sortOrder) + [e]
  {
    if es == [] || es[|es| - 1].sortOrder <= e.sortOrder {
      WithOrderAppend(es, e, e.sortOrder);
    } else {
      InsertBehind(e, es[..|es| - 1]);
      WithOrderAppend(Insert(e, es[..|es| - 1]), es[|es| - 1], e.sortOrder);
    }
  }

  ghost predicate AtMost(es: seq<Entry>, bound: int) {
    forall i | 0 <= i < |es| :: es[i].sortOrder <= bound
  }

  lemma {:induction false} OrderedAppend(es: seq<Entry>, e: Entry)
    requires Ordered(es) && AtMost(es, e.sortOrder)
    ensures Ordered(es + [e]) && forall bound | bound >= e.sortOrder :: AtMost(es + [e], bound)
  {
  }

  lemma {:induction false} InsertOrders(e: Entry, es: seq<Entry>)
    requires Ordered(es)
    ensures Ordered(Insert(e, es))
    ensures forall bound | AtMost(es, bound) && e.sortOrder <= bound :: AtMost(Insert(e, es), bound)
  {
    if es == [] || es[|es| - 1].sortOrder <= e.sortOrder {
      OrderedAppend(es, e);
    } else {
      var front, last := es[..|es| - 1], es[|es| - 1];
      InsertOrders(e, front);
      assert AtMost(front, last.sortOrder);
      OrderedAppend(Insert(e, front), last);
    }
  }

  /** Sorted by sort order, and entries of one sort order keep their order. */
  lemma {:induction false} SortIsStable(es: seq<Entry>, k: int)
    ensures Ordered(Sort(es)) && WithOrder(Sort(es), k) == WithOrder(es, k)
  {
    if es != [] {
      SortIsStable(es[..|es| - 1], k);
      InsertOrders(es[|es| - 1], Sort(es[..|es| - 1]));
      if es[|es| - 1].sortOrder == k {
        InsertBehind(es[|es| - 1], Sort(es[..|es| - 1]));
      } else {
        InsertWithOrder(es[|es| - 1], Sort(es[..|es| - 1]), k);
      }
    }
  }

  // ---- Counting ----

  function Count(es: seq<Entry>, x: Item): nat {
    if es == [] then 0 else Count(es[..|es| - 1], x) + if es[|es| - 1].item == x then 1 else 0
  }

  function CountItems(items: seq<Item>, x: Item): nat {
    if items == [] then 0 else CountItems(items[..|items| - 1], x) + if items[|items| - 1] == x then 1 else 0
  }

  function CountNodes(nodes: seq<Node>, x: Item): nat {
    if nodes == [] then 0
    else
      var n := nodes[|nodes| - 1];
      CountNodes(nodes[..|nodes| - 1], x) + (if n.item == x then 1 else 0) +
        if n.Folder? then CountItems(n.children, x) else 0
  }

  /** How often an item is shown in the whole tree. */
  function CountTree(tree: seq<Category>, x: Item): nat {
    if tree == [] then 0 else CountTree(tree[..|tree| - 1], x) + CountNodes(tree[|tree| - 1].nodes, x)
  }

  lemma {:induction false} CountAppend(es: seq<Entry>, e: Entry, x: Item)
    ensures Count(es + [e], x) == Count(es, x) + if e.item == x then 1 else 0
  {
    assert (es + [e])[..|es|] == es;
  }

  lemma {:induction false} CountInsert(e: Entry, es: seq<Entry>, x: Item)
    ensures Count(Insert(e, es), x) == Count(es, x) + if e.item == x then 1 else 0
  {
    if es == [] || es[|es| - 1].sortOrder <= e.sortOrder {
      CountAppend(es, e, x);
    } else {
      CountInsert(e, es[..|es| - 1], x);
      CountAppend(Insert(e, es[..|es| - 1]), es[|es| - 1], x);
    }
  }

  lemma {:induction false} CountSort(es: seq<Entry>, x: Item)
    ensures Count(Sort(es), x) == Count(es, x)
  {
    if es != [] {
      CountSort(es[..|es| - 1], x);
      CountInsert(es[|es| - 1], Sort(es[..|es| - 1]), x);
    }
  }

  lemma {:induction false} CountItemsOf(es: seq<Entry>, x: Item)
    ensures CountItems(ItemsOf(es), x) == Count(es, x)
  {
    if es != [] {
      CountItemsOf(es[..|es| - 1], x);
      assert ItemsOf(es)[..|es| - 1] == ItemsOf(es[..|es| - 1]);
    }
  }

  lemma {:induction false} CountNodesOf(roots: seq<Entry>, children: seq<Item>, x: Item)
    requires Count(roots, RewardsGroup) <= 1
    ensures CountNodes(NodesOf(roots, children), x)
              == Count(roots, x) + if Count(roots, RewardsGroup) == 1 then CountItems(children, x) else 0
  {
    if roots != [] {
      var front, nodes := roots[..|roots| - 1], NodesOf(roots, children);
      CountNodesOf(front, children, x);
      assert nodes[..|nodes| - 1] == NodesOf(front, children);
    }
  }

  lemma {:induction false} CountRoots(es: seq<Entry>, section: Section, x: Item)
    requires es != []
    ensures var front, e := es[..|es| - 1], es[|es| - 1];
            Count(RootsOf(es, section), x) == Count(RootsOf(front, section), x)
              + if SectionOf(e.item) == section && !e.nested && e.item == x then 1 else 0
  {
    var front, e := es[..|es| - 1], es[|es| - 1];
    if SectionOf(e.item) == section && !e.nested {
      CountAppend(RootsOf(front, section), e, x);
    } else {
      assert RootsOf(es, section) == RootsOf(front, section);
    }
  }

  lemma {:induction false} CountNested(es: seq<Entry>, x: Item)
    requires es != []
    ensures var front, e := es[..|es| - 1], es[|es| - 1];
            Count(NestedOf(es), x) == Count(NestedOf(front), x) + if e.nested && e.item == x then 1 else 0
  {
    var front, e := es[..|es| - 1], es[|es| - 1];
    if e.nested {
      CountAppend(NestedOf(front), e, x);
    } else {
      assert NestedOf(es) == NestedOf(front);
    }
  }

  lemma {:induction false} Partition(es: seq<Entry>, x: Item)
    ensures Count(RootsOf(es, Main), x) + Count(RootsOf(es, Earn), x) + Count(RootsOf(es, Social), x) +
              Count(NestedOf(es), x)
              == Count(es, x)
  {
    if es != [] {
      Partition(es[..|es| - 1], x);
      CountRoots(es, Main, x);
      CountRoots(es, Earn, x);
      CountRoots(es, Social, x);
      CountNested(es, x);
    }
  }

  // ---- One row per item ----

  /** No item twice, and the group itself is not nested. */
  ghost predicate OneEach(es: seq<Entry>) {
    && (forall i, j | 0 <= i < j < |es| :: es[i].item != es[j].item)
    && (forall i | 0 <= i < |es| && es[i].item == RewardsGroup :: !es[i].nested)
  }

  lemma {:induction false} TypedOneEach(rows: seq<Raw>)
    requires WellFormed(rows)
    ensures OneEach(Typed(rows))
  {
    var es := Typed(rows);
    forall i | 0 <= i < |es|
      ensures Fits(rows[i]) && es[i].item == rows[i].id.item && es[i].nested == (rows[i].parent == Group)
    {
      assert Fits(rows[i]);
    }
    forall i, j | 0 <= i < j < |es| ensures es[i].item != es[j].item {
      assert rows[i].id != rows[j].id;
    }
  }

  /** The item's row is visible, and if it is nested so is the group's row. */
  ghost predicate Shown(es: seq<Entry>, x: Item) {
    exists i :: 0 <= i < |es| && es[i].item == x && es[i].visible && (es[i].nested ==> GroupRowVisible(es))
  }

  ghost predicate GroupRowVisible(es: seq<Entry>) {
    exists i :: 0 <= i < |es| && es[i].item == RewardsGroup && es[i].visible
  }

  lemma {:induction false} GroupVisibleExactly(es: seq<Entry>)
    requires OneEach(es)
    ensures GroupVisible(es) <==> GroupRowVisible(es)
  {
    if es != [] {
      var front := es[..|es| - 1];
      GroupVisibleExactly(front);
      if GroupRowVisible(front) {
        var i :| 0 <= i < |front| && front[i].item == RewardsGroup && front[i].visible;
        assert es[i] == front[i];
      }
      if GroupRowVisible(es) && es[|es| - 1].item != RewardsGroup {
        var i :| 0 <= i < |es| && es[i].item == RewardsGroup && es[i].visible;
        assert front[i] == es[i];
      }
    }
  }

  /** The item has a row among `es` that is shown when the group is as `g` says. */
  ghost predicate HasShown(es: seq<Entry>, g: bool, x: Item) {
    exists i :: 0 <= i < |es| && es[i].item == x && IsShown(es[i], g)
  }

  lemma {:induction false} HasShownLast(es: seq<Entry>, g: bool, x: Item)
    requires es != []
    ensures HasShown(es, g, x) <==>
              HasShown(es[..|es| - 1], g, x) || (es[|es| - 1].item == x && IsShown(es[|es| - 1], g))
  {
    var front := es[..|es| - 1];
    if HasShown(front, g, x) {
      var i :| 0 <= i < |front| && front[i].item == x && IsShown(front[i], g);
      assert es[i] == front[i];
    }
    if HasShown(es, g, x) {
      var i :| 0 <= i < |es| && es[i].item == x && IsShown(es[i], g);
      assert i < |front| ==> front[i] == es[i];
    }
  }

  lemma {:induction false} OthersDiffer(es: seq<Entry>, g: bool)
    requires es != [] && OneEach(es)
    ensures OneEach(es[..|es| - 1]) && !HasShown(es[..|es| - 1], g, es[|es| - 1].item)
  {
  }

  lemma {:induction false} CountActive(es: seq<Entry>, g: bool, x: Item)
    requires OneEach(es)
    ensures Count(Active(es, g), x) == if HasShown(es, g, x) then 1 else 0
  {
    if es != [] {
      var front, e := es[..|es| - 1], es[|es| - 1];
      OthersDiffer(es, g);
      CountActive(front, g, x);
      HasShownLast(es, g, x);
      if IsShown(e, g) {
        CountAppend(Active(front, g), e, x);
      } else {
        assert Active(es, g) == Active(front, g);
      }
    }
  }

  ghost predicate GroupIsRoot(es: seq<Entry>) {
    forall i | 0 <= i < |es| && es[i].item == RewardsGroup :: !es[i].nested
  }

  lemma {:induction false} ActiveGroupIsRoot(es: seq<Entry>, g: bool)
    requires GroupIsRoot(es)
    ensures GroupIsRoot(Active(es, g))
    ensures !g ==> forall i | 0 <= i < |Active(es, g)| :: !Active(es, g)[i].nested
  {
    if es != [] { ActiveGroupIsRoot(es[..|es| - 1], g); }
  }

  /** Only the Earn section can hold the group. */
  lemma {:induction false} GroupInEarn(es: seq<Entry>)
    requires GroupIsRoot(es)
    ensures Count(RootsOf(es, Main), RewardsGroup) == 0 && Count(RootsOf(es, Social), RewardsGroup) == 0
    ensures Count(NestedOf(es), RewardsGroup) == 0
  {
    if es != [] {
      GroupInEarn(es[..|es| - 1]);
      CountRoots(es, Main, RewardsGroup);
      CountRoots(es, Social, RewardsGroup);
      CountNested(es, RewardsGroup);
    }
  }

  lemma {:induction false} NoneNested(es: seq<Entry>)
    requires forall i | 0 <= i < |es| :: !es[i].nested
    ensures NestedOf(es) == []
  {
    if es != [] { NoneNested(es[..|es| - 1]); }
  }

  lemma {:induction false} CountSection(active: seq<Entry>, section: Section, x: Item)
    requires Count(RootsOf(active, section), RewardsGroup) <= 1
    ensures CountNodes(NodesForSection(active, section), x)
              == Count(RootsOf(active, section), x)
                 + if Count(RootsOf(active, section), RewardsGroup) == 1 then Count(NestedOf(active), x) else 0
  {
    CountSort(RootsOf(active, section), RewardsGroup);
    CountSort(RootsOf(active, section), x);
    CountSort(NestedOf(active), x);
    CountItemsOf(Sort(NestedOf(active)), x);
    CountNodesOf(Sort(RootsOf(active, section)), ItemsOf(Sort(NestedOf(active))), x);
  }

  lemma {:induction false} CountThree(a: Category, b: Category, c: Category, x: Item)
    ensures CountTree([a, b, c], x) == CountNodes(a.nodes, x) + CountNodes(b.nodes, x) + CountNodes(c.nodes, x)
  {
    assert [a, b, c][..2] == [a, b] && [a, b][..1] == [a] && [a][..0] == [];
    assert CountTree([], x) == 0;
    assert CountTree([a], x) == CountNodes(a.nodes, x);
  }

  lemma {:induction false} CountResolved(es: seq<Entry>, x: Item)
    requires var active := Active(es, GroupVisible(es));
             && GroupIsRoot(active) && Count(active, RewardsGroup) == (if GroupVisible(es) then 1 else 0)
             && (!GroupVisible(es) ==> NestedOf(active) == [])
    ensures CountTree(Resolve(es), x) == Count(Active(es, GroupVisible(es)), x)
  {
    var active := Active(es, GroupVisible(es));
    GroupInEarn(active);
    Partition(active, RewardsGroup);
    Partition(active, x);
    CountSection(active, Main, x);
    CountSection(active, Earn, x);
    CountSection(active, Social, x);
    CountThree(Category(Main, NodesForSection(active, Main)), Category(Earn, NodesForSection(active, Earn)),
               Category(Social, NodesForSection(active, Social)), x);
  }

  lemma {:induction false} GroupCounted(es: seq<Entry>)
    requires OneEach(es)
    ensures var active := Active(es, GroupVisible(es));
            && GroupIsRoot(active) && Count(active, RewardsGroup) == (if GroupVisible(es) then 1 else 0)
            && (!GroupVisible(es) ==> NestedOf(active) == [])
  {
    var g := GroupVisible(es);
    ActiveGroupIsRoot(es, g);
    GroupVisibleExactly(es);
    CountActive(es, g, RewardsGroup);
    assert HasShown(es, g, RewardsGroup) <==> GroupRowVisible(es);
    if !g { NoneNested(Active(es, g)); }
  }

  /** The tree shows an item exactly once if the item is shown at all, and never otherwise. */
  lemma {:induction false} TreeShowsExactly(rows: seq<Raw>, x: Item)
    requires WellFormed(rows)
    ensures CountTree(Resolve(Typed(rows)), x) == if Shown(Typed(rows), x) then 1 else 0
  {
    var es := Typed(rows);
    TypedOneEach(rows);
    GroupVisibleExactly(es);
    GroupCounted(es);
    CountResolved(es, x);
    CountActive(es, GroupVisible(es), x);
    ShownExactly(es, x);
  }

  lemma {:induction false} ShownExactly(es: seq<Entry>, x: Item)
    requires GroupVisible(es) <==> GroupRowVisible(es)
    ensures HasShown(es, GroupVisible(es), x) <==> Shown(es, x)
  {
  }
}
