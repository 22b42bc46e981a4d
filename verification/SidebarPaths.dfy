/** Which app paths the navigation shows. */
module SidebarPaths {
  import opened Tables
  import opened SidebarModel
  import opened SidebarTheorems
  import opened SidebarTree

  function BeforeQuery(s: string): string {
    if s == [] || s[0] == '?' then [] else [s[0]] + BeforeQuery(s[1..])
  }

  /** A path without its query and without one trailing slash; empty if it does not start with a slash. */
  function Normalize(path: string): string {
    if path == [] || path[0] != '/' then []
    else
      var base := BeforeQuery(path);
      if |base| > 1 && base[|base| - 1] == '/' then base[..|base| - 1] else base
  }

  function PathsOfItem(item: Item): set<string> {
    match PathOf(item)
    case None => {}
    case Some(p) => if Normalize(p) == [] then {} else {Normalize(p)}
  }

  function PathsOfItems(items: seq<Item>): set<string> {
    if items == [] then {} else PathsOfItems(items[..|items| - 1]) + PathsOfItem(items[|items| - 1])
  }

  function PathsOfNodes(nodes: seq<Node>): set<string> {
    if nodes == [] then {}
    else
      var n := nodes[|nodes| - 1];
      PathsOfNodes(nodes[..|nodes| - 1]) + PathsOfItem(n.item) + if n.Folder? then PathsOfItems(n.children) else {}
  }

  function VisiblePaths(tree: seq<Category>): set<string> {
    if tree == [] then {} else VisiblePaths(tree[..|tree| - 1]) + PathsOfNodes(tree[|tree| - 1].nodes)
  }

  predicate IsPathVisible(rows: seq<Raw>, path: string)
    requires WellFormed(rows)
  {
    Normalize(path) != [] && Normalize(path) in VisiblePaths(Resolve(Typed(rows)))
  }

  // ---- Normalising ----

  lemma {:induction false} NoQuery(s: string)
    requires '?' !in s
    ensures BeforeQuery(s) == s
  {
    if s != [] {
      NoQuery(s[1..]);
      assert s == [s[0]] + s[1..];
    }
  }

  lemma {:induction false} QueryCut(s: string, q: string)
    requires '?' !in s
    ensures BeforeQuery(s + ['?'] + q) == s
  {
    var all := s + ['?'] + q;
    if s == [] {
      assert all[0] == '?';
    } else {
      QueryCut(s[1..], q);
      assert all[1..] == s[1..] + ['?'] + q;
      assert s == [s[0]] + s[1..];
    }
  }

  /** A registered path: it starts with a slash, does not end with one and has no query. */
  predicate Plain(p: string) {
    |p| > 1 && p[0] == '/' && p[|p| - 1] != '/' && '?' !in p
  }

  lemma {:induction false} PlainAlone(p: string)
    requires Plain(p)
    ensures Normalize(p) == p && Normalize(p + ['/']) == p
  {
    NoQuery(p);
    NoQuery(p + ['/']);
    assert (p + ['/'])[..|p|] == p;
  }

  lemma {:induction false} QueryIgnored(p: string, q: string)
    requires '?' !in p
    ensures Normalize(p + ['?'] + q) == Normalize(p)
  {
    NoQuery(p);
    QueryCut(p, q);
  }

  /** A plain path, with one trailing slash and a query or without, comes to the path itself. */
  lemma {:induction false} PlainNormalizes(p: string, q: string)
    requires Plain(p)
    ensures Normalize(p) == p && Normalize(p + ['/']) == p
    ensures Normalize(p + ['?'] + q) == p && Normalize(p + ['/'] + ['?'] + q) == p
  {
    PlainAlone(p);
    QueryIgnored(p, q);
    QueryIgnored(p + ['/'], q);
  }

  lemma {:induction false} RegistryPathsPlain(item: Item)
    ensures PathOf(item).Some? ==> Plain(PathOf(item).value)
  {
  }

  // ---- Shown paths ----

  lemma {:induction false} ItemPath(item: Item, p: string)
    ensures p in PathsOfItem(item) <==> PathOf(item) == Some(p)
  {
    if PathOf(item).Some? {
      RegistryPathsPlain(item);
      PlainNormalizes(PathOf(item).value, []);
    }
  }

  lemma {:induction false} ItemsPath(items: seq<Item>, p: string)
    ensures p in PathsOfItems(items) <==> exists x: Item :: CountItems(items, x) > 0 && PathOf(x) == Some(p)
  {
    if items == [] {
    } else {
      var front, last := items[..|items| - 1], items[|items| - 1];
      ItemsPath(front, p);
      ItemPath(last, p);
      if p in PathsOfItem(last) { assert CountItems(items, last) > 0; }
    }
  }

  lemma {:induction false} NodesPath(nodes: seq<Node>, p: string)
    ensures p in PathsOfNodes(nodes) <==> exists x: Item :: CountNodes(nodes, x) > 0 && PathOf(x) == Some(p)
  {
    if nodes == [] {
    } else {
      var front, n := nodes[..|nodes| - 1], nodes[|nodes| - 1];
      NodesPath(front, p);
      ItemPath(n.item, p);
      if n.Folder? { ItemsPath(n.children, p); }
      if p in PathsOfItem(n.item) { assert CountNodes(nodes, n.item) > 0; }
    }
  }

  lemma {:induction false} TreePath(tree: seq<Category>, p: string)
    ensures p in VisiblePaths(tree) <==> exists x: Item :: CountTree(tree, x) > 0 && PathOf(x) == Some(p)
  {
    if tree == [] {
    } else {
      TreePath(tree[..|tree| - 1], p);
      NodesPath(tree[|tree| - 1].nodes, p);
    }
  }

  /**
   * A path is visible exactly when, normalised, it is the path of an item whose row is visible and is
   * not nested in a hidden group.
   */
  lemma {:induction false} PathVisibleExactly(rows: seq<Raw>, path: string)
    requires WellFormed(rows)
    ensures IsPathVisible(rows, path) <==>
              exists x: Item :: Shown(Typed(rows), x) && PathOf(x) == Some(Normalize(path))
  {
    var tree, p := Resolve(Typed(rows)), Normalize(path);
    TreePath(tree, p);
    forall x: Item ensures CountTree(tree, x) > 0 <==> Shown(Typed(rows), x) {
      TreeShowsExactly(rows, x);
    }
    if x: Item :| Shown(Typed(rows), x) && PathOf(x) == Some(p) {
      RegistryPathsPlain(x);
      assert p != [];
    }
  }
}
