/** Repair, merge, validation and path collection as the server runs them, around the one stored row. */
module SidebarService {
  import opened Tables
  import opened SidebarModel
  import opened SidebarTheorems
  import opened SidebarTree
  import opened SidebarPaths

  method CoerceParentLocked(rows: seq<Raw>) returns (next: seq<Raw>, changed: bool)
    ensures next == UnlockAll(rows) && (changed <==> next != rows)
  {
    next, changed := [], false;
    for i := 0 to |rows|
      invariant next == UnlockAll(rows)[..i] && (changed <==> next != rows[..i])
    {
      var row := rows[i];
      PushedOne(UnlockAll(rows), rows, i);
      if row.Row? && (row.id.Exact? || row.id.Keyed?) && ParentLocked(row.id.item) {
        var want := DefaultParent(row.id.item);
        var cur := if row.parent == Absent then Null else row.parent;
        if cur != want {
          changed := true;
          row := row.(parent := want);
        }
      }
      next := next + [row];
    }
    assert UnlockAll(rows)[..|rows|] == UnlockAll(rows) && rows[..|rows|] == rows;
  }

  method CoerceInternalOfferwall(rows: seq<Raw>) returns (next: seq<Raw>, changed: bool)
    ensures next == NestAll(rows) && (changed <==> next != rows)
  {
    next, changed := [], false;
    for i := 0 to |rows|
      invariant next == NestAll(rows)[..i] && (changed <==> next != rows[..i])
    {
      var row := rows[i];
      PushedOne(NestAll(rows), rows, i);
      if row.Row? && row.id == Exact(InternalOfferwall) {
        var cur := if row.parent == Absent then Null else row.parent;
        if cur != DefaultParent(InternalOfferwall) {
          changed := true;
          row := row.(parent := DefaultParent(InternalOfferwall), section := Some(Earn));
        }
      }
      next := next + [row];
    }
    assert NestAll(rows)[..|rows|] == NestAll(rows) && rows[..|rows|] == rows;
  }

  lemma {:induction false} PushedOne(next: seq<Raw>, rows: seq<Raw>, i: nat)
    requires i < |rows| == |next|
    ensures next[..i + 1] == next[..i] + [next[i]] && rows[..i + 1] == rows[..i] + [rows[i]]
    ensures next[..i + 1] == rows[..i + 1] <==> next[..i] == rows[..i] && next[i] == rows[i]
  {
    if next[..i + 1] == rows[..i + 1] {
      assert next[..i] == next[..i + 1][..i] && rows[..i] == rows[..i + 1][..i];
      assert next[i] == next[..i + 1][i];
    }
  }

  method PresentItems(rows: seq<Raw>) returns (present: set<Item>)
    ensures forall item :: item in present <==> Present(rows, item)
  {
    present := {};
    for i := 0 to |rows|
      invariant forall item :: item in present <==> exists k :: 0 <= k < i && Names(rows[k], item)
    {
      if rows[i].Row? && !rows[i].id.Foreign? { present := present + {rows[i].id.item}; }
    }
  }

  /** The default rows from the `d`-th on whose items are absent are those no row names. */
  ghost predicate AbsentFrom(present: set<Item>, rows: seq<Raw>, d: nat) {
    forall k | d <= k < ITEMS :: DefaultAt(k).0 in present <==> Present(rows, DefaultAt(k).0)
  }

  lemma {:induction false} AddedItem(present: set<Item>, rows: seq<Raw>, d: nat)
    requires d < ITEMS && AbsentFrom(present, rows, d)
    ensures AbsentFrom(present + {DefaultAt(d).0}, rows, d + 1)
  {
    PlaceOfDefault(d);
    forall k | d < k < ITEMS ensures DefaultAt(k).0 != DefaultAt(d).0 {
      PlaceOfDefault(k);
    }
  }

  method MergeMissing(rows: seq<Raw>) returns (next: seq<Raw>, changed: bool)
    ensures next == Merged(rows) && (changed <==> next != rows)
  {
    var present := PresentItems(rows);
    next, changed := rows, false;
    for d := 0 to ITEMS
      invariant next == MergedWith(rows, Defaults()[..d]) && AbsentFrom(present, rows, d)
      invariant if changed then |next| > |rows| else next == rows
    {
      TakeOneMore(Defaults(), d);
      AddedItem(present, rows, d);
      if DefaultAt(d).0 !in present {
        next := next + [DefaultRow(DefaultAt(d))];
        present := present + {DefaultAt(d).0};
        changed := true;
      }
    }
    assert Defaults()[..ITEMS] == Defaults();
  }

  method ValidatePayload(rows: seq<Raw>) returns (error: Option<Code>)
    ensures error == Validate(rows)
  {
    var seen: set<Item> := {};
    for i := 0 to |rows|
      invariant forall k | 0 <= k < i :: RowError(rows[k]).None?
      invariant seen == Seen(rows, i) && FirstError(rows, 0) == FirstError(rows, i)
    {
      error := RowError(rows[i]);
      if error.Some? { return; }
      if rows[i].id.item in seen { return Some(DuplicateItemId); }
      seen := seen + {rows[i].id.item};
    }
    if |seen| != ITEMS { return Some(IncompleteItemSet); }
    var hasGroup, childOfGroup := Present(rows, RewardsGroup), exists i :: 0 <= i < |rows| && rows[i].parent == Group;
    if childOfGroup && !hasGroup { return Some(RewardsGroupRequired); }
    return None;
  }

  method CollectPaths(items: seq<Item>, paths: set<string>) returns (all: set<string>)
    ensures all == paths + PathsOfItems(items)
  {
    all := paths;
    for i := 0 to |items|
      invariant all == paths + PathsOfItems(items[..i])
    {
      TakeOneMore(items, i);
      if PathOf(items[i]).Some? {
        var n := Normalize(PathOf(items[i]).value);
        if n != [] { all := all + {n}; }
      }
    }
    assert items[..|items|] == items;
  }

  method CollectVisiblePaths(tree: seq<Category>) returns (paths: set<string>)
    ensures paths == VisiblePaths(tree)
  {
    paths := {};
    for c := 0 to |tree|
      invariant paths == VisiblePaths(tree[..c])
    {
      TakeOneMore(tree, c);
      var nodes := tree[c].nodes;
      ghost var before := paths;
      for i := 0 to |nodes|
        invariant paths == before + PathsOfNodes(nodes[..i])
      {
        TakeOneMore(nodes, i);
        paths := CollectPaths([nodes[i].item], paths);
        assert PathsOfItems([nodes[i].item]) == PathsOfItems([]) + PathsOfItem(nodes[i].item);
        if nodes[i].Folder? { paths := CollectPaths(nodes[i].children, paths); }
      }
      assert nodes[..|nodes|] == nodes;
    }
    assert tree[..|tree|] == tree;
  }

  /** The table with its single row. */
  class Config {
    var row: Option<Stored>
    var writes: nat

    constructor ()
      ensures row.None? && writes == 0
    {
      row, writes := None, 0;
    }

    method Write(rows: seq<Raw>)
      modifies this
      ensures row == Some(List(rows)) && writes == old(writes) + 1
    {
      row, writes := Some(List(rows)), writes + 1;
    }

    method EnsureRow() returns (stored: Stored)
      modifies this
      ensures row == Some(stored) && stored == (if old(row).None? then List(DefaultRows()) else old(row).value)
      ensures writes == old(writes) + if old(row).None? then 1 else 0
    {
      if row.None? { Write(DefaultRows()); }
      stored := row.value;
    }

    method GetForAdmin() returns (rows: seq<Raw>)
      modifies this
      ensures var r := Get(old(row)); row == r.stored && rows == r.rows && writes == old(writes) + r.writes
    {
      var stored := EnsureRow();
      var raw := if stored.List? then stored.rows else [];
      var coerced, lockedChanged := CoerceParentLocked(raw);
      var nested, offerwallChanged := CoerceInternalOfferwall(coerced);
      FlagsAgree(raw);
      if lockedChanged || offerwallChanged { Write(nested); }
      var merged, mergeChanged := MergeMissing(nested);
      if mergeChanged { Write(merged); }
      var error := ValidatePayload(merged);
      if error.Some? {
        rows := DefaultRows();
        Write(rows);
        return;
      }
      return merged;
    }

    method Save(body: Stored) returns (saved: Saved)
      modifies this
      ensures saved == SidebarModel.Save(body) && row == StoredAfter(old(row), body)
    {
      var raw := if body.List? then body.rows else [];
      var afterLocked, _ := CoerceParentLocked(raw);
      var coerced, _ := CoerceInternalOfferwall(afterLocked);
      var error := ValidatePayload(coerced);
      if error.Some? { return Refused(error.value); }
      var stored := EnsureRow();
      Write(coerced);
      return Accepted(coerced);
    }

    /** A read, so it may repair the row; the answer is about the repaired rows. */
    method IsPathVisible(path: string) returns (visible: bool)
      modifies this
      ensures WellFormed(Get(old(row)).rows)
      ensures visible <==> SidebarPaths.IsPathVisible(Get(old(row)).rows, path)
      ensures row == if Normalize(path) == [] then old(row) else Get(old(row)).stored
    {
      ReadSettles(row);
      var normalized := Normalize(path);
      if normalized == [] { return false; }
      var rows := GetForAdmin();
      var paths := CollectVisiblePaths(Resolve(Typed(rows)));
      return normalized in paths;
    }
  }

  /** One repair does not undo the other: a row is changed by at most one of them. */
  lemma {:induction false} FlagsAgree(raw: seq<Raw>)
    ensures Repaired(raw) != raw <==> UnlockAll(raw) != raw || NestAll(UnlockAll(raw)) != UnlockAll(raw)
  {
    if Repaired(raw) == raw {
      forall i | 0 <= i < |raw| ensures Unlock(raw[i]) == raw[i] {
        assert Repaired(raw)[i] == Nest(Unlock(raw[i]));
      }
      assert UnlockAll(raw) == raw;
    }
  }
}
