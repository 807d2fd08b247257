/** Reordering siblings: an exact transposition, whatever the old orders held. */
module Reordering {
  import opened Lists
  import opened Roles
  import opened Chart

  /** The siblings under one parent in the chart's own order: by order, then by name. */
  function RankedSiblings(rows: seq<Role>, parent: Option<int>): seq<int> {
    Ids(Sort(Siblings(rows, parent), ChartRank))
  }

  lemma SiblingsUnique(rows: seq<Role>, parent: Option<int>, key: Role -> Rank)
    requires UniqueIds(rows)
    ensures Distinct(Sort(Siblings(rows, parent), key))
    ensures Distinct(Ids(Sort(Siblings(rows, parent), key)))
    ensures forall s :: s in Sort(Siblings(rows, parent), key) <==> s in rows && s.onChart && s.parent == parent
  {
    var sibs := Siblings(rows, parent);
    FilterKeepsIdsUnique(rows, SiblingOf(parent));
    UniqueIsDistinct(rows);
    FilterDistinct(rows, SiblingOf(parent));
    SortDistinct(sibs, key);
    var sorted := Sort(sibs, key);
    forall i, j | 0 <= i < j < |sorted| ensures sorted[i].id != sorted[j].id {
      assert sorted[i] in sibs && sorted[j] in sibs;
      if sorted[i].id == sorted[j].id {
        SameIdSameRow(rows, sorted[i], sorted[j]);
      }
    }
  }

  lemma PositionIs(ids: seq<int>, k: nat)
    requires Distinct(ids) && k < |ids|
    ensures Position(ids, ids[k]) == k
  {
    var p := Position(ids, ids[k]);
    assert ids[k] in ids;
    assert forall j | 0 <= j < p :: ids[..p][j] == ids[j];
  }

  ghost predicate IsSibling(rows: seq<Role>, parent: Option<int>, id: int) {
    exists s :: s in rows && s.onChart && s.parent == parent && s.id == id
  }

  /** `order` lists exactly the siblings under `parent`. */
  ghost predicate ListsAll(rows: seq<Role>, parent: Option<int>, order: seq<int>) {
    Distinct(order) && forall id :: id in order <==> IsSibling(rows, parent, id)
  }

  lemma RenumberMembers(rows: seq<Role>, order: seq<int>)
    requires UniqueIds(rows)
    ensures UniqueIds(Renumber(rows, order))
    ensures forall s | s in rows :: Renumbered(s, order) in Renumber(rows, order)
    ensures forall x | x in Renumber(rows, order) :: exists s :: s in rows && x == Renumbered(s, order)
  {
    var rows' := Renumber(rows, order);
    forall s | s in rows ensures Renumbered(s, order) in rows' {
      var i :| 0 <= i < |rows| && rows[i] == s;
      assert rows'[i] == Renumbered(s, order);
    }
    forall x | x in rows' ensures exists s :: s in rows && x == Renumbered(s, order) {
      var i :| 0 <= i < |rows'| && rows'[i] == x;
      assert rows[i] in rows;
    }
  }

  /** The renumbered sibling at each place of `order`. */
  ghost function Row(rows: seq<Role>, order: seq<int>, k: int): Role
    requires 0 <= k < |order|
  {
    match Find(Renumber(rows, order), order[k])
    case Some(r) => r
    case None => Role(0, Admin, "", 0, "", false, false, None, None, false)
  }

  lemma RowAt(rows: seq<Role>, parent: Option<int>, order: seq<int>, k: int)
    requires UniqueIds(rows) && ListsAll(rows, parent, order) && 0 <= k < |order|
    ensures var r := Row(rows, order, k);
            && r in Renumber(rows, order) && r.id == order[k] && r.onChart && r.parent == parent
            && r.order == Some((k + 1) * ORDER_STEP)
  {
    assert order[k] in order && IsSibling(rows, parent, order[k]);
    var s :| s in rows && s.onChart && s.parent == parent && s.id == order[k];
    RenumberedRow(rows, order, s, k);
  }

  lemma RenumberedRow(rows: seq<Role>, order: seq<int>, s: Role, k: int)
    requires UniqueIds(rows) && Distinct(order) && s in rows && 0 <= k < |order| && s.id == order[k]
    ensures Row(rows, order, k) == s.(order := Some((k + 1) * ORDER_STEP))
    ensures Row(rows, order, k) in Renumber(rows, order)
  {
    RenumberMembers(rows, order);
    PositionIs(order, k);
    SameIdSameRow(Renumber(rows, order), Renumbered(s, order), Find(Renumber(rows, order), order[k]).value);
  }

  ghost function RowsAt(rows: seq<Role>, order: seq<int>): seq<Role> {
    seq(|order|, k requires 0 <= k < |order| => Row(rows, order, k))
  }

  lemma RowsAtSorted(rows: seq<Role>, parent: Option<int>, order: seq<int>, key: Role -> Rank)
    requires UniqueIds(rows) && ListsAll(rows, parent, order)
    requires forall r :: key(r).major == OrderValue(r)
    ensures Sorted(RowsAt(rows, order), key) && Distinct(RowsAt(rows, order))
    ensures forall x, y | x in RowsAt(rows, order) && y in RowsAt(rows, order)
              && Le(key(x), key(y)) && Le(key(y), key(x)) :: x == y
  {
    var t := RowsAt(rows, order);
    forall k | 0 <= k < |order| ensures t[k].id == order[k] && OrderValue(t[k]) == (k + 1) * ORDER_STEP {
      RowAt(rows, parent, order, k);
    }
    forall i, j | 0 <= i < j < |t| ensures key(t[i]).major < key(t[j]).major {
    }
  }

  lemma RowsAtMembers(rows: seq<Role>, parent: Option<int>, order: seq<int>, x: Role)
    requires UniqueIds(rows) && ListsAll(rows, parent, order)
    ensures x in RowsAt(rows, order) <==> x in Renumber(rows, order) && x.onChart && x.parent == parent
  {
    var t, rows' := RowsAt(rows, order), Renumber(rows, order);
    RenumberMembers(rows, order);
    if x in t {
      var k :| 0 <= k < |t| && t[k] == x;
      RowAt(rows, parent, order, k);
    }
    if x in rows' && x.onChart && x.parent == parent {
      var y :| y in rows && x == Renumbered(y, order);
      assert IsSibling(rows, parent, y.id);
      var k := Position(order, x.id);
      RowAt(rows, parent, order, k);
      SameIdSameRow(rows', x, t[k]);
      assert t[k] in t;
    }
  }

  /** After renumbering, sorting the siblings by any rank led by their order gives `order`. */
  lemma RenumberSorts(rows: seq<Role>, parent: Option<int>, order: seq<int>, key: Role -> Rank)
    requires UniqueIds(rows) && ListsAll(rows, parent, order)
    requires forall r :: key(r).major == OrderValue(r)
    ensures Ids(Sort(Siblings(Renumber(rows, order), parent), key)) == order
  {
    var rows', t := Renumber(rows, order), RowsAt(rows, order);
    RenumberMembers(rows, order);
    RowsAtSorted(rows, parent, order, key);
    var s := Sort(Siblings(rows', parent), key);
    SiblingsUnique(rows', parent, key);
    SortSorted(Siblings(rows', parent), key);
    forall x ensures x in s <==> x in t {
      RowsAtMembers(rows, parent, order, x);
    }
    SortedIsUnique(s, t, key);
    forall k | 0 <= k < |order| ensures t[k].id == order[k] {
      RowAt(rows, parent, order, k);
    }
  }

  lemma SwapLists(rows: seq<Role>, parent: Option<int>, order: seq<int>, i: nat)
    requires ListsAll(rows, parent, order) && i + 1 < |order|
    ensures ListsAll(rows, parent, SwapAt(order, i))
  {
    var s := SwapAt(order, i);
    forall id ensures id in s <==> id in order {
      if id in order {
        var k :| 0 <= k < |order| && order[k] == id;
        assert s[if k == i then i + 1 else if k == i + 1 then i else k] == id;
      }
      if id in s {
        var k :| 0 <= k < |s| && s[k] == id;
        assert order[if k == i then i + 1 else if k == i + 1 then i else k] == id;
      }
    }
  }

  lemma OrderedLists(rows: seq<Role>, parent: Option<int>)
    requires UniqueIds(rows)
    ensures ListsAll(rows, parent, OrderedSiblings(rows, parent))
    ensures ListsAll(rows, parent, RankedSiblings(rows, parent))
  {
    SiblingsUnique(rows, parent, OrderRank);
    SiblingsUnique(rows, parent, ChartRank);
    IdsListed(rows, parent, OrderRank);
    IdsListed(rows, parent, ChartRank);
  }

  lemma IdsListed(rows: seq<Role>, parent: Option<int>, key: Role -> Rank)
    requires UniqueIds(rows)
    ensures ListsAll(rows, parent, Ids(Sort(Siblings(rows, parent), key)))
  {
    SiblingsUnique(rows, parent, key);
    var sorted := Sort(Siblings(rows, parent), key);
    forall id | id in Ids(sorted) ensures IsSibling(rows, parent, id) {
      var k :| 0 <= k < |sorted| && Ids(sorted)[k] == id;
      assert sorted[k] in sorted;
    }
  }

  lemma MoveByLists(rows: seq<Role>, parent: Option<int>, order: seq<int>, id: int, d: Direction)
    requires ListsAll(rows, parent, order)
    ensures ListsAll(rows, parent, MoveBy(order, id, d))
  {
    var k := Position(order, id);
    if k < |order| {
      if d.Up? && k > 0 { SwapLists(rows, parent, order, k - 1); }
      if d.Down? && k + 1 < |order| { SwapLists(rows, parent, order, k); }
    }
  }

  /**
   Whatever ties or gaps the old orders held, a reorder exchanges the role with its neighbour in
   the sequence it sorts, leaves orders 5, 10, 15, … and touches nothing else.
   */
  lemma ReorderIsTransposition(rows: seq<Role>, r: Role, d: Direction)
    requires UniqueIds(rows) && r in rows
    ensures var rows', before := Reorder(rows, r.id, d).1, OrderedSiblings(rows, r.parent);
            var after := MoveBy(before, r.id, d);
            && OrderedSiblings(rows', r.parent) == after
            && (after == before ==> rows' == rows)
            && (after != before ==> RankedSiblings(rows', r.parent) == after)
            && |rows'| == |rows|
            && forall i | 0 <= i < |rows| ::
                 rows'[i] == if after == before || rows[i].id !in after then rows[i]
                             else rows[i].(order := Some((Position(after, rows[i].id) + 1) * ORDER_STEP))
  {
    var before := OrderedSiblings(rows, r.parent);
    var after := MoveBy(before, r.id, d);
    SameIdSameRow(rows, r, Find(rows, r.id).value);
    OrderedLists(rows, r.parent);
    MoveByLists(rows, r.parent, before, r.id, d);
    RenumberSorts(rows, r.parent, after, OrderRank);
    RenumberSorts(rows, r.parent, after, ChartRank);
    forall i | 0 <= i < |rows| ensures rows[i].id in after <==> Position(after, rows[i].id) < |after| {
    }
  }

  function Opposite(d: Direction): Direction { if d.Up? then Down else Up }

  lemma SwapTwice<T>(s: seq<T>, i: nat)
    requires i + 1 < |s|
    ensures SwapAt(SwapAt(s, i), i) == s
  {
  }

  lemma MoveBackByHand(ids: seq<int>, id: int, d: Direction)
    requires Distinct(ids) && MoveBy(ids, id, d) != ids
    ensures MoveBy(MoveBy(ids, id, d), id, Opposite(d)) == ids
  {
    var k := Position(ids, id);
    var i := if d.Up? then k - 1 else k;
    var s := SwapAt(ids, i);
    SwapTwice(ids, i);
    assert Distinct(s);
    PositionIs(s, if d.Up? then k - 1 else k + 1);
  }

  /** The opposite arrow undoes an effective move. */
  lemma OppositeRestores(rows: seq<Role>, r: Role, d: Direction)
    requires UniqueIds(rows) && r in rows
    requires MoveBy(OrderedSiblings(rows, r.parent), r.id, d) != OrderedSiblings(rows, r.parent)
    ensures var rows' := Reorder(rows, r.id, d).1;
            && OrderedSiblings(Reorder(rows', r.id, Opposite(d)).1, r.parent) == OrderedSiblings(rows, r.parent)
  {
    var rows', before := Reorder(rows, r.id, d).1, OrderedSiblings(rows, r.parent);
    ReorderIsTransposition(rows, r, d);
    SameIdSameRow(rows, r, Find(rows, r.id).value);
    RenumberMembers(rows, MoveBy(before, r.id, d));
    var r' := Renumbered(r, MoveBy(before, r.id, d));
    assert r' in rows' && r'.id == r.id && r'.parent == r.parent;
    ReorderIsTransposition(rows', r', Opposite(d));
    OrderedLists(rows, r.parent);
    MoveBackByHand(before, r.id, d);
  }
}
