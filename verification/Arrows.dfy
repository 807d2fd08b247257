/** The arrows beside a role: what they do to the lists the chart shows, and exactly when that is what they promise. */
module Arrows {
  import opened Lists
  import opened Graph
  import opened Roles
  import opened Queries
  import opened Tree
  import opened Chart
  import opened Reordering
  import Layout
  import Runs

  // ----- the lists the chart shows -----

  /** The rows of one shown list: the children of a chart role, or the roots, whatever parents these name. */
  function ShownRows(rows: seq<Role>, list: Option<int>): seq<Role> {
    match list
    case Some(p) => KidRows(ChartRows(rows), p)
    case None => TopRows(ChartRows(rows))
  }

  function Shown(rows: seq<Role>, list: Option<int>): seq<int> {
    Ids(Sort(ShownRows(rows, list), ChartRank))
  }

  /** The list a role is shown in: a parent that is off the chart leaves it among the roots. */
  function ListOf(rows: seq<Role>, r: Role): Option<int> {
    if r.parent.Some? && r.parent.value in IdSet(ChartRows(rows)) then r.parent else None
  }

  /** The list of ids in which `id` stands in the assembled tree. */
  function ListIn(f: seq<Node>, id: int): Option<seq<int>>
    decreases f, 1
  {
    if id in Layout.NodeIds(f) then Some(Layout.NodeIds(f)) else ListBelow(f, id)
  }

  function ListBelow(f: seq<Node>, id: int): Option<seq<int>>
    decreases f, 0
  {
    if f == [] then None
    else
      var first := ListIn(f[0].children, id);
      if first.Some? then first else ListBelow(f[1..], id)
  }

  lemma {:induction false} MirrorAt(rows: seq<Role>, holders: seq<Holder>, f: seq<Node>, shown: seq<Role>, i: nat)
    requires Mirrors(rows, holders, f, shown) && i < |f|
    ensures f[i].id == shown[i].id
  {
    if i > 0 { MirrorAt(rows, holders, f[1..], shown[1..], i - 1); }
  }

  lemma MirrorIds(rows: seq<Role>, holders: seq<Holder>, f: seq<Node>, shown: seq<Role>)
    requires Mirrors(rows, holders, f, shown)
    ensures Layout.NodeIds(f) == Ids(shown)
  {
    forall i | 0 <= i < |f| ensures f[i].id == shown[i].id {
      MirrorAt(rows, holders, f, shown, i);
    }
  }

  /** A list found among the children of some node is that of the role's own parent. */
  lemma {:induction false} FoundBelow(rows: seq<Role>, holders: seq<Holder>, f: seq<Node>, shown: seq<Role>, r: Role)
    requires UniqueIds(rows) && Mirrors(rows, holders, f, shown) && r in rows && ListBelow(f, r.id).Some?
    ensures r.parent.Some? && ListBelow(f, r.id).value == Ids(SortedKids(rows, r.parent.value))
    decreases f, 0
  {
    var kids := SortedKids(rows, shown[0].id);
    if ListIn(f[0].children, r.id).Some? {
      if r.id in Layout.NodeIds(f[0].children) {
        MirrorIds(rows, holders, f[0].children, kids);
        var i :| 0 <= i < |kids| && Ids(kids)[i] == r.id;
        assert kids[i] in kids && kids[i] in KidRows(rows, shown[0].id);
        SameIdSameRow(rows, r, kids[i]);
      } else {
        FoundBelow(rows, holders, f[0].children, kids, r);
      }
    } else {
      FoundBelow(rows, holders, f[1..], shown[1..], r);
    }
  }

  lemma {:induction false} FlatIsListed(f: seq<Node>, id: int)
    requires id in FlatIds(f)
    ensures ListIn(f, id).Some?
  {
    if id != f[0].id {
      if id in FlatIds(f[0].children) {
        FlatIsListed(f[0].children, id);
      } else {
        FlatIsListed(f[1..], id);
        if id in Layout.NodeIds(f[1..]) {
          var i :| 0 <= i < |f[1..]| && Layout.NodeIds(f[1..])[i] == id;
          assert Layout.NodeIds(f)[i + 1] == id;
        }
      }
    } else {
      assert Layout.NodeIds(f)[0] == id;
    }
  }

  /** On an acyclic chart a role stands in the assembled tree in exactly the list called its own here. */
  lemma ShownIsTheTree(rows: seq<Role>, holders: seq<Holder>, r: Role)
    requires UniqueIds(rows) && Acyclic(ChartUp(rows)) && r in rows && r.onChart
    ensures ListIn(Forest(ChartRows(rows), holders), r.id) == Some(Shown(rows, ListOf(rows, r)))
  {
    var chart := ChartRows(rows);
    var f, tops := Forest(chart, holders), SortedTops(chart);
    FilterKeepsIdsUnique(rows, OnChart);
    ForestMirrorsAcyclicRows(chart, holders);
    ForestShowsEachRoleOnce(chart, holders);
    MirrorIds(chart, holders, f, tops);
    assert r in chart && r.id in IdSet(chart);
    FlatIsListed(f, r.id);
    if r.id in Layout.NodeIds(f) {
      var i :| 0 <= i < |tops| && Ids(tops)[i] == r.id;
      assert tops[i] in tops && tops[i] in TopRows(chart);
      SameIdSameRow(chart, r, tops[i]);
    } else {
      FoundBelow(chart, holders, f, tops, r);
      if IsTop(chart, r) { TopIsListed(chart, r); }
    }
  }

  lemma TopIsListed(chart: seq<Role>, r: Role)
    requires r in chart && IsTop(chart, r)
    ensures r.id in Ids(SortedTops(chart))
  {
    assert TopIn(chart)(r) && r in TopRows(chart) && r in SortedTops(chart);
  }

  // ----- shown lists and groups of siblings -----

  lemma {:induction false} FilterTwice(s: seq<Role>, one: Role -> bool, two: Role -> bool, both: Role -> bool)
    requires forall x | x in s :: both(x) <==> one(x) && two(x)
    ensures Filter(Filter(s, one), two) == Filter(s, both)
  {
    if s != [] {
      assert forall x | x in s[1..] :: x in s;
      FilterTwice(s[1..], one, two, both);
      if one(s[0]) { assert ([s[0]] + Filter(s[1..], one))[1..] == Filter(s[1..], one); }
    }
  }

  lemma IsShown(rows: seq<Role>, list: Option<int>, x: Role)
    requires list.Some? ==> list.value in IdSet(ChartRows(rows))
    ensures x in ShownRows(rows, list) <==> x in rows && x.onChart && ListOf(rows, x) == list
  {
    if x in ShownRows(rows, list) { assert x in ChartRows(rows); }
    if x in rows && x.onChart { assert x in ChartRows(rows); }
  }

  /** In the list a role is shown in, the siblings under its parent are a part. */
  lemma GroupIsPart(rows: seq<Role>, r: Role)
    ensures Filter(ShownRows(rows, ListOf(rows, r)), SiblingOf(r.parent)) == Siblings(rows, r.parent)
  {
    var list, chart := ListOf(rows, r), ChartRows(rows);
    var inList := if list.Some? then ChildOf(list.value) else TopIn(chart);
    forall x | x in chart ensures SiblingOf(r.parent)(x) <==> inList(x) && SiblingOf(r.parent)(x) {
    }
    FilterTwice(chart, inList, SiblingOf(r.parent), SiblingOf(r.parent));
    FilterTwice(rows, OnChart, SiblingOf(r.parent), SiblingOf(r.parent));
  }

  ghost predicate OneParent(s: seq<Role>) {
    forall x, y | x in s && y in s :: x.parent == y.parent
  }

  /** A list whose roles all name one parent is the group of that parent's siblings. */
  lemma ListIsGroup(rows: seq<Role>, list: Option<int>, x: Role)
    requires list.Some? ==> list.value in IdSet(ChartRows(rows))
    requires x in ShownRows(rows, list) && OneParent(ShownRows(rows, list))
    ensures ShownRows(rows, list) == Siblings(rows, x.parent)
  {
    IsShown(rows, list, x);
    GroupIsPart(rows, x);
    FilterAll(ShownRows(rows, list), SiblingOf(x.parent));
  }

  // ----- what a reorder does to the lists -----

  lemma SamePlacesSameLists(rows: seq<Role>, rows': seq<Role>, i: int)
    requires Runs.SamePlaces(rows, rows') && 0 <= i < |rows|
    ensures ListOf(rows', rows'[i]) == ListOf(rows, rows[i])
    ensures IdSet(ChartRows(rows')) == IdSet(ChartRows(rows))
  {
    forall id ensures id in IdSet(ChartRows(rows')) <==> id in IdSet(ChartRows(rows)) {
      if id in IdSet(ChartRows(rows)) {
        var x :| x in ChartRows(rows) && x.id == id;
        var k :| 0 <= k < |rows| && rows[k] == x;
        assert rows'[k] in ChartRows(rows');
      }
      if id in IdSet(ChartRows(rows')) {
        var x :| x in ChartRows(rows') && x.id == id;
        var k :| 0 <= k < |rows'| && rows'[k] == x;
        assert rows[k] in ChartRows(rows);
      }
    }
  }

  /** The row after a reorder, in the same list under the same parent. */
  lemma ReorderedRow(rows: seq<Role>, id: int, d: Direction, list: Option<int>, x: Role) returns (x': Role)
    requires UniqueIds(rows) && (list.Some? ==> list.value in IdSet(ChartRows(rows))) && x in ShownRows(rows, list)
    ensures x' in ShownRows(Reorder(rows, id, d).1, list) && x'.parent == x.parent && x'.id == x.id
    ensures list.Some? ==> list.value in IdSet(ChartRows(Reorder(rows, id, d).1))
  {
    var rows' := Reorder(rows, id, d).1;
    Runs.ReorderKeepsPlaces(rows, id, d);
    IsShown(rows, list, x);
    var i :| 0 <= i < |rows| && rows[i] == x;
    SamePlacesSameLists(rows, rows', i);
    x' := rows'[i];
    assert x' in rows';
    IsShown(rows', list, x');
  }

  lemma ReorderKeepsOneParent(rows: seq<Role>, id: int, d: Direction, list: Option<int>)
    requires UniqueIds(rows) && (list.Some? ==> list.value in IdSet(ChartRows(rows)))
    requires OneParent(ShownRows(rows, list))
    ensures OneParent(ShownRows(Reorder(rows, id, d).1, list))
  {
    var rows' := Reorder(rows, id, d).1;
    Runs.ReorderKeepsPlaces(rows, id, d);
    forall x', y' | x' in ShownRows(rows', list) && y' in ShownRows(rows', list) ensures x'.parent == y'.parent {
      var x := RowBefore(rows, rows', list, x');
      var y := RowBefore(rows, rows', list, y');
    }
  }

  lemma RowBefore(rows: seq<Role>, rows': seq<Role>, list: Option<int>, x': Role) returns (x: Role)
    requires Runs.SamePlaces(rows, rows') && (list.Some? ==> list.value in IdSet(ChartRows(rows)))
    requires x' in ShownRows(rows', list)
    ensures x in ShownRows(rows, list) && x.parent == x'.parent
  {
    assert x' in ChartRows(rows') && x' in rows';
    var i :| 0 <= i < |rows'| && rows'[i] == x';
    SamePlacesSameLists(rows, rows', i);
    x := rows[i];
    IsShown(rows', list, x');
    IsShown(rows, list, x);
  }

  /**
   In the list where the role is shown, an effective reorder leaves the siblings under its parent in
   the exchanged order.
   */
  lemma ReorderIsShown(rows: seq<Role>, r: Role, d: Direction)
    requires UniqueIds(rows) && r in rows && r.onChart
    requires MoveBy(OrderedSiblings(rows, r.parent), r.id, d) != OrderedSiblings(rows, r.parent)
    ensures Ids(Filter(Sort(ShownRows(Reorder(rows, r.id, d).1, ListOf(rows, r)), ChartRank), SiblingOf(r.parent)))
         == MoveBy(OrderedSiblings(rows, r.parent), r.id, d)
  {
    var list, rows' := ListOf(rows, r), Reorder(rows, r.id, d).1;
    ReorderIsTransposition(rows, r, d);
    Runs.ReorderKeepsPlaces(rows, r.id, d);
    var i :| 0 <= i < |rows| && rows[i] == r;
    SamePlacesSameLists(rows, rows', i);
    GroupIsPart(rows', rows'[i]);
    SortFilter(ShownRows(rows', list), ChartRank, SiblingOf(r.parent));
  }

  // ----- arrows among the siblings of one parent -----

  /** Siblings of equal order come in name order in the rows. */
  ghost predicate TiesByName(sibs: seq<Role>) {
    forall i, j | 0 <= i < j < |sibs| && OrderValue(sibs[i]) == OrderValue(sibs[j]) ::
      sibs[i].collation <= sibs[j].collation
  }

  lemma {:induction false} InsertAlike(x: Role, t: seq<Role>)
    requires forall y | y in t && OrderValue(y) == OrderValue(x) :: x.collation <= y.collation
    ensures Insert(x, t, ChartRank) == Insert(x, t, OrderRank)
  {
    if t != [] {
      InsertAlike(x, t[1..]);
    }
  }

  lemma {:induction false} TiesByNameSortAlike(sibs: seq<Role>)
    requires TiesByName(sibs)
    ensures Sort(sibs, ChartRank) == Sort(sibs, OrderRank)
  {
    if sibs != [] {
      TiesByNameSortAlike(sibs[1..]);
      InsertAlike(sibs[0], Sort(sibs[1..], OrderRank));
    }
  }

  lemma FirstTiesByName(x: Role, rest: seq<Role>, y: Role)
    requires x !in rest && Distinct(rest) && Sort([x] + rest, ChartRank) == Sort([x] + rest, OrderRank)
    requires y in rest && OrderValue(y) == OrderValue(x)
    ensures x.collation <= y.collation
  {
    assert ([x] + rest)[1..] == rest;
    SortSorted(rest, OrderRank);
    SortSorted([x] + rest, ChartRank);
    InsertPrecedes(x, Sort(rest, OrderRank), OrderRank, y);
  }

  lemma RestSortsAlike(x: Role, rest: seq<Role>)
    requires x !in rest && Sort([x] + rest, ChartRank) == Sort([x] + rest, OrderRank)
    ensures Sort(rest, ChartRank) == Sort(rest, OrderRank)
  {
    var others := (r: Role) => r != x;
    FilterAppend([x], rest, others);
    FilterNone([x], others);
    FilterAll(rest, others);
    assert [] + rest == rest;
    SortFilter([x] + rest, ChartRank, others);
    SortFilter([x] + rest, OrderRank, others);
  }

  lemma {:induction false} SortAlikeTiesByName(sibs: seq<Role>)
    requires Distinct(sibs) && Sort(sibs, ChartRank) == Sort(sibs, OrderRank)
    ensures TiesByName(sibs)
  {
    if sibs != [] {
      var x, rest := sibs[0], sibs[1..];
      assert sibs == [x] + rest;
      DistinctParts([x], rest);
      assert x in [x];
      RestSortsAlike(x, rest);
      SortAlikeTiesByName(rest);
      forall y | y in rest && OrderValue(y) == OrderValue(x) ensures x.collation <= y.collation {
        FirstTiesByName(x, rest, y);
      }
    }
  }

  /** Among the siblings of one parent, each arrow exchanges one with its neighbour in the chart's order. */
  ghost predicate SiblingArrowsWork(rows: seq<Role>, parent: Option<int>) {
    forall r, d | r in Siblings(rows, parent) ::
      RankedSiblings(Reorder(rows, r.id, d).1, parent) == MoveBy(RankedSiblings(rows, parent), r.id, d)
  }

  lemma IdsInjective(rows: seq<Role>, s: seq<Role>, t: seq<Role>)
    requires UniqueIds(rows) && Ids(s) == Ids(t)
    requires forall x | x in s || x in t :: x in rows
    ensures s == t
  {
    forall i | 0 <= i < |s| ensures s[i] == t[i] {
      assert s[i].id == Ids(s)[i] == Ids(t)[i] == t[i].id;
      assert s[i] in s && t[i] in t;
      SameIdSameRow(rows, s[i], t[i]);
    }
  }

  /** The arrows reveal the sort order: two of them fix it. */
  lemma ArrowsFixOrder(rows: seq<Role>, parent: Option<int>)
    requires UniqueIds(rows) && SiblingArrowsWork(rows, parent)
    ensures RankedSiblings(rows, parent) == OrderedSiblings(rows, parent)
  {
    var shown, sorted := RankedSiblings(rows, parent), OrderedSiblings(rows, parent);
    OrderedLists(rows, parent);
    if |sorted| > 0 {
      FirstIsShownFirst(rows, parent);
      if |sorted| > 1 {
        SecondArrow(rows, parent);
      }
    }
  }

  lemma SiblingAt(rows: seq<Role>, parent: Option<int>, k: nat) returns (r: Role)
    requires UniqueIds(rows) && k < |OrderedSiblings(rows, parent)|
    ensures r in Siblings(rows, parent) && r in rows && r.parent == parent
    ensures r.id == OrderedSiblings(rows, parent)[k]
  {
    var sorted := Sort(Siblings(rows, parent), OrderRank);
    r := sorted[k];
    assert r in sorted;
  }

  lemma FirstIsShownFirst(rows: seq<Role>, parent: Option<int>)
    requires UniqueIds(rows) && SiblingArrowsWork(rows, parent) && OrderedSiblings(rows, parent) != []
    ensures RankedSiblings(rows, parent) != [] && RankedSiblings(rows, parent)[0] == OrderedSiblings(rows, parent)[0]
  {
    var shown, sorted := RankedSiblings(rows, parent), OrderedSiblings(rows, parent);
    OrderedLists(rows, parent);
    var a := SiblingAt(rows, parent, 0);
    ReorderIsTransposition(rows, a, Up);
    PositionIs(sorted, 0);
    assert MoveBy(sorted, a.id, Up) == sorted;
    assert MoveBy(shown, a.id, Up) == shown;
    assert a.id in shown;
    UpChanges(shown, a.id);
  }

  lemma UpChanges(ids: seq<int>, id: int)
    requires Distinct(ids)
    ensures 0 < Position(ids, id) < |ids| ==> MoveBy(ids, id, Up) != ids
  {
    var k := Position(ids, id);
    if 0 < k < |ids| {
      assert SwapAt(ids, k - 1)[k] == ids[k - 1] != ids[k];
    }
  }

  lemma SecondArrow(rows: seq<Role>, parent: Option<int>)
    requires UniqueIds(rows) && SiblingArrowsWork(rows, parent) && |OrderedSiblings(rows, parent)| > 1
    requires RankedSiblings(rows, parent) != [] && RankedSiblings(rows, parent)[0] == OrderedSiblings(rows, parent)[0]
    ensures RankedSiblings(rows, parent) == OrderedSiblings(rows, parent)
  {
    var shown, sorted := RankedSiblings(rows, parent), OrderedSiblings(rows, parent);
    OrderedLists(rows, parent);
    var b := SiblingAt(rows, parent, 1);
    PositionIs(sorted, 1);
    ReorderIsTransposition(rows, b, Up);
    assert b.id in shown && SwapAt(sorted, 0)[1] == sorted[0] != sorted[1];
    SwapPinsOrder(shown, sorted);
  }

  lemma SwapPinsOrder(shown: seq<int>, sorted: seq<int>)
    requires Distinct(sorted) && |sorted| > 1 && sorted[1] in shown && shown[0] == sorted[0]
    requires Position(sorted, sorted[1]) == 1 && MoveBy(shown, sorted[1], Up) == MoveBy(sorted, sorted[1], Up)
    ensures shown == sorted
  {
    var k, after := Position(shown, sorted[1]), SwapAt(sorted, 0);
    assert SwapAt(shown, k - 1) == after && after[0] == sorted[1] != sorted[0];
    assert k == 1;
    SwapTwice(shown, 0);
    SwapTwice(sorted, 0);
  }

  lemma SiblingArrowsIffTiesByName(rows: seq<Role>, parent: Option<int>)
    requires UniqueIds(rows)
    ensures SiblingArrowsWork(rows, parent) <==> TiesByName(Siblings(rows, parent))
  {
    var sibs := Siblings(rows, parent);
    if SiblingArrowsWork(rows, parent) {
      ArrowsFixOrder(rows, parent);
      IdsInjective(rows, Sort(sibs, ChartRank), Sort(sibs, OrderRank));
      UniqueIsDistinct(rows);
      FilterDistinct(rows, SiblingOf(parent));
      SortAlikeTiesByName(sibs);
    }
    if TiesByName(sibs) {
      TiesByNameSortAlike(sibs);
      forall r, d | r in sibs
        ensures RankedSiblings(Reorder(rows, r.id, d).1, parent) == MoveBy(RankedSiblings(rows, parent), r.id, d) {
        ReorderIsTransposition(rows, r, d);
      }
    }
  }

  // ----- arrows on what is shown -----

  /** What the page promises: each arrow exchanges a role with the neighbour it is shown beside. */
  ghost predicate ArrowsWork(rows: seq<Role>, list: Option<int>) {
    forall r, d | r in ShownRows(rows, list) ::
      Shown(Reorder(rows, r.id, d).1, list) == MoveBy(Shown(rows, list), r.id, d)
  }

  /** Every parent's first sibling has an arrow up that does nothing, so it is shown first. */
  lemma FirstOfGroupIsFirst(rows: seq<Role>, list: Option<int>, x: Role) returns (first: Role)
    requires UniqueIds(rows) && (list.Some? ==> list.value in IdSet(ChartRows(rows)))
    requires x in ShownRows(rows, list) && ArrowsWork(rows, list)
    ensures first in rows && first.parent == x.parent
    ensures Shown(rows, list) != [] && Shown(rows, list)[0] == first.id
  {
    IsShown(rows, list, x);
    OrderedLists(rows, x.parent);
    assert IsSibling(rows, x.parent, x.id);
    first := SiblingAt(rows, x.parent, 0);
    IsShown(rows, list, first);
    ReorderIsTransposition(rows, first, Up);
    PositionIs(OrderedSiblings(rows, x.parent), 0);
    ShownIsDistinct(rows, list);
    ShownHas(rows, list, first);
    assert MoveBy(Shown(rows, list), first.id, Up) == Shown(rows, list);
    UpChanges(Shown(rows, list), first.id);
  }

  lemma ShownIsDistinct(rows: seq<Role>, list: Option<int>)
    requires UniqueIds(rows)
    ensures Distinct(Shown(rows, list))
  {
    var s, sorted := ShownRows(rows, list), Sort(ShownRows(rows, list), ChartRank);
    FilterKeepsIdsUnique(rows, OnChart);
    FilterKeepsIdsUnique(ChartRows(rows), if list.Some? then ChildOf(list.value) else TopIn(ChartRows(rows)));
    UniqueIsDistinct(s);
    SortDistinct(s, ChartRank);
    forall i, j | 0 <= i < j < |sorted| ensures sorted[i].id != sorted[j].id {
      assert sorted[i] in s && sorted[j] in s;
      if sorted[i].id == sorted[j].id { SameIdSameRow(s, sorted[i], sorted[j]); }
    }
  }

  lemma ShownHas(rows: seq<Role>, list: Option<int>, x: Role)
    requires x in ShownRows(rows, list)
    ensures x.id in Shown(rows, list)
  {
    assert x in Sort(ShownRows(rows, list), ChartRank);
  }

  lemma WorkingArrowsHaveOneParent(rows: seq<Role>, list: Option<int>)
    requires UniqueIds(rows) && (list.Some? ==> list.value in IdSet(ChartRows(rows))) && ArrowsWork(rows, list)
    ensures OneParent(ShownRows(rows, list))
  {
    forall x, y | x in ShownRows(rows, list) && y in ShownRows(rows, list) ensures x.parent == y.parent {
      var a := FirstOfGroupIsFirst(rows, list, x);
      var b := FirstOfGroupIsFirst(rows, list, y);
      SameIdSameRow(rows, a, b);
    }
  }

  /** On a list that is one group of siblings, the arrows do to what is shown what they do to the group. */
  lemma OneParentArrows(rows: seq<Role>, list: Option<int>, x: Role)
    requires UniqueIds(rows) && (list.Some? ==> list.value in IdSet(ChartRows(rows)))
    requires x in ShownRows(rows, list) && OneParent(ShownRows(rows, list))
    ensures ArrowsWork(rows, list) <==> SiblingArrowsWork(rows, x.parent)
  {
    ListIsGroup(rows, list, x);
    forall r, d | r in ShownRows(rows, list)
      ensures Shown(Reorder(rows, r.id, d).1, list) == RankedSiblings(Reorder(rows, r.id, d).1, x.parent) {
      ReorderKeepsOneParent(rows, r.id, d, list);
      var x' := ReorderedRow(rows, r.id, d, list, x);
      ListIsGroup(Reorder(rows, r.id, d).1, list, x');
    }
  }

  /**
   The arrows of a shown list exchange what they stand beside exactly when its roles all name one parent and come in
   name order where their orders tie: the reorder only sees the siblings under a role's own parent, and breaks ties by
   row order.
   */
  lemma ArrowsWorkIff(rows: seq<Role>, list: Option<int>)
    requires UniqueIds(rows) && (list.Some? ==> list.value in IdSet(ChartRows(rows)))
    ensures ArrowsWork(rows, list) <==> OneParent(ShownRows(rows, list)) && TiesByName(ShownRows(rows, list))
  {
    if ArrowsWork(rows, list) { WorkingArrowsHaveOneParent(rows, list); }
    if OneParent(ShownRows(rows, list)) && ShownRows(rows, list) != [] {
      var x := ShownRows(rows, list)[0];
      assert x in ShownRows(rows, list);
      OneParentArrows(rows, list, x);
      ListIsGroup(rows, list, x);
      SiblingArrowsIffTiesByName(rows, x.parent);
    }
  }

  // ----- both conditions can fail -----

  const ELDERS := Role(1, Elder, "Anciens", 0, "", true, false, None, Some(5), true)

  /** Service « C », then « D » with « B » beneath it. */
  const C_ROW := Role(2, Custom("c"), "C", 2, "", false, false, Some(1), Some(5), true)
  const D_ROW := Role(4, Custom("d"), "D", 3, "", false, false, Some(1), Some(10), true)
  const B_ROW := Role(3, Custom("b"), "B", 1, "", false, false, Some(4), Some(5), true)

  /** « B » lifted beside « C », with the same order, and « D » off the chart. */
  const LIFTED_ROW := B_ROW.(parent := Some(1))
  const GONE_ROW := D_ROW.(onChart := false, parent := None, order := None)
  const TIED: seq<Role> := [ELDERS, C_ROW, GONE_ROW, LIFTED_ROW]

  lemma TiedByRemoval()
    ensures Remove([ELDERS, C_ROW, D_ROW, B_ROW], 4) == (Done, TIED)
    ensures forall r | r in TIED :: ParentKnown(TIED, r.parent)
  {
    var rows := [ELDERS, C_ROW, D_ROW, B_ROW];
    assert Find(rows, 4) == Some(D_ROW);
    assert LiftAll(rows, 4, Some(1)) == TIED;
    assert TIED[0].id == 1 && TIED[0] in TIED;
  }

  lemma FilterCons(x: Role, rest: seq<Role>, keep: Role -> bool)
    ensures Filter([x] + rest, keep) == (if keep(x) then [x] else []) + Filter(rest, keep)
  {
    assert ([x] + rest)[1..] == rest;
  }

  /** A filter over two and over four rows. */
  lemma FilterPair(x: Role, y: Role, keep: Role -> bool)
    ensures Filter([x, y], keep) == (if keep(x) then [x] else []) + (if keep(y) then [y] else [])
  {
    assert [x, y] == [x] + [y] && [y] == [y] + [];
    FilterCons(x, [y], keep);
    FilterCons(y, [], keep);
  }

  lemma FilterFour(w: Role, x: Role, y: Role, z: Role, keep: Role -> bool)
    ensures Filter([w, x, y, z], keep) == Filter([w, x], keep) + Filter([y, z], keep)
  {
    assert [w, x, y, z] == [w, x] + [y, z];
    FilterAppend([w, x], [y, z], keep);
  }

  /** Two rows of one order, stored against the order of their names. */
  lemma TiedPairSorts(c: Role, b: Role)
    requires OrderValue(c) == OrderValue(b) && b.collation < c.collation
    ensures Sort([c, b], ChartRank) == [b, c] && Sort([c, b], OrderRank) == [c, b]
  {
    assert [c, b][1..] == [b] && [b][1..] == [];
    assert Sort([b], ChartRank) == [b] && Sort([b], OrderRank) == [b];
    assert Insert(c, [], ChartRank) == [c];
  }

  lemma TiedPair()
    ensures Siblings(TIED, Some(1)) == [C_ROW, LIFTED_ROW]
  {
    FilterFour(ELDERS, C_ROW, GONE_ROW, LIFTED_ROW, SiblingOf(Some(1)));
    FilterPair(ELDERS, C_ROW, SiblingOf(Some(1)));
    FilterPair(GONE_ROW, LIFTED_ROW, SiblingOf(Some(1)));
  }

  lemma TiedList()
    ensures ShownRows(TIED, Some(1)) == Siblings(TIED, Some(1))
    ensures 1 in IdSet(ChartRows(TIED)) && UniqueIds(TIED) && C_ROW in TIED
  {
    FilterTwice(TIED, OnChart, ChildOf(1), SiblingOf(Some(1)));
    assert TIED[0] == ELDERS && ELDERS in TIED && ELDERS in ChartRows(TIED) && TIED[1] == C_ROW;
  }

  lemma IdsPair(x: Role, y: Role)
    ensures Ids([x, y]) == [x.id, y.id]
  {
  }

  lemma ShownPair(rows: seq<Role>, list: Option<int>, x: Role, y: Role)
    requires Sort(ShownRows(rows, list), ChartRank) == [x, y]
    ensures Shown(rows, list) == [x.id, y.id]
  {
    IdsPair(x, y);
  }

  lemma UpOfFirst(rows: seq<Role>, r: Role)
    requires UniqueIds(rows) && r in rows && OrderedSiblings(rows, r.parent) != []
    requires OrderedSiblings(rows, r.parent)[0] == r.id
    ensures Reorder(rows, r.id, Up).1 == rows
  {
    ReorderIsTransposition(rows, r, Up);
    OrderedLists(rows, r.parent);
    PositionIs(OrderedSiblings(rows, r.parent), 0);
  }

  /**
   A list of two siblings with one order, stored against their names: the arrow up of the one shown
   last does nothing.
   */
  lemma TiedArrow(rows: seq<Role>, list: Option<int>, c: Role, b: Role)
    requires UniqueIds(rows) && (list.Some? ==> list.value in IdSet(ChartRows(rows)))
    requires c in rows && b.parent == c.parent && OrderValue(c) == OrderValue(b) && b.collation < c.collation
    requires ShownRows(rows, list) == Siblings(rows, c.parent) == [c, b]
    ensures Shown(rows, list) == [b.id, c.id] && Reorder(rows, c.id, Up).1 == rows
    ensures OneParent(ShownRows(rows, list)) && !ArrowsWork(rows, list)
  {
    TiedPairSorts(c, b);
    IdsPair(c, b);
    UpOfFirst(rows, c);
    TiedListFails(rows, list, c, b);
    ShownPair(rows, list, b, c);
  }

  lemma TiedListFails(rows: seq<Role>, list: Option<int>, c: Role, b: Role)
    requires UniqueIds(rows) && (list.Some? ==> list.value in IdSet(ChartRows(rows))) && ShownRows(rows, list) == [c, b]
    requires b.parent == c.parent && OrderValue(c) == OrderValue(b) && b.collation < c.collation
    ensures OneParent(ShownRows(rows, list)) && !ArrowsWork(rows, list)
  {
    TiesFail(c, b);
    ArrowsWorkIff(rows, list);
  }

  /** A chart left by a removal: shown « B » then « C », the arrow that should lift « C » does nothing at all. */
  lemma AnArrowCanDoNothing()
    ensures Remove([ELDERS, C_ROW, D_ROW, B_ROW], 4).1 == TIED && forall r | r in TIED :: ParentKnown(TIED, r.parent)
    ensures Shown(TIED, Some(1)) == [3, 2] && Reorder(TIED, 2, Up).1 == TIED
    ensures OneParent(ShownRows(TIED, Some(1))) && !ArrowsWork(TIED, Some(1))
  {
    TiedByRemoval();
    TiedPair();
    TiedList();
    TiedArrow(TIED, Some(1), C_ROW, LIFTED_ROW);
  }

  lemma TiesFail(c: Role, b: Role)
    requires OrderValue(c) == OrderValue(b) && b.collation < c.collation
    ensures !TiesByName([c, b])
  {
    var s := [c, b];
    assert OrderValue(s[0]) == OrderValue(s[1]) && s[0].collation > s[1].collation;
  }

  /** A service whose parent is off the chart, and so stands among the roots. */
  const UNPLACED := Role(9, Custom("q"), "Q", 9, "", false, false, None, None, false)
  const STRAY := Role(10, Custom("x"), "X", 10, "", false, false, Some(9), Some(5), true)
  const LOOSE := STRAY.(onChart := false, parent := None, order := None)
  const STRAYED: seq<Role> := [ELDERS, UNPLACED, STRAY]

  lemma OnlyRootLinked(rows: seq<Role>)
    requires UniqueIds(rows) && ChartRows(rows) == [ELDERS]
    ensures UniqueLinks(ChartLinks(rows))
    ensures ChainFrom(ChartLinks(rows), Some(9)) == [9] && SubtreeHeight(ChartLinks(rows), 10) == 0
  {
    ChartLinksUnique(rows);
    assert ChartLinks(rows) == [TreeLink(1, None)];
    assert [TreeLink(1, None)][1..] == [];
    assert LinkChildren(ChartLinks(rows), 10) == [];
  }

  lemma StrayIsAccepted(rows: seq<Role>)
    requires UniqueIds(rows) && ChartRows(rows) == [ELDERS]
    ensures DecideParent(rows, LOOSE, Some(9)) == Done
  {
    OnlyRootLinked(rows);
  }

  lemma FilterThree(x: Role, y: Role, z: Role, keep: Role -> bool)
    ensures Filter([x, y, z], keep)
         == (if keep(x) then [x] else []) + (if keep(y) then [y] else []) + (if keep(z) then [z] else [])
  {
    assert [x, y, z] == [x] + [y, z];
    FilterCons(x, [y, z], keep);
    FilterPair(y, z, keep);
  }

  lemma LooseChart(rows: seq<Role>)
    requires rows == [ELDERS, UNPLACED, LOOSE]
    ensures ChartRows(rows) == [ELDERS] && Siblings(rows, Some(9)) == []
  {
    FilterThree(ELDERS, UNPLACED, LOOSE, OnChart);
    FilterThree(ELDERS, UNPLACED, LOOSE, SiblingOf(Some(9)));
  }

  lemma StrayIsPut(rows: seq<Role>)
    requires rows == [ELDERS, UNPLACED, LOOSE] && Siblings(rows, Some(9)) == []
    ensures Put(rows, Attached(rows, LOOSE, Some(9))) == STRAYED
  {
  }

  lemma StrayedByAddition(rows: seq<Role>)
    requires rows == [ELDERS, UNPLACED, LOOSE]
    ensures UniqueIds(rows) && Add(rows, 10, Some(9)) == (Done, STRAYED)
  {
    LooseChart(rows);
    StrayIsAccepted(rows);
    StrayIsPut(rows);
    assert rows[1] in rows && rows[2] in rows && Find(rows, 10).Some? && Find(rows, 9).Some?;
    SameIdSameRow(rows, Find(rows, 10).value, LOOSE);
  }

  lemma StrayedChart()
    ensures ChartRows(STRAYED) == [ELDERS, STRAY] && Siblings(STRAYED, Some(9)) == [STRAY]
  {
    FilterThree(ELDERS, UNPLACED, STRAY, OnChart);
    FilterThree(ELDERS, UNPLACED, STRAY, SiblingOf(Some(9)));
  }

  lemma StrayedRoots()
    ensures ShownRows(STRAYED, None) == [ELDERS, STRAY]
  {
    StrayedChart();
    FilterAll([ELDERS, STRAY], TopIn([ELDERS, STRAY]));
  }

  lemma PairSorts(x: Role, y: Role)
    requires OrderValue(x) == OrderValue(y) && x.collation < y.collation
    ensures Sort([x, y], ChartRank) == [x, y] && Sort([y], OrderRank) == [y] && TiesByName([x, y])
  {
    assert [x, y][1..] == [y] && [y][1..] == [];
    assert Sort([y], ChartRank) == [y];
  }

  lemma TwoParents(x: Role, y: Role)
    requires x.parent != y.parent
    ensures !OneParent([x, y])
  {
    assert x in [x, y] && y in [x, y];
  }

  /** Two roots of different parents: the second, alone under its own, has an arrow up that does nothing. */
  lemma StrayArrow(rows: seq<Role>, x: Role, y: Role)
    requires UniqueIds(rows) && y in rows && x.parent != y.parent
    requires OrderValue(x) == OrderValue(y) && x.collation < y.collation
    requires ShownRows(rows, None) == [x, y] && Siblings(rows, y.parent) == [y]
    ensures Shown(rows, None) == [x.id, y.id] && Reorder(rows, y.id, Up).1 == rows
    ensures TiesByName(ShownRows(rows, None)) && !ArrowsWork(rows, None)
  {
    PairSorts(x, y);
    UpOfFirst(rows, y);
    TwoParents(x, y);
    ArrowsWorkIff(rows, None);
    ShownPair(rows, None, x, y);
  }

  /**
   Adding a role under one that is off the chart is accepted. It is shown second among the roots, but has no sibling
   under its own parent: its arrow up does nothing.
   */
  lemma AStrayCannotMove()
    ensures UniqueIds([ELDERS, UNPLACED, LOOSE]) && Add([ELDERS, UNPLACED, LOOSE], 10, Some(9)) == (Done, STRAYED)
    ensures forall r | r in STRAYED :: ParentKnown(STRAYED, r.parent)
    ensures Shown(STRAYED, None) == [1, 10] && Reorder(STRAYED, 10, Up).1 == STRAYED
    ensures TiesByName(ShownRows(STRAYED, None)) && !ArrowsWork(STRAYED, None)
  {
    StrayedByAddition([ELDERS, UNPLACED, LOOSE]);
    StrayedChart();
    StrayedRoots();
    assert UniqueIds(STRAYED) && STRAYED[1].id == 9 && STRAYED[1] in STRAYED && STRAYED[2] == STRAY;
    StrayArrow(STRAYED, ELDERS, STRAY);
  }
}
