/** The flat list behind the « move under » select, and the targets it offers. */
module Panel {
  import opened Lists
  import opened Graph
  import opened Roles
  import opened Queries
  import opened Tree
  import opened Chart
  import Grafting

  datatype FlatEntry = FlatEntry(id: int, name: string, depth: nat, parentId: Option<int>, parentName: Option<string>)

  /** Preorder with the depth each label is indented by. */
  function FlattenTree(f: seq<Node>, depth: nat, parent: Option<Node>): seq<FlatEntry> {
    if f == [] then []
    else
      [FlatEntry(f[0].id, f[0].name, depth,
                 if parent.Some? then Some(parent.value.id) else None,
                 if parent.Some? then Some(parent.value.name) else None)]
      + FlattenTree(f[0].children, depth + 1, Some(f[0]))
      + FlattenTree(f[1..], depth, parent)
  }

  function EntryIds(flat: seq<FlatEntry>): (ids: seq<int>)
    ensures |ids| == |flat| && forall i | 0 <= i < |flat| :: ids[i] == flat[i].id
  {
    seq(|flat|, i requires 0 <= i < |flat| => flat[i].id)
  }

  lemma {:induction false} FlattenIsPreorder(f: seq<Node>, depth: nat, parent: Option<Node>)
    ensures EntryIds(FlattenTree(f, depth, parent)) == FlatIds(f)
    decreases f
  {
    if f != [] {
      FlattenIsPreorder(f[0].children, depth + 1, Some(f[0]));
      FlattenIsPreorder(f[1..], depth, parent);
    }
  }

  /** The nodes of a forest in reading order. */
  function FlatNodes(f: seq<Node>): seq<Node> {
    if f == [] then [] else [f[0]] + FlatNodes(f[0].children) + FlatNodes(f[1..])
  }

  /** An entry is indented one level more than the entry it names as its parent, and not at all without one. */
  ghost predicate Indented(flat: seq<FlatEntry>, e: FlatEntry) {
    if e.parentId.None? then e.depth == 0 && e.parentName.None?
    else exists p :: p in flat && e.parentId == Some(p.id) && e.parentName == Some(p.name) && e.depth == p.depth + 1
  }

  lemma {:induction false} EntriesIndented(f: seq<Node>, depth: nat, parent: Option<Node>, all: seq<FlatEntry>)
    requires forall e | e in FlattenTree(f, depth, parent) :: e in all
    requires if parent.None? then depth == 0
             else exists p :: p in all && p.id == parent.value.id && p.name == parent.value.name && p.depth + 1 == depth
    ensures forall e | e in FlattenTree(f, depth, parent) :: Indented(all, e)
    decreases f
  {
    if f != [] {
      var flat := FlattenTree(f, depth, parent);
      assert flat[0] in flat;
      EntriesIndented(f[0].children, depth + 1, Some(f[0]), all);
      EntriesIndented(f[1..], depth, parent, all);
    }
  }

  ghost predicate EntriesOf(flat: seq<FlatEntry>, nodes: seq<Node>) {
    |flat| == |nodes| && forall i | 0 <= i < |flat| :: flat[i].id == nodes[i].id && flat[i].name == nodes[i].name
  }

  lemma EntriesJoin(a: seq<FlatEntry>, m: seq<Node>, b: seq<FlatEntry>, n: seq<Node>)
    requires EntriesOf(a, m) && EntriesOf(b, n)
    ensures EntriesOf(a + b, m + n)
  {
  }

  lemma {:induction false} EntriesShowNodes(f: seq<Node>, depth: nat, parent: Option<Node>)
    ensures EntriesOf(FlattenTree(f, depth, parent), FlatNodes(f))
    decreases f
  {
    if f != [] {
      EntriesShowNodes(f[0].children, depth + 1, Some(f[0]));
      EntriesShowNodes(f[1..], depth, parent);
      var head, below := FlattenTree(f, depth, parent)[..1], FlattenTree(f[0].children, depth + 1, Some(f[0]));
      EntriesJoin(head, [f[0]], below, FlatNodes(f[0].children));
      EntriesJoin(head + below, [f[0]] + FlatNodes(f[0].children),
                  FlattenTree(f[1..], depth, parent), FlatNodes(f[1..]));
    }
  }

  /** The flat list shows the tree's nodes in reading order, by id and name, each indented below its parent's entry. */
  lemma FlatListIsRight(f: seq<Node>)
    ensures var flat := FlattenTree(f, 0, None);
            EntriesOf(flat, FlatNodes(f)) && forall e | e in flat :: Indented(flat, e)
  {
    EntriesShowNodes(f, 0, None);
    EntriesIndented(f, 0, None, FlattenTree(f, 0, None));
  }

  function EntryLinks(flat: seq<FlatEntry>): seq<TreeLink> {
    seq(|flat|, i requires 0 <= i < |flat| => TreeLink(flat[i].id, flat[i].parentId))
  }

  /** The entry of a role says its row's parent, unless that parent is not shown. */
  ghost predicate Says(rows: seq<Role>, e: FlatEntry) {
    exists r :: r in rows && r.id == e.id && e.parentId == if IsTop(rows, r) then None else r.parent
  }

  lemma {:induction false} EntriesSay(
      rows: seq<Role>, holders: seq<Holder>, f: seq<Node>, shown: seq<Role>, depth: nat, parent: Option<Node>)
    requires Mirrors(rows, holders, f, shown)
    requires forall s | s in shown :: s in rows
    requires if parent.None? then forall s | s in shown :: IsTop(rows, s)
             else parent.value.id in IdSet(rows) && forall s | s in shown :: s.parent == Some(parent.value.id)
    ensures forall e | e in FlattenTree(f, depth, parent) :: Says(rows, e)
    decreases f
  {
    if f != [] {
      var n := f[0];
      assert shown[0] in shown && shown[0].id == n.id;
      EntriesSay(rows, holders, n.children, SortedKids(rows, n.id), depth + 1, Some(n));
      EntriesSay(rows, holders, f[1..], shown[1..], depth, parent);
      var head := FlattenTree(f, depth, parent)[0];
      assert Says(rows, head);
    }
  }

  lemma EntriesUnique(flat: seq<FlatEntry>)
    requires Distinct(EntryIds(flat))
    ensures UniqueLinks(EntryLinks(flat))
  {
    forall i, j | 0 <= i < j < |flat| ensures EntryLinks(flat)[i].id != EntryLinks(flat)[j].id {
      assert EntryIds(flat)[i] != EntryIds(flat)[j];
    }
  }

  /** The links read off the flat list are the chart's links between shown roles. */
  ghost predicate SameLinksWithin(ids: set<int>, up: Links, up': Links) {
    && (forall x | x in up' :: x in up && up'[x] == up[x] && up[x] in ids)
    && (forall x | x in up && up[x] in ids :: x in up')
    && up.Keys <= ids
  }

  lemma FlatLinks(rows: seq<Role>, holders: seq<Holder>)
    requires UniqueIds(rows) && Acyclic(ParentLinks(rows))
    ensures var flat := FlattenTree(Forest(rows, holders), 0, None);
            && UniqueLinks(EntryLinks(flat)) && (forall id :: id in EntryIds(flat) <==> id in IdSet(rows))
            && SameLinksWithin(IdSet(rows), ParentLinks(rows), LinkMap(EntryLinks(flat)))
  {
    var f := Forest(rows, holders);
    var flat := FlattenTree(f, 0, None);
    ForestMirrorsAcyclicRows(rows, holders);
    ForestShowsEachRoleOnce(rows, holders);
    FlattenIsPreorder(f, 0, None);
    TopsAreDistinct(rows);
    EntriesSay(rows, holders, f, SortedTops(rows), 0, None);
    EntriesUnique(flat);
    var up, up' := ParentLinks(rows), LinkMap(EntryLinks(flat));
    forall x | x in up' ensures x in up && up'[x] == up[x] && up[x] in IdSet(rows) {
      FlatLinkOut(rows, flat, x);
    }
    forall x | x in up && up[x] in IdSet(rows) ensures x in up' {
      FlatLinkIn(rows, flat, x);
    }
  }

  lemma FlatLinkOut(rows: seq<Role>, flat: seq<FlatEntry>, x: int)
    requires UniqueIds(rows) && UniqueLinks(EntryLinks(flat)) && forall e | e in flat :: Says(rows, e)
    requires x in LinkMap(EntryLinks(flat))
    ensures x in ParentLinks(rows) && LinkMap(EntryLinks(flat))[x] == ParentLinks(rows)[x]
    ensures ParentLinks(rows)[x] in IdSet(rows)
  {
    var links := EntryLinks(flat);
    var l :| l in links && l.id == x && l.parent == Some(LinkMap(links)[x]);
    var i :| 0 <= i < |links| && links[i] == l;
    assert flat[i] in flat && Says(rows, flat[i]);
  }

  lemma FlatLinkIn(rows: seq<Role>, flat: seq<FlatEntry>, x: int)
    requires UniqueIds(rows) && UniqueLinks(EntryLinks(flat)) && forall e | e in flat :: Says(rows, e)
    requires forall id | id in IdSet(rows) :: id in EntryIds(flat)
    requires x in ParentLinks(rows) && ParentLinks(rows)[x] in IdSet(rows)
    ensures x in LinkMap(EntryLinks(flat))
  {
    var r :| r in rows && r.id == x && r.parent == Some(ParentLinks(rows)[x]);
    assert x in EntryIds(flat);
    var i :| 0 <= i < |flat| && EntryIds(flat)[i] == x;
    assert Says(rows, flat[i]);
    var s :| s in rows && s.id == x && flat[i].parentId == if IsTop(rows, s) then None else s.parent;
    SameIdSameRow(rows, r, s);
    assert EntryLinks(flat)[i] in EntryLinks(flat);
  }

  /** Links that only lead out of `ids` do not matter to who is under whom inside. */
  lemma UnderWithin(ids: set<int>, up: Links, up': Links, x: int, y: int)
    requires SameLinksWithin(ids, up, up') && x in ids && y in ids
    ensures Under(up', x, y) <==> Under(up, x, y)
  {
    ChainIsLeast(up, x, iset z | z in up.Keys + up.Values + {x});
    ChainIsLeast(up', x, iset z | z in up'.Keys + up'.Values + {x});
    ChainIsLeast(up', x, iset z | z in Chain(up, x));
    ChainIsLeast(up, x, iset z | z in up.Keys + up.Values + {x} && (z in Chain(up', x) || z !in ids));
  }

  function NotAmong(ids: set<int>): FlatEntry -> bool { (e: FlatEntry) => e.id !in ids }

  method BuildMoveTargets(flat: seq<FlatEntry>, selected: Option<int>) returns (targets: seq<FlatEntry>)
    requires UniqueLinks(EntryLinks(flat))
    ensures forall e :: e in targets <==>
              e in flat && (selected.None? || !Under(LinkMap(EntryLinks(flat)), e.id, selected.value))
    ensures selected.None? ==> targets == flat
  {
    var forbidden := {};
    if selected.Some? {
      var below := DescendantIds(EntryLinks(flat), selected.value);
      forbidden := {selected.value} + (set d | d in below);
    }
    targets := Filter(flat, NotAmong(forbidden));
    if selected.None? {
      FilterAll(flat, NotAmong(forbidden));
    }
  }

  /** What the page offers for a shown role: exactly the shown roles the cycle check accepts. */
  lemma TargetsAreTheAcyclicOnes(rows: seq<Role>, holders: seq<Holder>, id: int, t: int)
    requires UniqueIds(rows) && Acyclic(ChartUp(rows))
    requires id in IdSet(ChartRows(rows)) && t in IdSet(ChartRows(rows))
    ensures UniqueIds(ChartRows(rows)) && UniqueLinks(ChartLinks(rows))
    ensures var flat := FlattenTree(Forest(ChartRows(rows), holders), 0, None);
            && UniqueLinks(EntryLinks(flat)) && t in EntryIds(flat)
            && (Under(LinkMap(EntryLinks(flat)), t, id) <==> id in ChainFrom(ChartLinks(rows), Some(t)))
  {
    Grafting.ChartLinkMap(rows);
    var chart := ChartRows(rows);
    FilterKeepsIdsUnique(rows, OnChart);
    FlatLinks(chart, holders);
    UnderWithin(IdSet(chart), ParentLinks(chart),
                LinkMap(EntryLinks(FlattenTree(Forest(chart, holders), 0, None))), t, id);
  }
}
