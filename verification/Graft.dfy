/** Moving a row moves its whole subtree, unchanged, to the end of the new parent's children. */
module Grafting {
  import opened Lists
  import opened Graph
  import opened Roles
  import opened Queries
  import opened Tree
  import opened Chart
  import Safety

  /** The forest without the node `id` and what hangs below it. */
  function Cut(f: seq<Node>, id: int): seq<Node> {
    if f == [] then []
    else if f[0].id == id then Cut(f[1..], id)
    else [f[0].(children := Cut(f[0].children, id))] + Cut(f[1..], id)
  }

  /** The forest with `sub` as the last child of the node `id`. */
  function Graft(f: seq<Node>, id: int, sub: Node): seq<Node> {
    if f == [] then []
    else
      var kids := Graft(f[0].children, id, sub) + (if f[0].id == id then [sub] else []);
      [f[0].(children := kids)] + Graft(f[1..], id, sub)
  }

  function Subtree(f: seq<Node>, id: int): Option<Node> {
    if f == [] then None
    else if f[0].id == id then Some(f[0])
    else
      var below := Subtree(f[0].children, id);
      if below.Some? then below else Subtree(f[1..], id)
  }

  /** `r'` is `r` moved under `p`, with an order above every other child of `p`. */
  ghost predicate Moves(rows: seq<Role>, r: Role, r': Role, p: int) {
    && UniqueIds(rows) && r in rows
    && r' == r.(parent := Some(p), order := r'.order)
    && p in IdSet(rows) && p != r.id
    && forall s | s in rows && s.parent == Some(p) :: OrderValue(s) < OrderValue(r')
  }

  lemma {:induction false} OtherKidsStay(rows: seq<Role>, r': Role, keep: Role -> bool, keep': Role -> bool)
    requires forall x | x in rows && x.id != r'.id :: keep(x) <==> keep'(x)
    ensures Filter(Filter(Put(rows, r'), keep'), NotId(r'.id)) == Filter(Filter(rows, keep), NotId(r'.id))
  {
    if rows != [] {
      var rows' := Put(rows, r');
      assert rows'[1..] == Put(rows[1..], r');
      OtherKidsStay(rows[1..], r', keep, keep');
      FilterFirst(rows, keep);
      FilterFirst(rows', keep');
      FilterAppend(if keep(rows[0]) then [rows[0]] else [], Filter(rows[1..], keep), NotId(r'.id));
      FilterAppend(if keep'(rows'[0]) then [rows'[0]] else [], Filter(rows'[1..], keep'), NotId(r'.id));
    }
  }

  lemma FilterFirst<T(!new)>(s: seq<T>, keep: T -> bool)
    requires s != []
    ensures Filter(s, keep) == (if keep(s[0]) then [s[0]] else []) + Filter(s[1..], keep)
  {
  }

  /** The children of any other node lose `r` and nothing else. */
  lemma KidsElsewhere(rows: seq<Role>, r: Role, r': Role, p: int, q: int)
    requires Moves(rows, r, r', p) && q != p
    ensures SortedKids(Put(rows, r'), q) == Filter(SortedKids(rows, q), NotId(r.id))
  {
    var rows' := Put(rows, r');
    Safety.PutMembers(rows, r, r');
    OtherKidsStay(rows, r', ChildOf(q), ChildOf(q));
    SortFilter(KidRows(rows, q), ChartRank, NotId(r.id));
    forall x | x in KidRows(rows', q) ensures NotId(r.id)(x) {
    }
    FilterAll(KidRows(rows', q), NotId(r.id));
  }

  /** Among the new parent's children, sorted and distinct, `r` ranks strictly last. */
  lemma MovedRanksLast(rows: seq<Role>, r: Role, r': Role, p: int)
    requires Moves(rows, r, r', p)
    ensures var kids := SortedKids(Put(rows, r'), p);
            && Distinct(kids) && Sorted(kids, ChartRank) && r' in kids
            && (forall x | x in kids :: NotId(r.id)(x) <==> x != r')
            && (forall x | x in kids && x != r' :: Lt(ChartRank(x), ChartRank(r')))
  {
    var rows', kids := Put(rows, r'), SortedKids(Put(rows, r'), p);
    Safety.PutMembers(rows, r, r');
    SortSorted(KidRows(rows', p), ChartRank);
    UniqueIsDistinct(rows');
    FilterDistinct(rows', ChildOf(p));
    SortDistinct(KidRows(rows', p), ChartRank);
    forall x | x in kids ensures NotId(r.id)(x) <==> x != r' {
    }
    forall x | x in kids && x != r' ensures Lt(ChartRank(x), ChartRank(r')) {
      assert x in rows && x.parent == Some(p);
    }
  }

  /** The new parent's children are the old ones without `r`, then `r`. */
  lemma KidsAtTarget(rows: seq<Role>, r: Role, r': Role, p: int)
    requires Moves(rows, r, r', p)
    ensures SortedKids(Put(rows, r'), p) == Filter(SortedKids(rows, p), NotId(r.id)) + [r']
  {
    var rows' := Put(rows, r');
    OtherKidsStay(rows, r', ChildOf(p), ChildOf(p));
    SortFilter(KidRows(rows, p), ChartRank, NotId(r.id));
    SortFilter(KidRows(rows', p), ChartRank, NotId(r.id));
    MovedRanksLast(rows, r, r', p);
    TopComesLast(SortedKids(rows', p), ChartRank, r', NotId(r.id));
  }

  lemma TopsLoseMoved(rows: seq<Role>, r: Role, r': Role, p: int)
    requires Moves(rows, r, r', p)
    ensures SortedTops(Put(rows, r')) == Filter(SortedTops(rows), NotId(r.id))
  {
    var rows' := Put(rows, r');
    Safety.PutMembers(rows, r, r');
    assert IdSet(rows') == IdSet(rows);
    OtherKidsStay(rows, r', TopIn(rows), TopIn(rows'));
    SortFilter(TopRows(rows), ChartRank, NotId(r.id));
    forall x | x in TopRows(rows') ensures NotId(r.id)(x) {
    }
    FilterAll(TopRows(rows'), NotId(r.id));
  }

  lemma MirrorsAppend(rows: seq<Role>, holders: seq<Holder>, f: seq<Node>, shown: seq<Role>, n: Node, r: Role)
    requires Mirrors(rows, holders, f, shown)
    requires n == MakeNode(r, holders, n.children) && Mirrors(rows, holders, n.children, SortedKids(rows, r.id))
    ensures Mirrors(rows, holders, f + [n], shown + [r])
  {
    if f == [] {
      assert [n][1..] == [] && [r][1..] == [];
    } else {
      assert (f + [n])[1..] == f[1..] + [n] && (shown + [r])[1..] == shown[1..] + [r];
      MirrorsAppend(rows, holders, f[1..], shown[1..], n, r);
    }
  }

  /** The children of a node that stays: what is left of them, and the graft under `p`. */
  function Regrown(n: Node, id: int, p: int, sub: Node): seq<Node> {
    Graft(Cut(n.children, id), p, sub) + if n.id == p then [sub] else []
  }

  lemma RegraftFirst(f: seq<Node>, id: int, p: int, sub: Node)
    requires f != []
    ensures Graft(Cut(f, id), p, sub)
         == (if f[0].id == id then [] else [f[0].(children := Regrown(f[0], id, p, sub))])
            + Graft(Cut(f[1..], id), p, sub)
  {
    if f[0].id != id {
      var m := f[0].(children := Cut(f[0].children, id));
      assert Cut(f, id) == [m] + Cut(f[1..], id);
      assert ([m] + Cut(f[1..], id))[1..] == Cut(f[1..], id);
      assert Graft(Cut(f[0].children, id), p, sub) + [] == Graft(Cut(f[0].children, id), p, sub);
    }
  }

  lemma RegrownMirrors(rows: seq<Role>, holders: seq<Holder>, r: Role, r': Role, p: int, sub: Node, n: Node)
    requires Moves(rows, r, r', p) && sub == MakeNode(r', holders, sub.children)
    requires Mirrors(Put(rows, r'), holders, sub.children, SortedKids(Put(rows, r'), r.id))
    requires Mirrors(Put(rows, r'), holders, Graft(Cut(n.children, r.id), p, sub),
                     Filter(SortedKids(rows, n.id), NotId(r.id)))
    ensures Mirrors(Put(rows, r'), holders, Regrown(n, r.id, p, sub), SortedKids(Put(rows, r'), n.id))
  {
    var kids := Graft(Cut(n.children, r.id), p, sub);
    if n.id == p {
      KidsAtTarget(rows, r, r', p);
      MirrorsAppend(Put(rows, r'), holders, kids, Filter(SortedKids(rows, p), NotId(r.id)), sub, r');
    } else {
      KidsElsewhere(rows, r, r', p, n.id);
      assert kids + [] == kids;
    }
  }

  /** Cutting `r` and grafting its subtree under `p` gives what the moved rows show. */
  lemma {:induction false} RegraftMirrors(
      rows: seq<Role>, holders: seq<Holder>, r: Role, r': Role, p: int, sub: Node, f: seq<Node>, shown: seq<Role>)
    requires Moves(rows, r, r', p) && Mirrors(rows, holders, f, shown)
    requires sub == MakeNode(r', holders, sub.children)
    requires Mirrors(Put(rows, r'), holders, sub.children, SortedKids(Put(rows, r'), r.id))
    ensures Mirrors(Put(rows, r'), holders, Graft(Cut(f, r.id), p, sub), Filter(shown, NotId(r.id)))
    decreases f
  {
    if f != [] {
      var n := f[0];
      RegraftMirrors(rows, holders, r, r', p, sub, f[1..], shown[1..]);
      FilterFirst(shown, NotId(r.id));
      RegraftFirst(f, r.id, p, sub);
      if n.id != r.id {
        RegraftMirrors(rows, holders, r, r', p, sub, n.children, SortedKids(rows, n.id));
        RegrownMirrors(rows, holders, r, r', p, sub, n);
        PutFirst(Put(rows, r'), holders, n.(children := Regrown(n, r.id, p, sub)), shown[0],
                 Graft(Cut(f[1..], r.id), p, sub), Filter(shown[1..], NotId(r.id)));
      }
    }
  }

  lemma PutFirst(rows: seq<Role>, holders: seq<Holder>, n: Node, r: Role, f: seq<Node>, shown: seq<Role>)
    requires n == MakeNode(r, holders, n.children) && Mirrors(rows, holders, n.children, SortedKids(rows, r.id))
    requires Mirrors(rows, holders, f, shown)
    ensures Mirrors(rows, holders, [n] + f, [r] + shown)
  {
    assert ([n] + f)[1..] == f && ([r] + shown)[1..] == shown;
  }

  /** Everything shown below `q` stands strictly below it. */
  lemma {:induction false} ShownBelow(rows: seq<Role>, holders: seq<Holder>, f: seq<Node>, shown: seq<Role>, q: int)
    requires UniqueIds(rows) && Acyclic(ParentLinks(rows)) && Mirrors(rows, holders, f, shown)
    requires forall s | s in shown ::
               s in rows && s.id in ParentLinks(rows) && Under(ParentLinks(rows), ParentLinks(rows)[s.id], q)
    ensures forall x | x in FlatIds(f) :: x in ParentLinks(rows) && Under(ParentLinks(rows), ParentLinks(rows)[x], q)
    decreases f
  {
    if f != [] {
      var up, n := ParentLinks(rows), f[0];
      ChainUnfolds(up, n.id);
      forall s | s in SortedKids(rows, n.id) ensures s in rows && s.id in up && Under(up, up[s.id], q) {
        assert s in rows && s.parent == Some(n.id) && up[s.id] == n.id;
      }
      ShownBelow(rows, holders, n.children, SortedKids(rows, n.id), q);
      ShownBelow(rows, holders, f[1..], shown[1..], q);
    }
  }

  lemma KidsBelow(rows: seq<Role>, holders: seq<Holder>, f: seq<Node>, q: int)
    requires UniqueIds(rows) && Acyclic(ParentLinks(rows)) && Mirrors(rows, holders, f, SortedKids(rows, q))
    ensures forall x | x in FlatIds(f) :: x != q && Under(ParentLinks(rows), x, q)
  {
    var up := ParentLinks(rows);
    forall s | s in SortedKids(rows, q) ensures s in rows && s.id in up && Under(up, up[s.id], q) {
      assert s in rows && s.parent == Some(q) && up[s.id] == q;
    }
    ShownBelow(rows, holders, f, SortedKids(rows, q), q);
    forall x | x in FlatIds(f) ensures x != q && Under(up, x, q) {
      StrictlyBelow(up, x, q);
    }
  }

  lemma StrictlyBelow(up: Links, x: int, q: int)
    requires Acyclic(up) && x in up && Under(up, up[x], q)
    ensures x != q && Under(up, x, q)
  {
    ChainUnfolds(up, x);
  }

  lemma {:induction false} ShownIsFlat(rows: seq<Role>, holders: seq<Holder>, f: seq<Node>, shown: seq<Role>)
    requires Mirrors(rows, holders, f, shown)
    ensures forall s | s in shown :: s.id in FlatIds(f)
    decreases |f|
  {
    if f != [] {
      ShownIsFlat(rows, holders, f[1..], shown[1..]);
      forall s | s in shown ensures s.id in FlatIds(f) {
        assert s == shown[0] || s in shown[1..];
      }
    }
  }

  /** Away from `r` and `p` nothing changes. */
  lemma {:induction false} UntouchedMirrors(
      rows: seq<Role>, holders: seq<Holder>, r: Role, r': Role, p: int, f: seq<Node>, shown: seq<Role>)
    requires Moves(rows, r, r', p) && Mirrors(rows, holders, f, shown)
    requires r.id !in FlatIds(f) && p !in FlatIds(f)
    ensures Mirrors(Put(rows, r'), holders, f, shown)
    decreases f
  {
    if f != [] {
      var n, kids := f[0], SortedKids(rows, f[0].id);
      ShownIsFlat(rows, holders, n.children, kids);
      KidsElsewhere(rows, r, r', p, n.id);
      FilterAll(kids, NotId(r.id));
      UntouchedMirrors(rows, holders, r, r', p, n.children, kids);
      UntouchedMirrors(rows, holders, r, r', p, f[1..], shown[1..]);
    }
  }

  lemma {:induction false} SubtreeMirrors(rows: seq<Role>, holders: seq<Holder>, f: seq<Node>,
      shown: seq<Role>, id: int)
    requires Mirrors(rows, holders, f, shown) && id in FlatIds(f) && forall s | s in shown :: s in rows
    ensures Subtree(f, id).Some?
    ensures var sub := Subtree(f, id).value;
            && (exists r :: r in rows && r.id == id && sub == MakeNode(r, holders, sub.children))
            && Mirrors(rows, holders, sub.children, SortedKids(rows, id))
    decreases f
  {
    var n := f[0];
    if n.id == id {
      assert shown[0] in shown;
    } else if id in FlatIds(n.children) {
      SubtreeMirrors(rows, holders, n.children, SortedKids(rows, n.id), id);
    } else {
      SubtreeAbsent(n.children, id);
      SubtreeMirrors(rows, holders, f[1..], shown[1..], id);
    }
  }

  lemma SubtreeAbsent(f: seq<Node>, id: int)
    requires id !in FlatIds(f)
    ensures Subtree(f, id).None?
  {
  }

  /** On rows that are all chart rows. */
  lemma MoveRegrafts(rows: seq<Role>, holders: seq<Holder>, r: Role, r': Role, p: int)
    requires Moves(rows, r, r', p) && Acyclic(ParentLinks(rows)) && !Under(ParentLinks(rows), p, r.id)
    ensures UniqueIds(Put(rows, r')) && Acyclic(ParentLinks(Put(rows, r')))
    ensures var f := Forest(rows, holders);
            && Subtree(f, r.id).Some?
            && Forest(Put(rows, r'), holders) == Graft(Cut(f, r.id), p, Subtree(f, r.id).value)
  {
    var rows', f, tops := Put(rows, r'), Forest(rows, holders), SortedTops(rows);
    Safety.PutChangesOneLink(rows, r, r');
    ReattachIsAcyclic(ParentLinks(rows), r.id, p);
    ForestMirrorsAcyclicRows(rows, holders);
    ForestMirrorsAcyclicRows(rows', holders);
    ForestShowsEachRoleOnce(rows, holders);
    assert r.id in IdSet(rows);
    SubtreeMirrors(rows, holders, f, tops, r.id);
    var sub := Subtree(f, r.id).value;
    SubIsKept(rows, holders, r, r', p, sub);
    RegraftMirrors(rows, holders, r, r', p, sub, f, tops);
    TopsLoseMoved(rows, r, r', p);
    MirrorIsUnique(rows', holders, Forest(rows', holders), Graft(Cut(f, r.id), p, sub), SortedTops(rows'));
  }

  lemma SubIsKept(rows: seq<Role>, holders: seq<Holder>, r: Role, r': Role, p: int, sub: Node)
    requires Moves(rows, r, r', p) && Acyclic(ParentLinks(rows)) && !Under(ParentLinks(rows), p, r.id)
    requires exists x :: x in rows && x.id == r.id && sub == MakeNode(x, holders, sub.children)
    requires Mirrors(rows, holders, sub.children, SortedKids(rows, r.id))
    ensures sub == MakeNode(r', holders, sub.children)
    ensures Mirrors(Put(rows, r'), holders, sub.children, SortedKids(Put(rows, r'), r.id))
  {
    var x :| x in rows && x.id == r.id && sub == MakeNode(x, holders, sub.children);
    SameIdSameRow(rows, x, r);
    KidsBelow(rows, holders, sub.children, r.id);
    var kids := SortedKids(rows, r.id);
    ShownIsFlat(rows, holders, sub.children, kids);
    KidsElsewhere(rows, r, r', p, r.id);
    FilterAll(kids, NotId(r.id));
    UntouchedMirrors(rows, holders, r, r', p, sub.children, kids);
  }

  lemma {:induction false} ChartOfPut(rows: seq<Role>, r': Role)
    requires r'.onChart && forall x | x in rows && x.id == r'.id :: x.onChart
    ensures ChartRows(Put(rows, r')) == Put(ChartRows(rows), r')
  {
    if rows != [] {
      var rows' := Put(rows, r');
      assert rows'[1..] == Put(rows[1..], r');
      ChartOfPut(rows[1..], r');
      FilterFirst(rows, OnChart);
      FilterFirst(rows', OnChart);
      var head := if OnChart(rows[0]) then [rows[0]] else [];
      assert Put(head + ChartRows(rows[1..]), r') == Put(head, r') + Put(ChartRows(rows[1..]), r');
    }
  }

  lemma ChartLinkMap(rows: seq<Role>)
    requires UniqueIds(rows)
    ensures UniqueLinks(ChartLinks(rows)) && LinkMap(ChartLinks(rows)) == ChartUp(rows)
  {
    FilterKeepsIdsUnique(rows, OnChart);
    var chart := ChartRows(rows);
    FilterAll(chart, OnChart);
    Safety.ChartLinksAreParentLinks(chart);
    ChartLinksUnique(rows);
  }

  lemma AcceptedParent(rows: seq<Role>, r: Role, p: int)
    requires UniqueIds(rows) && Attach(rows, r, Some(p)).0.Done?
    ensures Attach(rows, r, Some(p)).1 == Put(rows, Attached(rows, r, Some(p)))
    ensures !Under(ChartUp(rows), p, r.id) && p != r.id
  {
    ChartLinkMap(rows);
    assert r.id !in ChainFrom(ChartLinks(rows), Some(p));
    assert p in Chain(ChartUp(rows), p);
  }

  lemma OrderExceedsSiblings(rows: seq<Role>, p: int)
    ensures forall s | s in ChartRows(rows) && s.parent == Some(p) :: OrderValue(s) < NextOrder(rows, Some(p))
  {
    forall s | s in ChartRows(rows) && s.parent == Some(p) ensures OrderValue(s) < NextOrder(rows, Some(p)) {
      assert SiblingOf(Some(p))(s);
      assert s in Siblings(rows, Some(p));
    }
  }

  /** What an accepted move does to the chart rows. */
  lemma AcceptedMove(rows: seq<Role>, id: int, p: int)
    requires UniqueIds(rows) && SetParent(rows, id, Some(p)).0.Done? && p in IdSet(ChartRows(rows))
    ensures var r := Find(rows, id).value;
            var r' := Attached(rows, r, Some(p));
            && SetParent(rows, id, Some(p)).1 == Put(rows, r')
            && Moves(ChartRows(rows), r, r', p) && !Under(ChartUp(rows), p, id)
  {
    var r := Find(rows, id).value;
    AcceptedParent(rows, r, p);
    OrderExceedsSiblings(rows, p);
    FilterKeepsIdsUnique(rows, OnChart);
  }

  /**
   Moving rows is moving subtrees: after an accepted move under a chart role, the forest is the
   old one with the moved role's subtree cut out, unchanged, and grafted as the last child.
   */
  lemma MovingRowsMovesSubtrees(rows: seq<Role>, holders: seq<Holder>, id: int, p: int)
    requires UniqueIds(rows) && Acyclic(ChartUp(rows))
    requires SetParent(rows, id, Some(p)).0.Done? && p in IdSet(ChartRows(rows))
    ensures var f := Forest(ChartRows(rows), holders);
            && Subtree(f, id).Some?
            && Forest(ChartRows(SetParent(rows, id, Some(p)).1), holders) == Graft(Cut(f, id), p, Subtree(f, id).value)
  {
    var r := Find(rows, id).value;
    var r' := Attached(rows, r, Some(p));
    AcceptedMove(rows, id, p);
    forall x | x in rows && x.id == id ensures x == r { SameIdSameRow(rows, x, r); }
    ChartOfPut(rows, r');
    MoveRegrafts(ChartRows(rows), holders, r, r', p);
  }
}
