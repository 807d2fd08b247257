/** Assembling flat role rows into the chart's forest, whatever the rows hold. */
module Tree {
  import opened Lists
  import opened Graph
  import opened Roles

  datatype Seat = Leader | Deputy | Plain

  datatype Holder = Holder(roleId: int, memberId: int, lastname: int, kind: Seat, isElder: bool)

  function SeatRank(h: Holder): Rank {
    Rank(match h.kind case Leader => 0 case Deputy => 1 case Plain => 2, h.lastname)
  }

  datatype Node = Node(
    id: int, key: Key, name: string, note: string, isRoster: bool, isSinglePerson: bool,
    holders: seq<Holder>, children: seq<Node>)

  function HeldIn(id: int): Holder -> bool { (h: Holder) => h.roleId == id }

  function HoldersOf(holders: seq<Holder>, id: int): seq<Holder> {
    Filter(holders, HeldIn(id))
  }

  function MakeNode(r: Role, holders: seq<Holder>, children: seq<Node>): Node {
    Node(r.id, r.key, r.name, r.note, IsRoster(r.key), r.isSinglePerson,
         Sort(HoldersOf(holders, r.id), SeatRank), children)
  }

  function IdSet(rows: seq<Role>): set<int> {
    set r | r in rows :: r.id
  }

  function ChildOf(id: int): Role -> bool { (r: Role) => r.parent == Some(id) }

  function NotIn(ids: set<int>): Role -> bool { (r: Role) => r.id !in ids }

  function KidRows(rows: seq<Role>, id: int): seq<Role> {
    Filter(rows, ChildOf(id))
  }

  predicate IsTop(rows: seq<Role>, r: Role) {
    r.parent.None? || r.parent.value !in IdSet(rows)
  }

  function TopIn(rows: seq<Role>): Role -> bool { (r: Role) => IsTop(rows, r) }

  function TopRows(rows: seq<Role>): seq<Role> {
    Filter(rows, TopIn(rows))
  }

  function SortedKids(rows: seq<Role>, id: int): seq<Role> {
    Sort(KidRows(rows, id), ChartRank)
  }

  function SortedTops(rows: seq<Role>): seq<Role> {
    Sort(TopRows(rows), ChartRank)
  }

  /** Depth-first over `todo`, skipping whatever has been visited; the visited set comes back. */
  function Visit(rows: seq<Role>, holders: seq<Holder>, todo: seq<Role>, visited: set<int>): (r: (seq<Node>, set<int>))
    requires forall t | t in todo :: t in rows
    ensures visited <= r.1
    decreases IdSet(rows) - visited, |todo|
  {
    if todo == [] then ([], visited)
    else if todo[0].id in visited then Visit(rows, holders, todo[1..], visited)
    else
      var below := Visit(rows, holders, SortedKids(rows, todo[0].id), visited + {todo[0].id});
      var after := Visit(rows, holders, todo[1..], below.1);
      ([MakeNode(todo[0], holders, below.0)] + after.0, after.1)
  }

  /** The forest the chart is read as: the roots in order, then whatever no root reaches. */
  function Forest(rows: seq<Role>, holders: seq<Holder>): seq<Node> {
    Visit(rows, holders, SortedTops(rows) + Sort(rows, ChartRank), {}).0
  }

  /** The ids of a forest in reading order. */
  function FlatIds(f: seq<Node>): seq<int> {
    if f == [] then [] else [f[0].id] + FlatIds(f[0].children) + FlatIds(f[1..])
  }

  lemma FlatIdsAppend(f: seq<Node>, g: seq<Node>)
    ensures FlatIds(f + g) == FlatIds(f) + FlatIds(g)
  {
    if f == [] {
      assert f + g == g;
    } else {
      assert (f + g)[1..] == f[1..] + g;
      FlatIdsAppend(f[1..], g);
    }
  }

  /** Every node shows its own row, and hangs where that row says, at every level. */
  ghost predicate Faithful(rows: seq<Role>, holders: seq<Holder>, f: seq<Node>, above: Option<int>) {
    f != [] ==>
      && (exists r :: r in rows && f[0] == MakeNode(r, holders, f[0].children) && (above.Some? ==> r.parent == above))
      && Faithful(rows, holders, f[0].children, Some(f[0].id))
      && Faithful(rows, holders, f[1..], above)
  }

  lemma {:induction false} VisitAppend(rows: seq<Role>, holders: seq<Holder>, a: seq<Role>, b: seq<Role>,
      visited: set<int>)
    requires forall t | t in a || t in b :: t in rows
    ensures var first := Visit(rows, holders, a, visited);
            var second := Visit(rows, holders, b, first.1);
            Visit(rows, holders, a + b, visited) == (first.0 + second.0, second.1)
    decreases IdSet(rows) - visited, |a|
  {
    if a == [] {
      assert a + b == b;
      var second := Visit(rows, holders, b, visited);
      assert [] + second.0 == second.0;
    } else {
      assert (a + b)[1..] == a[1..] + b;
      if a[0].id in visited {
        VisitAppend(rows, holders, a[1..], b, visited);
      } else {
        var below := Visit(rows, holders, SortedKids(rows, a[0].id), visited + {a[0].id});
        VisitAppend(rows, holders, a[1..], b, below.1);
        var after := Visit(rows, holders, a[1..], below.1);
        var second := Visit(rows, holders, b, after.1);
        var head := [MakeNode(a[0], holders, below.0)];
        assert head + (after.0 + second.0) == (head + after.0) + second.0;
      }
    }
  }

  /** What was visited at the start may as well be left out. */
  lemma {:induction false} VisitSkips(rows: seq<Role>, holders: seq<Holder>, todo: seq<Role>,
      visited: set<int>, skip: set<int>)
    requires forall t | t in todo :: t in rows
    requires skip <= visited
    ensures Visit(rows, holders, Filter(todo, NotIn(skip)), visited) == Visit(rows, holders, todo, visited)
    decreases IdSet(rows) - visited, |todo|
  {
    if todo != [] {
      var keep := NotIn(skip);
      var rest := Filter(todo[1..], keep);
      if todo[0].id in skip {
        VisitSkips(rows, holders, todo[1..], visited, skip);
      } else {
        assert ([todo[0]] + rest)[1..] == rest;
        if todo[0].id in visited {
          VisitSkips(rows, holders, todo[1..], visited, skip);
        } else {
          var below := Visit(rows, holders, SortedKids(rows, todo[0].id), visited + {todo[0].id});
          VisitSkips(rows, holders, todo[1..], below.1, skip);
        }
      }
    }
  }

  /** `flat` lists exactly the ids that `v` has and `visited` has not, each once. */
  ghost predicate ListsNew(flat: seq<int>, visited: set<int>, v: set<int>) {
    Distinct(flat) && forall x :: x in flat <==> x in v && x !in visited
  }

  lemma ListsNewJoin(a: seq<int>, b: seq<int>, visited: set<int>, v: set<int>, w: set<int>)
    requires visited <= v <= w && ListsNew(a, visited, v) && ListsNew(b, v, w)
    ensures ListsNew(a + b, visited, w)
  {
    assert forall x :: x in a ==> x !in b;
    DistinctAppend(a, b);
  }

  /** A visit shows each newly visited id once, and nothing else. */
  lemma {:induction false} VisitIsFlat(rows: seq<Role>, holders: seq<Holder>, todo: seq<Role>, visited: set<int>)
    requires forall t | t in todo :: t in rows
    ensures var (f, v) := Visit(rows, holders, todo, visited);
            ListsNew(FlatIds(f), visited, v) && v <= visited + IdSet(rows)
    decreases IdSet(rows) - visited, |todo|
  {
    if todo != [] {
      var head := todo[0];
      if head.id in visited {
        VisitIsFlat(rows, holders, todo[1..], visited);
      } else {
        var kids := SortedKids(rows, head.id);
        var seen := visited + {head.id};
        var below := Visit(rows, holders, kids, seen);
        VisitIsFlat(rows, holders, kids, seen);
        VisitIsFlat(rows, holders, todo[1..], below.1);
        var after := Visit(rows, holders, todo[1..], below.1);
        var f := [MakeNode(head, holders, below.0)] + after.0;
        assert f[1..] == after.0;
        ListsNewJoin([head.id], FlatIds(below.0), visited, seen, below.1);
        ListsNewJoin([head.id] + FlatIds(below.0), FlatIds(after.0), visited, below.1, after.1);
      }
    }
  }

  /**
   What a visit reaches, cycles or not: all of `todo`, and with every new role all its children.
   A new role was asked for or has a new parent.
   */
  lemma {:induction false} VisitReaches(rows: seq<Role>, holders: seq<Holder>, todo: seq<Role>, visited: set<int>)
    requires UniqueIds(rows) && forall t | t in todo :: t in rows
    ensures var v := Visit(rows, holders, todo, visited).1;
            && (forall t | t in todo :: t.id in v)
            && (forall r | r in rows && r.id in v - visited ::
                  r in todo || (r.parent.Some? && r.parent.value in v - visited))
            && (forall r | r in rows && r.parent.Some? && r.parent.value in v - visited :: r.id in v)
    decreases IdSet(rows) - visited, |todo|
  {
    if todo != [] {
      var head := todo[0];
      if head.id in visited {
        VisitReaches(rows, holders, todo[1..], visited);
      } else {
        var kids := SortedKids(rows, head.id);
        var seen := visited + {head.id};
        VisitReaches(rows, holders, kids, seen);
        var v1 := Visit(rows, holders, kids, seen).1;
        VisitReaches(rows, holders, todo[1..], v1);
        var v := Visit(rows, holders, todo[1..], v1).1;
        forall r | r in rows && r.id in v - visited
          ensures r in todo || (r.parent.Some? && r.parent.value in v - visited) {
          if r.id == head.id {
            SameIdSameRow(rows, r, head);
          } else if r.id in v1 && r in kids {
            assert r.parent == Some(head.id);
          }
        }
        forall r | r in rows && r.parent.Some? && r.parent.value in v - visited ensures r.id in v {
          if r.parent.value == head.id {
            assert r in kids;
          }
        }
      }
    }
  }

  lemma {:induction false} VisitIsFaithful(rows: seq<Role>, holders: seq<Holder>, todo: seq<Role>,
      visited: set<int>, above: Option<int>)
    requires forall t | t in todo :: t in rows && (above.Some? ==> t.parent == above)
    ensures Faithful(rows, holders, Visit(rows, holders, todo, visited).0, above)
    decreases IdSet(rows) - visited, |todo|
  {
    if todo != [] {
      if todo[0].id in visited {
        VisitIsFaithful(rows, holders, todo[1..], visited, above);
      } else {
        var kids := SortedKids(rows, todo[0].id);
        var below := Visit(rows, holders, kids, visited + {todo[0].id});
        VisitIsFaithful(rows, holders, kids, visited + {todo[0].id}, Some(todo[0].id));
        VisitIsFaithful(rows, holders, todo[1..], below.1, above);
      }
    }
  }

  /** Whatever the rows hold, the forest shows each role exactly once, where its row puts it. */
  lemma ForestShowsEachRoleOnce(rows: seq<Role>, holders: seq<Holder>)
    requires UniqueIds(rows)
    ensures Distinct(FlatIds(Forest(rows, holders)))
    ensures forall id :: id in FlatIds(Forest(rows, holders)) <==> id in IdSet(rows)
    ensures Faithful(rows, holders, Forest(rows, holders), None)
  {
    var todo := SortedTops(rows) + Sort(rows, ChartRank);
    VisitReaches(rows, holders, todo, {});
    VisitIsFlat(rows, holders, todo, {});
    VisitIsFaithful(rows, holders, todo, {}, None);
    forall r | r in rows ensures r in todo {
      assert r in Sort(rows, ChartRank);
    }
  }

  /** `f` is exactly the forest of the rows `shown`, each with all its children in order. */
  ghost predicate Mirrors(rows: seq<Role>, holders: seq<Holder>, f: seq<Node>, shown: seq<Role>) {
    && |f| == |shown|
    && (f != [] ==>
          && f[0] == MakeNode(shown[0], holders, f[0].children)
          && Mirrors(rows, holders, f[0].children, SortedKids(rows, shown[0].id))
          && Mirrors(rows, holders, f[1..], shown[1..]))
  }

  /** Only one forest mirrors given rows. */
  lemma {:induction false} MirrorIsUnique(rows: seq<Role>, holders: seq<Holder>, f: seq<Node>, g: seq<Node>,
      shown: seq<Role>)
    requires Mirrors(rows, holders, f, shown) && Mirrors(rows, holders, g, shown)
    ensures f == g
  {
    if f != [] {
      MirrorIsUnique(rows, holders, f[0].children, g[0].children, SortedKids(rows, shown[0].id));
      MirrorIsUnique(rows, holders, f[1..], g[1..], shown[1..]);
      assert f == [f[0]] + f[1..] && g == [g[0]] + g[1..];
    }
  }

  /** With each visited role its known parent was visited too. */
  ghost predicate ClosedAbove(rows: seq<Role>, visited: set<int>) {
    forall r | r in rows && r.id in visited && !IsTop(rows, r) :: r.parent.value in visited
  }

  lemma KidsAreNew(rows: seq<Role>, head: Role, visited: set<int>)
    requires UniqueIds(rows) && Acyclic(ParentLinks(rows)) && ClosedAbove(rows, visited)
    requires head in rows && head.id !in visited
    ensures forall k | k in SortedKids(rows, head.id) ::
              k in rows && k.id !in visited + {head.id} && k.parent == Some(head.id)
    ensures Distinct(SortedKids(rows, head.id))
  {
    var up := ParentLinks(rows);
    forall k | k in SortedKids(rows, head.id) ensures k.id !in visited + {head.id} {
      assert k in rows && k.parent == Some(head.id) && !IsTop(rows, k);
      assert k.id in up && up[k.id] == head.id;
      assert !Under(up, head.id, k.id);
    }
    UniqueIsDistinct(rows);
    FilterDistinct(rows, ChildOf(head.id));
    SortDistinct(KidRows(rows, head.id), ChartRank);
  }

  /** Roles asked for later are not met earlier, if their parents were already visited or are absent. */
  lemma LaterStaysNew(rows: seq<Role>, holders: seq<Holder>, todo: seq<Role>, visited: set<int>, t: Role)
    requires UniqueIds(rows) && t in rows && t !in todo && forall t | t in todo :: t in rows
    requires t.id !in visited && (IsTop(rows, t) || t.parent.value in visited)
    ensures t.id !in Visit(rows, holders, todo, visited).1
  {
    VisitReaches(rows, holders, todo, visited);
    VisitIsFlat(rows, holders, todo, visited);
  }

  lemma {:induction false} VisitMirrors(rows: seq<Role>, holders: seq<Holder>, todo: seq<Role>, visited: set<int>)
    requires UniqueIds(rows) && Acyclic(ParentLinks(rows))
    requires forall t | t in todo :: t in rows && t.id !in visited && (IsTop(rows, t) || t.parent.value in visited)
    requires Distinct(todo) && ClosedAbove(rows, visited)
    ensures Mirrors(rows, holders, Visit(rows, holders, todo, visited).0, todo)
    ensures ClosedAbove(rows, Visit(rows, holders, todo, visited).1)
    decreases IdSet(rows) - visited, |todo|
  {
    if todo != [] {
      var head, rest := todo[0], todo[1..];
      var kids, seen := SortedKids(rows, head.id), visited + {head.id};
      KidsAreNew(rows, head, visited);
      VisitMirrors(rows, holders, kids, seen);
      var below := Visit(rows, holders, kids, seen);
      forall t | t in rest ensures t.id !in below.1 {
        assert t in todo && t != head;
        LaterStaysNew(rows, holders, kids, seen, t);
      }
      VisitMirrors(rows, holders, rest, below.1);
    }
  }

  /** Going down from the tops reaches everything, when no cycle stands in between. */
  lemma {:induction false} TopsReach(rows: seq<Role>, visited: set<int>, r: Role)
    requires UniqueIds(rows) && Acyclic(ParentLinks(rows)) && r in rows
    requires forall t | t in rows && IsTop(rows, t) :: t.id in visited
    requires forall c | c in rows && c.parent.Some? && c.parent.value in visited :: c.id in visited
    ensures r.id in visited
    decreases Depth(ParentLinks(rows), r.id)
  {
    if !IsTop(rows, r) {
      var up := ParentLinks(rows);
      var p :| p in rows && p.id == r.parent.value;
      assert up[r.id] == p.id;
      ChainUnfolds(up, r.id);
      TopsReach(rows, visited, p);
    }
  }

  lemma TopsAreDistinct(rows: seq<Role>)
    requires UniqueIds(rows)
    ensures Distinct(SortedTops(rows))
    ensures forall t :: t in SortedTops(rows) <==> t in rows && IsTop(rows, t)
  {
    UniqueIsDistinct(rows);
    FilterDistinct(rows, TopIn(rows));
    SortDistinct(TopRows(rows), ChartRank);
  }

  /** Visiting in two goes is visiting in one; nothing is left for the second if the first saw all. */
  lemma ForestSplits(rows: seq<Role>, holders: seq<Holder>)
    ensures var (f, v) := Visit(rows, holders, SortedTops(rows), {});
            && Forest(rows, holders) == f + Visit(rows, holders, Sort(rows, ChartRank), v).0
            && (IdSet(rows) <= v ==> Forest(rows, holders) == f)
  {
    var tops, all := SortedTops(rows), Sort(rows, ChartRank);
    var (f, v) := Visit(rows, holders, tops, {});
    VisitAppend(rows, holders, tops, all, {});
    if IdSet(rows) <= v {
      VisitSkips(rows, holders, all, v, v);
      assert forall r | r in all :: r.id in v;
      assert Filter(all, NotIn(v)) == [];
    }
  }

  /**
   On acyclic rows the forest is the chart itself: its roots are exactly the roles whose parent is
   absent, and under every role stand exactly its children, both in order.
   */
  lemma ForestMirrorsAcyclicRows(rows: seq<Role>, holders: seq<Holder>)
    requires UniqueIds(rows) && Acyclic(ParentLinks(rows))
    ensures Mirrors(rows, holders, Forest(rows, holders), SortedTops(rows))
  {
    var tops := SortedTops(rows);
    TopsAreDistinct(rows);
    VisitMirrors(rows, holders, tops, {});
    VisitReaches(rows, holders, tops, {});
    var v := Visit(rows, holders, tops, {}).1;
    forall r | r in rows ensures r.id in v {
      TopsReach(rows, v, r);
    }
    ForestSplits(rows, holders);
  }

  /** A node that no visited role lies above. */
  lemma StaysOutside(rows: seq<Role>, v: set<int>, x: int, t: int)
    requires UniqueIds(rows) && x !in v && t in v
    requires forall r | r in rows && r.parent.Some? && r.parent.value in v :: r.id in v
    ensures !Under(ParentLinks(rows), x, t)
  {
    var up := ParentLinks(rows);
    ChainIsLeast(up, x, iset y | y in up.Keys + up.Values + {x} && y !in v);
  }

  /**
   Cyclic or not, the roles whose parent is absent come first, in order, and all they reach hangs
   below them: an extra root is one that stands under none of them.
   */
  lemma ForestLeadsWithTops(rows: seq<Role>, holders: seq<Holder>)
    requires UniqueIds(rows)
    ensures var f, tops := Forest(rows, holders), SortedTops(rows);
            && |tops| <= |f|
            && (forall i | 0 <= i < |tops| :: f[i].id == tops[i].id)
            && (forall i, t | |tops| <= i < |f| && t in tops :: !Under(ParentLinks(rows), f[i].id, t.id))
  {
    var tops, all := SortedTops(rows), Sort(rows, ChartRank);
    TopsAreDistinct(rows);
    VisitTops(rows, holders, tops, {});
    VisitReaches(rows, holders, tops, {});
    ForestSplits(rows, holders);
    var v := Visit(rows, holders, tops, {}).1;
    VisitIsFlat(rows, holders, all, v);
    var g := Visit(rows, holders, all, v).0;
    forall i, t | 0 <= i < |g| && t in tops ensures !Under(ParentLinks(rows), g[i].id, t.id) {
      RootsAreFlat(g, i);
      VisitIsFlat(rows, holders, tops, {});
      StaysOutside(rows, v, g[i].id, t.id);
    }
  }

  lemma RootsAreFlat(f: seq<Node>, i: nat)
    requires i < |f|
    ensures f[i].id in FlatIds(f)
  {
    if i > 0 {
      RootsAreFlat(f[1..], i - 1);
    }
  }

  lemma {:induction false} VisitTops(rows: seq<Role>, holders: seq<Holder>, todo: seq<Role>, visited: set<int>)
    requires UniqueIds(rows) && Distinct(todo)
    requires forall t | t in todo :: t in rows && IsTop(rows, t) && t.id !in visited
    ensures var f := Visit(rows, holders, todo, visited).0;
            |f| == |todo| && forall i | 0 <= i < |f| :: f[i].id == todo[i].id
    decreases |todo|
  {
    if todo != [] {
      var head, rest := todo[0], todo[1..];
      var kids, seen := SortedKids(rows, head.id), visited + {head.id};
      forall t | t in rest ensures t.id !in Visit(rows, holders, kids, seen).1 {
        assert t in todo && t != head;
        LaterStaysNew(rows, holders, kids, seen, t);
      }
      VisitTops(rows, holders, rest, Visit(rows, holders, kids, seen).1);
    }
  }
}
