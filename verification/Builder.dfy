/** `buildOrganigramTree` as it runs: maps filled row by row, a visited set shared by the recursion. */
module Builder {
  import opened Lists
  import opened Roles
  import opened Tree

  /** `map.get(id) ?? []` */
  function Get<T>(m: map<int, seq<T>>, id: int): seq<T> {
    if id in m then m[id] else []
  }

  lemma HoldersAppend(holders: seq<Holder>, h: Holder, id: int)
    ensures HoldersOf(holders + [h], id) == HoldersOf(holders, id) + (if h.roleId == id then [h] else [])
  {
    FilterAppend(holders, [h], HeldIn(id));
  }

  method GroupHolders(holders: seq<Holder>) returns (byRole: map<int, seq<Holder>>)
    ensures forall id :: Get(byRole, id) == HoldersOf(holders, id)
  {
    byRole := map[];
    for i := 0 to |holders|
      invariant forall id :: Get(byRole, id) == HoldersOf(holders[..i], id)
    {
      var held := holders[i];
      assert holders[..i + 1] == holders[..i] + [held];
      forall id { HoldersAppend(holders[..i], held, id); }
      byRole := byRole[held.roleId := Get(byRole, held.roleId) + [held]];
    }
    assert holders[..|holders|] == holders;
  }

  lemma KidRowsAppend(rows: seq<Role>, r: Role, id: int)
    ensures KidRows(rows + [r], id) == KidRows(rows, id) + (if r.parent == Some(id) then [r] else [])
  {
    FilterAppend(rows, [r], ChildOf(id));
  }

  /** The rows by parent, and the roots, as far as they were read. */
  ghost predicate Grouped(known: set<int>, rows: seq<Role>, byParent: map<int, seq<Role>>) {
    forall id | id in known :: Get(byParent, id) == KidRows(rows, id)
  }

  /** One more row: a root, or one more child of its known parent. */
  method GroupRow(known: set<int>, ghost rows: seq<Role>, r: Role, byParent: map<int, seq<Role>>)
    returns (byParent': map<int, seq<Role>>, isRoot: bool)
    requires Grouped(known, rows, byParent)
    ensures Grouped(known, rows + [r], byParent')
    ensures isRoot <==> r.parent.None? || r.parent.value !in known
  {
    forall id { KidRowsAppend(rows, r, id); }
    if r.parent.None? || r.parent.value !in known {
      byParent', isRoot := byParent, true;
    } else {
      byParent' := byParent[r.parent.value := Get(byParent, r.parent.value) + [r]];
      isRoot := false;
    }
  }

  /** Split the rows into children by known parent and roots. */
  method GroupRows(rows: seq<Role>) returns (byParent: map<int, seq<Role>>, roots: seq<Role>)
    ensures Grouped(IdSet(rows), rows, byParent)
    ensures roots == TopRows(rows)
  {
    var known := IdSet(rows);
    byParent, roots := map[], [];
    for i := 0 to |rows|
      invariant Grouped(known, rows[..i], byParent)
      invariant roots == Filter(rows[..i], TopIn(rows))
    {
      var r := rows[i];
      assert rows[..i + 1] == rows[..i] + [r];
      FilterAppend(rows[..i], [r], TopIn(rows));
      var isRoot;
      byParent, isRoot := GroupRow(known, rows[..i], r, byParent);
      if isRoot {
        roots := roots + [r];
      }
    }
    assert rows[..|rows|] == rows;
  }

  class TreeBuilder {
    const rows: seq<Role>
    const holders: seq<Holder>
    const holdersByRole: map<int, seq<Holder>>
    const byParent: map<int, seq<Role>>
    var visited: set<int>

    ghost predicate Valid() {
      && UniqueIds(rows)
      && Grouped(IdSet(rows), rows, byParent)
      && (forall id :: Get(holdersByRole, id) == HoldersOf(holders, id))
    }

    constructor (rows: seq<Role>, holders: seq<Holder>,
                 byParent: map<int, seq<Role>>, holdersByRole: map<int, seq<Holder>>)
      requires UniqueIds(rows)
      requires Grouped(IdSet(rows), rows, byParent)
      requires forall id :: Get(holdersByRole, id) == HoldersOf(holders, id)
      ensures Valid() && visited == {} && this.rows == rows && this.holders == holders
    {
      this.rows, this.holders := rows, holders;
      this.byParent, this.holdersByRole, visited := byParent, holdersByRole, {};
    }

    /** Adds one visited node after the nodes `todo[..i]` already gave. */
    lemma OneMore(todo: seq<Role>, i: nat, from: set<int>)
      requires i < |todo| && forall t | t in todo :: t in rows
      ensures var (nodes, v) := Visit(rows, holders, todo[..i], from);
              var (more, w) := Visit(rows, holders, [todo[i]], v);
              Visit(rows, holders, todo[..i + 1], from) == (nodes + more, w)
    {
      assert todo[..i + 1] == todo[..i] + [todo[i]];
      VisitAppend(rows, holders, todo[..i], [todo[i]], from);
    }

    /** The nodes that were unvisited when `todo` was drawn up stay so until their turn. */
    lemma StillNew(todo: seq<Role>, i: nat, from: set<int>)
      requires UniqueIds(rows) && Distinct(todo) && i < |todo|
      requires forall t | t in todo ::
                 t in rows && t.id !in from && (IsTop(rows, t) || t.parent.value in from)
      ensures todo[i].id !in Visit(rows, holders, todo[..i], from).1
    {
      assert todo[i] !in todo[..i];
      LaterStaysNew(rows, holders, todo[..i], from, todo[i]);
    }

    /** The children still to build, and that leaving out the visited ones loses nothing. */
    lemma UnvisitedKids(role: Role, from: set<int>)
      requires Valid() && role in rows && role.id in from
      ensures var kids := Sort(Filter(KidRows(rows, role.id), NotIn(from)), ChartRank);
              && Distinct(kids)
              && (forall k | k in kids :: k in rows && k.id !in from && k.parent == Some(role.id))
              && Visit(rows, holders, kids, from) == Visit(rows, holders, SortedKids(rows, role.id), from)
    {
      var found := KidRows(rows, role.id);
      SortFilter(found, ChartRank, NotIn(from));
      VisitSkips(rows, holders, SortedKids(rows, role.id), from, from);
      UniqueIsDistinct(rows);
      FilterDistinct(rows, ChildOf(role.id));
      FilterDistinct(found, NotIn(from));
      SortDistinct(Filter(found, NotIn(from)), ChartRank);
    }

    /** `todo.map(buildNode)` */
    method BuildAll(todo: seq<Role>) returns (nodes: seq<Node>)
      requires Valid() && Distinct(todo)
      requires forall t | t in todo ::
                 t in rows && t.id !in visited && (IsTop(rows, t) || t.parent.value in visited)
      modifies this
      ensures (nodes, visited) == Visit(rows, holders, todo, old(visited))
      decreases IdSet(rows) - visited, 1
    {
      ghost var from := visited;
      nodes := [];
      for i := 0 to |todo|
        invariant from <= visited && (nodes, visited) == Visit(rows, holders, todo[..i], from)
      {
        StillNew(todo, i, from);
        OneMore(todo, i, from);
        var node := BuildNode(todo[i]);
        nodes := nodes + [node];
      }
      assert todo[..|todo|] == todo;
    }

    method BuildNode(role: Role) returns (node: Node)
      requires Valid() && role in rows && role.id !in visited
      modifies this
      ensures old(visited) <= visited && ([node], visited) == Visit(rows, holders, [role], old(visited))
      decreases IdSet(rows) - visited, 0
    {
      visited := visited + {role.id};
      var kids := Sort(Filter(Get(byParent, role.id), NotIn(visited)), ChartRank);
      UnvisitedKids(role, visited);
      var children := BuildAll(kids);
      node := Node(role.id, role.key, role.name, role.note, IsRoster(role.key), role.isSinglePerson,
                   Sort(Get(holdersByRole, role.id), SeatRank), children);
      assert [node] + [] == [node];
    }

    /** Whatever no root reached becomes an extra root, in order. */
    method BuildStranded(sorted: seq<Role>) returns (late: seq<Node>)
      requires Valid() && forall r | r in sorted :: r in rows
      modifies this
      ensures (late, visited) == Visit(rows, holders, sorted, old(visited))
    {
      ghost var from := visited;
      late := [];
      for i := 0 to |sorted|
        invariant from <= visited && (late, visited) == Visit(rows, holders, sorted[..i], from)
      {
        OneMore(sorted, i, from);
        if sorted[i].id !in visited {
          var node := BuildNode(sorted[i]);
          late := late + [node];
        } else {
          assert late + [] == late;
        }
      }
      assert sorted[..|sorted|] == sorted;
    }

    method Build(roots: seq<Role>) returns (tree: seq<Node>)
      requires Valid() && visited == {} && roots == TopRows(rows)
      modifies this
      ensures tree == Forest(rows, holders)
    {
      TopsAreDistinct(rows);
      ForestSplits(rows, holders);
      var tops := BuildAll(Sort(roots, ChartRank));
      var late := BuildStranded(Sort(rows, ChartRank));
      tree := tops + late;
    }
  }

  method BuildOrganigramTree(rows: seq<Role>, holders: seq<Holder>) returns (tree: seq<Node>)
    requires UniqueIds(rows)
    ensures tree == Forest(rows, holders)
  {
    var holdersByRole := GroupHolders(holders);
    var byParent, roots := GroupRows(rows);
    var builder := new TreeBuilder(rows, holders, byParent, holdersByRole);
    tree := builder.Build(roots);
  }
}
