/** The eligibility matrix: a second cycle-safe preorder of the chart, and the banding of its columns. */
module Matrix {
  import opened Lists
  import opened Graph
  import opened Roles
  import opened Tree
  import opened Chart
  import Safety

  datatype Band = PostBand(post: Key) | Others | OffChart

  datatype Column = Column(id: int, name: string, isSinglePerson: bool)

  datatype Group = Group(band: Band, columns: seq<Column>, collapsed: bool)

  function ToColumn(r: Role): Column { Column(r.id, r.name, r.isSinglePerson) }

  /** The chart roles that have a child on the chart. */
  function ChartParents(rows: seq<Role>): set<int> {
    var chart := ChartRows(rows);
    set r | r in chart && r.parent.Some? && r.parent.value in IdSet(chart) :: r.parent.value
  }

  /** A leaf of the chart, an off-chart group role, or any role still holding plain members. */
  predicate IsColumn(rows: seq<Role>, withMembers: set<int>, r: Role) {
    if r.id in withMembers then true
    else if r.isSinglePerson then false
    else if !r.onChart then true
    else r.id !in ChartParents(rows)
  }

  function CustomColumn(rows: seq<Role>, withMembers: set<int>): Role -> bool {
    (r: Role) => !r.isBuiltIn && IsColumn(rows, withMembers, r)
  }

  function OffChartColumn(rows: seq<Role>, withMembers: set<int>): Role -> bool {
    (r: Role) => !r.isBuiltIn && !r.onChart && IsColumn(rows, withMembers, r)
  }

  /** The first committee post met walking upwards, or none; a repeated or missing row ends the walk. */
  function BranchFrom(rows: seq<Role>, id: int, seen: set<int>): (post: Option<Key>)
    ensures post.Some? ==> IsPost(post.value)
    decreases IdSet(rows) - seen
  {
    if id in seen then None
    else
      match Find(rows, id)
      case None => None
      case Some(r) =>
        if IsPost(r.key) then Some(r.key)
        else if r.parent.None? then None
        else BranchFrom(rows, r.parent.value, seen + {id})
  }

  /** The committee post a role reports under, however deep, or none. */
  function BranchOf(rows: seq<Role>, r: Role): Option<Key> {
    BranchFrom(rows, r.id, {})
  }

  /** The first committee post on a chain of ids. */
  function FirstPost(rows: seq<Role>, chain: seq<int>): Option<Key> {
    if chain == [] then None
    else
      match Find(rows, chain[0])
      case None => None
      case Some(r) => if IsPost(r.key) then Some(r.key) else FirstPost(rows, chain[1..])
  }

  /** The band is that of the nearest post among the role and its ancestors. */
  lemma {:induction false} BranchIsNearestPost(rows: seq<Role>, id: int, seen: set<int>)
    requires UniqueIds(rows)
    ensures BranchFrom(rows, id, seen) == FirstPost(rows, Climb(ParentLinks(rows), id, seen))
    decreases IdSet(rows) - seen
  {
    var up := ParentLinks(rows);
    if id !in seen && Find(rows, id).Some? {
      var r := Find(rows, id).value;
      Safety.RowLink(rows, r);
      if r.parent.Some? {
        BranchIsNearestPost(rows, r.parent.value, seen + {id});
        assert Climb(up, id, seen)[1..] == Climb(up, r.parent.value, seen + {id});
      }
    }
  }

  /** The walk as a loop. */
  method FindBranch(rows: seq<Role>, r: Role) returns (post: Option<Key>)
    requires UniqueIds(rows) && r in rows
    ensures post == BranchOf(rows, r)
  {
    var seen, current := {}, Some(r);
    while current.Some? && current.value.id !in seen
      invariant current.Some? ==> current.value in rows
      invariant BranchOf(rows, r) == if current.Some? then BranchFrom(rows, current.value.id, seen) else None
      decreases IdSet(rows) - seen, current.Some?
    {
      var row := current.value;
      SameIdSameRow(rows, row, Find(rows, row.id).value);
      if IsPost(row.key) { return Some(row.key); }
      seen := seen + {row.id};
      current := if row.parent.None? then None else Find(rows, row.parent.value);
    }
    post := None;
  }

  /** The order in which a visit of `todo` reads, and what it has visited at the end. */
  function ReadingOrder(chart: seq<Role>, todo: seq<Role>, from: set<int>): seq<int>
    requires forall t | t in todo :: t in chart
  {
    FlatIds(Visit(chart, [], todo, from).0)
  }

  function End(chart: seq<Role>, todo: seq<Role>, from: set<int>): set<int>
    requires forall t | t in todo :: t in chart
  {
    Visit(chart, [], todo, from).1
  }

  lemma ReadOne(chart: seq<Role>, row: Role, from: set<int>)
    requires row in chart
    ensures row.id in from ==> ReadingOrder(chart, [row], from) == [] && End(chart, [row], from) == from
    ensures row.id !in from ==>
              var kids := SortedKids(chart, row.id);
              && ReadingOrder(chart, [row], from) == [row.id] + ReadingOrder(chart, kids, from + {row.id})
              && End(chart, [row], from) == End(chart, kids, from + {row.id})
  {
    assert [row][1..] == [];
    if row.id in from {
      assert Visit(chart, [], [], from) == ([], from);
      assert Visit(chart, [], [row], from) == ([], from);
    } else {
      var below := Visit(chart, [], SortedKids(chart, row.id), from + {row.id});
      var node := MakeNode(row, [], below.0);
      assert [node] + [] == [node] && [node][1..] == [];
      assert Visit(chart, [], [], below.1) == ([], below.1);
      assert FlatIds([node]) == [row.id] + FlatIds(below.0) + FlatIds([]);
    }
  }

  /** What a walk of one row adds to what was read before. */
  lemma ReadAfter(chart: seq<Role>, row: Role, from: set<int>, before: seq<int>)
    requires row in chart
    ensures row.id in from ==> before + ReadingOrder(chart, [row], from) == before && End(chart, [row], from) == from
    ensures row.id !in from ==>
              var kids := SortedKids(chart, row.id);
              && before + ReadingOrder(chart, [row], from)
                     == before + [row.id] + ReadingOrder(chart, kids, from + {row.id})
              && End(chart, [row], from) == End(chart, kids, from + {row.id})
  {
    ReadOne(chart, row, from);
  }

  lemma ReadMore(chart: seq<Role>, todo: seq<Role>, from: set<int>, before: seq<int>)
    requires todo != [] && forall t | t in todo :: t in chart
    ensures var middle := End(chart, [todo[0]], from);
            && before + ReadingOrder(chart, todo, from)
               == (before + ReadingOrder(chart, [todo[0]], from)) + ReadingOrder(chart, todo[1..], middle)
            && End(chart, todo, from) == End(chart, todo[1..], middle)
  {
    assert todo == [todo[0]] + todo[1..];
    VisitAppend(chart, [], [todo[0]], todo[1..], from);
    FlatIdsAppend(Visit(chart, [], [todo[0]], from).0,
                  Visit(chart, [], todo[1..], End(chart, [todo[0]], from)).0);
  }

  lemma IdsAppend(a: seq<Role>, b: seq<Role>)
    ensures Ids(a + b) == Ids(a) + Ids(b)
  {
  }

  class Preorder {
    const chart: seq<Role>
    var visited: set<int>
    var order: seq<Role>
    ghost var read: seq<int>

    ghost predicate Valid()
      reads this
    {
      read == Ids(order) && forall r | r in order :: r in chart
    }

    constructor (chart: seq<Role>)
      ensures Valid() && this.chart == chart && visited == {} && read == []
    {
      this.chart, visited, order, read := chart, {}, [], [];
    }

    method Meet(row: Role)
      requires Valid() && row in chart
      modifies this
      ensures Valid() && visited == old(visited) + {row.id} && read == old(read) + [row.id]
    {
      IdsAppend(order, [row]);
      visited := visited + {row.id};
      order, read := order + [row], read + [row.id];
    }

    /** Walk a row unless it was met. */
    method Walk(row: Role)
      requires Valid() && row in chart
      modifies this
      ensures Valid() && old(visited) <= visited == End(chart, [row], old(visited))
      ensures read == old(read) + ReadingOrder(chart, [row], old(visited))
      decreases IdSet(chart) - visited, 0, 0
    {
      ReadAfter(chart, row, visited, read);
      if row.id !in visited {
        Meet(row);
        WalkAll(SortedKids(chart, row.id));
      }
    }

    /** All are tried, each checked on entry. */
    method WalkAll(todo: seq<Role>)
      requires Valid() && forall t | t in todo :: t in chart
      modifies this
      ensures Valid() && old(visited) <= visited == End(chart, todo, old(visited))
      ensures read == old(read) + ReadingOrder(chart, todo, old(visited))
      decreases IdSet(chart) - visited, 1, |todo|
    {
      if todo != [] {
        ReadMore(chart, todo, visited, read);
        Walk(todo[0]);
        WalkAll(todo[1..]);
      }
    }
  }

  /**
   Two traversals agree, on cyclic rows too: the matrix visits the chart in the order in which
   the assembled tree reads.
   */
  method ChartPreorder(chart: seq<Role>) returns (order: seq<Role>)
    requires UniqueIds(chart)
    ensures Ids(order) == FlatIds(Forest(chart, []))
    ensures forall r | r in order :: r in chart
  {
    var p := new Preorder(chart);
    p.WalkAll(SortedTops(chart) + Sort(chart, ChartRank));
    order := p.order;
  }

  /** Holders only decorate the tree. */
  lemma {:induction false} VisitIgnoresHolders(rows: seq<Role>, holders: seq<Holder>, todo: seq<Role>,
      visited: set<int>)
    requires forall t | t in todo :: t in rows
    ensures Visit(rows, holders, todo, visited).1 == Visit(rows, [], todo, visited).1
    ensures FlatIds(Visit(rows, holders, todo, visited).0) == FlatIds(Visit(rows, [], todo, visited).0)
    decreases IdSet(rows) - visited, |todo|
  {
    if todo != [] {
      if todo[0].id in visited {
        VisitIgnoresHolders(rows, holders, todo[1..], visited);
      } else {
        var kids, seen := SortedKids(rows, todo[0].id), visited + {todo[0].id};
        VisitIgnoresHolders(rows, holders, kids, seen);
        var (f, v) := Visit(rows, holders, kids, seen);
        var g := Visit(rows, [], kids, seen).0;
        VisitIgnoresHolders(rows, holders, todo[1..], v);
        var a, b := Visit(rows, holders, todo[1..], v).0, Visit(rows, [], todo[1..], v).0;
        assert ([MakeNode(todo[0], holders, f)] + a)[1..] == a;
        assert ([MakeNode(todo[0], [], g)] + b)[1..] == b;
      }
    }
  }

  /** The order of the page's tree, whoever sits in it. */
  lemma ForestOrderIgnoresHolders(rows: seq<Role>, holders: seq<Holder>)
    ensures FlatIds(Forest(rows, holders)) == FlatIds(Forest(rows, []))
  {
    VisitIgnoresHolders(rows, holders, SortedTops(rows) + Sort(rows, ChartRank), {});
  }

  function InBranch(rows: seq<Role>, post: Option<Key>): Role -> bool { (r: Role) => BranchOf(rows, r) == post }

  lemma FilterNext<T(!new)>(s: seq<T>, i: nat, keep: T -> bool)
    requires i < |s|
    ensures Filter(s[..i + 1], keep) == Filter(s[..i], keep) + if keep(s[i]) then [s[i]] else []
  {
    assert s[..i + 1] == s[..i] + [s[i]];
    FilterAppend(s[..i], [s[i]], keep);
  }

  method PickBranch(rows: seq<Role>, custom: seq<Role>, post: Option<Key>) returns (picked: seq<Role>)
    requires UniqueIds(rows) && forall r | r in custom :: r in rows
    ensures picked == Filter(custom, InBranch(rows, post))
  {
    picked := [];
    for i := 0 to |custom|
      invariant picked == Filter(custom[..i], InBranch(rows, post))
    {
      FilterNext(custom, i, InBranch(rows, post));
      var branch := FindBranch(rows, custom[i]);
      if branch == post {
        picked := picked + [custom[i]];
      }
    }
    assert custom[..|custom|] == custom;
  }

  function Columns(rs: seq<Role>): (cols: seq<Column>)
    ensures |cols| == |rs| && forall i | 0 <= i < |rs| :: cols[i] == ToColumn(rs[i])
  {
    seq(|rs|, i requires 0 <= i < |rs| => ToColumn(rs[i]))
  }

  /** An empty band is left out. */
  function Pushed(groups: seq<Group>, band: Band, rs: seq<Role>, collapsed: set<Band>): seq<Group> {
    if rs == [] then groups else groups + [Group(band, Columns(rs), band in collapsed)]
  }

  /** The bands in order over a preorder of the chart's columns and the off-chart ones. */
  function GroupsOf(rows: seq<Role>, custom: seq<Role>, off: seq<Role>, collapsed: set<Band>): seq<Group> {
    var g1 := Pushed([], PostBand(Coordinator), Filter(custom, InBranch(rows, Some(Coordinator))), collapsed);
    var g2 := Pushed(g1, PostBand(Secretary), Filter(custom, InBranch(rows, Some(Secretary))), collapsed);
    var g3 := Pushed(g2, PostBand(ServiceOverseer), Filter(custom, InBranch(rows, Some(ServiceOverseer))), collapsed);
    var g4 := Pushed(g3, Others, Filter(custom, InBranch(rows, None)), collapsed);
    Pushed(g4, OffChart, off, collapsed)
  }

  function OffChartRows(rows: seq<Role>, withMembers: set<int>): seq<Role> {
    Sort(Filter(rows, OffChartColumn(rows, withMembers)), NameRank)
  }

  /** The chart's roles in the order in which the assembled tree reads. */
  ghost predicate InReadingOrder(rows: seq<Role>, order: seq<Role>) {
    (forall r | r in order :: r in ChartRows(rows)) && Ids(order) == FlatIds(Forest(ChartRows(rows), []))
  }

  function MatrixGroups(rows: seq<Role>, order: seq<Role>, collapsed: set<Band>, withMembers: set<int>): seq<Group> {
    GroupsOf(rows, Filter(order, CustomColumn(rows, withMembers)), OffChartRows(rows, withMembers), collapsed)
  }

  function ColumnIds(groups: seq<Group>): seq<int> {
    if groups == [] then []
    else seq(|groups[0].columns|, i requires 0 <= i < |groups[0].columns| => groups[0].columns[i].id)
                                 + ColumnIds(groups[1..])
  }

  lemma PushedIds(groups: seq<Group>, band: Band, rs: seq<Role>, collapsed: set<Band>)
    ensures ColumnIds(Pushed(groups, band, rs, collapsed)) == ColumnIds(groups) + Ids(rs)
  {
    if rs != [] {
      AppendedIds(groups, Group(band, Columns(rs), band in collapsed), rs);
    }
  }

  lemma {:induction false} AppendedIds(groups: seq<Group>, g: Group, rs: seq<Role>)
    requires g.columns == Columns(rs)
    ensures ColumnIds(groups + [g]) == ColumnIds(groups) + Ids(rs)
  {
    if groups == [] {
      assert [g][1..] == [];
      assert ColumnIds([g]) == Ids(rs) + [];
    } else {
      assert (groups + [g])[1..] == groups[1..] + [g];
      AppendedIds(groups[1..], g, rs);
    }
  }

  /** Which band a qualifying role belongs to. */
  function BandOf(rows: seq<Role>, r: Role): Band {
    if !r.onChart then OffChart
    else match BranchOf(rows, r) case Some(k) => PostBand(k) case None => Others
  }

  /** Every column of a group shows a role of its band. */
  ghost predicate RightBand(rows: seq<Role>, g: Group) {
    forall c | c in g.columns :: exists r :: r in rows && c == ToColumn(r) && g.band == BandOf(rows, r)
  }

  lemma PushedRight(rows: seq<Role>, groups: seq<Group>, band: Band, rs: seq<Role>, collapsed: set<Band>)
    requires forall g | g in groups :: RightBand(rows, g)
    requires forall r | r in rs :: r in rows && BandOf(rows, r) == band
    ensures forall g | g in Pushed(groups, band, rs, collapsed) :: RightBand(rows, g)
  {
    forall c | c in Columns(rs) ensures exists r :: r in rows && c == ToColumn(r) && band == BandOf(rows, r) {
      var i :| 0 <= i < |rs| && Columns(rs)[i] == c;
      assert rs[i] in rs;
    }
  }

  lemma RolesDistinctIds(rows: seq<Role>, s: seq<Role>)
    requires UniqueIds(rows) && Distinct(s) && forall r | r in s :: r in rows
    ensures Distinct(Ids(s))
  {
    forall i, j | 0 <= i < j < |s| ensures Ids(s)[i] != Ids(s)[j] {
      assert s[i] in s && s[j] in s;
      if s[i].id == s[j].id { SameIdSameRow(rows, s[i], s[j]); }
    }
  }

  /** The preorder holds exactly the chart roles, each once. */
  lemma OrderIsChart(rows: seq<Role>, order: seq<Role>)
    requires UniqueIds(rows) && InReadingOrder(rows, order)
    ensures Distinct(order) && forall r :: r in order <==> r in ChartRows(rows)
  {
    var chart := ChartRows(rows);
    FilterKeepsIdsUnique(rows, OnChart);
    ForestShowsEachRoleOnce(chart, []);
    forall i, j | 0 <= i < j < |order| ensures order[i] != order[j] {
      assert Ids(order)[i] != Ids(order)[j];
    }
    forall r | r in chart ensures r in order {
      assert r.id in IdSet(chart);
      var i :| 0 <= i < |order| && Ids(order)[i] == r.id;
      assert order[i] in order;
      SameIdSameRow(chart, order[i], r);
    }
  }

  /** Two branches share no role, so joining one more to those before keeps them distinct. */
  lemma JoinBranch(rows: seq<Role>, custom: seq<Role>, before: seq<Role>, post: Option<Key>)
    requires Distinct(custom) && Distinct(before) && forall r | r in before :: BranchOf(rows, r) != post
    ensures Distinct(before + Filter(custom, InBranch(rows, post)))
  {
    FilterDistinct(custom, InBranch(rows, post));
    assert forall r :: r in before ==> r !in Filter(custom, InBranch(rows, post));
    DistinctAppend(before, Filter(custom, InBranch(rows, post)));
  }

  function AllBranches(rows: seq<Role>, custom: seq<Role>): seq<Role> {
    Filter(custom, InBranch(rows, Some(Coordinator))) + Filter(custom, InBranch(rows, Some(Secretary)))
    + Filter(custom, InBranch(rows, Some(ServiceOverseer))) + Filter(custom, InBranch(rows, None))
  }

  /** The four branches share the custom roles out. */
  lemma BranchesShare(rows: seq<Role>, custom: seq<Role>)
    requires Distinct(custom)
    ensures Distinct(AllBranches(rows, custom)) && forall r :: r in AllBranches(rows, custom) <==> r in custom
  {
    var a, b := Filter(custom, InBranch(rows, Some(Coordinator))), Filter(custom, InBranch(rows, Some(Secretary)));
    var c := Filter(custom, InBranch(rows, Some(ServiceOverseer)));
    FilterDistinct(custom, InBranch(rows, Some(Coordinator)));
    JoinBranch(rows, custom, a, Some(Secretary));
    JoinBranch(rows, custom, a + b, Some(ServiceOverseer));
    JoinBranch(rows, custom, a + b + c, None);
    forall r | r in custom ensures r in AllBranches(rows, custom) {
      assert BranchOf(rows, r).Some? ==> IsPost(BranchOf(rows, r).value);
    }
  }

  lemma Shared(rows: seq<Role>, custom: seq<Role>, off: seq<Role>)
    requires Distinct(custom) && Distinct(off)
    requires forall r | r in custom :: r.onChart
    requires forall r | r in off :: !r.onChart
    ensures Distinct(AllRoles(rows, custom, off))
    ensures forall r :: r in AllRoles(rows, custom, off) <==> r in custom || r in off
  {
    BranchesShare(rows, custom);
    assert forall r :: r in AllBranches(rows, custom) ==> r !in off;
    DistinctAppend(AllBranches(rows, custom), off);
  }

  /**
   Every custom role that qualifies is a column exactly once, in the band of the post it reports
   under; nothing else is. In particular a role with a plain member is never hidden.
   */
  lemma EveryColumnOnce(rows: seq<Role>, order: seq<Role>, collapsed: set<Band>, withMembers: set<int>)
    requires UniqueIds(rows) && InReadingOrder(rows, order)
    ensures var groups := MatrixGroups(rows, order, collapsed, withMembers);
            && Distinct(ColumnIds(groups))
            && (forall r | r in rows :: r.id in ColumnIds(groups) <==> !r.isBuiltIn && IsColumn(rows, withMembers, r))
            && (forall g | g in groups :: RightBand(rows, g))
            && (forall r | r in rows && !r.isBuiltIn && r.id in withMembers :: r.id in ColumnIds(groups))
  {
    var custom, off := Filter(order, CustomColumn(rows, withMembers)), OffChartRows(rows, withMembers);
    OrderIsChart(rows, order);
    FilterDistinct(order, CustomColumn(rows, withMembers));
    UniqueIsDistinct(rows);
    FilterDistinct(rows, OffChartColumn(rows, withMembers));
    SortDistinct(Filter(rows, OffChartColumn(rows, withMembers)), NameRank);
    Shared(rows, custom, off);
    GroupsRight(rows, custom, off, collapsed);
    GroupIds(rows, custom, off, collapsed);
    var all := AllRoles(rows, custom, off);
    RolesDistinctIds(rows, all);
    var groups := GroupsOf(rows, custom, off, collapsed);
    forall r | r in rows ensures r.id in ColumnIds(groups) <==> !r.isBuiltIn && IsColumn(rows, withMembers, r) {
      if r.id in Ids(all) {
        var i :| 0 <= i < |all| && Ids(all)[i] == r.id;
        assert all[i] in all;
        SameIdSameRow(rows, r, all[i]);
      }
      if !r.isBuiltIn && IsColumn(rows, withMembers, r) {
        assert if r.onChart then r in ChartRows(rows) && CustomColumn(rows, withMembers)(r) && r in custom
               else OffChartColumn(rows, withMembers)(r) && r in off;
      }
    }
  }

  function AllRoles(rows: seq<Role>, custom: seq<Role>, off: seq<Role>): seq<Role> {
    AllBranches(rows, custom) + off
  }

  lemma GroupIds(rows: seq<Role>, custom: seq<Role>, off: seq<Role>, collapsed: set<Band>)
    ensures ColumnIds(GroupsOf(rows, custom, off, collapsed)) == Ids(AllRoles(rows, custom, off))
  {
    var a, b := Filter(custom, InBranch(rows, Some(Coordinator))), Filter(custom, InBranch(rows, Some(Secretary)));
    var c, d := Filter(custom, InBranch(rows, Some(ServiceOverseer))), Filter(custom, InBranch(rows, None));
    var g1 := Pushed([], PostBand(Coordinator), a, collapsed);
    var g2 := Pushed(g1, PostBand(Secretary), b, collapsed);
    var g3 := Pushed(g2, PostBand(ServiceOverseer), c, collapsed);
    var g4 := Pushed(g3, Others, d, collapsed);
    PushedIds([], PostBand(Coordinator), a, collapsed);
    PushedIds(g1, PostBand(Secretary), b, collapsed);
    PushedIds(g2, PostBand(ServiceOverseer), c, collapsed);
    PushedIds(g3, Others, d, collapsed);
    PushedIds(g4, OffChart, off, collapsed);
    IdsAppend(a, b);
    IdsAppend(a + b, c);
    IdsAppend(a + b + c, d);
    IdsAppend(a + b + c + d, off);
    assert ColumnIds([]) + Ids(a) == Ids(a);
  }

  lemma GroupsRight(rows: seq<Role>, custom: seq<Role>, off: seq<Role>, collapsed: set<Band>)
    requires forall r | r in custom :: r in rows && r.onChart
    requires forall r | r in off :: r in rows && !r.onChart
    ensures forall g | g in GroupsOf(rows, custom, off, collapsed) :: RightBand(rows, g)
  {
    var g1 := Pushed([], PostBand(Coordinator), Filter(custom, InBranch(rows, Some(Coordinator))), collapsed);
    PushedRight(rows, [], PostBand(Coordinator), Filter(custom, InBranch(rows, Some(Coordinator))), collapsed);
    var g2 := Pushed(g1, PostBand(Secretary), Filter(custom, InBranch(rows, Some(Secretary))), collapsed);
    PushedRight(rows, g1, PostBand(Secretary), Filter(custom, InBranch(rows, Some(Secretary))), collapsed);
    var g3 := Pushed(g2, PostBand(ServiceOverseer), Filter(custom, InBranch(rows, Some(ServiceOverseer))), collapsed);
    PushedRight(rows, g2, PostBand(ServiceOverseer), Filter(custom, InBranch(rows, Some(ServiceOverseer))), collapsed);
    var g4 := Pushed(g3, Others, Filter(custom, InBranch(rows, None)), collapsed);
    PushedRight(rows, g3, Others, Filter(custom, InBranch(rows, None)), collapsed);
    PushedRight(rows, g4, OffChart, off, collapsed);
  }
}
