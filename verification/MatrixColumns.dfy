/** The eligibility matrix read from the rows: which roles are columns, in which band, and in which order. */
module MatrixColumns {
  import opened Lists
  import opened Graph
  import opened Roles
  import opened Tree
  import opened Chart
  import opened Matrix

  // ----- which roles are columns -----

  /** Nobody shown on the chart reports to the role. */
  ghost predicate IsChartLeaf(rows: seq<Role>, id: int) {
    forall c | c in rows && c.onChart :: c.parent != Some(id)
  }

  /** A custom role with a plain member, or a group role that is off the chart or a leaf of it. */
  ghost predicate Qualifies(rows: seq<Role>, withMembers: set<int>, r: Role) {
    !r.isBuiltIn && (r.id in withMembers || (!r.isSinglePerson && (!r.onChart || IsChartLeaf(rows, r.id))))
  }

  lemma ColumnsQualify(rows: seq<Role>, withMembers: set<int>, r: Role)
    requires r in rows
    ensures !r.isBuiltIn && IsColumn(rows, withMembers, r) <==> Qualifies(rows, withMembers, r)
  {
    var chart := ChartRows(rows);
    if r.onChart {
      assert r in chart && r.id in IdSet(chart);
      assert r.id in ChartParents(rows) <==> !IsChartLeaf(rows, r.id) by {
        if c :| c in rows && c.onChart && c.parent == Some(r.id) { assert c in chart; }
      }
    }
  }

  /** On an acyclic chart a leaf is a node without children in the assembled tree. */
  ghost predicate LeafIn(f: seq<Node>, id: int) {
    f != [] && ((f[0].id == id && f[0].children == []) || LeafIn(f[0].children, id) || LeafIn(f[1..], id))
  }

  lemma {:induction false} LeavesMirror(rows: seq<Role>, holders: seq<Holder>, f: seq<Node>, shown: seq<Role>, id: int)
    requires Mirrors(rows, holders, f, shown)
    ensures LeafIn(f, id) <==> id in FlatIds(f) && SortedKids(rows, id) == []
    decreases f
  {
    if f != [] {
      LeavesMirror(rows, holders, f[0].children, SortedKids(rows, shown[0].id), id);
      LeavesMirror(rows, holders, f[1..], shown[1..], id);
    }
  }

  lemma ChartLeavesAreLeaves(rows: seq<Role>, r: Role)
    requires UniqueIds(rows) && Acyclic(ChartUp(rows)) && r in rows && r.onChart
    ensures IsChartLeaf(rows, r.id) <==> LeafIn(Forest(ChartRows(rows), []), r.id)
  {
    var chart := ChartRows(rows);
    FilterKeepsIdsUnique(rows, OnChart);
    ForestMirrorsAcyclicRows(chart, []);
    ForestShowsEachRoleOnce(chart, []);
    LeavesMirror(chart, [], Forest(chart, []), SortedTops(chart), r.id);
    assert r in chart && r.id in IdSet(chart);
    NoKids(rows, r.id);
  }

  lemma NoKids(rows: seq<Role>, id: int)
    ensures SortedKids(ChartRows(rows), id) == [] <==> IsChartLeaf(rows, id)
  {
    var kids := SortedKids(ChartRows(rows), id);
    if c :| c in rows && c.onChart && c.parent == Some(id) {
      assert c in ChartRows(rows) && ChildOf(id)(c) && c in KidRows(ChartRows(rows), id) && c in kids;
    }
    if kids != [] { assert kids[0] in kids && kids[0] in KidRows(ChartRows(rows), id); }
  }

  // ----- in which band -----

  /** The first post on the way up, counting the role itself, is of this key; `None` when there is none. */
  ghost predicate NearestPost(rows: seq<Role>, chain: seq<int>, post: Option<Key>) {
    match post
    case Some(k) =>
      exists i | 0 <= i < |chain| :: PostAt(rows, chain[i], k) && forall j, l | 0 <= j < i :: !PostAt(rows, chain[j], l)
    case None => forall j, l | 0 <= j < |chain| :: !PostAt(rows, chain[j], l)
  }

  ghost predicate PostAt(rows: seq<Role>, id: int, k: Key) {
    k in {Coordinator, Secretary, ServiceOverseer} && exists r :: r in rows && r.id == id && r.key == k
  }

  lemma PostRowIs(rows: seq<Role>, id: int, k: Key)
    requires UniqueIds(rows)
    ensures PostAt(rows, id, k) <==> Find(rows, id).Some? && Find(rows, id).value.key == k && IsPost(k)
  {
    if r :| r in rows && r.id == id && r.key == k { SameIdSameRow(rows, r, Find(rows, id).value); }
  }

  /** A chain's walk ends where no row is found: only its last id can be missing. */
  ghost predicate KnownBut(rows: seq<Role>, chain: seq<int>) {
    forall i | 0 <= i < |chain| - 1 :: Find(rows, chain[i]).Some?
  }

  lemma {:induction false} FirstPostIsNearest(rows: seq<Role>, chain: seq<int>)
    requires UniqueIds(rows) && KnownBut(rows, chain)
    ensures NearestPost(rows, chain, FirstPost(rows, chain))
  {
    if chain != [] {
      forall k ensures PostAt(rows, chain[0], k)
                   <==> Find(rows, chain[0]).Some? && Find(rows, chain[0]).value.key == k && IsPost(k) {
        PostRowIs(rows, chain[0], k);
      }
      if Find(rows, chain[0]).Some? && !IsPost(Find(rows, chain[0]).value.key) {
        var rest := chain[1..];
        forall i | 0 <= i < |rest| - 1 ensures Find(rows, rest[i]).Some? { assert rest[i] == chain[i + 1]; }
        FirstPostIsNearest(rows, rest);
        NearestBehind(rows, chain, FirstPost(rows, rest));
      }
    }
  }

  lemma NearestBehind(rows: seq<Role>, chain: seq<int>, post: Option<Key>)
    requires chain != [] && (forall k :: !PostAt(rows, chain[0], k)) && NearestPost(rows, chain[1..], post)
    ensures NearestPost(rows, chain, post)
  {
    var rest := chain[1..];
    forall j, l | 0 < j < |chain| && PostAt(rows, chain[j], l) ensures PostAt(rows, rest[j - 1], l) {
    }
    if post.Some? {
      var i :| 0 <= i < |rest| && PostAt(rows, rest[i], post.value)
               && forall j, l | 0 <= j < i :: !PostAt(rows, rest[j], l);
      assert PostAt(rows, chain[i + 1], post.value);
      forall j, l | 0 <= j < i + 1 ensures !PostAt(rows, chain[j], l) {
        if j > 0 { assert !PostAt(rows, rest[j - 1], l); }
      }
    }
  }

  lemma {:induction false} ClimbIsKnown(rows: seq<Role>, id: int, seen: set<int>)
    requires UniqueIds(rows)
    ensures KnownBut(rows, Climb(ParentLinks(rows), id, seen))
    decreases ParentLinks(rows).Keys - seen
  {
    var up := ParentLinks(rows);
    if id !in seen && id in up {
      ClimbIsKnown(rows, up[id], seen + {id});
      var r :| r in rows && r.id == id && r.parent.Some?;
      assert Find(rows, id).Some?;
    }
  }

  /** The branch is that of the nearest post at or above the role. */
  lemma BranchIsRight(rows: seq<Role>, r: Role)
    requires UniqueIds(rows) && r in rows
    ensures NearestPost(rows, Chain(ParentLinks(rows), r.id), BranchOf(rows, r))
  {
    BranchIsNearestPost(rows, r.id, {});
    ClimbIsKnown(rows, r.id, {});
    FirstPostIsNearest(rows, Chain(ParentLinks(rows), r.id));
  }

  /** The band a column of this role stands in. */
  ghost predicate BelongsIn(rows: seq<Role>, r: Role, band: Band)
    requires UniqueIds(rows)
  {
    match band
    case OffChart => !r.onChart
    case PostBand(k) => r.onChart && NearestPost(rows, Chain(ParentLinks(rows), r.id), Some(k))
    case Others => r.onChart && NearestPost(rows, Chain(ParentLinks(rows), r.id), None)
  }

  /** A group shows roles of its band, by id, name and shape. */
  ghost predicate ShowsItsBand(rows: seq<Role>, g: Group)
    requires UniqueIds(rows)
  {
    forall c | c in g.columns ::
      exists r :: r in rows && c.id == r.id && c.name == r.name && c.isSinglePerson == r.isSinglePerson
                  && BelongsIn(rows, r, g.band)
  }

  lemma BandsAreRight(rows: seq<Role>, g: Group)
    requires UniqueIds(rows) && RightBand(rows, g)
    ensures ShowsItsBand(rows, g)
  {
    forall c | c in g.columns
      ensures exists r :: r in rows && c.id == r.id && c.name == r.name && c.isSinglePerson == r.isSinglePerson
                          && BelongsIn(rows, r, g.band) {
      var r :| r in rows && c == ToColumn(r) && g.band == BandOf(rows, r);
      BranchIsRight(rows, r);
    }
  }

  // ----- in which order -----

  function Place(band: Band): int {
    match band
    case PostBand(k) => if k.Coordinator? then 1 else if k.Secretary? then 2 else if k.ServiceOverseer? then 3 else 0
    case Others => 4
    case OffChart => 5
  }

  /** Within a group the columns come as `order` has the roles, or off the chart by name. */
  ghost predicate InOrder(g: Group, order: seq<Role>, rows: seq<Role>) {
    forall i, j | 0 <= i < j < |g.columns| ::
      if g.band.OffChart? then
        exists x, y :: x in rows && y in rows && x.id == g.columns[i].id && y.id == g.columns[j].id
                       && x.collation <= y.collation
      else exists k, l :: 0 <= k < l < |order| && order[k].id == g.columns[i].id && order[l].id == g.columns[j].id
  }

  /** Bands in their order, none twice or empty, each collapsed as asked, its columns in order. */
  ghost predicate WellOrdered(groups: seq<Group>, order: seq<Role>, rows: seq<Role>, collapsed: set<Band>) {
    && (forall i, j | 0 <= i < j < |groups| :: Place(groups[i].band) < Place(groups[j].band))
    && (forall g | g in groups :: g.columns != [] && Place(g.band) >= 1 && (g.collapsed <==> g.band in collapsed))
    && (forall g | g in groups :: InOrder(g, order, rows))
  }

  lemma {:induction false} FilterKeepsOrder(s: seq<Role>, keep: Role -> bool, i: int, j: int) returns (k: int, l: int)
    requires 0 <= i < j < |Filter(s, keep)|
    ensures 0 <= k < l < |s| && s[k] == Filter(s, keep)[i] && s[l] == Filter(s, keep)[j]
  {
    if keep(s[0]) {
      if i > 0 {
        k, l := FilterKeepsOrder(s[1..], keep, i - 1, j - 1);
        k, l := k + 1, l + 1;
      } else {
        var y := Filter(s[1..], keep)[j - 1];
        assert y in Filter(s[1..], keep);
        var m :| 0 <= m < |s[1..]| && s[1..][m] == y;
        k, l := 0, m + 1;
      }
    } else {
      k, l := FilterKeepsOrder(s[1..], keep, i, j);
      k, l := k + 1, l + 1;
    }
  }

  /** A band of the chart's roles is picked from the walk, twice filtered. */
  lemma PickedInOrder(g: Group, rows: seq<Role>, order: seq<Role>, one: Role -> bool, two: Role -> bool)
    requires !g.band.OffChart? && g.columns == Columns(Filter(Filter(order, one), two))
    ensures InOrder(g, order, rows)
  {
    forall i, j | 0 <= i < j < |g.columns|
      ensures exists k, l :: 0 <= k < l < |order| && order[k].id == g.columns[i].id && order[l].id == g.columns[j].id {
      var k, l := FilterKeepsOrder(Filter(order, one), two, i, j);
      k, l := FilterKeepsOrder(order, one, k, l);
    }
  }

  lemma OffChartInOrder(g: Group, order: seq<Role>, rows: seq<Role>, withMembers: set<int>)
    requires g.band.OffChart? && g.columns == Columns(OffChartRows(rows, withMembers))
    ensures InOrder(g, order, rows)
  {
    var rs := OffChartRows(rows, withMembers);
    SortSorted(Filter(rows, OffChartColumn(rows, withMembers)), NameRank);
    forall i, j | 0 <= i < j < |g.columns|
      ensures exists x, y :: x in rows && y in rows && x.id == g.columns[i].id && y.id == g.columns[j].id
                             && x.collation <= y.collation {
      assert rs[i] in rs && rs[j] in rs && Le(NameRank(rs[i]), NameRank(rs[j]));
    }
  }

  /** One more band at the end, if it has columns. */
  lemma PushedStaysOrdered(groups: seq<Group>, band: Band, rs: seq<Role>, collapsed: set<Band>, order: seq<Role>,
      rows: seq<Role>)
    requires WellOrdered(groups, order, rows, collapsed) && Place(band) >= 1
    requires forall g | g in groups :: Place(g.band) < Place(band)
    requires InOrder(Group(band, Columns(rs), band in collapsed), order, rows)
    ensures WellOrdered(Pushed(groups, band, rs, collapsed), order, rows, collapsed)
    ensures forall g | g in Pushed(groups, band, rs, collapsed) :: Place(g.band) <= Place(band)
  {
    var pushed := Pushed(groups, band, rs, collapsed);
    forall i, j | 0 <= i < j < |pushed| ensures Place(pushed[i].band) < Place(pushed[j].band) {
      assert i < |groups| ==> pushed[i] == groups[i] && groups[i] in groups;
    }
  }

  lemma BranchPushed(groups: seq<Group>, post: Option<Key>, rows: seq<Role>, order: seq<Role>, keep: Role -> bool,
      collapsed: set<Band>) returns (pushed: seq<Group>)
    requires WellOrdered(groups, order, rows, collapsed)
    requires var band := if post.Some? then PostBand(post.value) else Others;
             Place(band) >= 1 && forall g | g in groups :: Place(g.band) < Place(band)
    ensures var band := if post.Some? then PostBand(post.value) else Others;
            && pushed == Pushed(groups, band, Filter(Filter(order, keep), InBranch(rows, post)), collapsed)
            && WellOrdered(pushed, order, rows, collapsed)
            && forall g | g in pushed :: Place(g.band) <= Place(band)
  {
    var band := if post.Some? then PostBand(post.value) else Others;
    var rs := Filter(Filter(order, keep), InBranch(rows, post));
    PickedInOrder(Group(band, Columns(rs), band in collapsed), rows, order, keep, InBranch(rows, post));
    PushedStaysOrdered(groups, band, rs, collapsed, order, rows);
    pushed := Pushed(groups, band, rs, collapsed);
  }

  lemma GroupsAreOrdered(rows: seq<Role>, order: seq<Role>, collapsed: set<Band>, withMembers: set<int>)
    ensures WellOrdered(MatrixGroups(rows, order, collapsed, withMembers), order, rows, collapsed)
  {
    var keep, off := CustomColumn(rows, withMembers), OffChartRows(rows, withMembers);
    var g1 := BranchPushed([], Some(Coordinator), rows, order, keep, collapsed);
    var g2 := BranchPushed(g1, Some(Secretary), rows, order, keep, collapsed);
    var g3 := BranchPushed(g2, Some(ServiceOverseer), rows, order, keep, collapsed);
    var g4 := BranchPushed(g3, None, rows, order, keep, collapsed);
    OffChartInOrder(Group(OffChart, Columns(off), OffChart in collapsed), order, rows, withMembers);
    PushedStaysOrdered(g4, OffChart, off, collapsed, order, rows);
  }

  // ----- the matrix -----

  /** What the page promises of the groups, from the rows alone. */
  ghost predicate IsMatrix(rows: seq<Role>, collapsed: set<Band>, withMembers: set<int>, groups: seq<Group>)
    requires UniqueIds(rows)
  {
    && Distinct(ColumnIds(groups))
    && (forall r | r in rows :: r.id in ColumnIds(groups) <==> Qualifies(rows, withMembers, r))
    && (forall g | g in groups :: ShowsItsBand(rows, g))
    && exists order :: InReadingOrder(rows, order) && WellOrdered(groups, order, rows, collapsed)
  }

  lemma GroupsAreMatrix(rows: seq<Role>, order: seq<Role>, collapsed: set<Band>, withMembers: set<int>)
    requires UniqueIds(rows) && InReadingOrder(rows, order)
    ensures IsMatrix(rows, collapsed, withMembers, MatrixGroups(rows, order, collapsed, withMembers))
  {
    var groups := MatrixGroups(rows, order, collapsed, withMembers);
    EveryColumnOnce(rows, order, collapsed, withMembers);
    forall r | r in rows ensures r.id in ColumnIds(groups) <==> Qualifies(rows, withMembers, r) {
      ColumnsQualify(rows, withMembers, r);
    }
    forall g | g in groups ensures ShowsItsBand(rows, g) { BandsAreRight(rows, g); }
    GroupsAreOrdered(rows, order, collapsed, withMembers);
  }

  /**
   Bands pushed in order over the walk of the chart: the columns come band by band in reading order, each qualifying
   custom role once, in the band of its branch.
   */
  method BuildMatrixGroups(rows: seq<Role>, collapsed: set<Band>, withMembers: set<int>) returns (groups: seq<Group>)
    requires UniqueIds(rows)
    ensures exists order :: InReadingOrder(rows, order) && groups == MatrixGroups(rows, order, collapsed, withMembers)
    ensures IsMatrix(rows, collapsed, withMembers, groups)
  {
    FilterKeepsIdsUnique(rows, OnChart);
    var preorder := ChartPreorder(ChartRows(rows));
    var custom := Filter(preorder, CustomColumn(rows, withMembers));
    groups := [];
    var a := PickBranch(rows, custom, Some(Coordinator));
    groups := Pushed(groups, PostBand(Coordinator), a, collapsed);
    var b := PickBranch(rows, custom, Some(Secretary));
    groups := Pushed(groups, PostBand(Secretary), b, collapsed);
    var c := PickBranch(rows, custom, Some(ServiceOverseer));
    groups := Pushed(groups, PostBand(ServiceOverseer), c, collapsed);
    var others := PickBranch(rows, custom, None);
    groups := Pushed(groups, Others, others, collapsed);
    groups := Pushed(groups, OffChart, OffChartRows(rows, withMembers), collapsed);
    assert groups == MatrixGroups(rows, preorder, collapsed, withMembers);
    assert InReadingOrder(rows, preorder);
    GroupsAreMatrix(rows, preorder, collapsed, withMembers);
  }
}
