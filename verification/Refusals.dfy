/** What a refused chart operation leaves behind: nothing, but for one kind of creation. */
module Refusals {
  import opened Lists
  import opened Graph
  import opened Roles
  import opened Queries
  import opened Chart
  import opened Safety
  import opened Runs

  // ----- an id nothing points at -----

  lemma NoLinkToUnused(rows: seq<Role>, id: int)
    requires Sound(rows) && Find(rows, id).None?
    ensures forall l | l in ChartLinks(rows) :: l.parent != Some(id)
  {
    forall l | l in ChartLinks(rows) ensures l.parent != Some(id) {
      var r := ChartLinkOut(rows, l);
      assert WellPlaced(rows, r);
    }
  }

  lemma {:induction false} NoLinkNoChildren(links: seq<TreeLink>, id: int)
    requires forall l | l in links :: l.parent != Some(id)
    ensures LinkChildren(links, id) == []
  {
    if links != [] {
      assert links[0] in links && forall l | l in links[1..] :: l in links;
      NoLinkNoChildren(links[1..], id);
    }
  }

  lemma NoLinkNoAncestor(up: Links, x: int, id: int)
    requires x != id && forall y | y in up :: up[y] != id
    ensures id !in Chain(up, x)
  {
    ChainIsLeast(up, x, iset y | y in up.Keys + up.Values + {x} && y != id);
  }

  lemma NoChainThroughUnused(rows: seq<Role>, id: int, parent: Option<int>)
    requires Sound(rows) && Find(rows, id).None? && parent != Some(id)
    ensures UniqueLinks(ChartLinks(rows)) && id !in ChainFrom(ChartLinks(rows), parent)
  {
    ChartLinksUnique(rows);
    NoLinkToUnused(rows, id);
    if parent.Some? { NoLinkNoAncestor(LinkMap(ChartLinks(rows)), parent.value, id); }
  }

  lemma CreatedIsOffChart(rows: seq<Role>, id: int, n: NewRole)
    requires n.key.Some?
    ensures ChartLinks(rows + [Created(id, n)]) == ChartLinks(rows)
  {
    FilterAppend(rows, [Created(id, n)], OnChart);
    assert [Created(id, n)][1..] == [];
  }

  // ----- what the attachment decides about a role just created -----

  lemma CreatedDecision(rows: seq<Role>, id: int, n: NewRole, parent: Option<int>)
    requires Sound(rows) && Find(rows, id).None? && Create(rows, id, n).0.Done?
    ensures UniqueIds(Create(rows, id, n).1) && UniqueLinks(ChartLinks(rows)) && n.key.value.Custom?
    ensures DecideParent(Create(rows, id, n).1, Created(id, n), parent)
         == CanSetParent(id, n.key.value, ChainFrom(ChartLinks(rows), parent), 0)
  {
    CreateKeepsUnique(rows, id, n);
    CreateKeepsSound(rows, id, n);
    ChartLinksUnique(rows);
    CreatedIsOffChart(rows, id, n);
    NoLinkToUnused(rows, id);
    NoLinkNoChildren(ChartLinks(rows), id);
  }

  lemma CreatedIsDecided(rows: seq<Role>, id: int, n: NewRole, parent: Option<int>)
    requires Sound(rows) && Find(rows, id).None? && Create(rows, id, n).0.Done?
    ensures UniqueIds(Create(rows, id, n).1) && UniqueLinks(ChartLinks(rows))
    ensures var decision := DecideParent(Create(rows, id, n).1, Created(id, n), parent);
            && decision != Refused(UnknownParent)
            && (decision.Refused? <==>
                 parent.None? || parent == Some(id) || |ChainFrom(ChartLinks(rows), parent)| >= MAX_DEPTH)
  {
    CreatedDecision(rows, id, n, parent);
    if parent != Some(id) {
      NoChainThroughUnused(rows, id, parent);
    } else {
      assert id in Chain(LinkMap(ChartLinks(rows)), id);
    }
  }

  lemma CreatedIsFound(rows: seq<Role>, id: int, n: NewRole)
    requires UniqueIds(rows) && Find(rows, id).None? && Create(rows, id, n).0.Done?
    ensures Find(Create(rows, id, n).1, id) == Some(Created(id, n))
  {
    CreateKeepsUnique(rows, id, n);
    var rows' := rows + [Created(id, n)];
    assert rows'[|rows|] in rows';
    SameIdSameRow(rows', Find(rows', id).value, Created(id, n));
  }

  /** A creation whose attachment the rules refuse keeps the role; one the foreign key refuses keeps nothing. */
  lemma ServiceOutcome(rows: seq<Role>, id: int, n: NewRole, parent: Option<int>)
    requires Sound(rows) && Find(rows, id).None? && Create(rows, id, n).0.Done?
    ensures UniqueIds(Create(rows, id, n).1)
    ensures var decision, rows' := DecideParent(Create(rows, id, n).1, Created(id, n), parent), rows + [Created(id, n)];
            && (decision.Refused? ==> CreateService(rows, id, n, parent) == (decision, rows'))
            && (decision.Done? ==> CreateService(rows, id, n, parent) == (Refused(UnknownParent), rows)
                                   || CreateService(rows, id, n, parent).0.Done?)
  {
    CreatedIsFound(rows, id, n);
    CreatedDecision(rows, id, n, parent);
    CreatedIsDecided(rows, id, n, parent);
  }

  /**
   A refused creation leaves rows behind exactly when the role itself could be created and the chart's rules refuse to
   attach it: at the top, to itself, or below a chain that is full. What it leaves is that role, off the chart.
   */
  lemma RefusedCreationLeavesRoleIff(rows: seq<Role>, id: int, n: NewRole, parent: Option<int>)
    requires Sound(rows) && Find(rows, id).None?
    ensures UniqueLinks(ChartLinks(rows))
    ensures var (v, rows') := CreateService(rows, id, n, parent);
            && (v.Refused? && rows' != rows <==>
                 && Create(rows, id, n).0.Done?
                 && (parent.None? || parent == Some(id) || |ChainFrom(ChartLinks(rows), parent)| >= MAX_DEPTH))
            && (v.Refused? && rows' != rows ==> rows' == rows + [Created(id, n)])
  {
    ChartLinksUnique(rows);
    if Create(rows, id, n).0.Done? {
      ServiceOutcome(rows, id, n, parent);
      CreatedIsDecided(rows, id, n, parent);
      assert |rows + [Created(id, n)]| == |rows| + 1;
    }
  }

  /** The operation creates a role that the chart's rules then refuse to attach. */
  ghost predicate LeavesRole(s: State, op: Op)
    requires Sound(s.rows)
  {
    ChartLinksUnique(s.rows);
    && op.OpCreate? && Create(s.rows, s.nextId, op.newRole).0.Done?
    && (op.parent.None? || op.parent == Some(s.nextId)
        || |ChainFrom(ChartLinks(s.rows), op.parent)| >= MAX_DEPTH)
  }

  lemma OtherRefusalsWriteNothing(s: State, op: Op)
    requires UniqueIds(s.rows) && Find(s.rows, s.nextId).None? && !op.OpCreate?
    ensures Step(s, op).0.Refused? ==> Step(s, op).1 == s.rows
  {
  }

  /** Of all chart operations a refused one changes the rows exactly when it is such a creation. */
  lemma RefusalWritesIff(s: State, op: Op)
    requires Sound(s.rows) && Find(s.rows, s.nextId).None?
    ensures Step(s, op).0.Refused? && Step(s, op).1 != s.rows <==> LeavesRole(s, op)
  {
    if op.OpCreate? {
      RefusedCreationLeavesRoleIff(s.rows, s.nextId, op.newRole, op.parent);
    } else {
      OtherRefusalsWriteNothing(s, op);
    }
  }

  // ----- such a creation -----

  /** A service asked for at the top is refused, and the role stays behind. */
  lemma ServiceAtTheTopStays(rows: seq<Role>, id: int, n: NewRole)
    requires Sound(rows) && Find(rows, id).None? && Create(rows, id, n).0.Done?
    ensures CreateService(rows, id, n, None) == (Refused(ServiceNeedsParent), rows + [Created(id, n)])
  {
    CreatedIsFound(rows, id, n);
    CreatedDecision(rows, id, n, None);
  }

  const SONO := NewRole("Sono", 0, Some(Custom("sono")), false)

  lemma SonoIsNew(rows: seq<Role>)
    requires SameRoles(SeededRows(), rows)
    ensures Find(rows, |BUILT_IN_KEYS| + 1).None? && Create(rows, |BUILT_IN_KEYS| + 1, SONO).0.Done?
  {
    forall r | r in rows ensures r.id <= |BUILT_IN_KEYS| && IsBuiltInKey(r.key) {
      var i :| 0 <= i < |rows| && rows[i] == r;
      PlacedOnce(i);
    }
  }

  /** On a new congregation's chart, for one. */
  lemma ARefusedServiceStays(rows: seq<Role>, id: int)
    requires rows == PlaceDefault(SeededRows()) && id == |BUILT_IN_KEYS| + 1
    ensures Sound(rows) && Find(rows, id).None?
    ensures CreateService(rows, id, SONO, None) == (Refused(ServiceNeedsParent), rows + [Created(id, SONO)])
  {
    SeededRowsAreSeeded();
    DefaultIsSound(SeededRows());
    DefaultPlaces(SeededRows());
    SonoIsNew(rows);
    ServiceAtTheTopStays(rows, id, SONO);
  }
}
