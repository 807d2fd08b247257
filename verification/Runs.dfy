/** Every operation keeps the chart sound, so every run from the default chart does. */
module Runs {
  import opened Lists
  import opened Graph
  import opened Roles
  import opened Chart
  import opened Safety
  import Tree

  /** Same roles at the same places: only order or shape changed. */
  ghost predicate SamePlaces(rows: seq<Role>, rows': seq<Role>) {
    && SameRoles(rows, rows')
    && forall i | 0 <= i < |rows| :: rows'[i].parent == rows[i].parent && rows'[i].onChart == rows[i].onChart
  }

  lemma SamePlacesKeepLinks(rows: seq<Role>, rows': seq<Role>)
    requires UniqueIds(rows) && SamePlaces(rows, rows')
    ensures UniqueIds(rows') && ParentLinks(rows') == ParentLinks(rows)
  {
    SameRolesKeepKeys(rows, rows');
    var up, up' := ParentLinks(rows), ParentLinks(rows');
    forall x ensures x in up <==> x in up' {
      if x in up {
        var i :| 0 <= i < |rows| && rows[i].id == x && rows[i].parent.Some?;
        assert rows'[i] in rows';
      }
      if x in up' {
        var i :| 0 <= i < |rows'| && rows'[i].id == x && rows'[i].parent.Some?;
        assert rows[i] in rows;
      }
    }
    forall x | x in up' ensures up'[x] == up[x] {
      var i :| 0 <= i < |rows'| && rows'[i].id == x && rows'[i].parent.Some?;
      assert rows[i] in rows && rows'[i] in rows';
    }
  }

  lemma SamePlacesKeepSound(rows: seq<Role>, rows': seq<Role>)
    requires Sound(rows) && SamePlaces(rows, rows')
    ensures Sound(rows')
  {
    SameRolesKeepKeys(rows, rows');
    SamePlacesKeepLinks(rows, rows');
    forall r | r in rows' ensures WellPlaced(rows', r) {
      var i :| 0 <= i < |rows'| && rows'[i] == r;
      assert WellPlaced(rows, rows[i]);
    }
  }

  lemma CreateKeepsSound(rows: seq<Role>, id: int, n: NewRole)
    requires Sound(rows) && Find(rows, id).None?
    ensures Sound(Create(rows, id, n).1)
    ensures Create(rows, id, n).0.Done? ==> n.key.value.Custom?
  {
    if Create(rows, id, n).0.Done? {
      var new_ := Created(id, n);
      var rows' := rows + [new_];
      CreateKeepsUnique(rows, id, n);
      assert new_.key.Custom? by {
        assert IsBuiltInKey(new_.key) ==> HasKey(rows, new_.key);
      }
      forall k | HasKey(rows, k) ensures HasKey(rows', k) {
        var r :| r in rows && r.key == k;
        assert r in rows';
      }
      forall r | r in rows' ensures WellPlaced(rows', r) {
        if r in rows {
          assert WellPlaced(rows, r);
          assert forall x | x in rows :: x in rows';
        }
      }
      assert ParentLinks(rows') == ParentLinks(rows);
    }
  }

  lemma LiftMembers(rows: seq<Role>, id: int, parent: Option<int>)
    ensures SameRoles(rows, LiftAll(rows, id, parent))
    ensures forall r | r in rows :: Lifted(r, id, parent) in LiftAll(rows, id, parent)
    ensures forall x | x in LiftAll(rows, id, parent) :: exists r :: r in rows && x == Lifted(r, id, parent)
  {
    var rows' := LiftAll(rows, id, parent);
    forall r | r in rows ensures Lifted(r, id, parent) in rows' {
      var i :| 0 <= i < |rows| && rows[i] == r;
      assert rows'[i] == Lifted(r, id, parent);
    }
    forall x | x in rows' ensures exists r :: r in rows && x == Lifted(r, id, parent) {
      var i :| 0 <= i < |rows'| && rows'[i] == x;
      assert rows[i] in rows;
    }
  }

  lemma LiftedLink(rows: seq<Role>, r: Role, y: Role)
    requires UniqueIds(rows) && r in rows && y in rows && r.parent != Some(r.id)
    ensures var w, z := Contract(ParentLinks(rows), r.id), Lifted(y, r.id, r.parent);
            (y.id in w <==> z.parent.Some?) && (z.parent.Some? ==> w[y.id] == z.parent.value)
  {
    RowLink(rows, r);
    RowLink(rows, y);
  }

  lemma LiftedLinkOut(rows: seq<Role>, r: Role, x: int)
    requires UniqueIds(rows) && r in rows && r.parent != Some(r.id)
    requires UniqueIds(LiftAll(rows, r.id, r.parent)) && x in ParentLinks(LiftAll(rows, r.id, r.parent))
    ensures var w := Contract(ParentLinks(rows), r.id);
            x in w && ParentLinks(LiftAll(rows, r.id, r.parent))[x] == w[x]
  {
    var rows' := LiftAll(rows, r.id, r.parent);
    LiftMembers(rows, r.id, r.parent);
    var z :| z in rows' && z.id == x && z.parent == Some(ParentLinks(rows')[x]);
    var y :| y in rows && z == Lifted(y, r.id, r.parent);
    LiftedLink(rows, r, y);
  }

  lemma LiftedLinkIn(rows: seq<Role>, r: Role, x: int)
    requires UniqueIds(rows) && r in rows && r.parent != Some(r.id)
    requires UniqueIds(LiftAll(rows, r.id, r.parent)) && x in Contract(ParentLinks(rows), r.id)
    ensures x in ParentLinks(LiftAll(rows, r.id, r.parent))
  {
    LiftMembers(rows, r.id, r.parent);
    var y :| y in rows && y.id == x && y.parent.Some?;
    LiftedLink(rows, r, y);
    RowLink(LiftAll(rows, r.id, r.parent), Lifted(y, r.id, r.parent));
  }

  /** Taking a role out of the chart contracts the parent relation. */
  lemma RemoveContracts(rows: seq<Role>, r: Role)
    requires UniqueIds(rows) && r in rows
    requires r.parent != Some(r.id) && UniqueIds(LiftAll(rows, r.id, r.parent))
    ensures ParentLinks(LiftAll(rows, r.id, r.parent)) == Contract(ParentLinks(rows), r.id)
  {
    var up', w := ParentLinks(LiftAll(rows, r.id, r.parent)), Contract(ParentLinks(rows), r.id);
    forall x | x in up' ensures x in w && up'[x] == w[x] {
      LiftedLinkOut(rows, r, x);
    }
    forall x | x in w ensures x in up' {
      LiftedLinkIn(rows, r, x);
    }
    assert up'.Keys == w.Keys;
  }

  lemma LiftedIsPlaced(rows: seq<Role>, r: Role, x: Role)
    requires Keyed(rows) && (forall x | x in rows :: WellPlaced(rows, x))
    requires r in rows && CanLeave(r.key) && x in rows
    ensures WellPlaced(LiftAll(rows, r.id, r.parent), Lifted(x, r.id, r.parent))
  {
    LiftMembers(rows, r.id, r.parent);
    SameRolesKeepKeys(rows, LiftAll(rows, r.id, r.parent));
    assert WellPlaced(rows, x) && WellPlaced(rows, r);
    if x.id == r.id {
      SameIdSameRow(rows, x, r);
    } else if x.parent == Some(r.id) {
      forall y | y in rows && y.id == r.id ensures y == r { SameIdSameRow(rows, y, r); }
    }
  }

  lemma RemoveKeepsSound(rows: seq<Role>, id: int)
    requires Sound(rows)
    ensures Sound(Remove(rows, id).1)
  {
    if Remove(rows, id).0.Done? {
      var r := Find(rows, id).value;
      var up, rows' := ParentLinks(rows), LiftAll(rows, id, r.parent);
      LiftMembers(rows, id, r.parent);
      SameRolesKeepKeys(rows, rows');
      forall x | x in rows' ensures WellPlaced(rows', x) {
        var y :| y in rows && x == Lifted(y, id, r.parent);
        LiftedIsPlaced(rows, r, y);
      }
      RowLink(rows, r);
      RemoveContracts(rows, r);
      ContractIsAcyclic(up, id);
      var up' := Contract(up, id);
      forall x ensures Depth(up', x) <= MAX_DEPTH {
        if x != id {
          ContractedChain(up, id, x);
          ClimbDistinct(up, x, {});
          WithoutLength(Chain(up, x), id);
          assert Depth(up, x) <= MAX_DEPTH;
        }
      }
    }
  }

  /**
   Taking a role out contracts the tree: among the other roles nobody gains or loses an ancestor,
   whoever stood below the role rises exactly one level, and everyone else stays.
   */
  lemma RemovalContractsTree(rows: seq<Role>, id: int)
    requires UniqueIds(rows) && Acyclic(ParentLinks(rows)) && Find(rows, id).Some? && Remove(rows, id).0.Done?
    ensures UniqueIds(Remove(rows, id).1)
    ensures var up, up' := ParentLinks(rows), ParentLinks(Remove(rows, id).1);
            && Acyclic(up')
            && (forall x, a | x != id && a != id :: Under(up', x, a) <==> Under(up, x, a))
            && (forall x | x != id :: Depth(up', x) == Depth(up, x) - (if Under(up, x, id) then 1 else 0))
  {
    var r := Find(rows, id).value;
    var up := ParentLinks(rows);
    LiftMembers(rows, id, r.parent);
    SameRolesKeepKeys(rows, LiftAll(rows, id, r.parent));
    RowLink(rows, r);
    RemoveContracts(rows, r);
    ContractIsAcyclic(up, id);
    forall x | x != id ensures Chain(Contract(up, id), x) == Without(Chain(up, x), id)
                            && |Chain(Contract(up, id), x)| == |Chain(up, x)| - (if id in Chain(up, x) then 1 else 0) {
      ContractedChain(up, id, x);
      ClimbDistinct(up, x, {});
      WithoutLength(Chain(up, x), id);
    }
  }

  lemma DeleteUnlinks(rows: seq<Role>, id: int)
    requires UniqueIds(rows) && Tree.KidRows(rows, id) == []
    ensures UniqueIds(Filter(rows, NotId(id)))
    ensures ParentLinks(Filter(rows, NotId(id))) == ParentLinks(rows) - {id}
    ensures forall y | y in ParentLinks(rows) :: ParentLinks(rows)[y] != id
  {
    var rows' := Filter(rows, NotId(id));
    FilterKeepsIdsUnique(rows, NotId(id));
    var up, up' := ParentLinks(rows), ParentLinks(rows');
    forall y | y in up ensures up[y] != id {
      var r :| r in rows && r.id == y && r.parent == Some(up[y]);
      assert Tree.ChildOf(id)(r) ==> r in Tree.KidRows(rows, id);
    }
    forall r | r in rows && r.id != id ensures r in rows' && (r.id in up' <==> r.id in up)
                                            && (r.id in up ==> up'[r.id] == up[r.id]) {
      assert NotId(id)(r);
      RowLink(rows, r);
      RowLink(rows', r);
    }
    forall x ensures x in up' <==> x in up - {id} {
    }
    assert up' == up - {id};
  }

  lemma DeleteKeepsPlaces(rows: seq<Role>, r: Role)
    requires Keyed(rows) && (forall x | x in rows :: WellPlaced(rows, x))
    requires r in rows && !r.isBuiltIn && Tree.KidRows(rows, r.id) == []
    ensures var rows' := Filter(rows, NotId(r.id)); Keyed(rows') && forall x | x in rows' :: WellPlaced(rows', x)
  {
    var rows' := Filter(rows, NotId(r.id));
    FilterKeepsIdsUnique(rows, NotId(r.id));
    FilterKeepsKeysUnique(rows, NotId(r.id));
    forall y | y in rows && y.id != r.id ensures y in rows' {
      assert NotId(r.id)(y);
    }
    forall k | IsBuiltInKey(k) ensures HasKey(rows', k) {
      assert HasKey(rows, k);
      var y :| y in rows && y.key == k;
      assert y.id == r.id ==> y == r;
    }
    forall x | x in rows' ensures WellPlaced(rows', x) {
      assert WellPlaced(rows, x);
      assert Tree.ChildOf(r.id)(x) ==> x in Tree.KidRows(rows, r.id);
    }
  }

  lemma DeleteKeepsSound(rows: seq<Role>, id: int)
    requires Sound(rows)
    ensures Sound(Delete(rows, id).1)
  {
    if Find(rows, id).Some? && Delete(rows, id).0.Done? {
      var r := Find(rows, id).value;
      var up := ParentLinks(rows);
      DeleteUnlinks(rows, id);
      DeleteKeepsPlaces(rows, r);
      FewerLinksAcyclic(up, id);
      var up' := up - {id};
      forall x ensures Depth(up', x) <= MAX_DEPTH {
        if x != id {
          PrunedChain(up, id, x);
          assert Depth(up, x) <= MAX_DEPTH;
        }
      }
    }
  }

  lemma ReorderKeepsPlaces(rows: seq<Role>, id: int, d: Direction)
    ensures SamePlaces(rows, Reorder(rows, id, d).1)
  {
    var rows' := Reorder(rows, id, d).1;
    if Find(rows, id).Some? && rows' != rows {
      var ids := MoveBy(OrderedSiblings(rows, Find(rows, id).value.parent), id, d);
      assert rows' == Renumber(rows, ids);
    }
  }

  /** The rows a new congregation starts from: all built-in roles, nothing on the chart yet. */
  ghost predicate Seeded(rows: seq<Role>) {
    Keyed(rows) && forall r | r in rows :: !r.onChart && r.parent.None?
  }

  /** The rows seeding gives an empty table: every built-in role, off the chart. */
  function SeededRows(): (rows: seq<Role>)
    ensures |rows| == |BUILT_IN_KEYS|
    ensures forall i | 0 <= i < |rows| :: rows[i] == SeededRow(i)
  {
    seq(|BUILT_IN_KEYS|, i requires 0 <= i < |BUILT_IN_KEYS| => SeededRow(i))
  }

  function SeededRow(i: nat): Role
    requires i < |BUILT_IN_KEYS|
  {
    Role(i + 1, BUILT_IN_KEYS[i], "", 0, "", true, IsPost(BUILT_IN_KEYS[i]), None, None, false)
  }

  /** Where a built-in key stands in the seeding order. */
  function SeedingPlace(key: Key): (i: nat)
    requires IsBuiltInKey(key)
    ensures i < |BUILT_IN_KEYS| && BUILT_IN_KEYS[i] == key
  {
    match key
    case Member => 0 case MinistrySchoolStudent => 1 case Publisher => 2 case Baptized => 3 case Brother => 4
    case Sister => 5 case Anointed => 6 case Elder => 7 case AssistantServant => 8 case Pioneer => 9
    case Admin => 10 case Committee => 11 case Coordinator => 12 case Secretary => 13 case ServiceOverseer => 14
  }

  lemma PlacedOnce(i: nat)
    requires i < |BUILT_IN_KEYS|
    ensures IsBuiltInKey(BUILT_IN_KEYS[i]) && SeedingPlace(BUILT_IN_KEYS[i]) == i
  {
  }

  lemma SeededRowsAreKeyed()
    ensures Keyed(SeededRows())
  {
    var rows := SeededRows();
    forall i | 0 <= i < |rows| ensures IsBuiltInKey(rows[i].key) && SeedingPlace(rows[i].key) == i {
      PlacedOnce(i);
    }
    forall k | IsBuiltInKey(k) ensures HasKey(rows, k) {
      assert rows[SeedingPlace(k)] in rows;
    }
  }

  lemma SeededRowsAreSeeded()
    ensures Seeded(SeededRows()) && Fresh(State(SeededRows(), |BUILT_IN_KEYS| + 1))
  {
    SeededRowsAreKeyed();
  }

  /** The level the default chart gives a role. */
  function DefaultLevel(key: Key): int {
    if IsPost(key) then 2 else if key.Committee? then 1 else 0
  }

  ghost predicate BelowDefaultParent(rows: seq<Role>, r: Role) {
    r.parent.Some? ==>
      IsIdOf(rows, r.parent.value, DefaultParent(r.key)) && DefaultLevel(DefaultParent(r.key)) < DefaultLevel(r.key)
  }

  /** The default chart as a place-by-place statement. */
  lemma DefaultPlaces(rows: seq<Role>)
    requires Seeded(rows)
    ensures var rows' := PlaceDefault(rows);
            && SameRoles(rows, rows') && (forall r | r in rows' :: WellPlaced(rows', r))
            && (forall r | r in rows' :: BelowDefaultParent(rows', r))
  {
    FilterNone(rows, OnChart);
    var rows' := PlaceDefault(rows);
    assert SameRoles(rows, rows');
    SameRolesKeepKeys(rows, rows');
    forall r | r in rows' ensures WellPlaced(rows', r) && BelowDefaultParent(rows', r) {
      var i :| 0 <= i < |rows'| && rows'[i] == r;
      PlacedIsWell(rows, rows', rows[i]);
    }
  }

  function DefaultParent(key: Key): Key {
    if IsPost(key) then Committee else Elder
  }

  lemma PlacedIsWell(rows: seq<Role>, rows': seq<Role>, r: Role)
    requires Seeded(rows) && r in rows && Keyed(rows')
    requires forall id, k | IsIdOf(rows, id, k) :: IsIdOf(rows', id, k)
    ensures WellPlaced(rows', Placed(rows, r))
    ensures BelowDefaultParent(rows', Placed(rows, r))
  {
    var up := DefaultParent(r.key);
    assert HasKey(rows, up);
    assert IsIdOf(rows, FindKey(rows, up).value.id, up);
    assert IsIdOf(rows', FindKey(rows, up).value.id, up);
  }

  lemma DefaultIsSound(rows: seq<Role>)
    requires Seeded(rows)
    ensures Sound(PlaceDefault(rows))
  {
    var rows' := PlaceDefault(rows);
    DefaultPlaces(rows);
    SameRolesKeepKeys(rows, rows');
    DefaultIsAcyclic(rows');
  }

  lemma DefaultIsAcyclic(rows': seq<Role>)
    requires UniqueIds(rows') && forall r | r in rows' :: BelowDefaultParent(rows', r)
    ensures Acyclic(ParentLinks(rows')) && Capped(ParentLinks(rows'))
  {
    var up := ParentLinks(rows');
    var level := (x: int) => if Find(rows', x).Some? then DefaultLevel(Find(rows', x).value.key) else 0;
    forall x | x in up ensures level(up[x]) < level(x) {
      var r :| r in rows' && r.id == x && r.parent == Some(up[x]);
      assert BelowDefaultParent(rows', r);
      var p :| p in rows' && p.id == up[x] && p.key == DefaultParent(r.key);
      SameIdSameRow(rows', r, Find(rows', x).value);
      SameIdSameRow(rows', p, Find(rows', up[x]).value);
    }
    RankedIsAcyclic(up, level);
    forall x ensures Depth(up, x) <= 3 {
      LevelBoundsDepth(up, x, level);
    }
  }

  lemma {:induction false} LevelBoundsDepth(up: Links, x: int, level: int -> int)
    requires Acyclic(up) && forall y | y in up :: level(up[y]) < level(y)
    requires forall y :: level(y) >= 0
    ensures Depth(up, x) <= level(x) + 1
    decreases level(x)
  {
    ChainUnfolds(up, x);
    if x in up {
      LevelBoundsDepth(up, up[x], level);
    }
  }

  datatype Op =
    | OpAdd(id: int, parent: Option<int>)
    | OpCreate(newRole: NewRole, parent: Option<int>)
    | OpMove(id: int, parent: Option<int>)
    | OpReorder(id: int, direction: Direction)
    | OpRemove(id: int)
    | OpDelete(id: int)
    | OpSetSinglePerson(id: int, single: bool, titulaires: nat)
    | OpPlaceDefault

  /** The rows and the id the database hands out next. */
  datatype State = State(rows: seq<Role>, nextId: int)

  ghost predicate Fresh(s: State) {
    forall r | r in s.rows :: r.id < s.nextId
  }

  function Step(s: State, op: Op): (Outcome, seq<Role>)
    requires UniqueIds(s.rows) && Find(s.rows, s.nextId).None?
  {
    match op
    case OpAdd(id, parent) => Add(s.rows, id, parent)
    case OpCreate(n, parent) => CreateService(s.rows, s.nextId, n, parent)
    case OpMove(id, parent) => SetParent(s.rows, id, parent)
    case OpReorder(id, d) => Reorder(s.rows, id, d)
    case OpRemove(id) => Remove(s.rows, id)
    case OpDelete(id) => Delete(s.rows, id)
    case OpSetSinglePerson(id, single, n) => SetSinglePerson(s.rows, id, single, n)
    case OpPlaceDefault => (Done, PlaceDefault(s.rows))
  }

  function NextId(s: State, op: Op): int {
    if op.OpCreate? then s.nextId + 1 else s.nextId
  }

  lemma AddKeepsSound(rows: seq<Role>, id: int, parent: Option<int>)
    requires Sound(rows)
    ensures Sound(Add(rows, id, parent).1)
  {
    if Find(rows, id).Some? && CanShow(Find(rows, id).value.key) {
      AttachKeepsSound(rows, Find(rows, id).value, parent);
    }
  }

  lemma MoveKeepsSound(rows: seq<Role>, id: int, parent: Option<int>)
    requires Sound(rows)
    ensures Sound(SetParent(rows, id, parent).1)
  {
    if Find(rows, id).Some? && Find(rows, id).value.onChart {
      assert WellPlaced(rows, Find(rows, id).value);
      AttachKeepsSound(rows, Find(rows, id).value, parent);
    }
  }

  lemma CreateServiceKeepsSound(rows: seq<Role>, id: int, n: NewRole, parent: Option<int>)
    requires Sound(rows) && Find(rows, id).None?
    ensures Sound(CreateService(rows, id, n, parent).1)
  {
    CreateKeepsSound(rows, id, n);
    AddKeepsSound(Create(rows, id, n).1, id, parent);
  }

  lemma ReorderKeepsSound(rows: seq<Role>, id: int, d: Direction)
    requires Sound(rows)
    ensures Sound(Reorder(rows, id, d).1)
  {
    ReorderKeepsPlaces(rows, id, d);
    SamePlacesKeepSound(rows, Reorder(rows, id, d).1);
  }

  lemma SetSinglePersonKeepsSound(rows: seq<Role>, id: int, single: bool, titulaires: nat)
    requires Sound(rows)
    ensures Sound(SetSinglePerson(rows, id, single, titulaires).1)
  {
    if Find(rows, id).Some? {
      var r := Find(rows, id).value;
      var rows' := Put(rows, r.(isSinglePerson := single));
      forall i | 0 <= i < |rows| && rows[i].id == id ensures rows[i] == r {
        SameIdSameRow(rows, rows[i], r);
      }
      assert SamePlaces(rows, rows');
      SamePlacesKeepSound(rows, rows');
    }
  }

  lemma StepKeepsSound(s: State, op: Op)
    requires Sound(s.rows) && Find(s.rows, s.nextId).None?
    ensures Sound(Step(s, op).1)
  {
    match op
    case OpAdd(id, parent) => AddKeepsSound(s.rows, id, parent);
    case OpCreate(n, parent) => CreateServiceKeepsSound(s.rows, s.nextId, n, parent);
    case OpMove(id, parent) => MoveKeepsSound(s.rows, id, parent);
    case OpReorder(id, d) => ReorderKeepsSound(s.rows, id, d);
    case OpRemove(id) => RemoveKeepsSound(s.rows, id);
    case OpDelete(id) => DeleteKeepsSound(s.rows, id);
    case OpSetSinglePerson(id, single, n) => SetSinglePersonKeepsSound(s.rows, id, single, n);
    case OpPlaceDefault => CommitteeIsOnChart(s.rows);
  }

  /** No row with an id that was not there. */
  ghost predicate IdsWithin(rows: seq<Role>, rows': seq<Role>) {
    forall x | x in rows' :: Known(rows, x.id)
  }

  lemma SameRolesSameIds(rows: seq<Role>, rows': seq<Role>)
    requires |rows'| == |rows| && forall i | 0 <= i < |rows| :: rows'[i].id == rows[i].id
    ensures IdsWithin(rows, rows')
  {
    forall x | x in rows' ensures Known(rows, x.id) {
      var i :| 0 <= i < |rows'| && rows'[i] == x;
      assert rows[i] in rows;
    }
  }

  lemma AttachIds(rows: seq<Role>, r: Role, parent: Option<int>)
    requires UniqueIds(rows)
    ensures IdsWithin(rows, Attach(rows, r, parent).1)
  {
    SameRolesSameIds(rows, rows);
    SameRolesSameIds(rows, Put(rows, Attached(rows, r, parent)));
  }

  lemma AttachByIdIds(rows: seq<Role>, id: int, parent: Option<int>)
    requires UniqueIds(rows)
    ensures IdsWithin(rows, Add(rows, id, parent).1) && IdsWithin(rows, SetParent(rows, id, parent).1)
  {
    SameRolesSameIds(rows, rows);
    if Find(rows, id).Some? {
      AttachIds(rows, Find(rows, id).value, parent);
    }
  }

  lemma ReorderIds(rows: seq<Role>, id: int, d: Direction)
    ensures IdsWithin(rows, Reorder(rows, id, d).1)
  {
    ReorderKeepsPlaces(rows, id, d);
    SameRolesSameIds(rows, Reorder(rows, id, d).1);
  }

  lemma RemoveIds(rows: seq<Role>, id: int)
    ensures IdsWithin(rows, Remove(rows, id).1) && IdsWithin(rows, Delete(rows, id).1)
  {
    SameRolesSameIds(rows, rows);
    if Find(rows, id).Some? {
      SameRolesSameIds(rows, LiftAll(rows, id, Find(rows, id).value.parent));
    }
  }

  lemma ShapeIds(rows: seq<Role>, id: int, single: bool, titulaires: nat)
    ensures IdsWithin(rows, SetSinglePerson(rows, id, single, titulaires).1)
  {
    SameRolesSameIds(rows, rows);
    if Find(rows, id).Some? {
      SameRolesSameIds(rows, Put(rows, Find(rows, id).value.(isSinglePerson := single)));
    }
  }

  lemma CreateServiceIds(rows: seq<Role>, id: int, n: NewRole, parent: Option<int>)
    requires UniqueIds(rows) && Find(rows, id).None?
    ensures forall x | x in CreateService(rows, id, n, parent).1 :: x.id == id || Known(rows, x.id)
  {
    CreateKeepsUnique(rows, id, n);
    AttachByIdIds(Create(rows, id, n).1, id, parent);
    SameRolesSameIds(rows, rows);
  }

  /** Only a creation brings in an id, and it brings in the next one. */
  lemma StepKeepsFresh(s: State, op: Op)
    requires UniqueIds(s.rows) && Fresh(s) && Find(s.rows, s.nextId).None?
    ensures Fresh(State(Step(s, op).1, NextId(s, op)))
  {
    match op
    case OpAdd(id, parent) => AttachByIdIds(s.rows, id, parent);
    case OpMove(id, parent) => AttachByIdIds(s.rows, id, parent);
    case OpCreate(n, parent) => CreateServiceIds(s.rows, s.nextId, n, parent);
    case OpReorder(id, d) => ReorderIds(s.rows, id, d);
    case OpRemove(id) => RemoveIds(s.rows, id);
    case OpDelete(id) => RemoveIds(s.rows, id);
    case OpSetSinglePerson(id, single, n) => ShapeIds(s.rows, id, single, n);
    case OpPlaceDefault => SameRolesSameIds(s.rows, PlaceDefault(s.rows));
  }

  /** Once the committee is on the chart it never leaves: laying down the default again does nothing. */
  lemma CommitteeIsOnChart(rows: seq<Role>)
    requires Sound(rows)
    ensures ChartRows(rows) != [] && PlaceDefault(rows) == rows
  {
    assert HasKey(rows, Committee);
    var c :| c in rows && c.key.Committee?;
    assert WellPlaced(rows, c) && c in ChartRows(rows);
  }

  /** A sound chart whose next id is unused: what every operation starts from and ends in. */
  ghost predicate Good(s: State) {
    Sound(s.rows) && Fresh(s)
  }

  ghost function After(s: State, op: Op): (s': State)
    requires Good(s)
    ensures Good(s')
  {
    StepKeepsSound(s, op);
    StepKeepsFresh(s, op);
    State(Step(s, op).1, NextId(s, op))
  }

  ghost function Run(s: State, ops: seq<Op>): State
    requires Good(s)
    decreases |ops|
  {
    if ops == [] then s else Run(After(s, ops[0]), ops[1..])
  }

  /** Whole runs: whatever is asked of the default chart, in any order, it stays sound. */
  lemma {:induction false} EveryRunIsSound(s: State, ops: seq<Op>)
    requires Good(s)
    ensures Good(Run(s, ops))
    decreases |ops|
  {
    if ops != [] {
      EveryRunIsSound(After(s, ops[0]), ops[1..]);
    }
  }

  lemma EveryRunFromDefaultIsSound(rows: seq<Role>, nextId: int, ops: seq<Op>)
    requires Seeded(rows) && Fresh(State(rows, nextId))
    ensures Good(State(PlaceDefault(rows), nextId))
    ensures Sound(Run(State(PlaceDefault(rows), nextId), ops).rows)
  {
    DefaultIsSound(rows);
    DefaultPlaces(rows);
    EveryRunIsSound(State(PlaceDefault(rows), nextId), ops);
  }
}
