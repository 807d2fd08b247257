/** The write side as it runs: a congregation's role rows, updated in place. */
module Organigrams {
  import opened Lists
  import opened Roles
  import opened Queries
  import opened Chart
  import opened Safety
  import opened Runs
  import opened Reordering
  import Tree

  function PlaceRow(r: Role, key: Key, parent: Option<int>, order: int): (r': Role)
    ensures r'.id == r.id && r'.key == r.key
  {
    if r.key == key then r.(onChart := true, parent := parent, order := Some(order)) else r
  }

  /** One placement of the default chart. */
  function PlaceKey(rows: seq<Role>, key: Key, parent: Option<int>, order: int): (rows': seq<Role>)
    ensures |rows'| == |rows|
    ensures forall i | 0 <= i < |rows| :: rows'[i] == PlaceRow(rows[i], key, parent, order)
  {
    seq(|rows|, i requires 0 <= i < |rows| => PlaceRow(rows[i], key, parent, order))
  }

  lemma PlaceKeyKeeps(rows: seq<Role>, key: Key, parent: Option<int>, order: int)
    requires UniqueIds(rows) && UniqueKeys(rows)
    ensures UniqueIds(PlaceKey(rows, key, parent, order)) && UniqueKeys(PlaceKey(rows, key, parent, order))
  {
  }

  lemma PutPlaces(rows: seq<Role>, r: Role, parent: Option<int>, order: int)
    requires UniqueIds(rows) && UniqueKeys(rows) && r in rows
    ensures Put(rows, r.(onChart := true, parent := parent, order := Some(order)))
            == PlaceKey(rows, r.key, parent, order)
  {
    forall i | 0 <= i < |rows| && (rows[i].id == r.id || rows[i].key == r.key) ensures rows[i] == r {
      if rows[i].id == r.id { SameIdSameRow(rows, rows[i], r); }
    }
  }

  /** The committee posts placed inside the committee, in canonical order. */
  function PostPlaced(r: Role, committee: Option<int>, n: nat): Role {
    match r.key
    case Coordinator => if n > 0 then r.(onChart := true, parent := committee, order := Some(ORDER_STEP)) else r
    case Secretary => if n > 1 then r.(onChart := true, parent := committee, order := Some(2 * ORDER_STEP)) else r
    case ServiceOverseer => if n > 2 then r.(onChart := true, parent := committee, order := Some(3 * ORDER_STEP)) else r
    case _ => r
  }

  lemma NextPost(r: Role, committee: Option<int>, n: nat)
    requires n < 3
    ensures PlaceRow(PostPlaced(r, committee, n), POST_KEYS[n], committee, (n + 1) * ORDER_STEP)
         == PostPlaced(r, committee, n + 1)
  {
    assert n == 0 || n == 1 || n == 2;
  }

  /** The placements in their order give each row its place in the default chart. */
  lemma PlacedInTurn(rows: seq<Role>, r: Role)
    ensures var rosters := PlaceRow(PlaceRow(r, Elder, None, ORDER_STEP), AssistantServant, None, 2 * ORDER_STEP);
            PostPlaced(PlaceRow(rosters, Committee, IdOfKey(rows, Elder), ORDER_STEP), IdOfKey(rows, Committee), 3)
            == Placed(rows, r)
  {
  }

  /** Lifting the children first and taking the role off after comes to one lift. */
  lemma PutLifted(rows: seq<Role>, rehung: seq<Role>, r: Role)
    requires UniqueIds(rows) && r in rows && |rehung| == |rows|
    requires forall i | 0 <= i < |rows| ::
               rehung[i] == if rows[i].parent == Some(r.id) then rows[i].(parent := r.parent) else rows[i]
    ensures Put(rehung, r.(onChart := false, parent := None, order := None)) == LiftAll(rows, r.id, r.parent)
  {
    forall i | 0 <= i < |rows| && rows[i].id == r.id ensures rows[i] == r {
      SameIdSameRow(rows, rows[i], r);
    }
  }

  /** What seeding owes: every built-in role is there and flagged, and nobody else was touched. */
  ghost predicate SeededFrom(rows: seq<Role>, rows': seq<Role>, keys: seq<Key>) {
    && |rows| <= |rows'|
    && (forall i | 0 <= i < |rows| ::
          rows'[i] == if rows[i].key in keys then rows[i].(isBuiltIn := true, isSinglePerson := IsPost(rows[i].key))
                      else rows[i])
    && (forall i | |rows| <= i < |rows'| ::
          && rows'[i].isBuiltIn && rows'[i].isSinglePerson == IsPost(rows'[i].key)
          && !rows'[i].onChart && rows'[i].parent.None? && rows'[i].key in keys)
    && (forall k | k in keys :: HasKey(rows', k))
  }

  class Organigram {
    var roles: seq<Role>
    var nextId: int

    /** Unique constraints of the table, and the sequence behind its ids. */
    ghost predicate Valid()
      reads this
    {
      UniqueIds(roles) && UniqueKeys(roles) && forall r | r in roles :: r.id < nextId
    }

    constructor ()
      ensures Valid() && roles == [] && nextId == 1
    {
      roles, nextId := [], 1;
    }

    method NextOrderUnder(parent: Option<int>) returns (order: int)
      ensures order == NextOrder(roles, parent)
    {
      var siblings := Siblings(roles, parent);
      var highest := 0;
      for i := 0 to |siblings|
        invariant highest == HighestOrder(siblings[..i])
      {
        assert siblings[..i + 1][..i] == siblings[..i];
        if OrderValue(siblings[i]) > highest {
          highest := OrderValue(siblings[i]);
        }
      }
      assert siblings[..|siblings|] == siblings;
      order := highest + ORDER_STEP;
    }

    method CheckParent(role: Role, parent: Option<int>) returns (decision: Outcome)
      requires UniqueIds(roles)
      ensures decision == DecideParent(roles, role, parent)
    {
      ChartLinksUnique(roles);
      var links := ChartLinks(roles);
      var chain := AncestorChainIds(links, parent);
      decision := CanSetParent(role.id, role.key, chain, SubtreeHeight(links, role.id));
    }

    method AddRoleToOrganigram(id: int, parent: Option<int>) returns (out: Outcome)
      requires Valid()
      modifies this`roles
      ensures Valid() && (out, roles) == Add(old(roles), id, parent)
    {
      var role := Find(roles, id);
      if role.None? { return Refused(NotFound); }
      if !CanShow(role.value.key) { return Refused(NotAnOrganigramRole); }
      out := CheckParent(role.value, parent);
      if out.Refused? { return; }
      if !ParentKnown(roles, parent) { return Refused(UnknownParent); }
      var order := NextOrderUnder(parent);
      roles := Put(roles, role.value.(onChart := true, parent := parent, order := Some(order)));
    }

    method SetOrganigramParent(id: int, parent: Option<int>) returns (out: Outcome)
      requires Valid()
      modifies this`roles
      ensures Valid() && (out, roles) == SetParent(old(roles), id, parent)
    {
      var role := Find(roles, id);
      if role.None? { return Refused(NotFound); }
      if !role.value.onChart { return Refused(NotOnChart); }
      out := CheckParent(role.value, parent);
      if out.Refused? { return; }
      if !ParentKnown(roles, parent) { return Refused(UnknownParent); }
      var order := NextOrderUnder(parent);
      roles := Put(roles, role.value.(parent := parent, order := Some(order)));
    }

    method CreateRole(n: NewRole) returns (out: Outcome, id: int)
      requires Valid()
      modifies this
      ensures Valid() && id == old(nextId)
      ensures (out, roles) == Create(old(roles), id, n)
      ensures nextId == old(nextId) + (if out.Done? then 1 else 0)
    {
      id := nextId;
      if n.name == "" || n.key.None? { return Refused(EmptyName), id; }
      var existing := FindKey(roles, n.key.value);
      if existing.Some? { return Refused(NameTaken), id; }
      CreateKeepsUnique(roles, id, n);
      roles := roles + [Role(id, n.key.value, n.name, n.collation, "", false, n.isSinglePerson, None, None, false)];
      nextId := nextId + 1;
      out := Done;
    }

    method CreateServiceInOrganigram(n: NewRole, parent: Option<int>) returns (out: Outcome)
      requires Valid()
      modifies this
      ensures Valid() && Find(old(roles), old(nextId)).None?
      ensures (out, roles) == CreateService(old(roles), old(nextId), n, parent)
    {
      CreateKeepsUnique(roles, nextId, n);
      var id, before := nextId, roles;
      out, id := CreateRole(n);
      if out.Done? {
        out := AddRoleToOrganigram(id, parent);
        // The foreign key's error is not one the route turns into a message: the transaction is undone.
        if out == Refused(UnknownParent) { roles := before; }
      }
    }

    /** Children are lifted first, then the role itself leaves: two updates, one contraction. */
    method RemoveRoleFromOrganigram(id: int) returns (out: Outcome)
      requires Valid()
      modifies this`roles
      ensures Valid() && (out, roles) == Remove(old(roles), id)
    {
      var found := Find(roles, id);
      if found.None? { return Refused(NotFound); }
      var role := found.value;
      if !CanLeave(role.key) { return Refused(FixedPosition); }
      var before := roles;
      roles := seq(|before|, i requires 0 <= i < |before| =>
        if before[i].parent == Some(id) then before[i].(parent := role.parent) else before[i]);
      PutLifted(before, roles, role);
      roles := Put(roles, role.(onChart := false, parent := None, order := None));
      out := Done;
    }

    method DeleteRole(id: int) returns (out: Outcome)
      requires Valid()
      modifies this`roles
      ensures Valid() && (out, roles) == Delete(old(roles), id)
    {
      var found := Find(roles, id);
      if found.None? { return Done; }
      if found.value.isBuiltIn { return Refused(BuiltInUndeletable); }
      if Tree.KidRows(roles, id) != [] { return Refused(HasChildren); }
      FilterKeepsIdsUnique(roles, NotId(id));
      FilterKeepsKeysUnique(roles, NotId(id));
      roles := Filter(roles, NotId(id));
      out := Done;
    }

    method SetRoleSinglePerson(id: int, single: bool, titulaires: nat) returns (out: Outcome)
      requires Valid()
      modifies this`roles
      ensures Valid() && (out, roles) == SetSinglePerson(old(roles), id, single, titulaires)
    {
      var found := Find(roles, id);
      if found.None? { return Refused(NotFound); }
      if found.value.isBuiltIn { return Refused(BuiltInShape); }
      if found.value.isSinglePerson == single { return Done; }
      if single && titulaires > 1 { return Refused(SeveralTitulaires); }
      roles := Put(roles, found.value.(isSinglePerson := single));
      out := Done;
    }

    /** Swap with the neighbour by splicing, then renumber the whole row of siblings. */
    method MoveOrganigramNode(id: int, d: Direction) returns (out: Outcome)
      requires Valid()
      modifies this`roles
      ensures Valid() && (out, roles) == Reorder(old(roles), id, d)
    {
      var found := Find(roles, id);
      if found.None? { return Refused(NotFound); }
      out := Done;
      var parent := found.value.parent;
      var ordered := OrderedSiblings(roles, parent);
      var index := Position(ordered, id);
      var target: int := if d.Up? then index as int - 1 else index + 1;
      if index == |ordered| || target < 0 || target >= |ordered| { return; }
      var without := ordered[..index] + ordered[index + 1..];
      var swapped := without[..target] + [id] + without[target..];
      OrderedLists(roles, parent);
      SpliceMoves(ordered, id, d, index, target);
      MoveByLists(roles, parent, ordered, id, d);
      RenumberAll(swapped, parent);
    }

    method RenumberAll(swapped: seq<int>, ghost parent: Option<int>)
      requires Valid() && ListsAll(roles, parent, swapped)
      modifies this`roles
      ensures Valid() && roles == Renumber(old(roles), swapped)
    {
      ghost var before := roles;
      RenumberNone(before);
      for position := 0 to |swapped|
        invariant |roles| == |before| && roles == Renumber(before, swapped[..position])
      {
        RenumberedFound(before, parent, swapped, position);
        RenumberKeepsKeys(before, swapped[..position + 1]);
        var row := Find(roles, swapped[position]).value;
        RenumberStep(before, swapped, position, row);
        roles := Put(roles, row.(order := Some((position + 1) * ORDER_STEP)));
      }
      assert swapped[..|swapped|] == swapped;
    }

    method Place(key: Key, parent: Option<int>, order: int)
      requires Valid()
      modifies this`roles
      ensures Valid() && roles == PlaceKey(old(roles), key, parent, order)
    {
      PlaceKeyKeeps(roles, key, parent, order);
      var found := FindKey(roles, key);
      if found.Some? {
        PutPlaces(roles, found.value, parent, order);
        roles := Put(roles, found.value.(onChart := true, parent := parent, order := Some(order)));
      } else {
        assert forall i | 0 <= i < |roles| :: roles[i] in roles;
      }
    }

    method PlacePosts(committee: Option<int>)
      requires Valid()
      modifies this`roles
      ensures Valid() && |roles| == |old(roles)|
      ensures forall i | 0 <= i < |roles| :: roles[i] == PostPlaced(old(roles)[i], committee, 3)
    {
      for index := 0 to |POST_KEYS|
        invariant Valid() && |roles| == |old(roles)|
        invariant forall i | 0 <= i < |roles| :: roles[i] == PostPlaced(old(roles)[i], committee, index)
      {
        Place(POST_KEYS[index], committee, (index + 1) * ORDER_STEP);
        forall i | 0 <= i < |roles| ensures roles[i] == PostPlaced(old(roles)[i], committee, index + 1) {
          NextPost(old(roles)[i], committee, index);
        }
      }
    }

    method PlaceDefaultOrganigram()
      requires Valid()
      modifies this`roles
      ensures Valid() && roles == PlaceDefault(old(roles))
    {
      if ChartRows(roles) != [] { return; }
      ghost var before := roles;
      var elderId := IdOfKey(roles, Elder);
      var committeeId := IdOfKey(roles, Committee);
      Place(Elder, None, ORDER_STEP);
      Place(AssistantServant, None, 2 * ORDER_STEP);
      Place(Committee, elderId, ORDER_STEP);
      PlacePosts(committeeId);
      forall i | 0 <= i < |before| ensures roles[i] == Placed(before, before[i]) {
        PlacedInTurn(before, before[i]);
      }
      assert roles == PlaceDefault(before);
    }

    /** `seedBuiltInRoles`: each key is updated if present, created otherwise. */
    method SeedRoles(all: seq<Key>)
      requires Valid() && Distinct(all)
      modifies this
      ensures Valid() && SeededFrom(old(roles), roles, all)
    {
      ghost var before := roles;
      for n := 0 to |all|
        invariant Valid() && SeededFrom(before, roles, all[..n])
      {
        var key := all[n];
        assert all[..n + 1] == all[..n] + [key] && key !in all[..n];
        Upsert(key, before, all[..n]);
      }
      assert all[..|all|] == all;
    }

    method Upsert(key: Key, ghost before: seq<Role>, ghost keys: seq<Key>)
      requires Valid() && SeededFrom(before, roles, keys) && key !in keys
      modifies this
      ensures Valid() && SeededFrom(before, roles, keys + [key])
    {
      ghost var rows := roles;
      var found := FindKey(roles, key);
      if found.Some? {
        UpsertUpdates(before, rows, keys, found.value);
        roles := Put(roles, found.value.(isBuiltIn := true, isSinglePerson := IsPost(key)));
      } else {
        var row := Role(nextId, key, "", 0, "", true, IsPost(key), None, None, false);
        UpsertCreates(before, rows, keys, row);
        roles := roles + [row];
        nextId := nextId + 1;
      }
    }

    method SeedBuiltInRoles()
      requires Valid()
      modifies this
      ensures Valid() && SeededFrom(old(roles), roles, BUILT_IN_KEYS)
    {
      SeedRoles(BUILT_IN_KEYS);
    }
  }

  lemma UpsertUpdates(before: seq<Role>, rows: seq<Role>, keys: seq<Key>, r: Role)
    requires UniqueIds(rows) && UniqueKeys(rows) && SeededFrom(before, rows, keys) && r in rows && r.key !in keys
    ensures SeededFrom(before, Put(rows, r.(isBuiltIn := true, isSinglePerson := IsPost(r.key))), keys + [r.key])
    ensures UniqueIds(Put(rows, r.(isBuiltIn := true, isSinglePerson := IsPost(r.key))))
    ensures UniqueKeys(Put(rows, r.(isBuiltIn := true, isSinglePerson := IsPost(r.key))))
  {
    var r' := r.(isBuiltIn := true, isSinglePerson := IsPost(r.key));
    var rows' := Put(rows, r');
    forall i | 0 <= i < |rows| ensures rows'[i].key == rows[i].key && rows'[i].id == rows[i].id
                                    && (rows[i].key == r.key <==> rows[i] == r) {
      if rows[i].id == r.id { SameIdSameRow(rows, rows[i], r); }
      if rows[i].key == r.key { UniqueKeyRow(rows, rows[i], r); }
    }
    forall k | k in keys + [r.key] ensures HasKey(rows', k) {
      assert k in keys ==> HasKey(rows, k);
      var i :| 0 <= i < |rows| && rows[i].key == k;
      assert rows'[i] in rows';
    }
  }

  lemma UpsertCreates(before: seq<Role>, rows: seq<Role>, keys: seq<Key>, r: Role)
    requires SeededFrom(before, rows, keys) && r.key !in keys && forall x | x in rows :: x.key != r.key
    requires r.isBuiltIn && r.isSinglePerson == IsPost(r.key) && !r.onChart && r.parent.None?
    ensures SeededFrom(before, rows + [r], keys + [r.key])
  {
    var rows' := rows + [r];
    forall i | 0 <= i < |before| ensures before[i].key != r.key {
      assert rows[i] in rows;
    }
    forall k | k in keys + [r.key] ensures HasKey(rows', k) {
      if k in keys {
        var x :| x in rows && x.key == k;
        assert x in rows';
      } else {
        assert r in rows';
      }
    }
  }

  /** Splicing an element out and back in next door is the exchange. */
  lemma SpliceMoves(ids: seq<int>, id: int, d: Direction, index: nat, target: nat)
    requires Distinct(ids) && index == Position(ids, id) < |ids| && target < |ids|
    requires target == if d.Up? then index - 1 else index + 1
    ensures var without := ids[..index] + ids[index + 1..];
            without[..target] + [id] + without[target..] == MoveBy(ids, id, d)
    ensures MoveBy(ids, id, d) != ids
  {
    var without := ids[..index] + ids[index + 1..];
    var spliced, low := without[..target] + [id] + without[target..], if d.Up? then target else index;
    var swapped := SwapAt(ids, low);
    assert MoveBy(ids, id, d) == swapped && swapped[index] == ids[target] != ids[index];
    forall k | 0 <= k < |ids| ensures spliced[k] == swapped[k] {
      SplicedAt(ids, index, target, k);
    }
  }

  lemma SplicedAt(ids: seq<int>, index: nat, target: nat, k: nat)
    requires index < |ids| && target < |ids| && k < |ids|
    requires target == index - 1 || target == index + 1
    ensures var without := ids[..index] + ids[index + 1..];
            (without[..target] + [ids[index]] + without[target..])[k]
            == if k == target then ids[index] else if k == index then ids[target] else ids[k]
  {
    var without := ids[..index] + ids[index + 1..];
    assert forall i | 0 <= i < |without| :: without[i] == if i < index then ids[i] else ids[i + 1];
  }

  lemma RenumberNone(rows: seq<Role>)
    ensures Renumber(rows, []) == rows
  {
  }

  /** One more sibling renumbered. */
  lemma RenumberMore(rows: seq<Role>, ids: seq<int>, n: nat)
    requires UniqueIds(rows) && Distinct(ids) && n < |ids|
    ensures forall i | 0 <= i < |rows| :: Renumbered(rows[i], ids[..n + 1]) ==
              if rows[i].id == ids[n] then Renumbered(rows[i], ids[..n]).(order := Some((n + 1) * ORDER_STEP))
              else Renumbered(rows[i], ids[..n])
  {
    forall i | 0 <= i < |rows| ensures Position(ids[..n + 1], rows[i].id) ==
        if rows[i].id == ids[n] then n else if rows[i].id in ids[..n] then Position(ids[..n], rows[i].id) else n + 1 {
      PositionPrefix(ids, n, rows[i].id);
    }
    forall i | 0 <= i < |rows| && rows[i].id == ids[n] ensures Position(ids[..n], rows[i].id) == n {
      assert ids[n] !in ids[..n];
    }
  }

  lemma RenumberKeepsKeys(rows: seq<Role>, order: seq<int>)
    requires UniqueKeys(rows)
    ensures UniqueKeys(Renumber(rows, order))
  {
    var rows' := Renumber(rows, order);
    forall i | 0 <= i < |rows| ensures rows'[i].key == rows[i].key {
    }
  }

  lemma RenumberedFound(rows: seq<Role>, parent: Option<int>, ids: seq<int>, n: nat)
    requires UniqueIds(rows) && ListsAll(rows, parent, ids) && n < |ids|
    ensures UniqueIds(Renumber(rows, ids[..n])) && Find(Renumber(rows, ids[..n]), ids[n]).Some?
  {
    RenumberMembers(rows, ids[..n]);
    assert ids[n] in ids && IsSibling(rows, parent, ids[n]);
    var s :| s in rows && s.id == ids[n];
    assert Renumbered(s, ids[..n]) in Renumber(rows, ids[..n]);
  }

  lemma RenumberStep(rows: seq<Role>, ids: seq<int>, n: nat, row: Role)
    requires UniqueIds(rows) && Distinct(ids) && n < |ids|
    requires UniqueIds(Renumber(rows, ids[..n])) && row in Renumber(rows, ids[..n]) && row.id == ids[n]
    ensures Put(Renumber(rows, ids[..n]), row.(order := Some((n + 1) * ORDER_STEP))) == Renumber(rows, ids[..n + 1])
  {
    var rows', row' := Renumber(rows, ids[..n]), row.(order := Some((n + 1) * ORDER_STEP));
    var put, more := Put(rows', row'), Renumber(rows, ids[..n + 1]);
    RenumberMore(rows, ids, n);
    forall i | 0 <= i < |rows| ensures put[i] == more[i] {
      if rows'[i].id == row.id {
        SameIdSameRow(rows', rows'[i], row);
      }
    }
  }

  lemma PositionPrefix(ids: seq<int>, n: nat, id: int)
    requires Distinct(ids) && n < |ids|
    ensures Position(ids[..n + 1], id) ==
              if id == ids[n] then n else if id in ids[..n] then Position(ids[..n], id) else n + 1
    ensures id !in ids[..n] ==> Position(ids[..n], id) == n
  {
    var long, short := ids[..n + 1], ids[..n];
    if id == ids[n] {
      PositionIs(long, n);
    } else if id in short {
      var k := Position(short, id);
      PositionIs(long, k);
    } else {
      assert forall j | 0 <= j < n + 1 :: long[j] == if j < n then short[j] else ids[n];
      assert id !in long;
    }
  }

  /** A new congregation: seeding an empty table and placing the default gives a sound chart. */
  lemma SeededTableIsSound(rows: seq<Role>)
    requires UniqueIds(rows) && UniqueKeys(rows) && SeededFrom([], rows, BUILT_IN_KEYS)
    ensures Seeded(rows) && Sound(PlaceDefault(rows))
  {
    forall k | IsBuiltInKey(k) ensures HasKey(rows, k) {
      assert k in BUILT_IN_KEYS;
    }
    DefaultIsSound(rows);
  }

  method NewCongregation() returns (o: Organigram)
    ensures fresh(o) && o.Valid() && Sound(o.roles) && Fresh(State(o.roles, o.nextId))
  {
    o := new Organigram();
    o.SeedBuiltInRoles();
    SeededTableIsSound(o.roles);
    ghost var rows := o.roles;
    o.PlaceDefaultOrganigram();
    SameRolesSameIds(rows, PlaceDefault(rows));
  }
}
