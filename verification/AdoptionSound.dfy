/** Adoption of a chart from before the committee makes it sound, and every run goes on from there. */
module AdoptedRuns {
  import opened Lists
  import opened Graph
  import opened Roles
  import opened Chart
  import opened Access
  import opened Adoption
  import opened AdoptedTree
  import opened AdoptedDepths
  import opened Safety
  import Runs
  import Seats

  /** A sound chart but for the committee and its posts, which are not on it yet. */
  ghost predicate Legacy(rows: seq<Role>) {
    && Keyed(rows) && Acyclic(ParentLinks(rows))
    && (forall r | r in rows && !IsAppointed(r.key) :: WellPlaced(rows, r))
    && (forall r | r in rows && IsAppointed(r.key) :: !r.onChart && r.parent.None?)
  }

  lemma LegacyIsNotYetPlaced(rows: seq<Role>)
    requires Legacy(rows)
    ensures NotYetPlaced(rows) && FindKey(rows, Committee).Some? && FindKey(rows, Elder).Some?
  {
    assert HasKey(rows, Committee) && HasKey(rows, Elder);
    forall r | r in rows && r.key.Elder? ensures r.parent.None? {
      assert WellPlaced(rows, r);
    }
  }

  // ----- placement puts the appointed roles in their places -----

  /** Rows with these keys are on the chart. */
  ghost predicate Shown(rows: seq<Role>, keys: set<Key>) {
    forall r | r in rows && r.key in keys :: r.onChart
  }

  lemma PutShows(rows: seq<Role>, from: seq<Role>, r: Role, r': Role, keys: set<Key>)
    requires UniqueKeys(from) && SamePeople(from, rows) && r in from && r'.id == r.id && r'.key == r.key && r'.onChart
    requires Shown(rows, keys)
    ensures Shown(Put(rows, r'), keys + {r.key})
  {
    forall x | x in Put(rows, r') && x.key in keys + {r.key} ensures x.onChart {
      var i :| 0 <= i < |rows| && Put(rows, r')[i] == x;
      if rows[i].id != r.id {
        assert x == rows[i] && from[i].key == x.key && from[i] in from;
        if x.key == r.key { UniqueKeyRow(from, from[i], r); }
      }
    }
  }

  lemma PlacePostShows(rows: seq<Role>, from: seq<Role>, key: Key, committee: int, order: int, keys: set<Key>)
    requires UniqueIds(from) && UniqueKeys(from) && SamePeople(from, rows) && FindKey(from, key).Some?
    requires Shown(rows, keys)
    ensures SamePeople(from, PlacePost(rows, from, key, committee, order))
    ensures Shown(PlacePost(rows, from, key, committee, order), keys + {key})
  {
    var p := FindKey(from, key).value;
    PlacePostSamePeople(rows, from, key, committee, order);
    PutShows(rows, from, p, PlacedAt(p, Some(committee), order), keys);
  }

  lemma PlacementShows(rows: seq<Role>, c: Role)
    requires Keyed(rows) && c in rows && c.key.Committee?
    ensures Shown(PlaceCommittee(rows, c), {Committee, Coordinator, Secretary, ServiceOverseer})
  {
    assert HasKey(rows, Coordinator) && HasKey(rows, Secretary) && HasKey(rows, ServiceOverseer);
    var c' := PlacedAt(c, IdOfKey(rows, Elder), ORDER_STEP);
    var r0 := Put(rows, c');
    PutSamePeople(rows, rows, c, c');
    PutShows(rows, rows, c, c', {});
    PlacePostShows(r0, rows, Coordinator, c.id, ORDER_STEP, {} + {Committee});
    var r1 := PlacePost(r0, rows, Coordinator, c.id, ORDER_STEP);
    PlacePostShows(r1, rows, Secretary, c.id, 2 * ORDER_STEP, {} + {Committee} + {Coordinator});
    var r2 := PlacePost(r1, rows, Secretary, c.id, 2 * ORDER_STEP);
    PlacePostShows(r2, rows, ServiceOverseer, c.id, 3 * ORDER_STEP, {} + {Committee} + {Coordinator} + {Secretary});
  }

  lemma PeopleKeepKeys(rows: seq<Role>, rows': seq<Role>)
    requires SamePeople(rows, rows')
    ensures SameRoles(rows, rows')
  {
  }

  lemma IdHasKey(rows: seq<Role>, key: Key)
    requires FindKey(rows, key).Some?
    ensures IsIdOf(rows, FindKey(rows, key).value.id, key)
  {
  }

  lemma AppointedParent(rows: seq<Role>, c: Role, x: Role)
    requires UniqueIds(rows) && UniqueKeys(rows) && Acyclic(ParentLinks(rows)) && NotYetPlaced(rows)
    requires FindKey(rows, Committee) == Some(c) && x in PlaceCommittee(rows, c) && IsAppointed(x.key)
    ensures x.parent == if x.key.Committee? then IdOfKey(rows, Elder) else Some(c.id)
  {
    PlacementAnchors(rows, c);
    RowLink(PlaceCommittee(rows, c), x);
    var r := RowBefore(rows, c, x);
    if x.key.Committee? {
      UniqueKeyRow(rows, r, c);
    } else {
      assert x.id in PostIds(rows);
    }
  }

  lemma AppointedIsWell(rows: seq<Role>, rows': seq<Role>, x: Role, above: Key)
    requires SameRoles(rows, rows') && IsAppointed(x.key) && x.onChart
    requires above == (if x.key.Committee? then Elder else Committee)
    requires FindKey(rows, above).Some? && x.parent == Some(FindKey(rows, above).value.id)
    ensures WellPlaced(rows', x)
  {
    SameRolesKeepKeys(rows, rows');
    IdHasKey(rows, above);
    assert IsIdOf(rows', x.parent.value, above);
  }

  lemma AppointedShown(rows: seq<Role>, c: Role, x: Role)
    requires Keyed(rows) && c in rows && c.key.Committee? && x in PlaceCommittee(rows, c) && IsAppointed(x.key)
    ensures x.onChart
  {
    PlacementShows(rows, c);
    assert x.key in {Committee, Coordinator, Secretary, ServiceOverseer};
  }

  lemma PlacedAppointed(rows: seq<Role>, c: Role, x: Role)
    requires Legacy(rows) && FindKey(rows, Committee) == Some(c) && SameRoles(rows, PlaceCommittee(rows, c))
    requires x in PlaceCommittee(rows, c) && IsAppointed(x.key)
    ensures WellPlaced(PlaceCommittee(rows, c), x)
  {
    LegacyIsNotYetPlaced(rows);
    AppointedParent(rows, c, x);
    AppointedShown(rows, c, x);
    AppointedIsWell(rows, PlaceCommittee(rows, c), x, if x.key.Committee? then Elder else Committee);
  }

  lemma PlacementIsWell(rows: seq<Role>, c: Role)
    requires Legacy(rows) && FindKey(rows, Committee) == Some(c)
    ensures var rows' := PlaceCommittee(rows, c); Keyed(rows') && forall x | x in rows' :: WellPlaced(rows', x)
  {
    PlaceSamePeople(rows, c);
    var rows' := PlaceCommittee(rows, c);
    PeopleKeepKeys(rows, rows');
    SameRolesKeepKeys(rows, rows');
    forall x | x in rows' ensures WellPlaced(rows', x) {
      if IsAppointed(x.key) {
        PlacedAppointed(rows, c, x);
      } else {
        var r := RowBefore(rows, c, x);
        PlacementLeaves(rows, c, r);
        SameIdSameRow(rows', r, x);
        assert WellPlaced(rows, r);
      }
    }
  }

  // ----- carrying over keeps every role in a proper place -----

  lemma RehungIsWell(rows: seq<Role>, m: Mapping, r: Role)
    requires Keyed(rows) && (forall x | x in rows :: WellPlaced(rows, x)) && r in rows
    requires IsIdOf(rows, m.target.id, m.target.key) && IsIdOf(rows, m.source.id, m.source.key)
    requires !IsAppointed(m.source.key) && !m.source.key.Elder?
    ensures WellPlaced(RehungRows(rows, m.source.id, m.target.id), RehungRow(r, m.source.id, m.target.id))
  {
    var rows' := RehungRows(rows, m.source.id, m.target.id);
    assert SameRoles(rows, rows');
    SameRolesKeepKeys(rows, rows');
    assert WellPlaced(rows, r);
    forall x, k | x in rows && x.id == m.source.id && IsIdOf(rows, m.source.id, k) ensures x.key == m.source.key == k {
      KeyOfId(rows, m.source.id, k, m.source.key);
      KeyOfId(rows, m.source.id, x.key, m.source.key);
    }
    assert Known(rows, m.target.id);
  }

  lemma KeyOfId(rows: seq<Role>, id: int, k: Key, l: Key)
    requires UniqueIds(rows) && IsIdOf(rows, id, k) && IsIdOf(rows, id, l)
    ensures k == l
  {
    var x :| x in rows && x.id == id && x.key == k;
    var y :| y in rows && y.id == id && y.key == l;
    SameIdSameRow(rows, x, y);
  }

  ghost predicate CanCarry(rows: seq<Role>, ms: seq<Mapping>) {
    forall m | m in ms ::
      && IsIdOf(rows, m.target.id, m.target.key) && IsIdOf(rows, m.source.id, m.source.key)
      && !IsAppointed(m.source.key) && !m.source.key.Elder?
  }

  lemma {:induction false} CarryAllIsWell(a: Congregation, ms: seq<Mapping>, order: Listing)
    requires Keyed(a.rows) && (forall x | x in a.rows :: WellPlaced(a.rows, x)) && CanCarry(a.rows, ms)
    requires CarryAll(a, ms, order).Some?
    ensures var rows' := CarryAll(a, ms, order).value.rows;
            Keyed(rows') && forall x | x in rows' :: WellPlaced(rows', x)
    decreases |ms|
  {
    if ms != [] {
      var m, b := ms[0], CarryOver(a, ms[0], order).value;
      assert m in ms;
      assert SameRoles(a.rows, b.rows);
      SameRolesKeepKeys(a.rows, b.rows);
      forall x | x in b.rows ensures WellPlaced(b.rows, x) {
        var i :| 0 <= i < |b.rows| && b.rows[i] == x;
        RehungIsWell(a.rows, m, a.rows[i]);
      }
      CarryAllIsWell(b, ms[1..], order);
    }
  }

  // ----- the adopted chart -----

  lemma ResolvedCanCarry(rows: seq<Role>, rows': seq<Role>, choices: seq<Choice>)
    requires SameRoles(rows, rows') && CheckChoices(choices, {}).Adopted? && Resolve(rows, choices).0.Adopted?
    requires forall m | m in Resolve(rows, choices).1 :: !m.source.key.Elder?
    ensures CanCarry(rows', Resolve(rows, choices).1)
  {
    ResolvedMappings(rows, choices, {});
    SameRolesKeepKeys(rows, rows');
    forall m | m in Resolve(rows, choices).1
      ensures IsIdOf(rows, m.target.id, m.target.key) && IsIdOf(rows, m.source.id, m.source.key) {
    }
  }

  lemma AdoptedIsWell(a: Congregation, choices: seq<Choice>, order: Listing, actor: set<Permission>)
    requires Legacy(a.rows) && Adopt(a, choices, order, actor).0.Adopted?
    requires forall m | m in Resolve(a.rows, choices).1 :: !m.source.key.Elder?
    ensures var rows' := Adopt(a, choices, order, actor).1.rows;
            Keyed(rows') && forall x | x in rows' :: WellPlaced(rows', x)
  {
    var c, ms := FindKey(a.rows, Committee).value, Resolve(a.rows, choices).1;
    var p := a.(rows := PlaceCommittee(a.rows, c));
    AdoptedState(a, choices, order, actor);
    PlacementIsWell(a.rows, c);
    PlaceSamePeople(a.rows, c);
    PeopleKeepKeys(a.rows, p.rows);
    ResolvedCanCarry(a.rows, p.rows, choices);
    CarryAllIsWell(p, ms, order);
    Seats.SyncEffect(CarryAll(p, ms, order).value);
  }

  /**
   Adopting on a chart from before the committee, the elder roster not taken over, yields a sound chart exactly when
   no role's adopted level passes ten.
   */
  lemma AdoptionIsSoundIff(a: Congregation, choices: seq<Choice>, order: Listing, actor: set<Permission>)
    requires Legacy(a.rows) && Adopt(a, choices, order, actor).0.Adopted?
    requires forall m | m in Resolve(a.rows, choices).1 :: !m.source.key.Elder?
    ensures Sound(Adopt(a, choices, order, actor).1.rows)
       <==> forall y :: AdoptedLevel(a.rows, Resolve(a.rows, choices).1, y) <= MAX_DEPTH
  {
    LegacyIsNotYetPlaced(a.rows);
    AdoptedIsWell(a, choices, order, actor);
    AcyclicUnlessElderIsTaken(a, choices, order, actor);
    AdoptionKeepsCapIff(a, choices, order, actor);
  }

  /** Every run of chart operations after such an adoption keeps the chart sound. */
  lemma EveryRunFromAdoptionIsSound(
      a: Congregation, choices: seq<Choice>, order: Listing, actor: set<Permission>, nextId: int, ops: seq<Runs.Op>)
    requires Legacy(a.rows) && Adopt(a, choices, order, actor).0.Adopted?
    requires forall m | m in Resolve(a.rows, choices).1 :: !m.source.key.Elder?
    requires forall y :: AdoptedLevel(a.rows, Resolve(a.rows, choices).1, y) <= MAX_DEPTH
    requires Runs.Fresh(Runs.State(a.rows, nextId))
    ensures Runs.Good(Runs.State(Adopt(a, choices, order, actor).1.rows, nextId))
    ensures Sound(Runs.Run(Runs.State(Adopt(a, choices, order, actor).1.rows, nextId), ops).rows)
  {
    AdoptionIsSoundIff(a, choices, order, actor);
    AdoptedIds(a, choices, order, actor);
    var s := Runs.State(Adopt(a, choices, order, actor).1.rows, nextId);
    forall r | r in s.rows ensures r.id < nextId {
      var i :| 0 <= i < |s.rows| && s.rows[i] == r;
      assert a.rows[i] in a.rows;
    }
    Runs.EveryRunIsSound(s, ops);
  }

  lemma AdoptedIds(a: Congregation, choices: seq<Choice>, order: Listing, actor: set<Permission>)
    requires UniqueIds(a.rows) && Adopt(a, choices, order, actor).0.Adopted?
    ensures SamePeople(a.rows, Adopt(a, choices, order, actor).1.rows)
  {
    var c, ms := FindKey(a.rows, Committee).value, Resolve(a.rows, choices).1;
    var p := a.(rows := PlaceCommittee(a.rows, c));
    AdoptedState(a, choices, order, actor);
    PlaceSamePeople(a.rows, c);
    CarryAllSamePeople(p, ms, order);
    SamePeopleChain(a.rows, p.rows, CarryAll(p, ms, order).value.rows);
  }
}
