/** What the other chart operations decide and write, row by row. */
module ChartEffects {
  import opened Lists
  import opened Roles
  import opened Tree
  import opened Chart
  import opened TreeSpec

  // ----- creating a role -----

  /** A role with this id, name, key and shape that is custom and nowhere on the chart. */
  ghost predicate IsNewRole(r: Role, id: int, n: NewRole) {
    && r.id == id && n.key == Some(r.key) && r.name == n.name && r.collation == n.collation && r.note == ""
    && !r.isBuiltIn && r.isSinglePerson == n.isSinglePerson && !r.onChart && r.parent.None? && r.order.None?
  }

  /** Refused without a name or a key, and when the key is taken; else one row more. */
  lemma CreationIsExact(rows: seq<Role>, id: int, n: NewRole)
    ensures var (v, rows') := Create(rows, id, n);
            && v == (if n.name == "" || n.key.None? then Refused(EmptyName)
                     else if exists r :: r in rows && n.key == Some(r.key) then Refused(NameTaken) else Done)
            && (v.Refused? ==> rows' == rows)
            && (v.Done? ==> |rows'| == |rows| + 1 && rows'[..|rows|] == rows && IsNewRole(rows'[|rows|], id, n))
  {
  }

  // ----- taking a role off the chart -----

  /** Refused for the committee and its posts; else the role leaves and its children answer to its parent. */
  lemma RemovalIsExact(rows: seq<Role>, r: Role)
    requires UniqueIds(rows) && r in rows
    ensures var (v, rows') := Remove(rows, r.id);
            && v == (if r.key in {Committee, Coordinator, Secretary, ServiceOverseer} then Refused(FixedPosition)
                     else Done)
            && (v.Refused? ==> rows' == rows)
            && (v.Done? ==> |rows'| == |rows| && forall i | 0 <= i < |rows| ::
                  rows'[i] == if rows[i] == r then r.(onChart := false, parent := None, order := None)
                              else if rows[i].parent == Some(r.id) then rows[i].(parent := r.parent)
                              else rows[i])
  {
    SameIdSameRow(rows, Find(rows, r.id).value, r);
    forall i | 0 <= i < |rows| && rows[i].id == r.id ensures rows[i] == r { SameIdSameRow(rows, rows[i], r); }
  }

  // ----- reordering -----

  /** The two neighbours at `k` and after have changed places. */
  ghost predicate Exchanged(ids: seq<int>, after: seq<int>, k: int) {
    && 0 <= k < |ids| - 1 && |after| == |ids| && after[k] == ids[k + 1] && after[k + 1] == ids[k]
    && forall i | 0 <= i < |ids| && i != k && i != k + 1 :: after[i] == ids[i]
  }

  /** Up is with the one before, down with the one after; the first does not go up, nor the last down. */
  lemma MoveIsExact(ids: seq<int>, k: int, d: Direction)
    requires Distinct(ids) && 0 <= k < |ids|
    ensures var after := MoveBy(ids, ids[k], d);
            match d
            case Up => if k == 0 then after == ids else Exchanged(ids, after, k - 1)
            case Down => if k == |ids| - 1 then after == ids else Exchanged(ids, after, k)
  {
    var p := Position(ids, ids[k]);
    assert ids[k] in ids && ids[p] == ids[k];
  }

  /** By order alone, a missing one counting as zero, and else as the rows come. */
  ghost predicate StoredBefore(rows: seq<Role>, x: Role, y: Role) {
    var o, p := if x.order.Some? then x.order.value else 0, if y.order.Some? then y.order.value else 0;
    o < p || (o == p && Precedes(rows, x, y))
  }

  /** What the arrows move among: the roles on the chart with this parent, in stored order. */
  lemma StoredOrderIs(rows: seq<Role>, parent: Option<int>) returns (sibs: seq<Role>)
    ensures Ids(sibs) == OrderedSiblings(rows, parent)
    ensures forall r :: r in sibs <==> r in rows && r.onChart && r.parent == parent
    ensures forall i, j | 0 <= i < j < |sibs| :: StoredBefore(rows, sibs[i], sibs[j])
  {
    sibs := Sort(Siblings(rows, parent), OrderRank);
    FilterSortIsStable(rows, SiblingOf(parent), OrderRank);
    assert forall r :: r in Siblings(rows, parent) <==> r in rows && SiblingOf(parent)(r);
  }

  // ----- the default chart -----

  /** Where the default chart puts each role, given the ids of the elder roster and the committee. */
  function DefaultPlace(r: Role, elder: Option<int>, committee: Option<int>): Role {
    match r.key
    case Elder => r.(onChart := true, parent := None, order := Some(5))
    case AssistantServant => r.(onChart := true, parent := None, order := Some(10))
    case Committee => r.(onChart := true, parent := elder, order := Some(5))
    case Coordinator => r.(onChart := true, parent := committee, order := Some(5))
    case Secretary => r.(onChart := true, parent := committee, order := Some(10))
    case ServiceOverseer => r.(onChart := true, parent := committee, order := Some(15))
    case _ => r
  }

  /** The id of the row with this key, if there is one. */
  ghost predicate IsIdFor(rows: seq<Role>, key: Key, id: Option<int>) {
    match id
    case Some(x) => exists r :: r in rows && r.key == key && r.id == x
    case None => forall r | r in rows :: r.key != key
  }

  lemma PlacedIs(rows: seq<Role>, r: Role)
    ensures Placed(rows, r) == DefaultPlace(r, IdOfKey(rows, Elder), IdOfKey(rows, Committee))
  {
  }

  lemma IdsByKey(rows: seq<Role>, key: Key)
    ensures IsIdFor(rows, key, IdOfKey(rows, key))
  {
  }

  /** An arranged chart is left alone; an empty one gets the two rosters, the committee and its posts. */
  lemma DefaultIsExact(rows: seq<Role>)
    ensures (exists r :: r in rows && r.onChart) ==> PlaceDefault(rows) == rows
    ensures (forall r | r in rows :: !r.onChart) ==>
              exists elder, committee ::
                && IsIdFor(rows, Elder, elder) && IsIdFor(rows, Committee, committee)
                && |PlaceDefault(rows)| == |rows|
                && forall i | 0 <= i < |rows| :: PlaceDefault(rows)[i] == DefaultPlace(rows[i], elder, committee)
  {
    if r :| r in rows && r.onChart { assert r in ChartRows(rows); }
    if forall r | r in rows :: !r.onChart {
      FilterNone(rows, OnChart);
      var elder, committee := IdOfKey(rows, Elder), IdOfKey(rows, Committee);
      IdsByKey(rows, Elder);
      IdsByKey(rows, Committee);
      forall i | 0 <= i < |rows| ensures Placed(rows, rows[i]) == DefaultPlace(rows[i], elder, committee) {
        PlacedIs(rows, rows[i]);
      }
    }
  }
}
