/** What the chart's rules decide, read from the links alone: each refusal has its cause and nothing else is refused. */
module Decisions {
  import opened Lists
  import opened Graph
  import opened Roles
  import opened Queries
  import opened Chart
  import opened Safety

  /** No role stands below level ten. */
  ghost predicate WithinTen(up: Links) {
    forall x :: |Chain(up, x)| <= 10
  }

  // ----- the depth check -----

  lemma FarthestAfterMove(up: Links, id: int, p: int, d: int)
    requires Acyclic(up) && !Under(up, p, id) && Under(up, d, id)
    ensures |Chain(up[id := p], d)| == IndexOf(Chain(up, d), id) + 1 + |Chain(up, p)|
  {
    ReattachedChain(up, id, p, d);
  }

  /** Among the links that keep ten levels, a move keeps them exactly when chain, role and height add up to ten. */
  lemma DepthCheckIsExact(links: seq<TreeLink>, up: Links, id: int, p: int)
    requires UniqueLinks(links) && up == LinkMap(links) && Acyclic(up) && WithinTen(up) && !Under(up, p, id)
    ensures WithinTen(up[id := p]) <==> |Chain(up, p)| + 1 + SubtreeHeight(links, id) <= 10
  {
    HeightIsFarthestDescendant(links, id);
    var d :| Under(up, d, id) && IndexOf(Chain(up, d), id) == SubtreeHeight(links, id);
    FarthestAfterMove(up, id, p, d);
    if |Chain(up, p)| + 1 + SubtreeHeight(links, id) <= 10 {
      var moved := up[id := p];
      forall x ensures |Chain(moved, x)| <= 10 {
        if Under(up, x, id) { FarthestAfterMove(up, id, p, x); } else { ReattachedAbove(up, id, p, x); }
      }
    }
  }

  /** A role that stands at the top leaves room for all that hangs below it. */
  lemma TopHasRoom(links: seq<TreeLink>, up: Links, id: int)
    requires UniqueLinks(links) && up == LinkMap(links) && WithinTen(up)
    ensures 1 + SubtreeHeight(links, id) <= 10
  {
    HeightIsFarthestDescendant(links, id);
    var d :| Under(up, d, id) && IndexOf(Chain(up, d), id) == SubtreeHeight(links, id);
  }

  // ----- the decision -----

  predicate IsRosterKey(key: Key) { key in {Elder, AssistantServant} }

  predicate IsFixedKey(key: Key) { key in {Committee, Coordinator, Secretary, ServiceOverseer} }

  /** Keys that say who someone is, or what they may do with the software. */
  predicate IsNoPosition(key: Key) {
    key in {Member, MinistrySchoolStudent, Publisher, Baptized, Brother, Sister, Anointed, Pioneer, Admin}
  }

  /** Why a role with this key may not stand under `parent`, or that it may. */
  ghost function Ruling(rows: seq<Role>, r: Role, parent: Option<int>): Outcome
    requires UniqueIds(rows)
  {
    var up := ParentLinks(rows);
    if IsRosterKey(r.key) then if parent.Some? then Refused(RosterIsRoot) else Done
    else if IsFixedKey(r.key) then Refused(FixedPosition)
    else if parent.None? then Refused(ServiceNeedsParent)
    else if Under(up, parent.value, r.id) then Refused(Cycle)
    else if !WithinTen(up[r.id := parent.value]) then Refused(TooDeep)
    else if !Known(rows, parent.value) then Refused(UnknownParent)
    else Done
  }

  lemma DecisionIsRight(rows: seq<Role>, r: Role, parent: Option<int>)
    requires Sound(rows) && r in rows
    ensures DecideParent(rows, r, parent)
         == if Ruling(rows, r, parent) == Refused(UnknownParent) then Done else Ruling(rows, r, parent)
  {
    var links, up := ChartLinks(rows), ParentLinks(rows);
    assert forall x | x in rows :: WellPlaced(rows, x);
    ChartLinksAreParentLinks(rows);
    assert WithinTen(up) by {
      forall x ensures |Chain(up, x)| <= 10 { assert Depth(up, x) <= MAX_DEPTH; }
    }
    if parent.None? {
      TopHasRoom(links, up, r.id);
    } else {
      assert parent.value in Chain(up, parent.value);
      if !Under(up, parent.value, r.id) { DepthCheckIsExact(links, up, r.id, parent.value); }
    }
  }

  /** The attachment is decided as the links say, and a refused one changes nothing. */
  lemma AttachIsRight(rows: seq<Role>, r: Role, parent: Option<int>)
    requires Sound(rows) && r in rows
    ensures Attach(rows, r, parent).0 == Ruling(rows, r, parent)
    ensures Attach(rows, r, parent).0.Refused? ==> Attach(rows, r, parent).1 == rows
  {
    DecisionIsRight(rows, r, parent);
    if parent.Some? {
      assert Known(rows, parent.value) <==> Find(rows, parent.value).Some?;
    }
  }

  /** On a sound chart a move is decided by the links alone: not found, off the chart, or as they say. */
  lemma MoveIsRight(rows: seq<Role>, r: Role, parent: Option<int>)
    requires Sound(rows) && r in rows
    ensures SetParent(rows, r.id, parent).0 == if !r.onChart then Refused(NotOnChart) else Ruling(rows, r, parent)
    ensures SetParent(rows, r.id, parent).0.Refused? ==> SetParent(rows, r.id, parent).1 == rows
  {
    SameIdSameRow(rows, Find(rows, r.id).value, r);
    if r.onChart { AttachIsRight(rows, r, parent); }
  }

  /** And so is an addition, of every role that is a position. */
  lemma AdditionIsRight(rows: seq<Role>, r: Role, parent: Option<int>)
    requires Sound(rows) && r in rows
    ensures Add(rows, r.id, parent).0
         == if IsNoPosition(r.key) then Refused(NotAnOrganigramRole) else Ruling(rows, r, parent)
    ensures Add(rows, r.id, parent).0.Refused? ==> Add(rows, r.id, parent).1 == rows
  {
    SameIdSameRow(rows, Find(rows, r.id).value, r);
    if !IsNoPosition(r.key) { AttachIsRight(rows, r, parent); }
  }

  /** For a custom role and a known parent: accepted exactly when no cycle closes and ten levels suffice. */
  lemma CustomMovesIff(rows: seq<Role>, r: Role, p: int)
    requires Sound(rows) && r in rows && r.onChart && r.key.Custom? && Known(rows, p)
    ensures var up := ParentLinks(rows);
            && (SetParent(rows, r.id, Some(p)).0.Done? <==> !Under(up, p, r.id) && WithinTen(up[r.id := p]))
            && (SetParent(rows, r.id, Some(p)).0 == Refused(Cycle) <==> Under(up, p, r.id))
            && (SetParent(rows, r.id, Some(p)).0 == Refused(TooDeep)
                <==> !Under(up, p, r.id) && !WithinTen(up[r.id := p]))
  {
    MoveIsRight(rows, r, Some(p));
  }

  // ----- what an accepted attachment writes -----

  /** Five above the highest order among the children shown there, or five if none is above zero. */
  ghost predicate NextAmong(rows: seq<Role>, parent: Option<int>, o: int) {
    && (forall s | s in rows && s.onChart && s.parent == parent && s.order.Some? :: s.order.value + 5 <= o)
    && (o == 5 || exists s :: s in rows && s.onChart && s.parent == parent && s.order == Some(o - 5))
  }

  lemma {:induction false} HighestIsReached(siblings: seq<Role>)
    ensures HighestOrder(siblings) == 0 || exists s :: s in siblings && s.order == Some(HighestOrder(siblings))
  {
    if siblings != [] {
      var last := |siblings| - 1;
      HighestIsReached(siblings[..last]);
      assert siblings[last] in siblings && forall s | s in siblings[..last] :: s in siblings;
    }
  }

  lemma OrderIsNext(rows: seq<Role>, parent: Option<int>)
    ensures NextAmong(rows, parent, NextOrder(rows, parent))
  {
    var siblings := Siblings(rows, parent);
    HighestIsReached(siblings);
    forall s | s in rows && s.onChart && s.parent == parent && s.order.Some?
      ensures s.order.value <= HighestOrder(siblings) {
      assert SiblingOf(parent)(s) && s in siblings && OrderValue(s) == s.order.value;
    }
    assert forall s | s in siblings :: SiblingOf(parent)(s) && s in rows;
  }

  /** One row is placed, last among its new siblings; every other row, and the role's other fields, stay. */
  ghost predicate OnePlaced(rows: seq<Role>, rows': seq<Role>, r: Role, parent: Option<int>) {
    && |rows'| == |rows|
    && forall i | 0 <= i < |rows| ::
         if rows[i] == r then
           && rows'[i] == r.(onChart := true, parent := parent, order := rows'[i].order) && rows'[i].order.Some?
           && NextAmong(rows, parent, rows'[i].order.value)
         else rows'[i] == rows[i]
  }

  lemma AttachPlacesOne(rows: seq<Role>, r: Role, parent: Option<int>)
    requires UniqueIds(rows) && r in rows && Attach(rows, r, parent).0.Done?
    ensures OnePlaced(rows, Attach(rows, r, parent).1, r, parent)
  {
    OrderIsNext(rows, parent);
    forall i | 0 <= i < |rows| && rows[i].id == r.id ensures rows[i] == r { SameIdSameRow(rows, rows[i], r); }
  }

  /** What an accepted addition or move writes. */
  lemma PlacementIsExact(rows: seq<Role>, r: Role, parent: Option<int>)
    requires UniqueIds(rows) && r in rows
    ensures Add(rows, r.id, parent).0.Done? ==> OnePlaced(rows, Add(rows, r.id, parent).1, r, parent)
    ensures SetParent(rows, r.id, parent).0.Done? ==> OnePlaced(rows, SetParent(rows, r.id, parent).1, r, parent)
  {
    SameIdSameRow(rows, Find(rows, r.id).value, r);
    if Attach(rows, r, parent).0.Done? { AttachPlacesOne(rows, r, parent); }
  }
}
