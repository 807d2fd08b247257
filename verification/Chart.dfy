/** The write side of the chart on values: what each operation decides and what the rows become. */
module Chart {
  import opened Lists
  import opened Graph
  import opened Roles
  import opened Queries
  import Tree

  const ORDER_STEP: int := 5

  predicate OnChart(r: Role) { r.onChart }

  function ChartRows(rows: seq<Role>): seq<Role> {
    Filter(rows, OnChart)
  }

  function LinksOf(rows: seq<Role>): (links: seq<TreeLink>) {
    seq(|rows|, i requires 0 <= i < |rows| => TreeLink(rows[i].id, rows[i].parent))
  }

  /** `treeLinks`: every chart role with its parent. */
  function ChartLinks(rows: seq<Role>): seq<TreeLink> {
    LinksOf(ChartRows(rows))
  }

  lemma {:induction false} FilterKeepsIdsUnique(rows: seq<Role>, keep: Role -> bool)
    requires UniqueIds(rows)
    ensures UniqueIds(Filter(rows, keep))
  {
    if rows != [] {
      FilterKeepsIdsUnique(rows[1..], keep);
      forall r | r in Filter(rows[1..], keep) ensures r.id != rows[0].id {
        assert r in rows[1..];
      }
    }
  }

  lemma {:induction false} FilterKeepsKeysUnique(rows: seq<Role>, keep: Role -> bool)
    requires UniqueKeys(rows)
    ensures UniqueKeys(Filter(rows, keep))
  {
    if rows != [] {
      FilterKeepsKeysUnique(rows[1..], keep);
      forall r | r in Filter(rows[1..], keep) ensures r.key != rows[0].key {
        assert r in rows[1..];
      }
    }
  }

  lemma UniqueKeyRow(rows: seq<Role>, a: Role, b: Role)
    requires UniqueKeys(rows) && a in rows && b in rows && a.key == b.key
    ensures a == b
  {
  }

  lemma ChartLinksUnique(rows: seq<Role>)
    requires UniqueIds(rows)
    ensures UniqueLinks(ChartLinks(rows))
  {
    FilterKeepsIdsUnique(rows, OnChart);
  }

  /** The parent relation the chart is read with. */
  ghost function ChartUp(rows: seq<Role>): Links
    requires UniqueIds(rows)
  {
    FilterKeepsIdsUnique(rows, OnChart);
    ParentLinks(ChartRows(rows))
  }

  function SiblingOf(parent: Option<int>): Role -> bool { (r: Role) => r.onChart && r.parent == parent }

  function Siblings(rows: seq<Role>, parent: Option<int>): seq<Role> {
    Filter(rows, SiblingOf(parent))
  }

  function HighestOrder(siblings: seq<Role>): (h: int)
    ensures h >= 0 && forall s | s in siblings :: OrderValue(s) <= h
  {
    if siblings == [] then 0
    else
      var last := |siblings| - 1;
      var h := HighestOrder(siblings[..last]);
      assert siblings == siblings[..last] + [siblings[last]];
      if OrderValue(siblings[last]) > h then OrderValue(siblings[last]) else h
  }

  function NextOrder(rows: seq<Role>, parent: Option<int>): int {
    HighestOrder(Siblings(rows, parent)) + ORDER_STEP
  }

  /** Replace the row of the same id. */
  function Put(rows: seq<Role>, r: Role): (rows': seq<Role>)
    ensures |rows'| == |rows|
    ensures forall i | 0 <= i < |rows| :: rows'[i] == if rows[i].id == r.id then r else rows[i]
  {
    seq(|rows|, i requires 0 <= i < |rows| => if rows[i].id == r.id then r else rows[i])
  }

  function DecideParent(rows: seq<Role>, r: Role, parent: Option<int>): Outcome
    requires UniqueIds(rows)
  {
    ChartLinksUnique(rows);
    CanSetParent(r.id, r.key, ChainFrom(ChartLinks(rows), parent), SubtreeHeight(ChartLinks(rows), r.id))
  }

  /** The foreign key on `parentRoleId`. */
  predicate ParentKnown(rows: seq<Role>, parent: Option<int>) {
    parent.None? || Find(rows, parent.value).Some?
  }

  function Attached(rows: seq<Role>, r: Role, parent: Option<int>): Role {
    r.(onChart := true, parent := parent, order := Some(NextOrder(rows, parent)))
  }

  function Attach(rows: seq<Role>, r: Role, parent: Option<int>): (Outcome, seq<Role>)
    requires UniqueIds(rows)
  {
    var decision := DecideParent(rows, r, parent);
    if decision.Refused? then (decision, rows)
    else if !ParentKnown(rows, parent) then (Refused(UnknownParent), rows)
    else (Done, Put(rows, Attached(rows, r, parent)))
  }

  function Add(rows: seq<Role>, id: int, parent: Option<int>): (Outcome, seq<Role>)
    requires UniqueIds(rows)
  {
    match Find(rows, id)
    case None => (Refused(NotFound), rows)
    case Some(r) =>
      if !CanShow(r.key) then (Refused(NotAnOrganigramRole), rows) else Attach(rows, r, parent)
  }

  function SetParent(rows: seq<Role>, id: int, parent: Option<int>): (Outcome, seq<Role>)
    requires UniqueIds(rows)
  {
    match Find(rows, id)
    case None => (Refused(NotFound), rows)
    case Some(r) => if !r.onChart then (Refused(NotOnChart), rows) else Attach(rows, r, parent)
  }

  /** What the create form hands over: the trimmed name and the key it slugifies to, if any. */
  datatype NewRole = NewRole(name: string, collation: int, key: Option<Key>, isSinglePerson: bool)

  function Created(id: int, n: NewRole): Role
    requires n.key.Some?
  {
    Role(id, n.key.value, n.name, n.collation, "", false, n.isSinglePerson, None, None, false)
  }

  function Create(rows: seq<Role>, id: int, n: NewRole): (Outcome, seq<Role>) {
    if n.name == "" || n.key.None? then (Refused(EmptyName), rows)
    else if FindKey(rows, n.key.value).Some? then (Refused(NameTaken), rows)
    else (Done, rows + [Created(id, n)])
  }

  lemma CreateKeepsUnique(rows: seq<Role>, id: int, n: NewRole)
    requires UniqueIds(rows) && Find(rows, id).None?
    ensures UniqueIds(Create(rows, id, n).1)
    ensures UniqueKeys(rows) ==> UniqueKeys(Create(rows, id, n).1)
  {
    assert forall i | 0 <= i < |rows| :: rows[i] in rows;
  }

  /**
   Create and attach: an attach the rules refuse keeps the role that was just created, off the chart; one the foreign
   key refuses aborts the transaction.
   */
  function CreateService(rows: seq<Role>, id: int, n: NewRole, parent: Option<int>): (Outcome, seq<Role>)
    requires UniqueIds(rows) && Find(rows, id).None?
  {
    var created := Create(rows, id, n);
    CreateKeepsUnique(rows, id, n);
    if created.0.Refused? then created
    else
      var attached := Add(created.1, id, parent);
      if attached.0 == Refused(UnknownParent) then (attached.0, rows) else attached
  }

  /** The children of `id` move up to `parent`, and `id` itself leaves the chart. */
  function Lifted(r: Role, id: int, parent: Option<int>): Role {
    if r.id == id then r.(onChart := false, parent := None, order := None)
    else if r.parent == Some(id) then r.(parent := parent)
    else r
  }

  function LiftAll(rows: seq<Role>, id: int, parent: Option<int>): (rows': seq<Role>)
    ensures |rows'| == |rows| && forall i | 0 <= i < |rows| :: rows'[i] == Lifted(rows[i], id, parent)
  {
    seq(|rows|, i requires 0 <= i < |rows| => Lifted(rows[i], id, parent))
  }

  function Remove(rows: seq<Role>, id: int): (Outcome, seq<Role>) {
    match Find(rows, id)
    case None => (Refused(NotFound), rows)
    case Some(r) => if !CanLeave(r.key) then (Refused(FixedPosition), rows) else (Done, LiftAll(rows, id, r.parent))
  }

  function NotId(id: int): Role -> bool { (r: Role) => r.id != id }

  function Delete(rows: seq<Role>, id: int): (Outcome, seq<Role>) {
    match Find(rows, id)
    case None => (Done, rows)
    case Some(r) =>
      if r.isBuiltIn then (Refused(BuiltInUndeletable), rows)
      else if Tree.KidRows(rows, id) != [] then (Refused(HasChildren), rows)
      else (Done, Filter(rows, NotId(id)))
  }

  /** Swap the element at `i` with the next one. */
  function SwapAt<T>(s: seq<T>, i: nat): (r: seq<T>)
    requires i + 1 < |s|
    ensures |r| == |s|
    ensures r[i] == s[i + 1] && r[i + 1] == s[i]
    ensures forall k | 0 <= k < |s| && k != i && k != i + 1 :: r[k] == s[k]
  {
    s[i := s[i + 1]][i + 1 := s[i]]
  }

  /** Where `id` stands in `ids`, or `|ids|` when it does not. */
  function Position(ids: seq<int>, id: int): (k: nat)
    ensures k <= |ids| && (k < |ids| ==> ids[k] == id) && id !in ids[..k] && (k == |ids| ==> id !in ids)
  {
    if ids == [] || ids[0] == id then 0
    else
      var k := 1 + Position(ids[1..], id);
      assert ids[..k] == [ids[0]] + ids[1..][..k - 1];
      k
  }

  datatype Direction = Up | Down

  /** `ids` with `id` exchanged with its neighbour above or below, if there is one. */
  function MoveBy(ids: seq<int>, id: int, d: Direction): (r: seq<int>)
    ensures |r| == |ids|
  {
    var k := Position(ids, id);
    if k == |ids| then ids
    else if d.Up? then if k == 0 then ids else SwapAt(ids, k - 1)
    else if k + 1 == |ids| then ids else SwapAt(ids, k)
  }

  /** Give the listed ids the orders 5, 10, 15, … */
  function Renumber(rows: seq<Role>, ids: seq<int>): (rows': seq<Role>)
    ensures |rows'| == |rows|
    ensures forall i | 0 <= i < |rows| :: rows'[i] == Renumbered(rows[i], ids)
  {
    seq(|rows|, i requires 0 <= i < |rows| => Renumbered(rows[i], ids))
  }

  function Renumbered(r: Role, ids: seq<int>): Role {
    var k := Position(ids, r.id);
    if k < |ids| then r.(order := Some((k + 1) * ORDER_STEP)) else r
  }

  /** The row of siblings as the reorder operation sees it: sorted by order alone. */
  function OrderedSiblings(rows: seq<Role>, parent: Option<int>): seq<int> {
    Ids(Sort(Siblings(rows, parent), OrderRank))
  }

  function Reorder(rows: seq<Role>, id: int, d: Direction): (Outcome, seq<Role>) {
    match Find(rows, id)
    case None => (Refused(NotFound), rows)
    case Some(r) =>
      var ids := OrderedSiblings(rows, r.parent);
      if MoveBy(ids, id, d) == ids then (Done, rows) else (Done, Renumber(rows, MoveBy(ids, id, d)))
  }

  function SetSinglePerson(rows: seq<Role>, id: int, single: bool, titulaires: nat): (Outcome, seq<Role>) {
    match Find(rows, id)
    case None => (Refused(NotFound), rows)
    case Some(r) =>
      if r.isBuiltIn then (Refused(BuiltInShape), rows)
      else if r.isSinglePerson == single then (Done, rows)
      else if single && titulaires > 1 then (Refused(SeveralTitulaires), rows)
      else (Done, Put(rows, r.(isSinglePerson := single)))
  }

  function IdOfKey(rows: seq<Role>, key: Key): Option<int> {
    match FindKey(rows, key) case None => None case Some(r) => Some(r.id)
  }

  /** Where the default chart puts a role: rosters at the top, committee under the elders, posts inside. */
  function Placed(rows: seq<Role>, r: Role): (p: Role)
    ensures p.id == r.id && p.key == r.key && p.isBuiltIn == r.isBuiltIn
  {
    match r.key
    case Elder => r.(onChart := true, parent := None, order := Some(ORDER_STEP))
    case AssistantServant => r.(onChart := true, parent := None, order := Some(2 * ORDER_STEP))
    case Committee => r.(onChart := true, parent := IdOfKey(rows, Elder), order := Some(ORDER_STEP))
    case Coordinator => r.(onChart := true, parent := IdOfKey(rows, Committee), order := Some(ORDER_STEP))
    case Secretary => r.(onChart := true, parent := IdOfKey(rows, Committee), order := Some(2 * ORDER_STEP))
    case ServiceOverseer => r.(onChart := true, parent := IdOfKey(rows, Committee), order := Some(3 * ORDER_STEP))
    case _ => r
  }

  function PlaceDefault(rows: seq<Role>): (rows': seq<Role>)
    ensures |rows'| == |rows|
  {
    if ChartRows(rows) != [] then rows
    else seq(|rows|, i requires 0 <= i < |rows| => Placed(rows, rows[i]))
  }
}
