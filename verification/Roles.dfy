/** Role rows and the pure rules about where a role may stand (role-tree.policy, built-in-roles). */
module Roles {
  import opened Lists

  /** Role keys: the built-in ones by name, every other slug as `Custom`. */
  datatype Key =
    | Member | MinistrySchoolStudent | Publisher | Baptized | Brother | Sister | Anointed
    | Elder | AssistantServant | Pioneer
    | Admin
    | Committee | Coordinator | Secretary | ServiceOverseer
    | Custom(slug: string)

  const POST_KEYS: seq<Key> := [Coordinator, Secretary, ServiceOverseer]

  predicate IsRoster(key: Key) { key.Elder? || key.AssistantServant? }

  predicate IsPost(key: Key) { key.Coordinator? || key.Secretary? || key.ServiceOverseer? }

  predicate IsAppointed(key: Key) { key.Committee? || IsPost(key) }

  predicate IsIdentity(key: Key) { !key.Admin? && !IsAppointed(key) && !key.Custom? }

  /** `BUILT_IN_ROLE_KEYS`, `SYSTEM_ROLE_KEYS` and `APPOINTED_ROLE_KEYS`, in seeding order. */
  const BUILT_IN_KEYS: seq<Key> := [
    Member, MinistrySchoolStudent, Publisher, Baptized, Brother, Sister, Anointed,
    Elder, AssistantServant, Pioneer, Admin, Committee, Coordinator, Secretary, ServiceOverseer]

  predicate IsBuiltInKey(key: Key) { !key.Custom? }

  /**
   A role row. `name` is the display name and `collation` its place in the locale's collation
   order: equal places for names `localeCompare` calls equal.
   */
  datatype Role = Role(
    id: int, key: Key, name: string, collation: int, note: string,
    isBuiltIn: bool, isSinglePerson: bool,
    parent: Option<int>, order: Option<int>, onChart: bool)

  function OrderValue(r: Role): int {
    if r.order.Some? then r.order.value else 0
  }

  /** Order on the chart: by `organigramOrder`, a missing one counting as 0, then by name. */
  function ChartRank(r: Role): Rank { Rank(OrderValue(r), r.collation) }

  /** Order by `organigramOrder` alone, as the reorder operation sorts. */
  function OrderRank(r: Role): Rank { Rank(OrderValue(r), 0) }

  function NameRank(r: Role): Rank { Rank(0, r.collation) }

  ghost predicate UniqueIds(rows: seq<Role>) {
    forall i, j | 0 <= i < j < |rows| :: rows[i].id != rows[j].id
  }

  ghost predicate UniqueKeys(rows: seq<Role>) {
    forall i, j | 0 <= i < j < |rows| :: rows[i].key != rows[j].key
  }

  function Ids(rows: seq<Role>): (ids: seq<int>)
    ensures |ids| == |rows|
    ensures forall i | 0 <= i < |rows| :: ids[i] == rows[i].id
    ensures forall r | r in rows :: r.id in ids
  {
    seq(|rows|, i requires 0 <= i < |rows| => rows[i].id)
  }

  function Find(rows: seq<Role>, id: int): (r: Option<Role>)
    ensures r.Some? ==> r.value in rows && r.value.id == id
    ensures r.None? ==> forall x | x in rows :: x.id != id
  {
    if rows == [] then None
    else if rows[0].id == id then Some(rows[0])
    else Find(rows[1..], id)
  }

  function FindKey(rows: seq<Role>, key: Key): (r: Option<Role>)
    ensures r.Some? ==> r.value in rows && r.value.key == key
    ensures r.None? ==> forall x | x in rows :: x.key != key
  {
    if rows == [] then None
    else if rows[0].key == key then Some(rows[0])
    else FindKey(rows[1..], key)
  }

  lemma SameIdSameRow(rows: seq<Role>, a: Role, b: Role)
    requires UniqueIds(rows) && a in rows && b in rows && a.id == b.id
    ensures a == b
  {
  }

  lemma UniqueIsDistinct(rows: seq<Role>)
    requires UniqueIds(rows)
    ensures Distinct(rows) && Distinct(Ids(rows))
  {
  }

  /** The parent relation as a partial function. */
  ghost function ParentLinks(rows: seq<Role>): map<int, int>
    requires UniqueIds(rows)
  {
    map r | r in rows && r.parent.Some? :: r.id := r.parent.value
  }

  const MAX_DEPTH: int := 10

  datatype Refusal =
    | RosterIsRoot | FixedPosition | ServiceNeedsParent | Cycle | TooDeep | NotAnOrganigramRole
    | NotFound | NotOnChart | UnknownParent | NameTaken | EmptyName
    | BuiltInShape | SeveralTitulaires | BuiltInUndeletable | HasChildren

  datatype Outcome = Done | Refused(why: Refusal)

  /** `assertCanSetParent`: the checks in their order. */
  function CanSetParent(id: int, key: Key, parentChain: seq<int>, height: nat): (o: Outcome) {
    if IsRoster(key) && parentChain != [] then Refused(RosterIsRoot)
    else if IsAppointed(key) then Refused(FixedPosition)
    else if !IsRoster(key) && parentChain == [] then Refused(ServiceNeedsParent)
    else if id in parentChain then Refused(Cycle)
    else if |parentChain| + 1 + height > MAX_DEPTH then Refused(TooDeep)
    else Done
  }

  /** The rosters and every role that is neither identity nor system. */
  predicate CanShow(key: Key) {
    IsRoster(key) || (!IsIdentity(key) && !key.Admin?)
  }

  predicate CanLeave(key: Key) { !IsAppointed(key) }
}
