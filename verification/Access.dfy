/** Seats, permissions and the derived committee on values: what each change decides and leaves. */
module Access {
  import opened Lists
  import opened Roles
  import opened Chart
  import opened Tree

  datatype Permission = CanDoAnything | Capability(name: string)

  /** A seat row is keyed by its user and role. */
  datatype SeatKey = SeatKey(user: int, role: int)

  /** An identity assignment is keyed by the member and the role. */
  datatype IdentityKey = IdentityKey(member: int, role: int)

  /**
   The rows an access decision reads: roles, what each grants, who is seated where, the account of
   each member, the accounts, the identity roles members carry, and the permission catalogue.
   */
  datatype Congregation = Congregation(
    rows: seq<Role>, grants: map<int, set<Permission>>, seats: map<SeatKey, Seat>,
    accountOf: map<int, Option<int>>, accounts: set<int>, identity: set<IdentityKey>, catalogue: set<Permission>)

  function Granted(a: Congregation, role: int): set<Permission> {
    if role in a.grants then a.grants[role] else {}
  }

  /** Path 1: the roles an account is seated in. Path 2: its member's identity roles. */
  function RolesOf(a: Congregation, user: int): set<int> {
    (set s | s in a.seats && s.user == user :: s.role)
    + (set s | s in a.identity && s.member in a.accountOf && a.accountOf[s.member] == Some(user) :: s.role)
  }

  /** The permissions an account's roles grant it, on either path. */
  function GrantedTo(a: Congregation, user: int): set<Permission> {
    set r, p | r in RolesOf(a, user) && p in Granted(a, r) :: p
  }

  /** `resolveEffectivePermissions`: can-do-anything stands for the whole catalogue. */
  function Effective(a: Congregation, user: int): set<Permission> {
    if CanDoAnything in GrantedTo(a, user) then a.catalogue else GrantedTo(a, user)
  }

  predicate IsAdmin(a: Congregation, user: int) {
    user in a.accounts && CanDoAnything in GrantedTo(a, user)
  }

  predicate ActorHolds(actor: set<Permission>, p: Permission) {
    CanDoAnything in actor || p in actor
  }

  /** `assertActorHoldsRolePermissions` */
  predicate HoldsRoles(a: Congregation, actor: set<Permission>, roles: set<int>) {
    CanDoAnything in actor || forall r | r in roles :: Granted(a, r) <= actor
  }

  /** `assertMayChangeAccountAccess` */
  predicate MayChange(a: Congregation, actor: set<Permission>, user: int) {
    CanDoAnything in actor || !IsAdmin(a, user)
  }

  /** `requireNotLastAdmin` */
  predicate NotLastAdmin(a: Congregation, user: int) {
    IsAdmin(a, user) ==> exists other :: other in a.accounts && other != user && IsAdmin(a, other)
  }

  datatype Reason =
    | NoSuchRole | NoSuchMember | NoSuchUser | MemberHasNoAccount | RosterIsSynced | IdentityRole | PersonalRole
    | LeadershipSeat | BeyondActor | LastAdmin | PostRequiresElder | BuiltInRole | SeveralLeaders | RoleHasChildren

  datatype Verdict = Accepted | Denied(why: Reason)

  function PostIds(rows: seq<Role>): set<int> {
    set r | r in rows && IsPost(r.key) :: r.id
  }

  /** The accounts holding the leader seat of a committee post. */
  function Titulaires(a: Congregation): set<int> {
    set s | s in a.seats && a.seats[s] == Leader && s.role in PostIds(a.rows) :: s.user
  }

  /** The committee's members become exactly the posts' titulaires; whoever stays keeps the seat held. */
  function Synced(a: Congregation, committee: int): map<SeatKey, Seat> {
    map s | s in a.seats.Keys + (set u | u in Titulaires(a) :: SeatKey(u, committee))
            && (s.role == committee ==> s.user in Titulaires(a))
         :: if s in a.seats then a.seats[s] else Plain
  }

  /** `syncServiceCommitteeMembers`: without a committee or without posts there is nothing to do. */
  function Sync(a: Congregation): Congregation {
    match IdOfKey(a.rows, Committee)
    case None => a
    case Some(c) => if PostIds(a.rows) == {} then a else a.(seats := Synced(a, c))
  }

  /** The committee is made of its titulaires. */
  ghost predicate InStep(a: Congregation) {
    forall c :: IdOfKey(a.rows, Committee) == Some(c) ==>
      forall u :: SeatKey(u, c) in a.seats <==> u in Titulaires(a)
  }

  /** The roles a seat grants: for a post's titulaire, the committee too. */
  function GrantedBySeat(rows: seq<Role>, r: Role, kind: Seat): set<int> {
    if IsPost(r.key) && kind == Leader && IdOfKey(rows, Committee).Some?
    then {r.id, IdOfKey(rows, Committee).value} else {r.id}
  }

  predicate IsPersonal(r: Role) { r.isSinglePerson || IsPost(r.key) }

  /** On a personal role a plain seat means the titular one. */
  function SeatKindOn(r: Role, kind: Seat): Seat {
    if IsPersonal(r) && kind != Deputy then Leader else kind
  }

  predicate IsElder(a: Congregation, member: int) {
    exists s :: s in a.identity && s.member == member
                && Find(a.rows, s.role).Some? && Find(a.rows, s.role).value.key.Elder?
  }

  /** The titulaires a new one unseats. */
  function Outgoing(a: Congregation, role: int, user: int): set<int> {
    set s | s in a.seats && s.role == role && s.user != user && a.seats[s] == Leader :: s.user
  }

  function Seated(seats: map<SeatKey, Seat>, r: Role, user: int, kind: Seat): map<SeatKey, Seat> {
    var put := seats[SeatKey(user, r.id) := kind];
    if IsPersonal(r) && kind == Leader then
      map s | s in put && (s.role == r.id && s.user != user ==> put[s] != Leader) :: put[s]
    else put
  }

  /** The role and account a seat request names, or why there is none. */
  function SeatTarget(a: Congregation, role: int, member: int): (Verdict, Option<(Role, int)>) {
    match Find(a.rows, role)
    case None => (Denied(NoSuchRole), None)
    case Some(r) =>
      if member !in a.accountOf then (Denied(NoSuchMember), None)
      else match a.accountOf[member]
           case None => (Denied(MemberHasNoAccount), None)
           case Some(u) => (Accepted, Some((r, u)))
  }

  function DecideSeat(a: Congregation, r: Role, member: int, user: int, kind: Seat, actor: set<Permission>): Verdict {
    if !MayChange(a, actor, user) || !HoldsRoles(a, actor, GrantedBySeat(a.rows, r, kind)) then Denied(BeyondActor)
    else if IsPersonal(r) && kind == Leader && exists w :: w in Outgoing(a, r.id, user) && !MayChange(a, actor, w) then
      Denied(BeyondActor)
    else if IsPersonal(r) && kind == Leader && CanDoAnything in Granted(a, r.id)
            && exists w :: w in Outgoing(a, r.id, user) && !NotLastAdmin(a, w) then
      Denied(LastAdmin)
    else if IsPost(r.key) && kind == Leader && !IsElder(a, member) then Denied(PostRequiresElder)
    else Accepted
  }

  function SeatMember(a: Congregation, role: int, member: int, kind: Seat, actor: set<Permission>)
    : (Verdict, Congregation)
  {
    if Find(a.rows, role).Some? && IsIdentity(Find(a.rows, role).value.key) then (Denied(RosterIsSynced), a)
    else
      match SeatTarget(a, role, member)
      case (Denied(why), _) => (Denied(why), a)
      case (Accepted, None) => (Accepted, a)
      case (Accepted, Some((r, u))) =>
        var seatKind := SeatKindOn(r, kind);
        var decision := DecideSeat(a, r, member, u, seatKind, actor);
        if decision.Denied? then (decision, a)
        else
          var b := a.(seats := Seated(a.seats, r, u, seatKind));
          (Accepted, if IsPost(r.key) then Sync(b) else b)
  }

  function UnseatMember(a: Congregation, role: int, member: int, actor: set<Permission>): (Verdict, Congregation) {
    match SeatTarget(a, role, member)
    case (Denied(why), _) => (Denied(why), a)
    case (Accepted, None) => (Accepted, a)
    case (Accepted, Some((r, u))) =>
      if !MayChange(a, actor, u) || !HoldsRoles(a, actor, GrantedBySeat(a.rows, r, Leader))
        then (Denied(BeyondActor), a)
      else if CanDoAnything in Granted(a, role) && !NotLastAdmin(a, u) then (Denied(LastAdmin), a)
      else
        var b := a.(seats := a.seats - {SeatKey(u, role)});
        (Accepted, if IsPost(r.key) then Sync(b) else b)
  }

  function AddUser(a: Congregation, user: int, role: int, actor: set<Permission>): (Verdict, Congregation) {
    match Find(a.rows, role)
    case None => (Accepted, a)
    case Some(r) =>
      if IsIdentity(r.key) then (Denied(IdentityRole), a)
      else if r.isSinglePerson then (Denied(PersonalRole), a)
      else if SeatKey(user, role) in a.seats then (Accepted, a)
      else if !MayChange(a, actor, user) || !HoldsRoles(a, actor, {role}) then (Denied(BeyondActor), a)
      else if user !in a.accounts then (Denied(NoSuchUser), a)
      else (Accepted, a.(seats := a.seats[SeatKey(user, role) := Plain]))
  }

  function RemoveUser(a: Congregation, user: int, role: int, actor: set<Permission>): (Verdict, Congregation) {
    match Find(a.rows, role)
    case None => (Accepted, a)
    case Some(r) =>
      if IsIdentity(r.key) then (Denied(IdentityRole), a)
      else if SeatKey(user, role) !in a.seats then (Accepted, a)
      else if a.seats[SeatKey(user, role)] != Plain then (Denied(LeadershipSeat), a)
      else if !MayChange(a, actor, user) || !HoldsRoles(a, actor, {role}) then (Denied(BeyondActor), a)
      else if CanDoAnything in Granted(a, role) && !NotLastAdmin(a, user) then (Denied(LastAdmin), a)
      else (Accepted, a.(seats := a.seats - {SeatKey(user, role)}))
  }

  /** Custom group roles and the system role: what the account form edits. */
  predicate Assignable(r: Role) {
    !r.isSinglePerson && (!r.isBuiltIn || r.key.Admin?)
  }

  function AssignableIds(rows: seq<Role>): set<int> {
    set r | r in rows && Assignable(r) :: r.id
  }

  /** The account form's two sides, both filtered alike: what to add and what to take away. */
  function AddedRoles(a: Congregation, user: int, wanted: set<int>): set<int> {
    set r | r in wanted * AssignableIds(a.rows) && SeatKey(user, r) !in a.seats
  }

  function RemovedRoles(a: Congregation, user: int, wanted: set<int>): set<int> {
    set r | r in AssignableIds(a.rows) && SeatKey(user, r) in a.seats && r !in wanted
  }

  function Reassigned(seats: map<SeatKey, Seat>, user: int, added: set<int>, removed: set<int>): map<SeatKey, Seat> {
    map s | s in seats.Keys + (set r | r in added :: SeatKey(user, r)) && !(s.user == user && s.role in removed)
         :: if s.user == user && s.role in added then Plain else seats[s]
  }

  function SetCustomRoles(a: Congregation, user: int, wanted: set<int>, actor: set<Permission>)
    : (Verdict, Congregation)
  {
    var added, removed := AddedRoles(a, user, wanted), RemovedRoles(a, user, wanted);
    if added == {} && removed == {} then (Accepted, a)
    else if !MayChange(a, actor, user) || !HoldsRoles(a, actor, added + removed) then (Denied(BeyondActor), a)
    else if (exists r :: r in removed && CanDoAnything in Granted(a, r)) && !NotLastAdmin(a, user)
      then (Denied(LastAdmin), a)
    else if added != {} && user !in a.accounts then (Denied(NoSuchUser), a)
    else (Accepted, a.(seats := Reassigned(a.seats, user, added, removed)))
  }

  function Leaders(a: Congregation, role: int): set<int> {
    set s | s in a.seats && s.role == role && a.seats[s] == Leader :: s.user
  }

  /** The change of shape, with the titulaires counted among the seats. */
  function SetSingle(a: Congregation, role: int, single: bool): (Verdict, Congregation) {
    var (outcome, rows) := SetSinglePerson(a.rows, role, single, |Leaders(a, role)|);
    match outcome
    case Done => (Accepted, a.(rows := rows))
    case Refused(BuiltInShape) => (Denied(BuiltInRole), a)
    case Refused(SeveralTitulaires) => (Denied(SeveralLeaders), a)
    case Refused(_) => (Denied(NoSuchRole), a)
  }

  /** Deleting a role takes its seats, its assignments and its grants with it. */
  function DeleteRole(a: Congregation, role: int): (Verdict, Congregation) {
    if Find(a.rows, role).None? then (Accepted, a)
    else
      var (outcome, rows) := Delete(a.rows, role);
      match outcome
      case Done => (Accepted, WithoutRole(a, rows, role))
      case Refused(BuiltInUndeletable) => (Denied(BuiltInRole), a)
      case Refused(_) => (Denied(RoleHasChildren), a)
  }

  function WithoutRole(a: Congregation, rows: seq<Role>, role: int): Congregation {
    a.(rows := rows, grants := a.grants - {role},
       seats := map s | s in a.seats && s.role != role :: a.seats[s],
       identity := set s | s in a.identity && s.role != role)
  }

  /** Keys outside the permission table are dropped when added. */
  function UpdatePermissions(a: Congregation, role: int, wanted: set<Permission>, table: set<Permission>,
      actor: set<Permission>)
    : (Verdict, Congregation)
  {
    match Find(a.rows, role)
    case None => (Accepted, a)
    case Some(r) =>
      var previous := Granted(a, role);
      var changed := (wanted - previous) + (previous - wanted);
      if changed == {} then (Accepted, a)
      else if (r.isBuiltIn || !(changed <= actor)) && CanDoAnything !in actor then (Denied(BeyondActor), a)
      else
        var now := previous - (previous - wanted) * table + (wanted - previous) * table;
        (Accepted, a.(grants := a.grants[role := now]))
  }
}
