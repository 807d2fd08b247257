/** The last administrator: exactly which accepted requests leave a congregation without one. */
module LastAdmins {
  import opened Lists
  import opened Roles
  import opened Chart
  import opened Tree
  import opened Access
  import opened Seats
  import opened Delegation

  ghost predicate HasAdmin(a: Congregation) {
    exists u :: IsAdmin(a, u)
  }

  /** The seat makes its account an administrator. */
  predicate AdminSeat(a: Congregation, s: SeatKey) {
    s in a.seats && s.user in a.accounts && CanDoAnything in Granted(a, s.role)
  }

  /** The identity role makes its member's account an administrator. */
  predicate AdminIdentity(a: Congregation, s: IdentityKey) {
    && s in a.identity && s.member in a.accountOf && a.accountOf[s.member].Some?
    && a.accountOf[s.member].value in a.accounts && CanDoAnything in Granted(a, s.role)
  }

  /** A member's account exists. */
  ghost predicate AccountsExist(a: Congregation) {
    forall m | m in a.accountOf && a.accountOf[m].Some? :: a.accountOf[m].value in a.accounts
  }

  lemma SeatMakesAdmin(a: Congregation, s: SeatKey)
    requires AdminSeat(a, s)
    ensures IsAdmin(a, s.user)
  {
    assert s.role in RolesOf(a, s.user);
  }

  lemma IdentityMakesAdmin(a: Congregation, s: IdentityKey)
    requires AdminIdentity(a, s)
    ensures HasAdmin(a)
  {
    assert s.role in RolesOf(a, a.accountOf[s.member].value);
    assert IsAdmin(a, a.accountOf[s.member].value);
  }

  lemma AdminBySeatOrIdentity(a: Congregation, u: int)
    requires IsAdmin(a, u)
    ensures (exists s :: AdminSeat(a, s) && s.user == u)
         || (exists s :: AdminIdentity(a, s) && a.accountOf[s.member] == Some(u))
  {
    var r :| r in RolesOf(a, u) && CanDoAnything in Granted(a, r);
    if SeatKey(u, r) in a.seats {
      assert AdminSeat(a, SeatKey(u, r));
    } else {
      var s :| s in a.identity && s.member in a.accountOf && a.accountOf[s.member] == Some(u) && s.role == r;
      assert AdminIdentity(a, s);
    }
  }

  // ----- requests that keep an administrator -----

  /** Only seats changed. */
  ghost predicate OnlySeats(a: Congregation, b: Congregation) {
    b == a.(seats := b.seats)
  }

  lemma AdminSeatsStay(a: Congregation, b: Congregation)
    requires OnlySeats(a, b) && HasAdmin(a) && forall s | AdminSeat(a, s) :: s in b.seats
    ensures HasAdmin(b)
  {
    var u :| IsAdmin(a, u);
    AdminBySeatOrIdentity(a, u);
    if s :| AdminSeat(a, s) {
      SeatMakesAdmin(b, s);
    } else {
      var s :| AdminIdentity(a, s);
      assert AdminIdentity(b, s);
      IdentityMakesAdmin(b, s);
    }
  }

  /** Where the last-administrator check passes for the one account that loses seats, an administrator stays. */
  lemma OthersStay(a: Congregation, b: Congregation, u: int)
    requires OnlySeats(a, b) && HasAdmin(a) && NotLastAdmin(a, u)
    requires forall s: SeatKey | s.user != u && s in a.seats :: s in b.seats
    ensures HasAdmin(b)
  {
    var w :| IsAdmin(a, w) && w != u;
    AdminBySeatOrIdentity(a, w);
    if s :| AdminSeat(a, s) && s.user == w {
      SeatMakesAdmin(b, s);
    } else {
      var s :| AdminIdentity(a, s);
      assert AdminIdentity(b, s);
      IdentityMakesAdmin(b, s);
    }
  }

  lemma MembershipKeepsAdmin(a: Congregation, user: int, role: int, actor: set<Permission>)
    requires HasAdmin(a)
    ensures HasAdmin(AddUser(a, user, role, actor).1) && HasAdmin(RemoveUser(a, user, role, actor).1)
  {
    AdminSeatsStay(a, AddUser(a, user, role, actor).1);
    if CanDoAnything in Granted(a, role) && RemoveUser(a, user, role, actor).1 != a {
      OthersStay(a, RemoveUser(a, user, role, actor).1, user);
    } else {
      AdminSeatsStay(a, RemoveUser(a, user, role, actor).1);
    }
  }

  lemma FormKeepsAdmin(a: Congregation, user: int, wanted: set<int>, actor: set<Permission>)
    requires HasAdmin(a)
    ensures HasAdmin(SetCustomRoles(a, user, wanted, actor).1)
  {
    var b := SetCustomRoles(a, user, wanted, actor).1;
    if b != a && exists r :: r in RemovedRoles(a, user, wanted) && CanDoAnything in Granted(a, r) {
      OthersStay(a, b, user);
    } else {
      AdminSeatsStay(a, b);
    }
  }

  lemma ShapeKeepsAdmin(a: Congregation, role: int, single: bool)
    requires HasAdmin(a)
    ensures HasAdmin(SetSingle(a, role, single).1)
  {
    var u :| IsAdmin(a, u);
    var b := SetSingle(a, role, single).1;
    assert RolesOf(b, u) == RolesOf(a, u);
    var r :| r in RolesOf(a, u) && CanDoAnything in Granted(a, r);
    assert r in RolesOf(b, u) && CanDoAnything in Granted(b, r);
    assert IsAdmin(b, u);
  }

  // ----- requests that can take the last one away -----

  /** No other role makes anyone an administrator. */
  ghost predicate OnlyThrough(a: Congregation, role: int) {
    && (forall s | AdminSeat(a, s) :: s.role == role)
    && (forall s | AdminIdentity(a, s) :: s.role == role)
  }

  /** The other roles that made administrators still do, and the role itself no longer does. */
  lemma RoleAloneMatters(a: Congregation, b: Congregation, role: int)
    requires HasAdmin(a) && b.accounts == a.accounts && b.accountOf == a.accountOf
    requires forall s :: AdminSeat(b, s) <==> AdminSeat(a, s) && s.role != role
    requires forall s :: AdminIdentity(b, s) <==> AdminIdentity(a, s) && s.role != role
    ensures !HasAdmin(b) <==> OnlyThrough(a, role)
  {
    if HasAdmin(b) {
      var u :| IsAdmin(b, u);
      AdminBySeatOrIdentity(b, u);
    }
    if s :| AdminSeat(a, s) && s.role != role { SeatMakesAdmin(b, s); }
    if s :| AdminIdentity(a, s) && s.role != role { IdentityMakesAdmin(b, s); }
  }

  lemma DeletionLocksOutIff(a: Congregation, role: int)
    requires HasAdmin(a) && DeleteRole(a, role).0.Accepted?
    ensures !HasAdmin(DeleteRole(a, role).1) <==> Find(a.rows, role).Some? && OnlyThrough(a, role)
  {
    if Find(a.rows, role).Some? {
      RoleAloneMatters(a, DeleteRole(a, role).1, role);
    }
  }

  lemma PermissionsLockOutIff(a: Congregation, role: int, keys: set<Permission>, table: set<Permission>,
      actor: set<Permission>)
    requires HasAdmin(a) && UpdatePermissions(a, role, keys, table, actor).0.Accepted?
    ensures !HasAdmin(UpdatePermissions(a, role, keys, table, actor).1)
       <==> Find(a.rows, role).Some? && CanDoAnything in table - keys && OnlyThrough(a, role)
  {
    var b := UpdatePermissions(a, role, keys, table, actor).1;
    if CanDoAnything in Granted(a, role) && CanDoAnything !in Granted(b, role) {
      RoleAloneMatters(a, b, role);
    } else {
      GrantsKeepAdmin(a, b);
      if CanDoAnything !in Granted(a, role) { NotOnlyThrough(a, role); }
    }
  }

  lemma GrantsKeepAdmin(a: Congregation, b: Congregation)
    requires HasAdmin(a) && b == a.(grants := b.grants)
    requires forall r | CanDoAnything in Granted(a, r) :: CanDoAnything in Granted(b, r)
    ensures HasAdmin(b)
  {
    var u :| IsAdmin(a, u);
    var r :| r in RolesOf(a, u) && CanDoAnything in Granted(a, r);
    assert RolesOf(b, u) == RolesOf(a, u);
    assert r in RolesOf(b, u) && CanDoAnything in Granted(b, r);
    assert IsAdmin(b, u);
  }

  lemma NotOnlyThrough(a: Congregation, role: int)
    requires HasAdmin(a) && CanDoAnything !in Granted(a, role)
    ensures !OnlyThrough(a, role)
  {
    var u :| IsAdmin(a, u);
    AdminBySeatOrIdentity(a, u);
  }

  // ----- seats on a post, and the committee behind them -----

  /**
   All administrators are so by a committee seat, or by the seat given up, and once the account gives up leading the
   post no titulaire with an account is left for the reconcile to keep.
   */
  ghost predicate CommitteeEmpties(a: Congregation, c: int, role: int, u: int, left: set<SeatKey>) {
    && TitulairesWithout(a, role, u) * a.accounts == {}
    && (forall s | AdminSeat(a, s) :: s.role == c || s in left)
    && (forall s :: !AdminIdentity(a, s))
  }

  /** What a request on a post must be for the last administrator to go with it. */
  ghost predicate PostLocksOut(a: Congregation, role: int, member: int, unseat: bool) {
    match SeatTarget(a, role, member)
    case (Accepted, Some((r, u))) =>
      && IsPost(r.key) && IdOfKey(a.rows, Committee).Some? && (!unseat ==> CanDoAnything !in Granted(a, role))
      && CommitteeEmpties(a, IdOfKey(a.rows, Committee).value, role, u, if unseat then {SeatKey(u, role)} else {})
    case _ => false
  }

  /** What makes an administrator after the reconcile: a seat off the committee, an identity role, or leading a post. */
  ghost predicate KeptByReconcile(b: Congregation, c: int) {
    || (exists s :: AdminSeat(b, s) && s.role != c) || (exists s :: AdminIdentity(b, s))
    || (CanDoAnything in Granted(b, c) && Titulaires(b) * b.accounts != {})
  }

  lemma CommitteeSeats(b: Congregation, c: int)
    requires KeyedRows(b.rows) && IdOfKey(b.rows, Committee) == Some(c) && PostIds(b.rows) != {}
    ensures OnlySeats(b, Sync(b)) && forall u :: SeatKey(u, c) in Sync(b).seats <==> u in Titulaires(b)
    ensures forall s: SeatKey | s.role != c :: s in Sync(b).seats <==> s in b.seats
  {
    SyncEffect(b);
  }

  lemma ReconciledIsKept(b: Congregation, d: Congregation, c: int)
    requires OnlySeats(b, d) && forall u :: SeatKey(u, c) in d.seats <==> u in Titulaires(b)
    requires forall s: SeatKey | s.role != c :: s in d.seats <==> s in b.seats
    requires HasAdmin(d)
    ensures KeptByReconcile(b, c)
  {
    var u :| IsAdmin(d, u);
    AdminBySeatOrIdentity(d, u);
    if s :| AdminSeat(d, s) {
      if s.role != c {
        assert AdminSeat(b, s);
      } else {
        assert SeatKey(s.user, c) == s && s.user in Titulaires(b) * b.accounts;
      }
    } else {
      var s :| AdminIdentity(d, s);
      assert AdminIdentity(b, s);
    }
  }

  lemma KeptIsAdmin(b: Congregation, d: Congregation, c: int)
    requires OnlySeats(b, d) && forall u :: SeatKey(u, c) in d.seats <==> u in Titulaires(b)
    requires forall s: SeatKey | s.role != c :: s in d.seats <==> s in b.seats
    requires KeptByReconcile(b, c)
    ensures HasAdmin(d)
  {
    if s :| AdminSeat(b, s) && s.role != c {
      SeatMakesAdmin(d, s);
    } else if s :| AdminIdentity(b, s) {
      assert AdminIdentity(d, s);
      IdentityMakesAdmin(d, s);
    } else {
      var u :| u in Titulaires(b) * b.accounts;
      SeatMakesAdmin(d, SeatKey(u, c));
    }
  }

  lemma ReconciledAdmins(b: Congregation, c: int)
    requires KeyedRows(b.rows) && IdOfKey(b.rows, Committee) == Some(c) && PostIds(b.rows) != {}
    ensures HasAdmin(Sync(b)) <==> KeptByReconcile(b, c)
  {
    CommitteeSeats(b, c);
    if HasAdmin(Sync(b)) { ReconciledIsKept(b, Sync(b), c); }
    if KeptByReconcile(b, c) { KeptIsAdmin(b, Sync(b), c); }
  }

  lemma CommitteeGrants(b: Congregation, c: int)
    requires HasAdmin(b)
    ensures (exists s :: AdminSeat(b, s) && s.role != c) || (exists s :: AdminIdentity(b, s))
         || CanDoAnything in Granted(b, c)
  {
    var u :| IsAdmin(b, u);
    AdminBySeatOrIdentity(b, u);
  }

  /** With an administrator before the reconcile, none is left after it exactly when the committee empties. */
  lemma EmptiedIff(a: Congregation, b: Congregation, c: int, role: int, u: int, left: set<SeatKey>)
    requires HasAdmin(b) && b.grants == a.grants && b.accounts == a.accounts
    requires Titulaires(b) == TitulairesWithout(a, role, u)
    requires forall s :: AdminSeat(b, s) <==> AdminSeat(a, s) && s !in left
    requires forall s :: AdminIdentity(b, s) <==> AdminIdentity(a, s)
    ensures !KeptByReconcile(b, c) <==> CommitteeEmpties(a, c, role, u, left)
  {
    CommitteeGrants(b, c);
  }

  lemma UnseatLocksOutIff(a: Congregation, role: int, member: int, actor: set<Permission>)
    requires KeyedRows(a.rows) && HasAdmin(a) && UnseatMember(a, role, member, actor).0.Accepted?
    ensures !HasAdmin(UnseatMember(a, role, member, actor).1) <==> PostLocksOut(a, role, member, true)
  {
    var (r, u) := SeatTarget(a, role, member).1.value;
    var b := a.(seats := a.seats - {SeatKey(u, role)});
    PostRow(a.rows, role);
    if CanDoAnything in Granted(a, role) {
      OthersStay(a, b, u);
    } else {
      AdminSeatsStay(a, b);
    }
    if IsPost(r.key) && IdOfKey(a.rows, Committee).Some? {
      UnseatedReconciled(a, b, role, u, IdOfKey(a.rows, Committee).value);
    }
  }

  lemma UnseatedReconciled(a: Congregation, b: Congregation, role: int, u: int, c: int)
    requires KeyedRows(a.rows) && IdOfKey(a.rows, Committee) == Some(c) && role in PostIds(a.rows)
    requires b == a.(seats := a.seats - {SeatKey(u, role)}) && HasAdmin(b)
    ensures !HasAdmin(Sync(b)) <==> CommitteeEmpties(a, c, role, u, {SeatKey(u, role)})
  {
    CommitteeIsNoPost(a.rows, c);
    ReconciledAdmins(b, c);
    assert Titulaires(b) == TitulairesWithout(a, role, u);
    SameAdmins(a, b, {SeatKey(u, role)});
    EmptiedIff(a, b, c, role, u, {SeatKey(u, role)});
  }

  /** The administrators' seats are those of before, less the seats left. */
  lemma SameAdmins(a: Congregation, b: Congregation, left: set<SeatKey>)
    requires OnlySeats(a, b)
    requires forall s: SeatKey | CanDoAnything in Granted(a, s.role) :: s in b.seats <==> s in a.seats && s !in left
    ensures forall s :: AdminSeat(b, s) <==> AdminSeat(a, s) && s !in left
    ensures forall s :: AdminIdentity(b, s) <==> AdminIdentity(a, s)
  {
  }

  lemma SeatLocksOutIff(a: Congregation, role: int, member: int, kind: Seat, actor: set<Permission>)
    requires KeyedRows(a.rows) && AccountsExist(a) && HasAdmin(a)
    requires SeatMember(a, role, member, kind, actor).0.Accepted?
    ensures !HasAdmin(SeatMember(a, role, member, kind, actor).1)
       <==> kind.Deputy? && PostLocksOut(a, role, member, false)
  {
    var (r, u) := SeatTarget(a, role, member).1.value;
    var k := SeatKindOn(r, kind);
    var b := a.(seats := Seated(a.seats, r, u, k));
    PostRow(a.rows, role);
    if CanDoAnything in Granted(a, role) {
      SeatMakesAdmin(b, SeatKey(u, role));
      if IsPost(r.key) {
        SeatStaysThroughSync(b, SeatKey(u, role));
      }
    } else {
      AdminSeatsStay(a, b);
      if IsPost(r.key) && IdOfKey(a.rows, Committee).Some? {
        SeatedReconciled(a, b, r, u, k, IdOfKey(a.rows, Committee).value);
      }
    }
  }

  lemma SeatStaysThroughSync(b: Congregation, s: SeatKey)
    requires KeyedRows(b.rows) && AdminSeat(b, s) && s.role in PostIds(b.rows)
    ensures HasAdmin(Sync(b))
  {
    SyncEffect(b);
    if IdOfKey(b.rows, Committee).Some? { CommitteeIsNoPost(b.rows, IdOfKey(b.rows, Committee).value); }
    SeatMakesAdmin(Sync(b), s);
  }

  lemma SeatedReconciled(a: Congregation, b: Congregation, r: Role, u: int, k: Seat, c: int)
    requires KeyedRows(a.rows) && IdOfKey(a.rows, Committee) == Some(c) && r in a.rows && IsPost(r.key)
    requires u in a.accounts && (k.Leader? || k.Deputy?) && CanDoAnything !in Granted(a, r.id)
    requires b == a.(seats := Seated(a.seats, r, u, k)) && HasAdmin(b)
    ensures !HasAdmin(Sync(b)) <==> k.Deputy? && CommitteeEmpties(a, c, r.id, u, {})
  {
    CommitteeIsNoPost(a.rows, c);
    assert r.id in PostIds(a.rows);
    ReconciledAdmins(b, c);
    if k.Leader? {
      assert SeatKey(u, r.id) in b.seats && u in Titulaires(b) * b.accounts;
      CommitteeGrants(b, c);
    } else {
      LeftTitulaires(a, r, u);
      SeatedElsewhere(a.seats, r, u, k);
      SameAdmins(a, b, {});
      EmptiedIff(a, b, c, r.id, u, {});
    }
  }

  lemma SeatedElsewhere(seats: map<SeatKey, Seat>, r: Role, u: int, k: Seat)
    ensures forall s: SeatKey | s.role != r.id :: s in Seated(seats, r, u, k) <==> s in seats
  {
  }

  // ----- every request -----

  /** Checked before the call: the request takes the last administrator away. */
  ghost predicate LocksOut(a: Congregation, op: Op) {
    match op
    case OpSeat(role, member, kind) => kind.Deputy? && PostLocksOut(a, role, member, false)
    case OpUnseat(role, member) => PostLocksOut(a, role, member, true)
    case OpPermissions(role, keys, table) =>
      Find(a.rows, role).Some? && CanDoAnything in table - keys && OnlyThrough(a, role)
    case OpDelete(role) => Find(a.rows, role).Some? && OnlyThrough(a, role)
    case _ => false
  }

  /**
   An accepted request leaves a congregation without an administrator exactly when it empties, through a post, the
   committee all of them sit on; or strips or deletes the one role that makes them all administrators. The role matrix,
   the account form and the change of shape never do.
   */
  lemma LastAdminGoesIff(a: Congregation, op: Op, actor: set<Permission>)
    requires KeyedRows(a.rows) && AccountsExist(a) && HasAdmin(a) && Step(a, op, actor).0.Accepted?
    ensures !HasAdmin(Step(a, op, actor).1) <==> LocksOut(a, op)
  {
    match op
    case OpSeat(role, member, kind) => SeatLocksOutIff(a, role, member, kind, actor);
    case OpUnseat(role, member) => UnseatLocksOutIff(a, role, member, actor);
    case OpAdd(user, role) => MembershipKeepsAdmin(a, user, role, actor);
    case OpRemove(user, role) => MembershipKeepsAdmin(a, user, role, actor);
    case OpSetCustom(user, wanted) => FormKeepsAdmin(a, user, wanted, actor);
    case OpSetSingle(role, single) => ShapeKeepsAdmin(a, role, single);
    case OpPermissions(role, keys, table) => PermissionsLockOutIff(a, role, keys, table, actor);
    case OpDelete(role) => DeletionLocksOutIff(a, role);
  }

  lemma CoordinatedAdmin(a: Congregation, grants: map<int, set<Permission>>)
    requires a == Coordinated().(grants := grants) && grants == map[1 := {CanDoAnything}]
    ensures KeyedRows(a.rows) && InStep(a) && SeatTarget(a, 2, 5) == (Accepted, Some((COORDINATOR_ROW, 7)))
    ensures IdOfKey(a.rows, Committee) == Some(1) && TitulairesWithout(a, 2, 7) == {}
    ensures forall s | AdminSeat(a, s) :: s.role == 1
  {
    CoordinatedRows(Coordinated());
    CoordinatedSeats(Coordinated());
    SyncIgnoresGrants(Coordinated(), grants);
    assert TitulairesWithout(a, 2, 7) == TitulairesWithout(Coordinated(), 2, 7);
  }

  /** Where the post itself grants no such thing, no check stands in an administrator's way. */
  lemma AdminUnseatsFreely(a: Congregation, role: int, member: int)
    requires SeatTarget(a, role, member).0.Accepted? && CanDoAnything !in Granted(a, role)
    ensures UnseatMember(a, role, member, {CanDoAnything}).0.Accepted?
  {
  }

  /** The committee grants can-do-anything and only its coordinator sits on it: unseating them is accepted. */
  lemma TheLastAdminIsUnseated(a: Congregation, grants: map<int, set<Permission>>)
    requires a == Coordinated().(grants := grants) && grants == map[1 := {CanDoAnything}]
    ensures KeyedRows(a.rows) && AccountsExist(a) && InStep(a) && HasAdmin(a)
    ensures UnseatMember(a, 2, 5, {CanDoAnything}).0.Accepted?
    ensures !HasAdmin(UnseatMember(a, 2, 5, {CanDoAnything}).1)
  {
    CoordinatedAdmin(a, grants);
    assert AdminSeat(a, SeatKey(7, 1));
    SeatMakesAdmin(a, SeatKey(7, 1));
    AdminUnseatsFreely(a, 2, 5);
    UnseatLocksOutIff(a, 2, 5, {CanDoAnything});
  }
}
