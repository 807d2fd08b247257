/** Nobody hands out or takes away more than they hold, and exactly when a seating or a deletion escapes that rule. */
module Delegation {
  import opened Lists
  import opened Roles
  import opened Chart
  import opened Tree
  import opened Access
  import opened Seats

  function CommitteeMembers(a: Congregation, c: int): set<int> {
    set s | s in a.seats && s.role == c :: s.user
  }

  /** The titulaires, but for the leader seat `user` has on `role`. */
  function TitulairesWithout(a: Congregation, role: int, user: int): set<int> {
    set s | s in a.seats && a.seats[s] == Leader && s.role in PostIds(a.rows) && s != SeatKey(user, role) :: s.user
  }

  /**
   A seat request whose reconcile nobody checks: an adjoint's on a post, when the committee's members are not the
   titulaires that are left once the account gives up that post's leader seat.
   */
  predicate SilentReconcile(a: Congregation, role: int, member: int, kind: Seat) {
    match SeatTarget(a, role, member)
    case (Accepted, Some((r, u))) =>
      && IsPost(r.key) && kind == Deputy && IdOfKey(a.rows, Committee).Some?
      && CommitteeMembers(a, IdOfKey(a.rows, Committee).value) != TitulairesWithout(a, role, u)
    case _ => false
  }

  /** The reconcile changes whether `w` sits on the committee. */
  ghost predicate CommitteeMoves(b: Congregation, c: int, w: int) {
    IdOfKey(b.rows, Committee) == Some(c) && (SeatKey(w, c) in b.seats) != (SeatKey(w, c) in Sync(b).seats)
  }

  lemma LeftTitulaires(a: Congregation, r: Role, u: int)
    requires UniqueIds(a.rows) && r in a.rows && IsPost(r.key)
    ensures Titulaires(a.(seats := Seated(a.seats, r, u, Deputy))) == TitulairesWithout(a, r.id, u)
  {
    var b := a.(seats := Seated(a.seats, r, u, Deputy));
    assert forall s | s in b.seats && b.seats[s] == Leader ::
                    s != SeatKey(u, r.id) && s in a.seats && a.seats[s] == Leader;
    assert forall s | s in a.seats && a.seats[s] == Leader && s != SeatKey(u, r.id) ::
                    s in b.seats && b.seats[s] == Leader;
  }

  /** A request reconciles silently exactly when the reconcile that follows it moves someone on or off the committee. */
  lemma SilentMoves(a: Congregation, role: int, member: int, kind: Seat)
    requires KeyedRows(a.rows) && SeatTarget(a, role, member).0.Accepted?
    ensures var (r, u) := SeatTarget(a, role, member).1.value;
            SilentReconcile(a, role, member, kind) <==>
              IsPost(r.key) && kind == Deputy &&
              exists c, w :: CommitteeMoves(a.(seats := Seated(a.seats, r, u, Deputy)), c, w)
  {
    var (r, u) := SeatTarget(a, role, member).1.value;
    if IsPost(r.key) && kind == Deputy {
      var b := a.(seats := Seated(a.seats, r, u, Deputy));
      LeftTitulaires(a, r, u);
      assert r.id in PostIds(a.rows);
      if IdOfKey(a.rows, Committee).Some? {
        MembersMove(a, b, r, IdOfKey(a.rows, Committee).value);
      }
    }
  }

  lemma MembersMove(a: Congregation, b: Congregation, r: Role, c: int)
    requires KeyedRows(a.rows) && b == a.(seats := b.seats) && IdOfKey(a.rows, Committee) == Some(c)
    requires r.id in PostIds(a.rows) && forall s: SeatKey | s.role != r.id :: s in a.seats <==> s in b.seats
    ensures CommitteeMembers(a, c) != Titulaires(b) <==> exists w :: CommitteeMoves(b, c, w)
  {
    SyncEffect(b);
    CommitteeIsNoPost(a.rows, c);
    forall w ensures CommitteeMoves(b, c, w) <==> (w in CommitteeMembers(a, c)) != (w in Titulaires(b)) {
      assert SeatKey(w, c) in a.seats <==> SeatKey(w, c) in b.seats;
      assert SeatKey(w, c) in Sync(b).seats <==> w in Titulaires(Sync(b));
    }
    if CommitteeMembers(a, c) != Titulaires(b) {
      var w :| (w in CommitteeMembers(a, c)) != (w in Titulaires(b));
      assert CommitteeMoves(b, c, w);
    }
  }

  lemma SeatIsBounded(a: Congregation, role: int, member: int, kind: Seat, actor: set<Permission>)
    requires KeyedRows(a.rows) && SeatMember(a, role, member, kind, actor).0.Accepted?
    requires !SilentReconcile(a, role, member, kind)
    ensures Bounded(a, SeatMember(a, role, member, kind, actor).1, actor)
  {
    var (r, u) := SeatTarget(a, role, member).1.value;
    var k := SeatKindOn(r, kind);
    var b, done := a.(seats := Seated(a.seats, r, u, k)), SeatMember(a, role, member, kind, actor).1;
    var checked := GrantedBySeat(a.rows, r, k);
    SyncEffect(b);
    SilentMoves(a, role, member, kind);
    forall s: SeatKey | s.role !in checked ensures s in a.seats <==> s in done.seats {
      assert s in a.seats <==> s in b.seats;
      if IsPost(r.key) && IdOfKey(a.rows, Committee) == Some(s.role) {
        assert k == Deputy;
        assert SeatKey(s.user, s.role) == s;
        assert !CommitteeMoves(b, s.role, s.user);
      }
    }
    CheckedRolesBound(a, done, checked, actor);
  }

  lemma UnseatIsBounded(a: Congregation, role: int, member: int, actor: set<Permission>)
    requires KeyedRows(a.rows) && UnseatMember(a, role, member, actor).0.Accepted?
    ensures Bounded(a, UnseatMember(a, role, member, actor).1, actor)
  {
    var (r, u) := SeatTarget(a, role, member).1.value;
    var b, done := a.(seats := a.seats - {SeatKey(u, role)}), UnseatMember(a, role, member, actor).1;
    SyncEffect(b);
    CheckedRolesBound(a, done, GrantedBySeat(a.rows, r, Leader), actor);
  }

  lemma MembershipIsBounded(a: Congregation, user: int, role: int, actor: set<Permission>)
    ensures AddUser(a, user, role, actor).0.Accepted? ==> Bounded(a, AddUser(a, user, role, actor).1, actor)
    ensures RemoveUser(a, user, role, actor).0.Accepted? ==> Bounded(a, RemoveUser(a, user, role, actor).1, actor)
  {
    if AddUser(a, user, role, actor).1 != a {
      CheckedRolesBound(a, AddUser(a, user, role, actor).1, {role}, actor);
    }
    if RemoveUser(a, user, role, actor).1 != a {
      CheckedRolesBound(a, RemoveUser(a, user, role, actor).1, {role}, actor);
    }
  }

  lemma CustomIsBounded(a: Congregation, user: int, wanted: set<int>, actor: set<Permission>)
    requires SetCustomRoles(a, user, wanted, actor).0.Accepted?
    ensures Bounded(a, SetCustomRoles(a, user, wanted, actor).1, actor)
  {
    if SetCustomRoles(a, user, wanted, actor).1 != a {
      CheckedRolesBound(a, SetCustomRoles(a, user, wanted, actor).1,
                        AddedRoles(a, user, wanted) + RemovedRoles(a, user, wanted), actor);
    }
  }

  lemma SameGrantsElsewhere(a: Congregation, b: Congregation, u: int, p: Permission)
    requires b == a.(grants := b.grants) && forall r :: p in Granted(a, r) <==> p in Granted(b, r)
    ensures p in GrantedTo(a, u) <==> p in GrantedTo(b, u)
  {
    assert RolesOf(a, u) == RolesOf(b, u);
    if p in GrantedTo(a, u) {
      var r :| r in RolesOf(a, u) && p in Granted(a, r);
      assert r in RolesOf(b, u) && p in Granted(b, r);
    }
    if p in GrantedTo(b, u) {
      var r :| r in RolesOf(b, u) && p in Granted(b, r);
      assert r in RolesOf(a, u) && p in Granted(a, r);
    }
  }

  lemma PermissionsAreBounded(a: Congregation, role: int, keys: set<Permission>, table: set<Permission>,
      actor: set<Permission>)
    requires UpdatePermissions(a, role, keys, table, actor).0.Accepted?
    ensures Bounded(a, UpdatePermissions(a, role, keys, table, actor).1, actor)
  {
    var b := UpdatePermissions(a, role, keys, table, actor).1;
    if b != a && CanDoAnything !in actor {
      forall u, p | p !in actor ensures p in Effective(a, u) <==> p in Effective(b, u) {
        SameGrantsElsewhere(a, b, u, p);
        SameGrantsElsewhere(a, b, u, CanDoAnything);
      }
    }
  }

  lemma SingleIsBounded(a: Congregation, role: int, single: bool, actor: set<Permission>)
    ensures Bounded(a, SetSingle(a, role, single).1, actor)
  {
    var b := SetSingle(a, role, single).1;
    forall u ensures Effective(a, u) == Effective(b, u) {
      assert RolesOf(a, u) == RolesOf(b, u);
      assert forall r :: Granted(a, r) == Granted(b, r);
      forall p ensures p in GrantedTo(a, u) <==> p in GrantedTo(b, u) {
        assert p in GrantedTo(a, u) <==> exists r :: r in RolesOf(a, u) && p in Granted(a, r);
        assert p in GrantedTo(b, u) <==> exists r :: r in RolesOf(b, u) && p in Granted(b, r);
      }
    }
  }

  // ----- deletions, which compare nothing with the actor's permissions -----

  /** What the account's other roles grant it. */
  function GrantedElsewhere(a: Congregation, user: int, role: int): set<Permission> {
    set r, p | r in RolesOf(a, user) && r != role && p in Granted(a, r) :: p
  }

  /** The effective permissions that come or go for the account when the role goes. */
  function TouchedByLosing(a: Congregation, user: int, role: int): set<Permission> {
    var kept := GrantedElsewhere(a, user, role);
    if CanDoAnything in kept then {}
    else if CanDoAnything in Granted(a, role) then (a.catalogue - kept) + (kept - a.catalogue)
    else Granted(a, role) - kept
  }

  /** The accounts that have the role, on either path. */
  function RoleHolders(a: Congregation, role: int): set<int> {
    (set s | s in a.seats && s.role == role :: s.user)
    + (set s | s in a.identity && s.role == role && s.member in a.accountOf && a.accountOf[s.member].Some?
         :: a.accountOf[s.member].value)
  }

  /** The actor holds whatever the role's holders do not keep by other roles; nothing, if there are none. */
  predicate LossesHeld(a: Congregation, role: int, actor: set<Permission>) {
    CanDoAnything in actor || forall u | u in RoleHolders(a, role) :: TouchedByLosing(a, u, role) <= actor
  }

  lemma HoldersHaveIt(a: Congregation, role: int, u: int)
    ensures u in RoleHolders(a, role) <==> role in RolesOf(a, u)
  {
    if role in RolesOf(a, u) {
      if s :| s in a.seats && s.user == u && s.role == role {
        assert u in RoleHolders(a, role);
      } else {
        var s :| s in a.identity && s.member in a.accountOf && a.accountOf[s.member] == Some(u) && s.role == role;
        assert a.accountOf[s.member].value in RoleHolders(a, role);
      }
    }
  }

  lemma RoleIsLost(a: Congregation, rows: seq<Role>, role: int, u: int)
    ensures GrantedTo(WithoutRole(a, rows, role), u) == GrantedElsewhere(a, u, role)
  {
    var b := WithoutRole(a, rows, role);
    forall r ensures r in RolesOf(b, u) <==> r in RolesOf(a, u) && r != role {
      assert SeatKey(u, r) in b.seats <==> SeatKey(u, r) in a.seats && r != role;
    }
    assert forall r | r != role :: Granted(b, r) == Granted(a, r);
  }

  lemma GrantsAddUp(a: Congregation, role: int, u: int)
    ensures GrantedTo(a, u) == GrantedElsewhere(a, u, role) + if role in RolesOf(a, u) then Granted(a, role) else {}
  {
    forall p | p in GrantedTo(a, u)
      ensures p in GrantedElsewhere(a, u, role) || (role in RolesOf(a, u) && p in Granted(a, role)) {
      var r :| r in RolesOf(a, u) && p in Granted(a, r);
    }
  }

  lemma TouchedPermissions(a: Congregation, rows: seq<Role>, role: int, u: int, p: Permission)
    ensures Changes(a, WithoutRole(a, rows, role), u, p)
       <==> u in RoleHolders(a, role) && p in TouchedByLosing(a, u, role)
  {
    RoleIsLost(a, rows, role, u);
    GrantsAddUp(a, role, u);
    HoldersHaveIt(a, role, u);
  }

  /**
   A deletion stays within what the actor holds exactly when the actor holds everything the role's holders do not keep
   by other roles.
   */
  lemma DeletionBoundedIff(a: Congregation, role: int, actor: set<Permission>)
    requires Find(a.rows, role).Some? && DeleteRole(a, role).0.Accepted?
    ensures Bounded(a, DeleteRole(a, role).1, actor) <==> LossesHeld(a, role, actor)
  {
    var rows := Delete(a.rows, role).1;
    assert DeleteRole(a, role).1 == WithoutRole(a, rows, role);
    forall u, p ensures Changes(a, WithoutRole(a, rows, role), u, p)
                   <==> u in RoleHolders(a, role) && p in TouchedByLosing(a, u, role) {
      TouchedPermissions(a, rows, role, u, p);
    }
  }

  /**
   Whatever an accepted change does to anyone's effective permissions, the actor holds every
   permission involved, through the can-do-anything expansion too: unless it silently reconciles,
   or deletes a role whose holders lose what the actor lacks.
   */
  lemma EveryChangeIsBounded(a: Congregation, op: Op, actor: set<Permission>)
    requires KeyedRows(a.rows) && Step(a, op, actor).0.Accepted?
    requires op.OpSeat? ==> !SilentReconcile(a, op.role, op.member, op.kind)
    requires op.OpDelete? && Find(a.rows, op.role).Some? ==> LossesHeld(a, op.role, actor)
    ensures Bounded(a, Step(a, op, actor).1, actor)
  {
    match op
    case OpSeat(role, member, kind) => SeatIsBounded(a, role, member, kind, actor);
    case OpUnseat(role, member) => UnseatIsBounded(a, role, member, actor);
    case OpAdd(user, role) => MembershipIsBounded(a, user, role, actor);
    case OpRemove(user, role) => MembershipIsBounded(a, user, role, actor);
    case OpSetCustom(user, wanted) => CustomIsBounded(a, user, wanted, actor);
    case OpSetSingle(role, single) => SingleIsBounded(a, role, single, actor);
    case OpPermissions(role, keys, table) => PermissionsAreBounded(a, role, keys, table, actor);
    case OpDelete(role) => if Find(a.rows, role).Some? { DeletionBoundedIff(a, role, actor); }
  }

  /**
   With the committee in step, only re-seating a titulaire as adjoint of the one post they lead
   reconciles silently.
   */
  lemma SilentMeansDemotion(a: Congregation, role: int, member: int, kind: Seat)
    requires KeyedRows(a.rows) && InStep(a) && IdOfKey(a.rows, Committee).Some?
    requires SeatTarget(a, role, member).0.Accepted?
    ensures var (r, u) := SeatTarget(a, role, member).1.value;
            SilentReconcile(a, role, member, kind) <==>
              IsPost(r.key) && kind == Deputy && LeadsSeat(a.seats, u, role)
              && forall q | q in PostIds(a.rows) && q != role :: !LeadsSeat(a.seats, u, q)
  {
    var (r, u) := SeatTarget(a, role, member).1.value;
    PostRow(a.rows, role);
    var c := IdOfKey(a.rows, Committee).value;
    assert CommitteeMembers(a, c) == Titulaires(a) by {
      forall w ensures w in CommitteeMembers(a, c) <==> SeatKey(w, c) in a.seats {
      }
    }
    if IsPost(r.key) { OneTitulaireLess(a, role, u); }
  }

  /**
   Without that leader seat the account stops being a titulaire exactly when it was its only one;
   nobody else does.
   */
  lemma OneTitulaireLess(a: Congregation, role: int, u: int)
    requires role in PostIds(a.rows) || !LeadsSeat(a.seats, u, role)
    ensures Titulaires(a) != TitulairesWithout(a, role, u) <==>
              LeadsSeat(a.seats, u, role) && forall q | q in PostIds(a.rows) && q != role :: !LeadsSeat(a.seats, u, q)
  {
    var before, after := Titulaires(a), TitulairesWithout(a, role, u);
    assert forall w | w in after :: w in before;
    forall w | w in before && w != u ensures w in after {
      var s :| s in a.seats && a.seats[s] == Leader && s.role in PostIds(a.rows) && s.user == w;
      assert s != SeatKey(u, role);
    }
    assert u in after <==> exists q :: q in PostIds(a.rows) && q != role && LeadsSeat(a.seats, u, q) by {
      if u in after {
        var s :| s in a.seats && a.seats[s] == Leader && s.role in PostIds(a.rows) &&
                 s != SeatKey(u, role) && s.user == u;
        assert LeadsSeat(a.seats, u, s.role);
      }
      if q :| q in PostIds(a.rows) && q != role && LeadsSeat(a.seats, u, q) {
        assert SeatKey(u, q) in a.seats && SeatKey(u, q) != SeatKey(u, role);
      }
    }
    TitulaireSeat(a, u);
    if forall w | w in before :: w in after { assert before == after; }
  }

  /** Identity assignments are never on the committee: it is no identity role. */
  ghost predicate IdentityApart(a: Congregation) {
    forall s | s in a.identity :: IdOfKey(a.rows, Committee) != Some(s.role)
  }

  lemma OnlyCommitteeGrants(b: Congregation, c: int, x: Permission, w: int)
    requires b.grants == map[c := {x}] && x != CanDoAnything && forall s | s in b.identity :: s.role != c
    ensures x in Effective(b, w) <==> SeatKey(w, c) in b.seats
    ensures CanDoAnything !in GrantedTo(b, w)
  {
    assert c in RolesOf(b, w) <==> SeatKey(w, c) in b.seats;
    assert forall r, p | p in Granted(b, r) :: r == c && p == x;
    if SeatKey(w, c) in b.seats {
      assert x in Granted(b, c) && x in GrantedTo(b, w);
    }
  }

  lemma AdjointAccepted(g: Congregation, role: int, member: int, c: int, x: Permission, actor: set<Permission>)
    requires KeyedRows(g.rows) && IdOfKey(g.rows, Committee) == Some(c) && SeatTarget(g, role, member).0.Accepted?
    requires IsPost(SeatTarget(g, role, member).1.value.0.key)
    requires g.grants == map[c := {x}] && x != CanDoAnything && forall s | s in g.identity :: s.role != c
    ensures var (r, u) := SeatTarget(g, role, member).1.value;
            SeatMember(g, role, member, Deputy, actor) == (Accepted, Sync(g.(seats := Seated(g.seats, r, u, Deputy))))
  {
    var (r, u) := SeatTarget(g, role, member).1.value;
    PostRow(g.rows, role);
    CommitteeIsNoPost(g.rows, c);
    OnlyCommitteeGrants(g, c, x, u);
    assert Granted(g, role) == {};
  }

  lemma SyncIgnoresGrants(a: Congregation, grants: map<int, set<Permission>>)
    ensures Titulaires(a.(grants := grants)) == Titulaires(a)
    ensures Sync(a.(grants := grants)) == Sync(a).(grants := grants)
  {
    assert Titulaires(a.(grants := grants)) == Titulaires(a);
  }

  /** A silent reconcile lets an actor change, through the committee, a permission they do not hold. */
  lemma SilentReconcileEscapes(a: Congregation, role: int, member: int, kind: Seat, actor: set<Permission>,
      x: Permission)
    requires KeyedRows(a.rows) && IdentityApart(a) && SilentReconcile(a, role, member, kind)
    requires CanDoAnything !in actor && x !in actor && x != CanDoAnything
    ensures IdOfKey(a.rows, Committee).Some?
    ensures var g := a.(grants := map[IdOfKey(a.rows, Committee).value := {x}]);
            && SeatMember(g, role, member, kind, actor).0.Accepted?
            && !Bounded(g, SeatMember(g, role, member, kind, actor).1, actor)
  {
    var (r, u) := SeatTarget(a, role, member).1.value;
    var b := a.(seats := Seated(a.seats, r, u, Deputy));
    SilentMoves(a, role, member, kind);
    var c, w :| CommitteeMoves(b, c, w);
    var g, h := a.(grants := map[c := {x}]), b.(grants := map[c := {x}]);
    assert SeatTarget(g, role, member) == SeatTarget(a, role, member);
    AdjointAccepted(g, role, member, c, x, actor);
    SyncIgnoresGrants(b, map[c := {x}]);
    PostRow(a.rows, role);
    CommitteeIsNoPost(a.rows, c);
    EscapeThrough(a, b, c, w, x, actor, r.id);
    assert SeatMember(g, role, member, kind, actor) == (Accepted, Sync(h));
  }

  lemma EscapeThrough(
      a: Congregation, b: Congregation, c: int, w: int, x: Permission, actor: set<Permission>, post: int)
    requires KeyedRows(a.rows) && IdentityApart(a) && IdOfKey(a.rows, Committee) == Some(c) && post != c
    requires b == a.(seats := b.seats) && forall s: SeatKey | s.role != post :: s in a.seats <==> s in b.seats
    requires (SeatKey(w, c) in b.seats) != (SeatKey(w, c) in Sync(b).seats)
    requires CanDoAnything !in actor && x !in actor && x != CanDoAnything
    ensures !Bounded(a.(grants := map[c := {x}]), Sync(b).(grants := map[c := {x}]), actor)
  {
    var g, done := a.(grants := map[c := {x}]), Sync(b).(grants := map[c := {x}]);
    SyncEffect(b);
    OnlyCommitteeGrants(g, c, x, w);
    OnlyCommitteeGrants(done, c, x, w);
    assert SeatKey(w, c) in a.seats <==> SeatKey(w, c) in b.seats;
    assert Changes(g, done, w, x);
  }

  /**
   For an actor who is no admin and lacks some permission: a seating stays within what the actor
   holds, whatever the roles grant, exactly when it does not reconcile silently.
   */
  lemma SeatingBoundedIffNotSilent(
      a: Congregation, role: int, member: int, kind: Seat, actor: set<Permission>, x: Permission)
    requires KeyedRows(a.rows) && IdentityApart(a)
    requires CanDoAnything !in actor && x !in actor && x != CanDoAnything
    ensures (forall grants: map<int, set<Permission>> ::
               SeatMember(a.(grants := grants), role, member, kind, actor).0.Accepted? ==>
                 Bounded(a.(grants := grants), SeatMember(a.(grants := grants), role, member, kind, actor).1, actor))
       <==> !SilentReconcile(a, role, member, kind)
  {
    if SilentReconcile(a, role, member, kind) {
      SilentReconcileEscapes(a, role, member, kind, actor, x);
    } else {
      forall grants: map<int, set<Permission>> | SeatMember(a.(grants := grants), role, member, kind, actor).0.Accepted?
        ensures Bounded(a.(grants := grants), SeatMember(a.(grants := grants), role, member, kind, actor).1, actor) {
        SilentIgnoresGrants(a, grants, role, member, kind);
        SeatIsBounded(a.(grants := grants), role, member, kind, actor);
      }
    }
  }

  lemma SilentIgnoresGrants(a: Congregation, grants: map<int, set<Permission>>, role: int, member: int, kind: Seat)
    ensures SilentReconcile(a.(grants := grants), role, member, kind) <==> SilentReconcile(a, role, member, kind)
  {
    var g := a.(grants := grants);
    assert SeatTarget(g, role, member) == SeatTarget(a, role, member);
    assert forall c :: CommitteeMembers(g, c) == CommitteeMembers(a, c);
    assert forall u :: TitulairesWithout(g, role, u) == TitulairesWithout(a, role, u);
  }

  // ----- such a request exists -----

  const COMMITTEE_ROW := Role(1, Committee, "", 0, "", true, false, None, Some(5), true)
  const COORDINATOR_ROW := Role(2, Coordinator, "", 0, "", true, true, Some(1), Some(5), true)
  const KEYS := Capability("keys")

  /** What the pages for roles and seats ask of their visitor. */
  const MANAGE_ROLES := Capability("can-manage-roles")

  /** Member 5's account 7 coordinates and so sits on the committee, which grants one permission. */
  function Coordinated(): Congregation {
    Congregation([COMMITTEE_ROW, COORDINATOR_ROW], map[1 := {KEYS}],
                 map[SeatKey(7, 2) := Leader, SeatKey(7, 1) := Plain],
                 map[5 := Some(7)], {7}, {}, {CanDoAnything, KEYS, MANAGE_ROLES})
  }

  lemma CoordinatedRows(a: Congregation)
    requires a == Coordinated()
    ensures KeyedRows(a.rows) && Find(a.rows, 2) == Some(COORDINATOR_ROW) && IdOfKey(a.rows, Committee) == Some(1)
    ensures PostIds(a.rows) == {2}
  {
    assert a.rows[0] == COMMITTEE_ROW && a.rows[1] == COORDINATOR_ROW;
    assert a.rows[1] in a.rows;
  }

  lemma CoordinatedSeats(a: Congregation)
    requires a == Coordinated() && PostIds(a.rows) == {2} && IdOfKey(a.rows, Committee) == Some(1)
    ensures InStep(a) && CommitteeMembers(a, 1) == {7} && TitulairesWithout(a, 2, 7) == {}
  {
    assert SeatKey(7, 2) in a.seats && SeatKey(7, 1) in a.seats;
    assert Titulaires(a) == {7};
  }

  /**
   A committee in step, an actor who may manage roles: re-seating the coordinator as the post's adjoint is accepted,
   and takes from them a permission the actor does not hold.
   */
  lemma ADemotionEscapes(a: Congregation)
    requires a == Coordinated()
    ensures KeyedRows(a.rows) && InStep(a) && SilentReconcile(a, 2, 5, Deputy)
    ensures SeatMember(a, 2, 5, Deputy, {MANAGE_ROLES}).0.Accepted?
    ensures !Bounded(a, SeatMember(a, 2, 5, Deputy, {MANAGE_ROLES}).1, {MANAGE_ROLES})
  {
    CoordinatedRows(a);
    CoordinatedSeats(a);
    assert SeatTarget(a, 2, 5) == (Accepted, Some((COORDINATOR_ROW, 7)));
    assert a.(grants := map[1 := {KEYS}]) == a;
    SilentReconcileEscapes(a, 2, 5, Deputy, {MANAGE_ROLES}, KEYS);
  }

  const KEY_TEAM := Role(3, Custom("cles"), "", 0, "", false, false, None, None, false)

  /** Account 7 has the keys by one custom role. */
  function KeyHolder(): Congregation {
    Congregation([KEY_TEAM], map[3 := {KEYS}], map[SeatKey(7, 3) := Plain],
                 map[5 := Some(7)], {7}, {}, {CanDoAnything, KEYS, MANAGE_ROLES})
  }

  /** Deleting that role is accepted of the same actor, and takes the keys from the account. */
  lemma ADeletionEscapes(a: Congregation)
    requires a == KeyHolder()
    ensures DeleteRole(a, 3).0.Accepted? && !Bounded(a, DeleteRole(a, 3).1, {MANAGE_ROLES})
  {
    assert a.rows[0] == KEY_TEAM && Find(a.rows, 3) == Some(KEY_TEAM);
    assert KidRows(a.rows, 3) == [];
    DeletionBoundedIff(a, 3, {MANAGE_ROLES});
    assert SeatKey(7, 3) in a.seats && 7 in RoleHolders(a, 3);
    assert GrantedElsewhere(a, 7, 3) == {};
    assert KEYS in TouchedByLosing(a, 7, 3);
  }
}
