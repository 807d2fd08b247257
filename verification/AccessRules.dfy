/** Who may change which seat, and what each accepted change leaves, read from the rows alone. */
module AccessRules {
  import opened Lists
  import opened Roles
  import opened Chart
  import opened Tree
  import opened Access
  import opened Seats

  // ----- permissions as the rows grant them -----

  ghost predicate Grants(a: Congregation, role: int, p: Permission) {
    role in a.grants && p in a.grants[role]
  }

  /** By a seat of the account, or by an identity role of its member. */
  ghost predicate HasRole(a: Congregation, user: int, role: int) {
    || SeatKey(user, role) in a.seats
    || exists m :: IdentityKey(m, role) in a.identity && m in a.accountOf && a.accountOf[m] == Some(user)
  }

  ghost predicate Admin(a: Congregation, user: int) {
    user in a.accounts && exists r :: HasRole(a, user, r) && Grants(a, r, CanDoAnything)
  }

  ghost predicate LastOne(a: Congregation, user: int) {
    Admin(a, user) && forall w | Admin(a, w) :: w == user
  }

  /** An administrator may do anything; anyone else neither touches one nor hands out what they lack. */
  ghost predicate Within(a: Congregation, actor: set<Permission>, user: int, roles: set<int>) {
    || CanDoAnything in actor
    || (!Admin(a, user) && forall r, p | r in roles && Grants(a, r, p) :: p in actor)
  }

  lemma RolesAre(a: Congregation, user: int, role: int)
    ensures role in RolesOf(a, user) <==> HasRole(a, user, role)
  {
    if role in RolesOf(a, user) && SeatKey(user, role) !in a.seats {
      var s :| s in a.identity && s.member in a.accountOf && a.accountOf[s.member] == Some(user) && s.role == role;
      assert IdentityKey(s.member, role) in a.identity;
    }
    if m :| IdentityKey(m, role) in a.identity && m in a.accountOf && a.accountOf[m] == Some(user) {
      assert IdentityKey(m, role).role in RolesOf(a, user);
    }
  }

  lemma GrantedAre(a: Congregation, user: int, p: Permission)
    ensures p in GrantedTo(a, user) <==> exists r :: HasRole(a, user, r) && Grants(a, r, p)
  {
    if p in GrantedTo(a, user) {
      var r :| r in RolesOf(a, user) && p in Granted(a, r);
      RolesAre(a, user, r);
      assert HasRole(a, user, r) && Grants(a, r, p);
    }
    if r :| HasRole(a, user, r) && Grants(a, r, p) {
      RolesAre(a, user, r);
      assert p in Granted(a, r);
    }
  }

  lemma AdminsAre(a: Congregation)
    ensures forall u :: IsAdmin(a, u) <==> Admin(a, u)
  {
    forall u ensures IsAdmin(a, u) <==> Admin(a, u) { GrantedAre(a, u, CanDoAnything); }
  }

  /** What an account can do: all of the catalogue for an administrator by any role, else what its roles grant. */
  lemma EffectiveIs(a: Congregation, user: int, p: Permission)
    ensures p in Effective(a, user) <==>
              if exists r :: HasRole(a, user, r) && Grants(a, r, CanDoAnything) then p in a.catalogue
              else exists r :: HasRole(a, user, r) && Grants(a, r, p)
  {
    GrantedAre(a, user, CanDoAnything);
    GrantedAre(a, user, p);
  }

  lemma LastOnesAre(a: Congregation, user: int)
    ensures NotLastAdmin(a, user) <==> !LastOne(a, user)
  {
    AdminsAre(a);
    if Admin(a, user) && !LastOne(a, user) {
      var w :| Admin(a, w) && w != user;
      assert w in a.accounts && IsAdmin(a, w);
    }
  }

  lemma LimitsAre(a: Congregation, actor: set<Permission>, user: int, roles: set<int>)
    ensures MayChange(a, actor, user) && HoldsRoles(a, actor, roles) <==> Within(a, actor, user, roles)
  {
    AdminsAre(a);
    if HoldsRoles(a, actor, roles) && CanDoAnything !in actor {
      forall r, p | r in roles && Grants(a, r, p) ensures p in actor { assert p in Granted(a, r); }
    }
    if Within(a, actor, user, roles) && CanDoAnything !in actor {
      forall r | r in roles ensures Granted(a, r) <= actor {
        forall p | p in Granted(a, r) ensures p in actor { assert Grants(a, r, p); }
      }
    }
  }

  // ----- roles by key -----

  predicate IsIdentityKey(key: Key) {
    key in {Member, MinistrySchoolStudent, Publisher, Baptized, Brother, Sister, Anointed, Elder, AssistantServant,
            Pioneer}
  }

  predicate IsPostKey(key: Key) { key in {Coordinator, Secretary, ServiceOverseer} }

  /** The seat asked for is that of a titulaire: so is any seat of a personal role but an adjoint's. */
  predicate Titular(r: Role, kind: Seat) {
    if r.isSinglePerson || IsPostKey(r.key) then !kind.Deputy? else kind.Leader?
  }

  /** The roles whose permissions come with the seat: a post's titulaire sits on the committee too. */
  ghost function SeatRoles(a: Congregation, r: Role, titular: bool): set<int> {
    {r.id} + if IsPostKey(r.key) && titular then set c | c in a.rows && c.key.Committee? :: c.id else {}
  }

  lemma SeatRolesAre(a: Congregation, r: Role, kind: Seat)
    requires UniqueKeys(a.rows)
    ensures GrantedBySeat(a.rows, r, kind) == SeatRoles(a, r, kind.Leader?)
  {
    if IdOfKey(a.rows, Committee).Some? {
      var c := FindKey(a.rows, Committee).value;
      forall x | x in a.rows && x.key.Committee? ensures x == c { UniqueKeyRow(a.rows, x, c); }
    }
  }

  // ----- seating -----

  ghost predicate IsElderMember(a: Congregation, member: int) {
    exists e :: e in a.rows && e.key.Elder? && IdentityKey(member, e.id) in a.identity
  }

  lemma EldersAre(a: Congregation, member: int)
    requires UniqueIds(a.rows)
    ensures IsElder(a, member) <==> IsElderMember(a, member)
  {
    if IsElder(a, member) {
      var s :| s in a.identity && s.member == member
               && Find(a.rows, s.role).Some? && Find(a.rows, s.role).value.key.Elder?;
      assert IdentityKey(member, Find(a.rows, s.role).value.id) == s;
    }
    if e :| e in a.rows && e.key.Elder? && IdentityKey(member, e.id) in a.identity {
      SameIdSameRow(a.rows, Find(a.rows, e.id).value, e);
      assert IdentityKey(member, e.id).role == e.id;
    }
  }

  /** The titulaires a handover unseats: those the actor may not touch, and those who are the last administrator. */
  ghost predicate HandoverBeyond(a: Congregation, r: Role, user: int, actor: set<Permission>) {
    CanDoAnything !in actor && exists w :: w != user && LeadsSeat(a.seats, w, r.id) && Admin(a, w)
  }

  ghost predicate HandoverStrips(a: Congregation, r: Role, user: int) {
    Grants(a, r.id, CanDoAnything) && exists w :: w != user && LeadsSeat(a.seats, w, r.id) && LastOne(a, w)
  }

  /** The handover of a personal role. */
  predicate HandsOn(r: Role, kind: Seat) {
    (r.isSinglePerson || IsPostKey(r.key)) && Titular(r, kind)
  }

  ghost function SeatRuling(a: Congregation, r: Role, member: int, kind: Seat, actor: set<Permission>): Verdict {
    if IsIdentityKey(r.key) then Denied(RosterIsSynced)
    else if member !in a.accountOf then Denied(NoSuchMember)
    else if a.accountOf[member].None? then Denied(MemberHasNoAccount)
    else
      var user := a.accountOf[member].value;
      if !Within(a, actor, user, SeatRoles(a, r, Titular(r, kind))) then Denied(BeyondActor)
      else if HandsOn(r, kind) && HandoverBeyond(a, r, user, actor) then Denied(BeyondActor)
      else if HandsOn(r, kind) && HandoverStrips(a, r, user) then Denied(LastAdmin)
      else if IsPostKey(r.key) && Titular(r, kind) && !IsElderMember(a, member) then Denied(PostRequiresElder)
      else Accepted
  }

  lemma OutgoingAre(a: Congregation, role: int, user: int)
    ensures forall w :: w in Outgoing(a, role, user) <==> w != user && LeadsSeat(a.seats, w, role)
  {
    forall w | w != user && LeadsSeat(a.seats, w, role) ensures w in Outgoing(a, role, user) {
      assert SeatKey(w, role) in a.seats;
    }
  }

  lemma HandoversAre(a: Congregation, r: Role, user: int, actor: set<Permission>)
    ensures (exists w :: w in Outgoing(a, r.id, user) && !MayChange(a, actor, w)) <==> HandoverBeyond(a, r, user, actor)
    ensures CanDoAnything in Granted(a, r.id) && (exists w :: w in Outgoing(a, r.id, user) && !NotLastAdmin(a, w))
       <==> HandoverStrips(a, r, user)
  {
    OutgoingAre(a, r.id, user);
    AdminsAre(a);
    forall w ensures NotLastAdmin(a, w) <==> !LastOne(a, w) { LastOnesAre(a, w); }
  }

  lemma SeatDecisionIsRight(a: Congregation, r: Role, member: int, kind: Seat, actor: set<Permission>)
    requires KeyedRows(a.rows) && r in a.rows && !IsIdentityKey(r.key)
    requires member in a.accountOf && a.accountOf[member].Some?
    ensures DecideSeat(a, r, member, a.accountOf[member].value, SeatKindOn(r, kind), actor)
         == SeatRuling(a, r, member, kind, actor)
  {
    var user, k := a.accountOf[member].value, SeatKindOn(r, kind);
    assert k.Leader? <==> Titular(r, kind);
    SeatRolesAre(a, r, k);
    LimitsAre(a, actor, user, GrantedBySeat(a.rows, r, k));
    HandoversAre(a, r, user, actor);
    EldersAre(a, member);
  }

  /** Every seating is decided as the rows say. */
  lemma SeatingIsRight(a: Congregation, role: int, member: int, kind: Seat, actor: set<Permission>)
    requires KeyedRows(a.rows)
    ensures (forall r | r in a.rows :: r.id != role) ==>
              SeatMember(a, role, member, kind, actor).0 == Denied(NoSuchRole)
    ensures forall r | r in a.rows && r.id == role ::
              SeatMember(a, role, member, kind, actor).0 == SeatRuling(a, r, member, kind, actor)
  {
    forall r | r in a.rows && r.id == role
      ensures SeatMember(a, role, member, kind, actor).0 == SeatRuling(a, r, member, kind, actor) {
      SameIdSameRow(a.rows, Find(a.rows, role).value, r);
      if !IsIdentityKey(r.key) && member in a.accountOf && a.accountOf[member].Some? {
        SeatDecisionIsRight(a, r, member, kind, actor);
      }
    }
  }

  /**
   Only elders lead a post: an accepted titular seating is an elder's, a request that passes every earlier check is
   denied for it exactly when the assignment is missing, and an adjoint's never is.
   */
  lemma OnlyEldersLead(a: Congregation, r: Role, elder: Role, member: int, kind: Seat, actor: set<Permission>)
    requires KeyedRows(a.rows) && r in a.rows && IsPostKey(r.key) && elder in a.rows && elder.key.Elder?
    ensures SeatMember(a, r.id, member, kind, actor).0.Accepted? && !kind.Deputy? ==>
              IdentityKey(member, elder.id) in a.identity
    ensures SeatMember(a, r.id, member, kind, actor).0 in {Accepted, Denied(PostRequiresElder)} ==>
              (SeatMember(a, r.id, member, kind, actor).0 == Denied(PostRequiresElder)
               <==> !kind.Deputy? && IdentityKey(member, elder.id) !in a.identity)
  {
    SeatingIsRight(a, r.id, member, kind, actor);
    forall e | e in a.rows && e.key.Elder? ensures e == elder { UniqueKeyRow(a.rows, e, elder); }
  }

  // ----- the reconcile -----

  /** The account leads a post. */
  ghost predicate LeadsPost(a: Congregation, user: int) {
    exists p :: p in a.rows && IsPostKey(p.key) && LeadsSeat(a.seats, user, p.id)
  }

  /** The same seats of the same kinds, but on this role. */
  ghost predicate SameSeatsBut(a: Congregation, b: Congregation, role: int) {
    forall s: SeatKey | s.role != role ::
      (s in b.seats <==> s in a.seats) && (s in a.seats ==> b.seats[s] == a.seats[s])
  }

  /** On the committee sit exactly those who lead a post; whoever sat there keeps the kind of seat. */
  ghost predicate Reconciled(a: Congregation, b: Congregation, committee: int) {
    && b == a.(seats := b.seats) && SameSeatsBut(a, b, committee)
    && forall u :: (SeatKey(u, committee) in b.seats <==> LeadsPost(a, u))
                   && (SeatKey(u, committee) in b.seats ==>
                         b.seats[SeatKey(u, committee)]
                         == if SeatKey(u, committee) in a.seats then a.seats[SeatKey(u, committee)] else Plain)
  }

  lemma TitulairesAre(a: Congregation, u: int)
    ensures u in Titulaires(a) <==> LeadsPost(a, u)
  {
    TitulaireSeat(a, u);
    if p :| p in a.rows && IsPostKey(p.key) && LeadsSeat(a.seats, u, p.id) { assert p.id in PostIds(a.rows); }
  }

  /** With a committee and some post the reconcile is that, and without it changes nothing. */
  lemma ReconcileIsExact(a: Congregation)
    requires UniqueKeys(a.rows)
    ensures forall c | c in a.rows && c.key.Committee? && (exists p :: p in a.rows && IsPostKey(p.key)) ::
              Reconciled(a, Sync(a), c.id)
    ensures (forall c | c in a.rows :: !c.key.Committee?) || (forall p | p in a.rows :: !IsPostKey(p.key)) ==>
              Sync(a) == a
  {
    if p :| p in a.rows && IsPostKey(p.key) { assert p.id in PostIds(a.rows); }
    forall c | c in a.rows && c.key.Committee? && (exists p :: p in a.rows && IsPostKey(p.key))
      ensures Reconciled(a, Sync(a), c.id) {
      UniqueKeyRow(a.rows, FindKey(a.rows, Committee).value, c);
      SyncedIsReconciled(a, c.id);
    }
  }

  lemma SyncedIsReconciled(a: Congregation, c: int)
    ensures Reconciled(a, a.(seats := Synced(a, c)), c)
  {
    var b := a.(seats := Synced(a, c));
    forall u ensures SeatKey(u, c) in b.seats <==> LeadsPost(a, u) { TitulairesAre(a, u); }
    forall s: SeatKey | s.role != c ensures s in b.seats <==> s in a.seats {
    }
  }
}
