/** The other requests on seats and permissions: how each is decided, and exactly what an accepted one leaves. */
module AccessEffects {
  import opened Lists
  import opened Roles
  import opened Chart
  import opened Tree
  import opened Access
  import opened Seats
  import opened AccessRules

  /** Nothing but the seats changed, and those only where `touched` says. */
  ghost predicate SeatsBut(a: Congregation, b: Congregation, touched: SeatKey -> bool) {
    && b == a.(seats := b.seats)
    && forall s | !touched(s) :: (s in b.seats <==> s in a.seats) && (s in a.seats ==> b.seats[s] == a.seats[s])
  }

  function Is(t: SeatKey): SeatKey -> bool { (s: SeatKey) => s == t }

  // ----- unseating -----

  ghost function UnseatRuling(a: Congregation, r: Role, member: int, actor: set<Permission>): Verdict {
    if member !in a.accountOf then Denied(NoSuchMember)
    else if a.accountOf[member].None? then Denied(MemberHasNoAccount)
    else
      var user := a.accountOf[member].value;
      if !Within(a, actor, user, SeatRoles(a, r, true)) then Denied(BeyondActor)
      else if Grants(a, r.id, CanDoAnything) && LastOne(a, user) then Denied(LastAdmin)
      else Accepted
  }

  lemma UnseatingIsRight(a: Congregation, role: int, member: int, actor: set<Permission>)
    requires KeyedRows(a.rows)
    ensures (forall r | r in a.rows :: r.id != role) ==> UnseatMember(a, role, member, actor).0 == Denied(NoSuchRole)
    ensures forall r | r in a.rows && r.id == role ::
              UnseatMember(a, role, member, actor).0 == UnseatRuling(a, r, member, actor)
  {
    forall r | r in a.rows && r.id == role
      ensures UnseatMember(a, role, member, actor).0 == UnseatRuling(a, r, member, actor) {
      SameIdSameRow(a.rows, Find(a.rows, role).value, r);
      if member in a.accountOf && a.accountOf[member].Some? {
        SeatRolesAre(a, r, Leader);
        LimitsAre(a, actor, a.accountOf[member].value, GrantedBySeat(a.rows, r, Leader));
        LastOnesAre(a, a.accountOf[member].value);
      }
    }
  }

  /** The seat is gone, every other seat of the role stays, and a post's committee is reconciled. */
  lemma UnseatingIsExact(a: Congregation, r: Role, member: int, actor: set<Permission>)
    requires KeyedRows(a.rows) && r in a.rows && UnseatMember(a, r.id, member, actor).0.Accepted?
    ensures member in a.accountOf && a.accountOf[member].Some?
    ensures var taken := SeatKey(a.accountOf[member].value, r.id);
            exists b :: SeatsBut(a, b, Is(taken)) && taken !in b.seats &&
                        UnseatMember(a, r.id, member, actor).1 == if IsPostKey(r.key) then Sync(b) else b
  {
    UnseatingIsRight(a, r.id, member, actor);
    SameIdSameRow(a.rows, Find(a.rows, r.id).value, r);
    var taken := SeatKey(a.accountOf[member].value, r.id);
    var b := a.(seats := a.seats - {taken});
    assert SeatsBut(a, b, Is(taken)) && taken !in b.seats;
  }

  // ----- the role matrix -----

  ghost function AddRuling(a: Congregation, r: Role, user: int, actor: set<Permission>): Verdict {
    if IsIdentityKey(r.key) then Denied(IdentityRole)
    else if r.isSinglePerson then Denied(PersonalRole)
    else if SeatKey(user, r.id) in a.seats then Accepted
    else if !Within(a, actor, user, {r.id}) then Denied(BeyondActor)
    else if user !in a.accounts then Denied(NoSuchUser)
    else Accepted
  }

  /** An accepted addition leaves the account seated, as it was or as a plain member, and touches no other seat. */
  lemma AdditionIsExact(a: Congregation, r: Role, user: int, actor: set<Permission>)
    requires UniqueIds(a.rows) && r in a.rows
    ensures AddUser(a, user, r.id, actor).0 == AddRuling(a, r, user, actor)
    ensures var (v, b) := AddUser(a, user, r.id, actor);
            var seat := SeatKey(user, r.id);
            v.Accepted? ==>
              && SeatsBut(a, b, Is(seat)) && seat in b.seats
              && b.seats[seat] == if seat in a.seats then a.seats[seat] else Plain
  {
    SameIdSameRow(a.rows, Find(a.rows, r.id).value, r);
    LimitsAre(a, actor, user, {r.id});
  }

  ghost function RemoveRuling(a: Congregation, r: Role, user: int, actor: set<Permission>): Verdict {
    if IsIdentityKey(r.key) then Denied(IdentityRole)
    else if SeatKey(user, r.id) !in a.seats then Accepted
    else if a.seats[SeatKey(user, r.id)] != Plain then Denied(LeadershipSeat)
    else if !Within(a, actor, user, {r.id}) then Denied(BeyondActor)
    else if Grants(a, r.id, CanDoAnything) && LastOne(a, user) then Denied(LastAdmin)
    else Accepted
  }

  /** An accepted removal leaves the account off the role, and touches no other seat. */
  lemma RemovalIsExact(a: Congregation, r: Role, user: int, actor: set<Permission>)
    requires UniqueIds(a.rows) && r in a.rows
    ensures RemoveUser(a, user, r.id, actor).0 == RemoveRuling(a, r, user, actor)
    ensures var (v, b) := RemoveUser(a, user, r.id, actor);
            v.Accepted? ==> SeatsBut(a, b, Is(SeatKey(user, r.id))) && SeatKey(user, r.id) !in b.seats
  {
    SameIdSameRow(a.rows, Find(a.rows, r.id).value, r);
    LimitsAre(a, actor, user, {r.id});
    LastOnesAre(a, user);
  }

  /** On a role that is not there, neither does anything. */
  lemma MissingRoleIsNoRefusal(a: Congregation, user: int, role: int, actor: set<Permission>)
    requires forall r | r in a.rows :: r.id != role
    ensures AddUser(a, user, role, actor) == (Accepted, a) && RemoveUser(a, user, role, actor) == (Accepted, a)
  {
  }

  // ----- the account form -----

  /** The form offers the group roles that are custom, and the administrators' role. */
  predicate Offered(r: Role) { !r.isSinglePerson && (!r.isBuiltIn || r.key.Admin?) }

  /** What the form asks for and has not, or has and does not ask for. */
  ghost predicate Differs(a: Congregation, r: Role, user: int, wanted: set<int>) {
    r in a.rows && Offered(r) && (r.id in wanted) != (SeatKey(user, r.id) in a.seats)
  }

  ghost predicate FormAdds(a: Congregation, user: int, wanted: set<int>) {
    exists r :: Differs(a, r, user, wanted) && r.id in wanted
  }

  ghost function Differing(a: Congregation, user: int, wanted: set<int>): set<int> {
    set r | r in a.rows && Offered(r) && (r.id in wanted) != (SeatKey(user, r.id) in a.seats) :: r.id
  }

  ghost function FormRuling(a: Congregation, user: int, wanted: set<int>, actor: set<Permission>): Verdict {
    if forall r :: !Differs(a, r, user, wanted) then Accepted
    else if !Within(a, actor, user, Differing(a, user, wanted)) then Denied(BeyondActor)
    else if LastOne(a, user)
            && exists r :: Differs(a, r, user, wanted) && r.id !in wanted && Grants(a, r.id, CanDoAnything) then
      Denied(LastAdmin)
    else if user !in a.accounts && FormAdds(a, user, wanted) then Denied(NoSuchUser)
    else Accepted
  }

  lemma DifferencesAre(a: Congregation, user: int, wanted: set<int>)
    ensures AddedRoles(a, user, wanted) + RemovedRoles(a, user, wanted) == Differing(a, user, wanted)
    ensures forall id :: id in AddedRoles(a, user, wanted) <==>
              id in wanted && exists r :: Differs(a, r, user, wanted) && r.id == id
    ensures forall id :: id in RemovedRoles(a, user, wanted) <==>
              id !in wanted && exists r :: Differs(a, r, user, wanted) && r.id == id
  {
    forall id | id in AssignableIds(a.rows) ensures exists r :: r in a.rows && Offered(r) && r.id == id {
    }
    forall id ensures id in AddedRoles(a, user, wanted) <==>
                        id in wanted && exists r :: Differs(a, r, user, wanted) && r.id == id {
      if id in AddedRoles(a, user, wanted) {
        var r :| r in a.rows && Offered(r) && r.id == id;
        assert Differs(a, r, user, wanted);
      }
    }
    forall id ensures id in RemovedRoles(a, user, wanted) <==>
                        id !in wanted && exists r :: Differs(a, r, user, wanted) && r.id == id {
      if id in RemovedRoles(a, user, wanted) {
        var r :| r in a.rows && Offered(r) && r.id == id;
        assert Differs(a, r, user, wanted);
      }
    }
  }

  lemma StrippedAre(a: Congregation, user: int, wanted: set<int>)
    ensures (exists id :: id in RemovedRoles(a, user, wanted) && CanDoAnything in Granted(a, id))
       <==> exists r :: Differs(a, r, user, wanted) && r.id !in wanted && Grants(a, r.id, CanDoAnything)
  {
    DifferencesAre(a, user, wanted);
    if r :| Differs(a, r, user, wanted) && r.id !in wanted && Grants(a, r.id, CanDoAnything) {
      assert r.id in RemovedRoles(a, user, wanted) && CanDoAnything in Granted(a, r.id);
    }
    if id :| id in RemovedRoles(a, user, wanted) && CanDoAnything in Granted(a, id) {
      var r :| Differs(a, r, user, wanted) && r.id == id;
      assert Grants(a, r.id, CanDoAnything);
    }
  }

  lemma FormIsRight(a: Congregation, user: int, wanted: set<int>, actor: set<Permission>)
    ensures SetCustomRoles(a, user, wanted, actor).0 == FormRuling(a, user, wanted, actor)
  {
    DifferencesAre(a, user, wanted);
    LimitsAre(a, actor, user, Differing(a, user, wanted));
    LastOnesAre(a, user);
    StrippedAre(a, user, wanted);
    if r :| Differs(a, r, user, wanted) { assert r.id in Differing(a, user, wanted); }
  }

  /** The account's seats on roles the form offers. */
  ghost function OfferedTo(a: Congregation, user: int): SeatKey -> bool {
    (s: SeatKey) => s.user == user && exists r :: r in a.rows && Offered(r) && r.id == s.role
  }

  lemma FormSeats(a: Congregation, user: int, wanted: set<int>, actor: set<Permission>)
    requires SetCustomRoles(a, user, wanted, actor).0.Accepted?
    ensures var b := SetCustomRoles(a, user, wanted, actor).1;
            && b == a.(seats := b.seats)
            && (forall s: SeatKey | s.user != user || s.role !in AssignableIds(a.rows) ::
                  (s in b.seats <==> s in a.seats) && (s in a.seats ==> b.seats[s] == a.seats[s]))
            && (forall r | r in AssignableIds(a.rows) ::
                  && (SeatKey(user, r) in b.seats <==> r in wanted)
                  && (r in wanted ==> b.seats[SeatKey(user, r)]
                                      == if SeatKey(user, r) in a.seats then a.seats[SeatKey(user, r)] else Plain))
  {
    var added, removed := AddedRoles(a, user, wanted), RemovedRoles(a, user, wanted);
    var b := SetCustomRoles(a, user, wanted, actor).1;
    if added == {} && removed == {} {
      forall r | r in AssignableIds(a.rows) ensures SeatKey(user, r) in a.seats <==> r in wanted {
        assert r !in added && r !in removed;
      }
    } else {
      assert b.seats == Reassigned(a.seats, user, added, removed);
    }
  }

  /** After an accepted form the account sits on exactly the offered roles it asks for; every other seat stays. */
  lemma FormIsExact(a: Congregation, user: int, wanted: set<int>, actor: set<Permission>)
    requires SetCustomRoles(a, user, wanted, actor).0.Accepted?
    ensures var b := SetCustomRoles(a, user, wanted, actor).1;
            && SeatsBut(a, b, OfferedTo(a, user))
            && forall r | r in a.rows && Offered(r) ::
                 && (SeatKey(user, r.id) in b.seats <==> r.id in wanted)
                 && (r.id in wanted ==>
                       b.seats[SeatKey(user, r.id)]
                       == if SeatKey(user, r.id) in a.seats then a.seats[SeatKey(user, r.id)] else Plain)
  {
    FormSeats(a, user, wanted, actor);
    forall r | r in a.rows && Offered(r) ensures r.id in AssignableIds(a.rows) {
    }
    forall s | !OfferedTo(a, user)(s) ensures s.user == user ==> s.role !in AssignableIds(a.rows) {
      if s.role in AssignableIds(a.rows) {
        var r :| r in a.rows && Assignable(r) && r.id == s.role;
        assert Offered(r);
      }
    }
  }

  // ----- shape, permissions, deletion -----

  /**
   The flag is set as asked: refused on built-in roles, and while two titulaires hold the role;
   nothing else moves.
   */
  lemma ShapeIsExact(a: Congregation, r: Role, single: bool)
    requires UniqueIds(a.rows) && r in a.rows
    ensures SetSingle(a, r.id, single).0
         == if r.isBuiltIn then Denied(BuiltInRole)
            else if !r.isSinglePerson && single
                    && exists u, w :: u != w && LeadsSeat(a.seats, u, r.id) && LeadsSeat(a.seats, w, r.id) then
              Denied(SeveralLeaders)
            else Accepted
    ensures var (v, b) := SetSingle(a, r.id, single);
            v.Accepted? ==>
              && b == a.(rows := b.rows) && |b.rows| == |a.rows|
              && forall i | 0 <= i < |a.rows| ::
                   b.rows[i] == if a.rows[i] == r then r.(isSinglePerson := single) else a.rows[i]
  {
    SameIdSameRow(a.rows, Find(a.rows, r.id).value, r);
    SeveralLead(a, r.id);
    forall i | 0 <= i < |a.rows| && a.rows[i].id == r.id ensures a.rows[i] == r {
      SameIdSameRow(a.rows, a.rows[i], r);
    }
  }

  lemma SeveralLead(a: Congregation, role: int)
    ensures |Leaders(a, role)| > 1 <==>
              exists u, w :: u != w && LeadsSeat(a.seats, u, role) && LeadsSeat(a.seats, w, role)
  {
    var leaders := Leaders(a, role);
    if u, w :| u != w && LeadsSeat(a.seats, u, role) && LeadsSeat(a.seats, w, role) {
      assert SeatKey(u, role) in a.seats && SeatKey(w, role) in a.seats;
      SubsetSize({u, w}, leaders);
    }
    if |leaders| > 1 {
      var u :| u in leaders;
      assert |leaders - {u}| == |leaders| - 1;
      var w :| w in leaders - {u};
      assert LeadsSeat(a.seats, u, role) && LeadsSeat(a.seats, w, role);
    }
  }

  ghost function PermissionRuling(a: Congregation, r: Role, wanted: set<Permission>, actor: set<Permission>): Verdict {
    if CanDoAnything in actor || forall p :: p in wanted <==> Grants(a, r.id, p) then Accepted
    else if r.isBuiltIn || exists p :: (p in wanted) != Grants(a, r.id, p) && p !in actor then Denied(BeyondActor)
    else Accepted
  }

  /** No grant, seat or row but the role's grants changed. */
  ghost predicate GrantsBut(a: Congregation, b: Congregation, role: int) {
    b == a.(grants := b.grants) && forall other, p | other != role :: Grants(b, other, p) <==> Grants(a, other, p)
  }

  /**
   After an accepted change the role grants exactly the wanted permissions of the table, and those outside the table
   it granted before; no other role's grants change.
   */
  lemma PermissionsAreExact(a: Congregation, r: Role, wanted: set<Permission>, table: set<Permission>,
      actor: set<Permission>)
    requires UniqueIds(a.rows) && r in a.rows
    ensures UpdatePermissions(a, r.id, wanted, table, actor).0 == PermissionRuling(a, r, wanted, actor)
    ensures var (v, b) := UpdatePermissions(a, r.id, wanted, table, actor);
            v.Accepted? ==>
              && GrantsBut(a, b, r.id)
              && forall p :: Grants(b, r.id, p) <==> if p in table then p in wanted else Grants(a, r.id, p)
  {
    SameIdSameRow(a.rows, Find(a.rows, r.id).value, r);
    var previous := Granted(a, r.id);
    assert forall p :: p in previous <==> Grants(a, r.id, p);
    assert wanted == previous <==> forall p :: p in wanted <==> Grants(a, r.id, p);
  }

  lemma ChildrenAre(rows: seq<Role>, r: Role)
    ensures KidRows(rows, r.id) == [] <==> !exists x :: x in rows && x.parent == Some(r.id)
  {
    if x :| x in rows && x.parent == Some(r.id) { assert ChildOf(r.id)(x) && x in KidRows(rows, r.id); }
    if KidRows(rows, r.id) != [] { assert KidRows(rows, r.id)[0] in KidRows(rows, r.id); }
  }

  lemma DeletedRows(rows: seq<Role>, r: Role)
    requires UniqueIds(rows) && r in rows
    ensures forall x :: x in Filter(rows, NotId(r.id)) <==> x in rows && x != r
  {
    forall x | x in rows ensures x in Filter(rows, NotId(r.id)) <==> x != r {
      if x.id == r.id { SameIdSameRow(rows, x, r); }
      assert NotId(r.id)(x) <==> x.id != r.id;
    }
  }

  /** Refused on built-in roles and on parents; else the role goes, with its seats, assignments and grants. */
  lemma DeletionIsExact(a: Congregation, r: Role)
    requires UniqueIds(a.rows) && r in a.rows
    ensures DeleteRole(a, r.id).0
         == if r.isBuiltIn then Denied(BuiltInRole)
            else if exists x :: x in a.rows && x.parent == Some(r.id) then Denied(RoleHasChildren) else Accepted
    ensures var (v, b) := DeleteRole(a, r.id);
            v.Accepted? ==>
              && b == a.(rows := b.rows, grants := b.grants, seats := b.seats, identity := b.identity)
              && (forall x :: x in b.rows <==> x in a.rows && x != r)
              && (forall s :: s in b.seats <==> s in a.seats && s.role != r.id)
              && (forall s | s in b.seats :: b.seats[s] == a.seats[s])
              && (forall s :: s in b.identity <==> s in a.identity && s.role != r.id)
              && (forall role, p :: Grants(b, role, p) <==> role != r.id && Grants(a, role, p))
  {
    SameIdSameRow(a.rows, Find(a.rows, r.id).value, r);
    ChildrenAre(a.rows, r);
    DeletedRows(a.rows, r);
  }
}
