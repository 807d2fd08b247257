/** Seats and permissions as rows updated in place: each request checks, then writes in order. */
module SeatBooks {
  import opened Lists
  import opened Roles
  import opened Chart
  import opened Tree
  import opened Access

  /** The two diff loops: wanted but not held, held but not wanted. */
  method Diff(desired: set<int>, existing: set<int>) returns (added: set<int>, removed: set<int>)
    ensures added == desired - existing && removed == existing - desired
  {
    added := Missing(desired, existing);
    removed := Missing(existing, desired);
  }

  lemma SomeElement(s: set<int>)
    ensures s == {} || exists x :: x in s
  {
    if forall x :: x !in s {
      assert s == {};
    }
  }

  method Missing(from: set<int>, other: set<int>) returns (missing: set<int>)
    ensures missing == from - other
  {
    missing := {};
    var left := from;
    while left != {}
      invariant left <= from && missing == (from - left) - other
      decreases left
    {
      SomeElement(left);
      var id :| id in left;
      left := left - {id};
      if id !in other { missing := missing + {id}; }
    }
  }

  class SeatBook {
    var rows: seq<Role>
    var grants: map<int, set<Permission>>
    var seats: map<SeatKey, Seat>
    const accountOf: map<int, Option<int>>
    const accounts: set<int>
    var identity: set<IdentityKey>
    const catalogue: set<Permission>

    /** The congregation these rows make up. */
    function View(): Congregation
      reads this
    {
      Congregation(rows, grants, seats, accountOf, accounts, identity, catalogue)
    }

    constructor (a: Congregation)
      ensures View() == a
    {
      rows, grants, seats, identity := a.rows, a.grants, a.seats, a.identity;
      accountOf, accounts, catalogue := a.accountOf, a.accounts, a.catalogue;
    }

    /** Insert who is missing, delete who should not be there; write nothing when already in step. */
    method SyncServiceCommitteeMembers()
      modifies this`seats
      ensures View() == Sync(old(View()))
    {
      var committee := IdOfKey(rows, Committee);
      if committee.None? { return; }
      var c, posts := committee.value, PostIds(rows);
      if posts == {} { return; }
      ghost var before := seats;
      var desired := set s | s in seats && seats[s] == Leader && s.role in posts :: s.user;
      assert desired == Titulaires(View());
      var existing := set s | s in seats && s.role == c :: s.user;
      var added, removed := desired - existing, existing - desired;
      forall s: SeatKey | s in before && s.role == c ensures s.user in existing {
      }
      forall u | u in existing ensures SeatKey(u, c) in before {
      }
      if added != {} {
        seats := map s | s in seats.Keys + (set u | u in added :: SeatKey(u, c))
                      :: if s in seats then seats[s] else Plain;
      }
      if removed != {} {
        seats := seats - (set u | u in removed :: SeatKey(u, c));
      }
      SyncedRows(old(View()), c, added, removed, seats);
    }

    method CheckOutgoing(r: Role, user: int, actor: set<Permission>) returns (v: Verdict)
      ensures v ==
              if exists w :: w in Outgoing(View(), r.id, user) && !MayChange(View(), actor, w) then
                Denied(BeyondActor)
              else if CanDoAnything in Granted(View(), r.id)
                      && exists w :: w in Outgoing(View(), r.id, user) && !NotLastAdmin(View(), w) then
                Denied(LastAdmin)
              else Accepted
    {
      var outgoing := Outgoing(View(), r.id, user);
      var grantsAdmin := outgoing != {} && CanDoAnything in Granted(View(), r.id);
      var left := outgoing;
      while left != {}
        invariant left <= outgoing
        invariant forall w | w in outgoing - left ::
                    MayChange(View(), actor, w) && (grantsAdmin ==> NotLastAdmin(View(), w))
        decreases left
      {
        SomeElement(left);
        var holder :| holder in left;
        if !MayChange(View(), actor, holder) { return Denied(BeyondActor); }
        if grantsAdmin && !NotLastAdmin(View(), holder) { return Denied(LastAdmin); }
        left := left - {holder};
      }
      v := Accepted;
    }

    method SeatMember(role: int, member: int, kind: Seat, actor: set<Permission>) returns (v: Verdict)
      modifies this`seats
      ensures (v, View()) == Access.SeatMember(old(View()), role, member, kind, actor)
    {
      var found := Find(rows, role);
      if found.None? { return Denied(NoSuchRole); }
      var r := found.value;
      if IsIdentity(r.key) { return Denied(RosterIsSynced); }
      if member !in accountOf { return Denied(NoSuchMember); }
      if accountOf[member].None? { return Denied(MemberHasNoAccount); }
      var user := accountOf[member].value;
      var seatKind := if IsPersonal(r) && kind != Deputy then Leader else kind;
      if !MayChange(View(), actor, user) || !HoldsRoles(View(), actor, GrantedBySeat(rows, r, seatKind)) {
        return Denied(BeyondActor);
      }
      if IsPersonal(r) && seatKind == Leader {
        v := CheckOutgoing(r, user, actor);
        if v.Denied? { return; }
      }
      if IsPost(r.key) && seatKind == Leader && !IsElder(View(), member) { return Denied(PostRequiresElder); }
      seats := seats[SeatKey(user, role) := seatKind];
      if IsPersonal(r) && seatKind == Leader {
        var put := seats;
        seats := map s | s in put && (s.role == r.id && s.user != user ==> put[s] != Leader) :: put[s];
      }
      if IsPost(r.key) {
        SyncServiceCommitteeMembers();
      }
      v := Accepted;
    }

    method UnseatMember(role: int, member: int, actor: set<Permission>) returns (v: Verdict)
      modifies this`seats
      ensures (v, View()) == Access.UnseatMember(old(View()), role, member, actor)
    {
      var found := Find(rows, role);
      if found.None? { return Denied(NoSuchRole); }
      var r := found.value;
      if member !in accountOf { return Denied(NoSuchMember); }
      if accountOf[member].None? { return Denied(MemberHasNoAccount); }
      var user := accountOf[member].value;
      if !MayChange(View(), actor, user) || !HoldsRoles(View(), actor, GrantedBySeat(rows, r, Leader)) {
        return Denied(BeyondActor);
      }
      if CanDoAnything in Granted(View(), role) && !NotLastAdmin(View(), user) { return Denied(LastAdmin); }
      seats := seats - {SeatKey(user, role)};
      if IsPost(r.key) {
        SyncServiceCommitteeMembers();
      }
      v := Accepted;
    }

    method AddUserToRole(user: int, role: int, actor: set<Permission>) returns (v: Verdict)
      modifies this`seats
      ensures (v, View()) == AddUser(old(View()), user, role, actor)
    {
      var found := Find(rows, role);
      if found.None? { return Accepted; }
      if IsIdentity(found.value.key) { return Denied(IdentityRole); }
      if found.value.isSinglePerson { return Denied(PersonalRole); }
      if SeatKey(user, role) in seats { return Accepted; }
      if !MayChange(View(), actor, user) || !HoldsRoles(View(), actor, {role}) { return Denied(BeyondActor); }
      if user !in accounts { return Denied(NoSuchUser); }
      seats := seats[SeatKey(user, role) := Plain];
      v := Accepted;
    }

    method RemoveUserFromRole(user: int, role: int, actor: set<Permission>) returns (v: Verdict)
      modifies this`seats
      ensures (v, View()) == RemoveUser(old(View()), user, role, actor)
    {
      var found := Find(rows, role);
      if found.None? { return Accepted; }
      if IsIdentity(found.value.key) { return Denied(IdentityRole); }
      if SeatKey(user, role) !in seats { return Accepted; }
      if seats[SeatKey(user, role)] != Plain { return Denied(LeadershipSeat); }
      if !MayChange(View(), actor, user) || !HoldsRoles(View(), actor, {role}) { return Denied(BeyondActor); }
      if CanDoAnything in Granted(View(), role) && !NotLastAdmin(View(), user) { return Denied(LastAdmin); }
      seats := seats - {SeatKey(user, role)};
      v := Accepted;
    }

    method SetUserCustomRoleAssignments(user: int, wanted: set<int>, actor: set<Permission>) returns (v: Verdict)
      modifies this`seats
      ensures (v, View()) == SetCustomRoles(old(View()), user, wanted, actor)
    {
      var custom := AssignableIds(rows);
      var existing := set s | s in seats && s.user == user && s.role in custom :: s.role;
      assert forall r :: r in existing <==> r in custom && SeatKey(user, r) in seats;
      var added, removed := Diff(wanted * custom, existing);
      assert added == AddedRoles(View(), user, wanted) && removed == RemovedRoles(View(), user, wanted);
      if added == {} && removed == {} { return Accepted; }
      if !MayChange(View(), actor, user) || !HoldsRoles(View(), actor, added + removed) { return Denied(BeyondActor); }
      if (exists r :: r in removed && CanDoAnything in Granted(View(), r)) && !NotLastAdmin(View(), user) {
        return Denied(LastAdmin);
      }
      if added != {} && user !in accounts { return Denied(NoSuchUser); }
      Reassign(user, added, removed);
      v := Accepted;
    }

    method Reassign(user: int, added: set<int>, removed: set<int>)
      requires forall r | r in added :: SeatKey(user, r) !in seats
      modifies this`seats
      ensures seats == Reassigned(old(seats), user, added, removed)
    {
      seats := map s | s in seats.Keys + (set r | r in added :: SeatKey(user, r))
                    :: if s in seats then seats[s] else Plain;
      seats := seats - (set r | r in removed :: SeatKey(user, r));
      ReassignedRows(old(seats), user, added, removed, seats);
    }

    method UpdateRolePermissions(role: int, keys: set<Permission>, table: set<Permission>, actor: set<Permission>)
      returns (v: Verdict)
      modifies this`grants
      ensures (v, View()) == UpdatePermissions(old(View()), role, keys, table, actor)
    {
      var found := Find(rows, role);
      if found.None? { return Accepted; }
      var previous := Granted(View(), role);
      var added, removed := keys - previous, previous - keys;
      if added + removed == {} { return Accepted; }
      if found.value.isBuiltIn && CanDoAnything !in actor { return Denied(BeyondActor); }
      if !(added + removed <= actor) && CanDoAnything !in actor { return Denied(BeyondActor); }
      grants := grants[role := previous - removed * table + added * table];
      v := Accepted;
    }

    method SetRoleSinglePerson(role: int, single: bool) returns (v: Verdict)
      modifies this`rows
      ensures (v, View()) == SetSingle(old(View()), role, single)
    {
      var found := Find(rows, role);
      if found.None? { return Denied(NoSuchRole); }
      if found.value.isBuiltIn { return Denied(BuiltInRole); }
      if found.value.isSinglePerson == single { return Accepted; }
      if single && |Leaders(View(), role)| > 1 { return Denied(SeveralLeaders); }
      rows := Put(rows, found.value.(isSinglePerson := single));
      v := Accepted;
    }

    /** The checks, the deletion, and what the foreign keys delete along with the role. */
    method DeleteRole(role: int) returns (v: Verdict)
      modifies this`rows, this`grants, this`seats, this`identity
      ensures (v, View()) == Access.DeleteRole(old(View()), role)
    {
      var found := Find(rows, role);
      if found.None? { return Accepted; }
      if found.value.isBuiltIn { return Denied(BuiltInRole); }
      if KidRows(rows, role) != [] { return Denied(RoleHasChildren); }
      rows := Filter(rows, NotId(role));
      grants := grants - {role};
      seats := map s | s in seats && s.role != role :: seats[s];
      identity := set s | s in identity && s.role != role;
      v := Accepted;
    }
  }

  lemma SyncedRows(a: Congregation, c: int, added: set<int>, removed: set<int>, seats: map<SeatKey, Seat>)
    requires var existing := set s | s in a.seats && s.role == c :: s.user;
             added == Titulaires(a) - existing && removed == existing - Titulaires(a)
    requires forall s :: s in seats <==>
               (s in a.seats || (s.role == c && s.user in added)) && !(s.role == c && s.user in removed)
    requires forall s | s in seats :: seats[s] == if s in a.seats then a.seats[s] else Plain
    ensures seats == Synced(a, c)
  {
    forall s ensures s in seats <==> s in Synced(a, c) {
      if s in Synced(a, c) && s !in a.seats {
        assert s.role == c;
      }
      assert s in a.seats && s.role == c ==> s.user in (set t | t in a.seats && t.role == c :: t.user);
    }
  }

  lemma ReassignedRows(before: map<SeatKey, Seat>, user: int, added: set<int>, removed: set<int>,
      seats: map<SeatKey, Seat>)
    requires forall r | r in added :: SeatKey(user, r) !in before
    requires forall s :: s in seats <==>
               (s in before || (s.user == user && s.role in added)) && !(s.user == user && s.role in removed)
    requires forall s | s in seats :: seats[s] == if s in before then before[s] else Plain
    ensures seats == Reassigned(before, user, added, removed)
  {
    var after := Reassigned(before, user, added, removed);
    forall s ensures s in seats <==> s in after {
    }
    forall s | s in seats ensures seats[s] == after[s] {
      if s.user == user && s.role in added {
        assert s == SeatKey(user, s.role);
      }
    }
  }
}
