/** Leadership seats: which requests take one away, and exactly when the account form does. */
module LeadershipSeats {
  import opened Lists
  import opened Roles
  import opened Tree
  import opened Access

  /** Some leader or deputy loses the seat. */
  ghost predicate LosesLeadership(a: Congregation, b: Congregation) {
    exists s :: s in a.seats && a.seats[s] != Plain && s !in b.seats
  }

  /** The role matrix never takes a leadership seat away. */
  lemma MatrixSparesLeadership(a: Congregation, user: int, role: int, actor: set<Permission>)
    ensures !LosesLeadership(a, AddUser(a, user, role, actor).1)
    ensures !LosesLeadership(a, RemoveUser(a, user, role, actor).1)
  {
  }

  /** The account form does, exactly when it leaves out a role the account leads or deputises on. */
  lemma FormUnseatsIff(a: Congregation, user: int, wanted: set<int>, actor: set<Permission>)
    requires SetCustomRoles(a, user, wanted, actor).0.Accepted?
    ensures LosesLeadership(a, SetCustomRoles(a, user, wanted, actor).1)
       <==> exists r :: r in RemovedRoles(a, user, wanted) && a.seats[SeatKey(user, r)] != Plain
  {
    var removed, b := RemovedRoles(a, user, wanted), SetCustomRoles(a, user, wanted, actor).1;
    forall s | s in a.seats ensures s !in b.seats <==> s.user == user && s.role in removed {
    }
    if r :| r in removed && a.seats[SeatKey(user, r)] != Plain {
      assert SeatKey(user, r) in a.seats && SeatKey(user, r) !in b.seats;
    }
    if LosesLeadership(a, b) {
      var s :| s in a.seats && a.seats[s] != Plain && s !in b.seats;
      assert s == SeatKey(user, s.role) && s.role in removed;
    }
  }

  const SOUND_TEAM := Role(3, Custom("sono"), "Sono", 0, "", false, false, None, None, false)

  /** Account 7 leads a group role that grants nothing. */
  function Led(): Congregation {
    Congregation([SOUND_TEAM], map[], map[SeatKey(7, 3) := Leader], map[5 := Some(7)], {7}, {}, {CanDoAnything})
  }

  /** One and the same seat: the matrix refuses to take it, the form takes it. */
  lemma AFormUnseatsALeader(a: Congregation, actor: set<Permission>)
    requires a == Led()
    ensures RemoveUser(a, 7, 3, actor) == (Denied(LeadershipSeat), a)
    ensures SetCustomRoles(a, 7, {}, actor).0.Accepted? && SetCustomRoles(a, 7, {}, actor).1.seats == map[]
  {
    assert a.rows[0] == SOUND_TEAM && SOUND_TEAM in a.rows && Find(a.rows, 3) == Some(SOUND_TEAM);
    assert SeatKey(7, 3) in a.seats && 3 in AssignableIds(a.rows);
    assert RemovedRoles(a, 7, {}) == {3} && AddedRoles(a, 7, {}) == {};
    assert forall r :: Granted(a, r) == {};
    assert forall u :: CanDoAnything !in GrantedTo(a, u);
  }
}
