/** What seatings keep: one titulaire a personal role, the derived committee, the delegation bound. */
module Seats {
  import opened Lists
  import opened Roles
  import opened Chart
  import opened Tree
  import opened Access

  // ----- the delegation bound -----

  /** The account gains or loses the permission. */
  predicate Changes(a: Congregation, b: Congregation, user: int, p: Permission) {
    (p in Effective(a, user)) != (p in Effective(b, user))
  }

  /** Whatever changes in anyone's effective permissions is something the actor holds. */
  ghost predicate Bounded(a: Congregation, b: Congregation, actor: set<Permission>) {
    forall u, p | Changes(a, b, u, p) :: ActorHolds(actor, p)
  }

  /** Only seats changed, and only on the roles `within`. */
  ghost predicate SeatsDifferWithin(a: Congregation, b: Congregation, within: set<int>) {
    && b == a.(seats := b.seats)
    && forall s: SeatKey | s.role !in within :: s in a.seats <==> s in b.seats
  }

  lemma UngrantedStays(a: Congregation, b: Congregation, within: set<int>, u: int, p: Permission)
    requires SeatsDifferWithin(a, b, within) && forall r | r in within :: p !in Granted(a, r)
    ensures p in GrantedTo(a, u) <==> p in GrantedTo(b, u)
  {
    forall r | r !in within ensures r in RolesOf(a, u) <==> r in RolesOf(b, u) {
      assert SeatKey(u, r) in a.seats <==> SeatKey(u, r) in b.seats;
    }
    if p in GrantedTo(a, u) {
      var r :| r in RolesOf(a, u) && p in Granted(a, r);
      assert r in RolesOf(b, u) && p in Granted(b, r);
    }
    if p in GrantedTo(b, u) {
      var r :| r in RolesOf(b, u) && p in Granted(b, r);
      assert r in RolesOf(a, u) && p in Granted(a, r);
    }
  }

  /** Seats changed on roles whose permissions the actor holds: everyone's change is bounded. */
  lemma CheckedRolesBound(a: Congregation, b: Congregation, within: set<int>, actor: set<Permission>)
    requires SeatsDifferWithin(a, b, within) && HoldsRoles(a, actor, within)
    ensures Bounded(a, b, actor)
  {
    if CanDoAnything !in actor {
      forall u, p | p !in actor ensures p in Effective(a, u) <==> p in Effective(b, u) {
        UngrantedStays(a, b, within, u, p);
        UngrantedStays(a, b, within, u, CanDoAnything);
      }
    }
  }

  // ----- what a reconcile and a seating leave behind -----

  /** Role rows are unique by id and key, and the appointed ones carry the built-in flag. */
  ghost predicate KeyedRows(rows: seq<Role>) {
    && UniqueIds(rows) && UniqueKeys(rows)
    && forall r | r in rows && IsAppointed(r.key) :: r.isBuiltIn
  }

  lemma CommitteeIsNoPost(rows: seq<Role>, c: int)
    requires UniqueIds(rows) && IdOfKey(rows, Committee) == Some(c)
    ensures c !in PostIds(rows)
  {
    var row := FindKey(rows, Committee).value;
    forall r | r in rows && r.id == c ensures r == row { SameIdSameRow(rows, r, row); }
  }

  /** The reconcile touches the committee's seats only, and leaves it in step. */
  lemma SyncEffect(a: Congregation)
    requires UniqueIds(a.rows)
    ensures Titulaires(Sync(a)) == Titulaires(a)
    ensures Sync(a) == a.(seats := Sync(a).seats)
    ensures forall s: SeatKey | IdOfKey(a.rows, Committee) != Some(s.role) ::
              (s in a.seats <==> s in Sync(a).seats) && (s in a.seats ==> Sync(a).seats[s] == a.seats[s])
    ensures forall s: SeatKey | s in Sync(a).seats && Sync(a).seats[s] == Leader :: s in a.seats && a.seats[s] == Leader
    ensures PostIds(a.rows) != {} ==> InStep(Sync(a))
  {
    if IdOfKey(a.rows, Committee).Some? && PostIds(a.rows) != {} {
      var c := IdOfKey(a.rows, Committee).value;
      CommitteeIsNoPost(a.rows, c);
      var b := Sync(a);
      forall s: SeatKey | s.role != c
        ensures (s in a.seats <==> s in b.seats) && (s in a.seats ==> b.seats[s] == a.seats[s]) {
      }
      assert Titulaires(b) == Titulaires(a) by {
        forall u ensures u in Titulaires(b) <==> u in Titulaires(a) {
          TitulaireSeat(a, u);
          TitulaireSeat(b, u);
        }
      }
    }
  }

  lemma TitulaireSeat(a: Congregation, u: int)
    ensures u in Titulaires(a) <==> exists r :: r in PostIds(a.rows) && LeadsSeat(a.seats, u, r)
  {
    if u in Titulaires(a) {
      var s :| s in a.seats && a.seats[s] == Leader && s.role in PostIds(a.rows) && s.user == u;
      assert LeadsSeat(a.seats, u, s.role);
    }
    if exists r :: r in PostIds(a.rows) && LeadsSeat(a.seats, u, r) {
      var r :| r in PostIds(a.rows) && LeadsSeat(a.seats, u, r);
      assert SeatKey(u, r) in a.seats;
    }
  }

  predicate LeadsSeat(seats: map<SeatKey, Seat>, u: int, r: int) {
    SeatKey(u, r) in seats && seats[SeatKey(u, r)] == Leader
  }

  ghost predicate AtMostOne(seats: map<SeatKey, Seat>, role: int) {
    forall u, w | LeadsSeat(seats, u, role) && LeadsSeat(seats, w, role) :: u == w
  }

  /** A personal role has at most one titulaire. */
  ghost predicate OneTitulaire(a: Congregation) {
    forall r | r in a.rows && IsPersonal(r) :: AtMostOne(a.seats, r.id)
  }

  /** No leader seat that was not there before. */
  lemma NoNewLeaders(a: Congregation, b: Congregation)
    requires OneTitulaire(a) && b.rows == a.rows
    requires forall s: SeatKey | s in b.seats && b.seats[s] == Leader :: s in a.seats && a.seats[s] == Leader
    ensures OneTitulaire(b)
  {
    forall r | r in b.rows && IsPersonal(r) ensures AtMostOne(b.seats, r.id) {
      assert AtMostOne(a.seats, r.id);
      forall u, w | LeadsSeat(b.seats, u, r.id) && LeadsSeat(b.seats, w, r.id) ensures u == w {
        assert LeadsSeat(a.seats, u, r.id) && LeadsSeat(a.seats, w, r.id);
      }
    }
  }

  lemma SyncKeepsOne(a: Congregation)
    requires UniqueIds(a.rows) && OneTitulaire(a)
    ensures OneTitulaire(Sync(a))
  {
    SyncEffect(a);
    NoNewLeaders(a, Sync(a));
  }

  lemma SeatedKeepsOne(a: Congregation, r: Role, u: int, kind: Seat)
    requires UniqueIds(a.rows) && OneTitulaire(a) && r in a.rows
    ensures OneTitulaire(a.(seats := Seated(a.seats, r, u, kind)))
  {
    var seats' := Seated(a.seats, r, u, kind);
    forall x | x in a.rows && IsPersonal(x) ensures AtMostOne(seats', x.id) {
      assert AtMostOne(a.seats, x.id);
      if x.id == r.id {
        SameIdSameRow(a.rows, x, r);
      }
      forall v, w | LeadsSeat(seats', v, x.id) && LeadsSeat(seats', w, x.id) ensures v == w {
        if x.id != r.id || kind != Leader {
          assert LeadsSeat(a.seats, v, x.id) && LeadsSeat(a.seats, w, x.id);
        }
      }
    }
  }

  // ----- one operation at a time -----

  datatype Op =
    | OpSeat(role: int, member: int, kind: Seat)
    | OpUnseat(role: int, member: int)
    | OpAdd(user: int, role: int)
    | OpRemove(user: int, role: int)
    | OpSetCustom(user: int, wanted: set<int>)
    | OpSetSingle(role: int, single: bool)
    | OpPermissions(role: int, keys: set<Permission>, table: set<Permission>)
    | OpDelete(role: int)

  function Step(a: Congregation, op: Op, actor: set<Permission>): (Verdict, Congregation) {
    match op
    case OpSeat(role, member, kind) => SeatMember(a, role, member, kind, actor)
    case OpUnseat(role, member) => UnseatMember(a, role, member, actor)
    case OpAdd(user, role) => AddUser(a, user, role, actor)
    case OpRemove(user, role) => RemoveUser(a, user, role, actor)
    case OpSetCustom(user, wanted) => SetCustomRoles(a, user, wanted, actor)
    case OpSetSingle(role, single) => SetSingle(a, role, single)
    case OpPermissions(role, wanted, table) => UpdatePermissions(a, role, wanted, table, actor)
    case OpDelete(role) => DeleteRole(a, role)
  }

  /** A refusal writes nothing. */
  lemma RefusalWritesNothing(a: Congregation, op: Op, actor: set<Permission>)
    ensures Step(a, op, actor).0.Denied? ==> Step(a, op, actor).1 == a
  {
  }

  lemma ShapeKeepsKeys(rows: seq<Role>, role: int, single: bool, titulaires: nat)
    requires UniqueIds(rows)
    ensures var rows' := SetSinglePerson(rows, role, single, titulaires).1;
            && |rows'| == |rows|
            && forall i | 0 <= i < |rows| ::
                 rows'[i].id == rows[i].id && rows'[i].key == rows[i].key && rows'[i].isBuiltIn == rows[i].isBuiltIn
  {
    if Find(rows, role).Some? {
      var r := Find(rows, role).value;
      forall i | 0 <= i < |rows| && rows[i].id == r.id ensures rows[i] == r {
        SameIdSameRow(rows, rows[i], r);
      }
    }
  }

  lemma SetSingleKeepsRows(a: Congregation, role: int, single: bool)
    requires KeyedRows(a.rows)
    ensures var b := SetSingle(a, role, single).1;
            && KeyedRows(b.rows) && b == a.(rows := b.rows) && |b.rows| == |a.rows|
            && (forall i | 0 <= i < |a.rows| :: b.rows[i].id == a.rows[i].id && b.rows[i].key == a.rows[i].key)
  {
    ShapeKeepsKeys(a.rows, role, single, |Leaders(a, role)|);
  }

  lemma LeadersSingle(a: Congregation, role: int, u: int, w: int)
    requires |Leaders(a, role)| <= 1 && LeadsSeat(a.seats, u, role) && LeadsSeat(a.seats, w, role)
    ensures u == w
  {
    assert SeatKey(u, role) in a.seats && SeatKey(w, role) in a.seats;
    var leaders := Leaders(a, role);
    assert {u, w} <= leaders;
    SubsetSize({u, w}, leaders);
  }

  lemma SubsetSize<T>(s: set<T>, t: set<T>)
    requires s <= t
    ensures |s| <= |t|
  {
    assert t == s + (t - s);
  }

  lemma SetSingleKeepsOne(a: Congregation, role: int, single: bool)
    requires KeyedRows(a.rows) && OneTitulaire(a)
    ensures OneTitulaire(SetSingle(a, role, single).1)
  {
    var b := SetSingle(a, role, single).1;
    SetSingleKeepsRows(a, role, single);
    forall x | x in b.rows && IsPersonal(x) ensures AtMostOne(b.seats, x.id) {
      var i :| 0 <= i < |b.rows| && b.rows[i] == x;
      assert a.rows[i] in a.rows && (IsPersonal(a.rows[i]) ==> AtMostOne(a.seats, a.rows[i].id));
      if b != a && x.id == role {
        SameIdSameRow(a.rows, a.rows[i], Find(a.rows, role).value);
        if single {
          forall v, w | LeadsSeat(b.seats, v, role) && LeadsSeat(b.seats, w, role) ensures v == w {
            LeadersSingle(a, role, v, w);
          }
        }
      }
    }
  }

  lemma SeatKeepsOne(a: Congregation, role: int, member: int, kind: Seat, actor: set<Permission>)
    requires KeyedRows(a.rows) && OneTitulaire(a)
    ensures SeatMember(a, role, member, kind, actor).1.rows == a.rows
    ensures OneTitulaire(SeatMember(a, role, member, kind, actor).1)
  {
    if SeatMember(a, role, member, kind, actor).0.Accepted? {
      var (r, u) := SeatTarget(a, role, member).1.value;
      var b := a.(seats := Seated(a.seats, r, u, SeatKindOn(r, kind)));
      SeatedKeepsOne(a, r, u, SeatKindOn(r, kind));
      SyncKeepsOne(b);
    }
  }

  lemma UnseatKeepsOne(a: Congregation, role: int, member: int, actor: set<Permission>)
    requires KeyedRows(a.rows) && OneTitulaire(a)
    ensures UnseatMember(a, role, member, actor).1.rows == a.rows
    ensures OneTitulaire(UnseatMember(a, role, member, actor).1)
  {
    if UnseatMember(a, role, member, actor).0.Accepted? {
      var (r, u) := SeatTarget(a, role, member).1.value;
      var b := a.(seats := a.seats - {SeatKey(u, role)});
      NoNewLeaders(a, b);
      SyncKeepsOne(b);
    }
  }

  lemma MembershipKeepsOne(a: Congregation, user: int, role: int, actor: set<Permission>)
    requires OneTitulaire(a)
    ensures OneTitulaire(AddUser(a, user, role, actor).1) && AddUser(a, user, role, actor).1.rows == a.rows
    ensures OneTitulaire(RemoveUser(a, user, role, actor).1) && RemoveUser(a, user, role, actor).1.rows == a.rows
  {
    NoNewLeaders(a, AddUser(a, user, role, actor).1);
    NoNewLeaders(a, RemoveUser(a, user, role, actor).1);
  }

  lemma CustomKeepsOne(a: Congregation, user: int, wanted: set<int>, actor: set<Permission>)
    requires OneTitulaire(a)
    ensures OneTitulaire(SetCustomRoles(a, user, wanted, actor).1)
    ensures SetCustomRoles(a, user, wanted, actor).1.rows == a.rows
  {
    NoNewLeaders(a, SetCustomRoles(a, user, wanted, actor).1);
  }

  /** What a deletion keeps: the other rows, their places by key, and every seat not on the role. */
  lemma DeleteKeepsRows(a: Congregation, role: int)
    requires KeyedRows(a.rows)
    ensures var b := DeleteRole(a, role).1;
            && KeyedRows(b.rows) && (forall r | r in b.rows :: r in a.rows)
            && (forall s | s in b.seats :: s in a.seats && b.seats[s] == a.seats[s])
  {
    FilterKeepsIdsUnique(a.rows, NotId(role));
    FilterKeepsKeysUnique(a.rows, NotId(role));
  }

  lemma DeleteKeepsOne(a: Congregation, role: int)
    requires KeyedRows(a.rows) && OneTitulaire(a)
    ensures OneTitulaire(DeleteRole(a, role).1)
  {
    var b := DeleteRole(a, role).1;
    DeleteKeepsRows(a, role);
    forall r | r in b.rows && IsPersonal(r) ensures AtMostOne(b.seats, r.id) {
      assert AtMostOne(a.seats, r.id);
      forall u, w | LeadsSeat(b.seats, u, r.id) && LeadsSeat(b.seats, w, r.id) ensures u == w {
        assert LeadsSeat(a.seats, u, r.id) && LeadsSeat(a.seats, w, r.id);
      }
    }
  }

  /** Over every operation, accepted or not, a personal role never has two titulaires. */
  lemma StepKeepsOneTitulaire(a: Congregation, op: Op, actor: set<Permission>)
    requires KeyedRows(a.rows) && OneTitulaire(a)
    ensures KeyedRows(Step(a, op, actor).1.rows) && OneTitulaire(Step(a, op, actor).1)
  {
    match op
    case OpSeat(role, member, kind) => SeatKeepsOne(a, role, member, kind, actor);
    case OpUnseat(role, member) => UnseatKeepsOne(a, role, member, actor);
    case OpAdd(user, role) => MembershipKeepsOne(a, user, role, actor);
    case OpRemove(user, role) => MembershipKeepsOne(a, user, role, actor);
    case OpSetCustom(user, wanted) => CustomKeepsOne(a, user, wanted, actor);
    case OpSetSingle(role, single) =>
      SetSingleKeepsRows(a, role, single);
      SetSingleKeepsOne(a, role, single);
    case OpPermissions(_, _, _) =>
    case OpDelete(role) =>
      DeleteKeepsRows(a, role);
      DeleteKeepsOne(a, role);
  }

  /** Whether the operation is aimed at the committee role itself. */
  predicate AimsAtCommittee(a: Congregation, op: Op) {
    match op
    case OpSeat(role, _, _) => IdOfKey(a.rows, Committee) == Some(role)
    case OpUnseat(role, _) => IdOfKey(a.rows, Committee) == Some(role)
    case OpAdd(_, role) => IdOfKey(a.rows, Committee) == Some(role)
    case OpRemove(_, role) => IdOfKey(a.rows, Committee) == Some(role)
    case _ => false
  }

  predicate AimsAtPost(a: Congregation, op: Op) {
    match op
    case OpSeat(role, _, _) => role in PostIds(a.rows)
    case OpUnseat(role, _) => role in PostIds(a.rows)
    case _ => false
  }

  lemma PostRow(rows: seq<Role>, role: int)
    requires UniqueIds(rows) && Find(rows, role).Some?
    ensures role in PostIds(rows) <==> IsPost(Find(rows, role).value.key)
  {
    var r := Find(rows, role).value;
    forall x | x in rows && x.id == role ensures x == r { SameIdSameRow(rows, x, r); }
  }

  /** From any drifted state, a successful seating or unseating on a post puts the committee in step. */
  lemma PostSeatingPutsInStep(a: Congregation, op: Op, actor: set<Permission>)
    requires KeyedRows(a.rows) && AimsAtPost(a, op) && Step(a, op, actor).0.Accepted?
    ensures InStep(Step(a, op, actor).1)
  {
    PostRow(a.rows, op.role);
    var (r, u) := SeatTarget(a, op.role, op.member).1.value;
    if op.OpSeat? {
      SyncEffect(a.(seats := Seated(a.seats, r, u, SeatKindOn(r, op.kind))));
    } else {
      SyncEffect(a.(seats := a.seats - {SeatKey(u, op.role)}));
    }
  }

  /** The same committee seats and the same titulaires. */
  lemma SameCommitteeInStep(a: Congregation, b: Congregation)
    requires InStep(a) && b.rows == a.rows
    requires forall c | IdOfKey(a.rows, Committee) == Some(c) ::
               forall u :: SeatKey(u, c) in a.seats <==> SeatKey(u, c) in b.seats
    requires forall u, r | r in PostIds(a.rows) :: LeadsSeat(a.seats, u, r) <==> LeadsSeat(b.seats, u, r)
    ensures InStep(b)
  {
    forall u ensures u in Titulaires(a) <==> u in Titulaires(b) {
      TitulaireSeat(a, u);
      TitulaireSeat(b, u);
    }
  }

  lemma CustomSkipsAppointed(rows: seq<Role>, role: int)
    requires KeyedRows(rows) && role in AssignableIds(rows)
    ensures role !in PostIds(rows) && IdOfKey(rows, Committee) != Some(role)
  {
    var r :| r in rows && r.id == role && Assignable(r);
    forall x | x in rows && x.id == role ensures x == r { SameIdSameRow(rows, x, r); }
  }

  lemma SetSingleKeepsStep(a: Congregation, role: int, single: bool)
    requires KeyedRows(a.rows) && InStep(a)
    ensures InStep(SetSingle(a, role, single).1)
  {
    var b := SetSingle(a, role, single).1;
    SetSingleKeepsRows(a, role, single);
    SameKeysSameIds(a.rows, b.rows, Committee);
    assert PostIds(b.rows) == PostIds(a.rows) by {
      forall id ensures id in PostIds(b.rows) <==> id in PostIds(a.rows) {
        if id in PostIds(a.rows) {
          var i :| 0 <= i < |a.rows| && IsPost(a.rows[i].key) && a.rows[i].id == id;
          assert b.rows[i] in b.rows;
        }
        if id in PostIds(b.rows) {
          var i :| 0 <= i < |b.rows| && IsPost(b.rows[i].key) && b.rows[i].id == id;
          assert a.rows[i] in a.rows;
        }
      }
    }
    assert Titulaires(b) == Titulaires(a);
  }

  lemma {:induction false} SameKeysSameIds(rows: seq<Role>, rows': seq<Role>, key: Key)
    requires |rows| == |rows'|
    requires forall i | 0 <= i < |rows| :: rows'[i].id == rows[i].id && rows'[i].key == rows[i].key
    ensures IdOfKey(rows', key) == IdOfKey(rows, key)
  {
    if rows != [] && rows[0].key != key {
      SameKeysSameIds(rows[1..], rows'[1..], key);
    }
  }

  lemma SeatElsewhereKeepsStep(a: Congregation, role: int, member: int, kind: Seat, actor: set<Permission>)
    requires KeyedRows(a.rows) && InStep(a) && role !in PostIds(a.rows) && IdOfKey(a.rows, Committee) != Some(role)
    ensures InStep(SeatMember(a, role, member, kind, actor).1)
  {
    if SeatMember(a, role, member, kind, actor).0.Accepted? {
      PostRow(a.rows, role);
      var (r, u) := SeatTarget(a, role, member).1.value;
      SeatElsewhereTaken(a, r, u, SeatKindOn(r, kind));
    }
  }

  lemma SeatElsewhereTaken(a: Congregation, r: Role, u: int, kind: Seat)
    requires KeyedRows(a.rows) && InStep(a) && r.id !in PostIds(a.rows) && IdOfKey(a.rows, Committee) != Some(r.id)
    ensures InStep(a.(seats := Seated(a.seats, r, u, kind)))
  {
    SameCommitteeInStep(a, a.(seats := Seated(a.seats, r, u, kind)));
  }

  lemma SeatElsewhereLeft(a: Congregation, u: int, role: int)
    requires KeyedRows(a.rows) && InStep(a) && role !in PostIds(a.rows) && IdOfKey(a.rows, Committee) != Some(role)
    ensures InStep(a.(seats := a.seats - {SeatKey(u, role)}))
  {
    SameCommitteeInStep(a, a.(seats := a.seats - {SeatKey(u, role)}));
  }

  lemma UnseatElsewhereKeepsStep(a: Congregation, role: int, member: int, actor: set<Permission>)
    requires KeyedRows(a.rows) && InStep(a) && role !in PostIds(a.rows) && IdOfKey(a.rows, Committee) != Some(role)
    ensures InStep(UnseatMember(a, role, member, actor).1)
  {
    if UnseatMember(a, role, member, actor).0.Accepted? {
      PostRow(a.rows, role);
      SeatElsewhereLeft(a, SeatTarget(a, role, member).1.value.1, role);
    }
  }

  lemma MembershipKeepsStep(a: Congregation, user: int, role: int, actor: set<Permission>)
    requires KeyedRows(a.rows) && InStep(a) && IdOfKey(a.rows, Committee) != Some(role)
    ensures InStep(AddUser(a, user, role, actor).1) && InStep(RemoveUser(a, user, role, actor).1)
  {
    SameCommitteeInStep(a, AddUser(a, user, role, actor).1);
    SameCommitteeInStep(a, RemoveUser(a, user, role, actor).1);
  }

  lemma CustomKeepsStep(a: Congregation, user: int, wanted: set<int>, actor: set<Permission>)
    requires KeyedRows(a.rows) && InStep(a)
    ensures InStep(SetCustomRoles(a, user, wanted, actor).1)
  {
    forall role | role in AssignableIds(a.rows)
      ensures role !in PostIds(a.rows) && IdOfKey(a.rows, Committee) != Some(role) {
      CustomSkipsAppointed(a.rows, role);
    }
    SameCommitteeInStep(a, SetCustomRoles(a, user, wanted, actor).1);
  }

  lemma DeleteKeepsKey(rows: seq<Role>, r: Role, key: Key)
    requires UniqueKeys(rows) && r in rows && UniqueIds(rows) && r.key != key
    ensures UniqueKeys(Filter(rows, NotId(r.id))) && IdOfKey(Filter(rows, NotId(r.id)), key) == IdOfKey(rows, key)
  {
    var rows' := Filter(rows, NotId(r.id));
    FilterKeepsKeysUnique(rows, NotId(r.id));
    forall x | x in rows && x.key == key ensures x in rows' {
      if x.id == r.id { SameIdSameRow(rows, x, r); }
      assert NotId(r.id)(x);
    }
    if FindKey(rows, key).Some? { UniqueKeyRow(rows', FindKey(rows', key).value, FindKey(rows, key).value); }
  }

  lemma DeleteKeepsPosts(rows: seq<Role>, r: Role)
    requires UniqueIds(rows) && r in rows && !IsPost(r.key)
    ensures PostIds(Filter(rows, NotId(r.id))) == PostIds(rows) && r.id !in PostIds(rows)
  {
    forall x | x in rows && IsPost(x.key) ensures x in Filter(rows, NotId(r.id)) && x.id != r.id {
      if x.id == r.id { SameIdSameRow(rows, x, r); }
      assert NotId(r.id)(x);
    }
  }

  lemma DeleteKeepsStep(a: Congregation, role: int)
    requires KeyedRows(a.rows) && InStep(a)
    ensures InStep(DeleteRole(a, role).1)
  {
    var b := DeleteRole(a, role).1;
    if b != a {
      var r := Find(a.rows, role).value;
      DeleteKeepsKey(a.rows, r, Committee);
      DeleteKeepsPosts(a.rows, r);
      forall c | IdOfKey(a.rows, Committee) == Some(c) ensures c != role {
        if c == role { SameIdSameRow(a.rows, FindKey(a.rows, Committee).value, r); }
      }
      SameCommitteeInStep(a, b.(rows := a.rows));
      assert Titulaires(b) == Titulaires(b.(rows := a.rows));
    }
  }

  /** Operations not aimed at the committee keep it in step. */
  lemma StepKeepsStep(a: Congregation, op: Op, actor: set<Permission>)
    requires KeyedRows(a.rows) && InStep(a) && !AimsAtCommittee(a, op)
    ensures InStep(Step(a, op, actor).1)
  {
    RefusalWritesNothing(a, op, actor);
    if Step(a, op, actor).0.Accepted? {
      if AimsAtPost(a, op) {
        PostSeatingPutsInStep(a, op, actor);
      } else {
        match op
        case OpSeat(role, member, kind) => SeatElsewhereKeepsStep(a, role, member, kind, actor);
        case OpUnseat(role, member) => UnseatElsewhereKeepsStep(a, role, member, actor);
        case OpAdd(user, role) => MembershipKeepsStep(a, user, role, actor);
        case OpRemove(user, role) => MembershipKeepsStep(a, user, role, actor);
        case OpSetCustom(user, wanted) => CustomKeepsStep(a, user, wanted, actor);
        case OpSetSingle(role, single) => SetSingleKeepsStep(a, role, single);
        case OpPermissions(role, keys, table) => assert Titulaires(Step(a, op, actor).1) == Titulaires(a);
        case OpDelete(role) => DeleteKeepsStep(a, role);
      }
    }
  }

  /**
   On the role: the account has the seat, other titulaires of a personal role lose theirs, everyone
   else keeps theirs.
   */
  ghost predicate HandsOver(seats: map<SeatKey, Seat>, seats': map<SeatKey, Seat>, r: Role, u: int, k: Seat) {
    && SeatKey(u, r.id) in seats' && seats'[SeatKey(u, r.id)] == k
    && (forall w | w != u :: SeatKey(w, r.id) in seats' <==>
          SeatKey(w, r.id) in seats && !(IsPersonal(r) && k == Leader && seats[SeatKey(w, r.id)] == Leader))
    && (forall w | w != u && SeatKey(w, r.id) in seats' :: seats'[SeatKey(w, r.id)] == seats[SeatKey(w, r.id)])
  }

  /** Every seat but those on the two roles is the same. */
  ghost predicate SeatsKeptBut(seats: map<SeatKey, Seat>, seats': map<SeatKey, Seat>, role: int,
      committee: Option<int>) {
    forall s: SeatKey | s.role != role && committee != Some(s.role) ::
      (s in seats' <==> s in seats) && (s in seats ==> seats'[s] == seats[s])
  }

  lemma SeatedHandsOver(seats: map<SeatKey, Seat>, r: Role, u: int, k: Seat)
    ensures HandsOver(seats, Seated(seats, r, u, k), r, u, k)
    ensures forall committee :: SeatsKeptBut(seats, Seated(seats, r, u, k), r.id, committee)
  {
  }

  lemma SyncedHandsOver(a: Congregation, b: Congregation, r: Role, u: int, k: Seat)
    requires UniqueIds(b.rows) && IdOfKey(b.rows, Committee) != Some(r.id)
    requires HandsOver(a.seats, b.seats, r, u, k) && SeatsKeptBut(a.seats, b.seats, r.id, IdOfKey(b.rows, Committee))
    ensures HandsOver(a.seats, Sync(b).seats, r, u, k)
    ensures SeatsKeptBut(a.seats, Sync(b).seats, r.id, IdOfKey(b.rows, Committee))
  {
    SyncEffect(b);
  }

  /** The exact effect of a seating on the role it names: the seat, the handover, and every other seat kept. */
  lemma SeatingHandsOver(a: Congregation, role: int, member: int, kind: Seat, actor: set<Permission>)
    requires KeyedRows(a.rows) && SeatMember(a, role, member, kind, actor).0.Accepted?
    ensures var (r, u) := SeatTarget(a, role, member).1.value;
            var seats' := SeatMember(a, role, member, kind, actor).1.seats;
            && HandsOver(a.seats, seats', r, u, SeatKindOn(r, kind))
            && SeatsKeptBut(a.seats, seats', role, if IsPost(r.key) then IdOfKey(a.rows, Committee) else None)
  {
    var (r, u) := SeatTarget(a, role, member).1.value;
    var b := a.(seats := Seated(a.seats, r, u, SeatKindOn(r, kind)));
    SeatedHandsOver(a.seats, r, u, SeatKindOn(r, kind));
    if IsPost(r.key) {
      PostRow(a.rows, role);
      if IdOfKey(a.rows, Committee).Some? { CommitteeIsNoPost(a.rows, IdOfKey(a.rows, Committee).value); }
      SyncedHandsOver(a, b, r, u, SeatKindOn(r, kind));
    }
  }

  // ----- whole runs -----

  datatype Request = Request(op: Op, actor: set<Permission>)

  function Run(a: Congregation, requests: seq<Request>): Congregation
    decreases |requests|
  {
    if requests == [] then a else Run(Step(a, requests[0].op, requests[0].actor).1, requests[1..])
  }

  /** Whoever asks for what, in any order: a personal role never has two titulaires. */
  lemma {:induction false} RunKeepsOneTitulaire(a: Congregation, requests: seq<Request>)
    requires KeyedRows(a.rows) && OneTitulaire(a)
    ensures KeyedRows(Run(a, requests).rows) && OneTitulaire(Run(a, requests))
    decreases |requests|
  {
    if requests != [] {
      StepKeepsOneTitulaire(a, requests[0].op, requests[0].actor);
      RunKeepsOneTitulaire(Step(a, requests[0].op, requests[0].actor).1, requests[1..]);
    }
  }

  /** No request of the run aims at the committee role. */
  ghost predicate SparesCommittee(a: Congregation, requests: seq<Request>)
    decreases |requests|
  {
    requests != [] ==>
      !AimsAtCommittee(a, requests[0].op)
      && SparesCommittee(Step(a, requests[0].op, requests[0].actor).1, requests[1..])
  }

  lemma StepKeepsKeyed(a: Congregation, op: Op, actor: set<Permission>)
    requires KeyedRows(a.rows)
    ensures KeyedRows(Step(a, op, actor).1.rows)
  {
    match op
    case OpSetSingle(role, single) => SetSingleKeepsRows(a, role, single);
    case OpDelete(role) => DeleteKeepsRows(a, role);
    case _ =>
  }

  lemma {:induction false} RunKeepsStep(a: Congregation, requests: seq<Request>)
    requires KeyedRows(a.rows) && InStep(a) && SparesCommittee(a, requests)
    ensures InStep(Run(a, requests))
    decreases |requests|
  {
    if requests != [] {
      StepKeepsKeyed(a, requests[0].op, requests[0].actor);
      StepKeepsStep(a, requests[0].op, requests[0].actor);
      RunKeepsStep(Step(a, requests[0].op, requests[0].actor).1, requests[1..]);
    }
  }
}
