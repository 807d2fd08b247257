/** Taking over a hand-made committee: tree, seats and permissions rewritten together. */
module Adoption {
  import opened Lists
  import opened Roles
  import opened Chart
  import opened Tree
  import opened Access
  import opened Seats
  import Safety

  datatype Choice = Choice(post: Key, from: Option<int>)

  datatype Mapping = Mapping(target: Role, source: Role)

  datatype Objection = UnknownPost | DuplicatePost | RoleMissing | AlreadyAdopted | CannotTake | NotHeld | SeatTaken

  datatype Ruling = Adopted | Rejected(why: Objection)

  /** Only the committee and its posts may be taken over, each once. */
  function CheckChoices(choices: seq<Choice>, seen: set<Key>): (v: Ruling)
    ensures v.Rejected? ==> v.why.UnknownPost? || v.why.DuplicatePost?
  {
    if choices == [] then Adopted
    else if !IsAppointed(choices[0].post) then Rejected(UnknownPost)
    else if choices[0].post in seen then Rejected(DuplicatePost)
    else CheckChoices(choices[1..], seen + {choices[0].post})
  }

  /** Every mapping resolved, in order, or the first refusal. */
  function Resolve(rows: seq<Role>, choices: seq<Choice>): (r: (Ruling, seq<Mapping>))
    ensures r.0.Rejected? ==> r.1 == [] && (r.0.why.RoleMissing? || r.0.why.CannotTake?)
  {
    if choices == [] then (Adopted, [])
    else if choices[0].from.None? then Resolve(rows, choices[1..])
    else
      var target, source := FindKey(rows, choices[0].post), Find(rows, choices[0].from.value);
      if target.None? || source.None? then (Rejected(RoleMissing), [])
      else if IsAppointed(source.value.key) then (Rejected(CannotTake), [])
      else
        var (v, rest) := Resolve(rows, choices[1..]);
        if v.Rejected? then (v, []) else (Adopted, [Mapping(target.value, source.value)] + rest)
  }

  function Involved(ms: seq<Mapping>, committee: int): set<int> {
    {committee} + (set m | m in ms :: m.target.id) + (set m | m in ms :: m.source.id)
  }

  function PlacedAt(r: Role, parent: Option<int>, order: int): Role {
    r.(onChart := true, parent := parent, order := Some(order))
  }

  function PlacePost(rows: seq<Role>, from: seq<Role>, key: Key, committee: int, order: int): seq<Role> {
    match FindKey(from, key) case None => rows case Some(p) => Put(rows, PlacedAt(p, Some(committee), order))
  }

  /** The committee under the elders, then its posts inside it. */
  function PlaceCommittee(rows: seq<Role>, c: Role): seq<Role> {
    var r0 := Put(rows, PlacedAt(c, IdOfKey(rows, Elder), ORDER_STEP));
    var r1 := PlacePost(r0, rows, Coordinator, c.id, ORDER_STEP);
    var r2 := PlacePost(r1, rows, Secretary, c.id, 2 * ORDER_STEP);
    PlacePost(r2, rows, ServiceOverseer, c.id, 3 * ORDER_STEP)
  }

  /**
   The accounts a takeover's query lists, in the order they come. A post is taken over once, so the post names the
   query: each query has an order of its own, also when one role is asked about twice.
   */
  type Listing = int -> seq<int>

  /** The first account, in the order the rows come, that satisfies the test. */
  function FirstIn(order: seq<int>, among: set<int>): Option<int> {
    if order == [] then None else if order[0] in among then Some(order[0]) else FirstIn(order[1..], among)
  }

  function HoldersOfRole(a: Congregation, role: int): set<int> {
    set s | s in a.seats && s.role == role :: s.user
  }

  /** Who moves onto the post: a leader if the old role has one, else its first holder. */
  function Incoming(a: Congregation, source: int, order: seq<int>): Option<int> {
    var leader := FirstIn(order, Leaders(a, source));
    if leader.Some? then leader else FirstIn(order, HoldersOfRole(a, source))
  }

  function RehungRow(r: Role, source: int, target: int): Role {
    if r.id == source then r.(onChart := false, parent := None, order := None)
    else if r.parent == Some(source) then r.(parent := Some(target))
    else r
  }

  function RehungRows(rows: seq<Role>, source: int, target: int): (rows': seq<Role>)
    ensures |rows'| == |rows| && forall i | 0 <= i < |rows| :: rows'[i] == RehungRow(rows[i], source, target)
  {
    seq(|rows|, i requires 0 <= i < |rows| => RehungRow(rows[i], source, target))
  }

  function MovedSeats(seats: map<SeatKey, Seat>, user: int, source: int, target: int): map<SeatKey, Seat> {
    seats[SeatKey(user, target) := Leader] - {SeatKey(user, source)}
  }

  /** Copy the permissions, move the holder, re-hang the children, retire the source; None on a seat collision. */
  function CarryOver(a: Congregation, m: Mapping, order: Listing): Option<Congregation> {
    var s, t := m.source.id, m.target.id;
    var granted := if Granted(a, s) == {} then a.grants else a.grants[t := Granted(a, t) + Granted(a, s)];
    var incoming := if m.target.key.Committee? then None else Incoming(a, s, order(t));
    if incoming.Some? && SeatKey(incoming.value, t) in a.seats then None
    else
      var seats := if incoming.None? then a.seats else MovedSeats(a.seats, incoming.value, s, t);
      Some(a.(grants := granted, seats := seats, rows := RehungRows(a.rows, s, t)))
  }

  function CarryAll(a: Congregation, ms: seq<Mapping>, order: Listing): Option<Congregation>
    decreases |ms|
  {
    if ms == [] then Some(a)
    else
      match CarryOver(a, ms[0], order)
      case None => None
      case Some(b) => CarryAll(b, ms[1..], order)
  }

  function Adopt(a: Congregation, choices: seq<Choice>, order: Listing, actor: set<Permission>)
    : (Ruling, Congregation)
  {
    var checked := CheckChoices(choices, {});
    if checked.Rejected? then (checked, a)
    else
      match FindKey(a.rows, Committee)
      case None => (Rejected(RoleMissing), a)
      case Some(c) =>
        if c.onChart then (Rejected(AlreadyAdopted), a)
        else
          var (resolved, ms) := Resolve(a.rows, choices);
          if resolved.Rejected? then (resolved, a)
          else if ms != [] && !HoldsRoles(a, actor, Involved(ms, c.id)) then (Rejected(NotHeld), a)
          else
            match CarryAll(a.(rows := PlaceCommittee(a.rows, c)), ms, order)
            case None => (Rejected(SeatTaken), a)
            case Some(b) => (Adopted, Sync(b))
  }

  /** A refused adoption changes nothing. */
  lemma RefusedAdoptionChangesNothing(a: Congregation, choices: seq<Choice>, order: Listing, actor: set<Permission>)
    ensures Adopt(a, choices, order, actor).0.Rejected? ==> Adopt(a, choices, order, actor).1 == a
  {
  }

  /** In every run from the default chart the committee is placed, so adoption is refused and changes nothing. */
  lemma SoundChartRefusesAdoption(a: Congregation, choices: seq<Choice>, order: Listing, actor: set<Permission>)
    requires Safety.Sound(a.rows)
    ensures Adopt(a, choices, order, actor).0.Rejected? && Adopt(a, choices, order, actor).1 == a
  {
    assert Safety.HasKey(a.rows, Committee);
    var c := FindKey(a.rows, Committee).value;
    assert Safety.WellPlaced(a.rows, c);
  }

  // ----- permissions -----

  /** Outside `within` nothing changed; inside, nothing is granted that was not. */
  ghost predicate ChangesWithin(a: Congregation, b: Congregation, within: set<int>) {
    && b == a.(rows := b.rows, grants := b.grants, seats := b.seats)
    && (forall s: SeatKey | s.role !in within :: s in a.seats <==> s in b.seats)
    && (forall r | r !in within :: Granted(a, r) == Granted(b, r))
    && (forall r, p | r in within && p in Granted(b, r) :: exists q :: q in within && p in Granted(a, q))
  }

  lemma ChangesChain(a: Congregation, b: Congregation, c: Congregation, within: set<int>)
    requires ChangesWithin(a, b, within) && ChangesWithin(b, c, within)
    ensures ChangesWithin(a, c, within)
  {
    forall r, p | r in within && p in Granted(c, r) ensures exists q :: q in within && p in Granted(a, q) {
      var q :| q in within && p in Granted(b, q);
    }
  }

  lemma UninvolvedStays(a: Congregation, b: Congregation, within: set<int>, u: int, p: Permission)
    requires ChangesWithin(a, b, within) && forall r | r in within :: p !in Granted(a, r)
    ensures p in GrantedTo(a, u) <==> p in GrantedTo(b, u)
  {
    forall r | r !in within ensures r in RolesOf(a, u) <==> r in RolesOf(b, u) {
      assert SeatKey(u, r) in a.seats <==> SeatKey(u, r) in b.seats;
    }
    if p in GrantedTo(a, u) {
      var r :| r in RolesOf(a, u) && p in Granted(a, r);
      assert r in RolesOf(b, u) && p in Granted(b, r);
    }
    if p in GrantedTo(b, u) {
      var r :| r in RolesOf(b, u) && p in Granted(b, r);
      assert r in RolesOf(a, u) && p in Granted(a, r);
    }
  }

  lemma ChangesAreBounded(a: Congregation, b: Congregation, within: set<int>, actor: set<Permission>)
    requires ChangesWithin(a, b, within) && HoldsRoles(a, actor, within)
    ensures Bounded(a, b, actor)
  {
    if CanDoAnything !in actor {
      forall u, p | p !in actor ensures !Changes(a, b, u, p) {
        UninvolvedStays(a, b, within, u, p);
        UninvolvedStays(a, b, within, u, CanDoAnything);
      }
    }
  }

  lemma CarryOverWithin(a: Congregation, m: Mapping, order: Listing, within: set<int>)
    requires CarryOver(a, m, order).Some? && m.source.id in within && m.target.id in within
    ensures ChangesWithin(a, CarryOver(a, m, order).value, within)
  {
    var b := CarryOver(a, m, order).value;
    forall r, p | r in within && p in Granted(b, r) ensures exists q :: q in within && p in Granted(a, q) {
      if p !in Granted(a, r) {
        assert p in Granted(a, m.source.id);
      }
    }
  }

  lemma {:induction false} CarryAllWithin(a: Congregation, ms: seq<Mapping>, order: Listing, within: set<int>)
    requires CarryAll(a, ms, order).Some?
    requires forall m | m in ms :: m.source.id in within && m.target.id in within
    ensures ChangesWithin(a, CarryAll(a, ms, order).value, within)
    decreases |ms|
  {
    if ms != [] {
      var b := CarryOver(a, ms[0], order).value;
      CarryOverWithin(a, ms[0], order, within);
      CarryAllWithin(b, ms[1..], order, within);
      ChangesChain(a, b, CarryAll(a, ms, order).value, within);
    }
  }

  /** No account loses a permission some role grants it. */
  ghost predicate KeepsGrants(a: Congregation, b: Congregation) {
    forall u, p | p in GrantedTo(a, u) :: p in GrantedTo(b, u)
  }

  lemma CarryOverKeepsGrants(a: Congregation, m: Mapping, order: Listing)
    requires CarryOver(a, m, order).Some?
    ensures KeepsGrants(a, CarryOver(a, m, order).value)
  {
    var b, s, t := CarryOver(a, m, order).value, m.source.id, m.target.id;
    forall u, p | p in GrantedTo(a, u) ensures p in GrantedTo(b, u) {
      var r :| r in RolesOf(a, u) && p in Granted(a, r);
      if r in RolesOf(b, u) {
        assert p in Granted(b, r);
      } else {
        assert SeatKey(u, r) in a.seats && SeatKey(u, r) !in b.seats;
        assert r == s && SeatKey(u, t) in b.seats;
        assert t in RolesOf(b, u) && p in Granted(b, t);
      }
    }
  }

  lemma {:induction false} CarryAllKeepsGrants(a: Congregation, ms: seq<Mapping>, order: Listing)
    requires CarryAll(a, ms, order).Some?
    ensures KeepsGrants(a, CarryAll(a, ms, order).value)
    decreases |ms|
  {
    if ms != [] {
      CarryOverKeepsGrants(a, ms[0], order);
      CarryAllKeepsGrants(CarryOver(a, ms[0], order).value, ms[1..], order);
    }
  }

  // ----- seats -----

  predicate Vacant(seats: map<SeatKey, Seat>, role: int) {
    forall s | s in seats :: s.role != role
  }

  /** The roles still to be filled are vacant, the others have at most one titulaire, the committee nobody. */
  ghost predicate Filling(a: Congregation, rows: seq<Role>, todo: seq<Mapping>) {
    && (forall p | p in PostIds(rows) :: AtMostOne(a.seats, p))
    && (forall m | m in todo :: m.target in rows && IsAppointed(m.target.key) &&
          m.source in rows && !IsAppointed(m.source.key))
    && (forall m | m in todo :: Vacant(a.seats, m.target.id))
    && (forall i, j | 0 <= i < j < |todo| :: todo[i].target.id != todo[j].target.id)
    && (forall c | IdOfKey(rows, Committee) == Some(c) :: Vacant(a.seats, c))
  }

  lemma AppointedApart(rows: seq<Role>, m: Mapping)
    requires UniqueIds(rows) && m.target in rows && m.source in rows
    requires IsAppointed(m.target.key) && !IsAppointed(m.source.key)
    ensures m.source.id != m.target.id && m.source.id !in PostIds(rows)
    ensures IdOfKey(rows, Committee) != Some(m.source.id)
    ensures UniqueKeys(rows) && !m.target.key.Committee? ==> IdOfKey(rows, Committee) != Some(m.target.id)
  {
    forall r | r in rows && r.id == m.source.id ensures r == m.source { SameIdSameRow(rows, r, m.source); }
    forall r | r in rows && r.id == m.target.id ensures r == m.target { SameIdSameRow(rows, r, m.target); }
  }

  lemma CarryOverFills(a: Congregation, rows: seq<Role>, todo: seq<Mapping>, order: Listing)
    requires UniqueIds(rows) && UniqueKeys(rows) && todo != [] && Filling(a, rows, todo)
    ensures CarryOver(a, todo[0], order).Some?
    ensures Filling(CarryOver(a, todo[0], order).value, rows, todo[1..])
  {
    var m := todo[0];
    assert m in todo;
    AppointedApart(rows, m);
    var b := CarryOver(a, m, order).value;
    forall n | n in todo[1..] ensures n in todo && n.target.id != m.target.id && Vacant(b.seats, n.target.id) {
      assert Vacant(a.seats, n.target.id);
    }
    forall p | p in PostIds(rows) ensures AtMostOne(b.seats, p) {
      assert AtMostOne(a.seats, p);
      forall v, w | LeadsSeat(b.seats, v, p) && LeadsSeat(b.seats, w, p) ensures v == w {
        if p == m.target.id {
          assert Vacant(a.seats, p);
          assert SeatKey(v, p) !in a.seats && SeatKey(w, p) !in a.seats;
        } else {
          assert LeadsSeat(a.seats, v, p) && LeadsSeat(a.seats, w, p);
        }
      }
    }
    forall c | IdOfKey(rows, Committee) == Some(c) ensures Vacant(b.seats, c) {
      assert Vacant(a.seats, c);
    }
  }

  lemma {:induction false} CarryAllFills(a: Congregation, rows: seq<Role>, todo: seq<Mapping>, order: Listing)
    requires UniqueIds(rows) && UniqueKeys(rows) && Filling(a, rows, todo)
    ensures CarryAll(a, todo, order).Some? && Filling(CarryAll(a, todo, order).value, rows, [])
    decreases |todo|
  {
    if todo != [] {
      CarryOverFills(a, rows, todo, order);
      CarryAllFills(CarryOver(a, todo[0], order).value, rows, todo[1..], order);
    }
  }

  // ----- the mappings -----

  lemma {:induction false} ResolvedMappings(rows: seq<Role>, choices: seq<Choice>, seen: set<Key>)
    requires Resolve(rows, choices).0.Adopted? && CheckChoices(choices, seen).Adopted?
    ensures var ms := Resolve(rows, choices).1;
            && (forall m | m in ms ::
                  && m.target in rows && IsAppointed(m.target.key) && m.target.key !in seen
                  && m.source in rows && !IsAppointed(m.source.key)
                  && exists c :: c in choices && c.from == Some(m.source.id))
            && (forall i, j | 0 <= i < j < |ms| :: ms[i].target.key != ms[j].target.key)
  {
    if choices != [] {
      var seen' := seen + {choices[0].post};
      ResolvedMappings(rows, choices[1..], seen');
      var rest := Resolve(rows, choices[1..]).1;
      forall m | m in rest ensures exists c :: c in choices && c.from == Some(m.source.id) {
        var c :| c in choices[1..] && c.from == Some(m.source.id);
        assert c in choices;
      }
      if choices[0].from.Some? {
        var first := Mapping(FindKey(rows, choices[0].post).value, Find(rows, choices[0].from.value).value);
        assert choices[0] in choices && choices[0].from == Some(first.source.id);
        assert Resolve(rows, choices).1 == [first] + rest;
      }
    }
  }

  // ----- placement -----

  /** Only placement fields changed. */
  ghost predicate SamePeople(rows: seq<Role>, rows': seq<Role>) {
    && |rows'| == |rows|
    && forall i | 0 <= i < |rows| ::
         rows'[i] == rows[i].(onChart := rows'[i].onChart, parent := rows'[i].parent, order := rows'[i].order)
  }

  lemma SamePeopleChain(a: seq<Role>, b: seq<Role>, c: seq<Role>)
    requires SamePeople(a, b) && SamePeople(b, c)
    ensures SamePeople(a, c)
  {
  }

  lemma PutSamePeople(rows: seq<Role>, from: seq<Role>, r: Role, r': Role)
    requires UniqueIds(from) && SamePeople(from, rows) && r in from
    requires r' == r.(onChart := r'.onChart, parent := r'.parent, order := r'.order)
    ensures SamePeople(from, Put(rows, r'))
  {
    forall i | 0 <= i < |rows| && rows[i].id == r.id ensures from[i] == r { SameIdSameRow(from, from[i], r); }
  }

  lemma PlaceSamePeople(rows: seq<Role>, c: Role)
    requires UniqueIds(rows) && c in rows
    ensures SamePeople(rows, PlaceCommittee(rows, c))
  {
    var r0 := Put(rows, PlacedAt(c, IdOfKey(rows, Elder), ORDER_STEP));
    PutSamePeople(rows, rows, c, PlacedAt(c, IdOfKey(rows, Elder), ORDER_STEP));
    PlacePostSamePeople(r0, rows, Coordinator, c.id, ORDER_STEP);
    var r1 := PlacePost(r0, rows, Coordinator, c.id, ORDER_STEP);
    PlacePostSamePeople(r1, rows, Secretary, c.id, 2 * ORDER_STEP);
    PlacePostSamePeople(PlacePost(r1, rows, Secretary, c.id, 2 * ORDER_STEP),
                        rows, ServiceOverseer, c.id, 3 * ORDER_STEP);
  }

  lemma PlacePostSamePeople(rows: seq<Role>, from: seq<Role>, key: Key, committee: int, order: int)
    requires UniqueIds(from) && SamePeople(from, rows)
    ensures SamePeople(from, PlacePost(rows, from, key, committee, order))
  {
    if FindKey(from, key).Some? {
      var p := FindKey(from, key).value;
      PutSamePeople(rows, from, p, PlacedAt(p, Some(committee), order));
    }
  }

  lemma SamePeopleKeys(rows: seq<Role>, rows': seq<Role>)
    requires SamePeople(rows, rows')
    ensures UniqueIds(rows) ==> UniqueIds(rows')
    ensures UniqueKeys(rows) ==> UniqueKeys(rows')
    ensures IdOfKey(rows', Committee) == IdOfKey(rows, Committee) && PostIds(rows') == PostIds(rows)
  {
    SameKeysSameIds(rows, rows', Committee);
    forall id ensures id in PostIds(rows') <==> id in PostIds(rows) {
      if id in PostIds(rows) {
        var i :| 0 <= i < |rows| && IsPost(rows[i].key) && rows[i].id == id;
        assert rows'[i] in rows';
      }
      if id in PostIds(rows') {
        var i :| 0 <= i < |rows'| && IsPost(rows'[i].key) && rows'[i].id == id;
        assert rows[i] in rows;
      }
    }
  }

  lemma {:induction false} CarryAllSamePeople(a: Congregation, ms: seq<Mapping>, order: Listing)
    requires CarryAll(a, ms, order).Some?
    ensures SamePeople(a.rows, CarryAll(a, ms, order).value.rows)
    decreases |ms|
  {
    if ms != [] {
      var b := CarryOver(a, ms[0], order).value;
      CarryAllSamePeople(b, ms[1..], order);
      SamePeopleChain(a.rows, b.rows, CarryAll(a, ms, order).value.rows);
    }
  }

  // ----- the theorem about people and permissions -----

  /** The committee and its posts have nobody seated on them yet. */
  ghost predicate AppointedVacant(a: Congregation) {
    forall r | r in a.rows && IsAppointed(r.key) :: Vacant(a.seats, r.id)
  }

  lemma PostsAreAppointed(rows: seq<Role>, p: int)
    requires p in PostIds(rows)
    ensures exists r :: r in rows && r.id == p && IsAppointed(r.key)
  {
    var r :| r in rows && IsPost(r.key) && r.id == p;
    assert IsAppointed(r.key);
  }

  lemma ReadyToFill(a: Congregation, choices: seq<Choice>)
    requires UniqueIds(a.rows) && UniqueKeys(a.rows) && AppointedVacant(a)
    requires CheckChoices(choices, {}).Adopted? && Resolve(a.rows, choices).0.Adopted?
    ensures Filling(a, a.rows, Resolve(a.rows, choices).1)
  {
    var ms := Resolve(a.rows, choices).1;
    ResolvedMappings(a.rows, choices, {});
    forall p | p in PostIds(a.rows) ensures AtMostOne(a.seats, p) {
      PostsAreAppointed(a.rows, p);
      assert Vacant(a.seats, p);
    }
    forall i, j | 0 <= i < j < |ms| ensures ms[i].target.id != ms[j].target.id {
      assert ms[i] in ms && ms[j] in ms;
      if ms[i].target.id == ms[j].target.id { SameIdSameRow(a.rows, ms[i].target, ms[j].target); }
    }
  }

  /** The state right before the reconcile. */
  ghost function BeforeSync(a: Congregation, c: Role, choices: seq<Choice>, order: Listing): Option<Congregation> {
    CarryAll(a.(rows := PlaceCommittee(a.rows, c)), Resolve(a.rows, choices).1, order)
  }

  lemma FilledPosts(a: Congregation, c: Role, choices: seq<Choice>, order: Listing)
    requires UniqueIds(a.rows) && UniqueKeys(a.rows) && AppointedVacant(a) && c in a.rows && c.key.Committee?
    requires CheckChoices(choices, {}).Adopted? && Resolve(a.rows, choices).0.Adopted?
    ensures BeforeSync(a, c, choices, order).Some?
    ensures var b := BeforeSync(a, c, choices, order).value; SamePeople(a.rows, b.rows) && Filling(b, a.rows, [])
  {
    ReadyToFill(a, choices);
    var p, ms := a.(rows := PlaceCommittee(a.rows, c)), Resolve(a.rows, choices).1;
    assert Filling(p, a.rows, ms);
    CarryAllFills(p, a.rows, ms, order);
    PlaceSamePeople(a.rows, c);
    CarryAllSamePeople(p, ms, order);
    SamePeopleChain(a.rows, p.rows, CarryAll(p, ms, order).value.rows);
  }

  /** With the committee empty, the reconcile only adds, and only to the committee. */
  lemma SyncOnlyAdds(b: Congregation, c: int)
    requires UniqueIds(b.rows) && IdOfKey(b.rows, Committee) == Some(c) && Vacant(b.seats, c)
    ensures KeepsGrants(b, Sync(b)) && ChangesWithin(b, Sync(b), {c}) && InStep(Sync(b))
  {
    SyncEffect(b);
    var d := Sync(b);
    forall u, p | p in GrantedTo(b, u) ensures p in GrantedTo(d, u) {
      var r :| r in RolesOf(b, u) && p in Granted(b, r);
      assert SeatKey(u, r) in b.seats ==> SeatKey(u, r) in d.seats;
      assert r in RolesOf(d, u) && p in Granted(d, r);
    }
    if PostIds(b.rows) == {} {
      assert d == b && Titulaires(b) == {};
    }
  }

  lemma KeepsGrantsChain(a: Congregation, b: Congregation, c: Congregation)
    requires KeepsGrants(a, b) && KeepsGrants(b, c)
    ensures KeepsGrants(a, c)
  {
  }

  lemma SameAccess(a: Congregation, rows: seq<Role>, u: int)
    ensures GrantedTo(a, u) == GrantedTo(a.(rows := rows), u)
  {
    var b := a.(rows := rows);
    assert RolesOf(a, u) == RolesOf(b, u);
    assert forall r :: Granted(a, r) == Granted(b, r);
  }

  lemma PlacingChangesNobody(a: Congregation, rows: seq<Role>, within: set<int>)
    ensures KeepsGrants(a, a.(rows := rows)) && ChangesWithin(a, a.(rows := rows), within)
  {
    var b := a.(rows := rows);
    forall u ensures GrantedTo(a, u) == GrantedTo(b, u) { SameAccess(a, rows, u); }
  }

  lemma WidenChanges(a: Congregation, b: Congregation, within: set<int>, wider: set<int>)
    requires ChangesWithin(a, b, within) && within <= wider
    ensures ChangesWithin(a, b, wider)
  {
    forall r, p | r in wider && p in Granted(b, r) ensures exists q :: q in wider && p in Granted(a, q) {
      if r in within {
        var q :| q in within && p in Granted(a, q);
      } else {
        assert p in Granted(a, r);
      }
    }
  }

  lemma AdoptionChanges(a: Congregation, c: Role, choices: seq<Choice>, order: Listing)
    requires UniqueIds(a.rows) && UniqueKeys(a.rows) && AppointedVacant(a) && FindKey(a.rows, Committee) == Some(c)
    requires CheckChoices(choices, {}).Adopted? && Resolve(a.rows, choices).0.Adopted?
    ensures BeforeSync(a, c, choices, order).Some?
    ensures var ms, d := Resolve(a.rows, choices).1, Sync(BeforeSync(a, c, choices, order).value);
            KeepsGrants(a, d) && InStep(d) && ChangesWithin(a, d, Involved(ms, c.id))
  {
    var ms, p := Resolve(a.rows, choices).1, a.(rows := PlaceCommittee(a.rows, c));
    var within := Involved(ms, c.id);
    FilledPosts(a, c, choices, order);
    var b := BeforeSync(a, c, choices, order).value;
    SamePeopleKeys(a.rows, b.rows);
    SyncOnlyAdds(b, c.id);
    WidenChanges(b, Sync(b), {c.id}, within);
    PlacingChangesNobody(a, p.rows, within);
    CarryAllKeepsGrants(p, ms, order);
    CarryAllWithin(p, ms, order, within);
    KeepsGrantsChain(a, p, b);
    KeepsGrantsChain(a, b, Sync(b));
    ChangesChain(a, p, b, within);
    ChangesChain(a, b, Sync(b), within);
  }

  /** Nobody on the posts, nobody on the committee: the reconcile has nothing to do. */
  lemma NothingToSync(p: Congregation, c: int)
    requires UniqueIds(p.rows) && IdOfKey(p.rows, Committee) == Some(c) && Vacant(p.seats, c)
    requires forall id | id in PostIds(p.rows) :: Vacant(p.seats, id)
    ensures forall s: SeatKey :: s in Sync(p).seats <==> s in p.seats
    ensures Sync(p) == p.(seats := Sync(p).seats)
  {
    SyncEffect(p);
    assert Titulaires(p) == {};
  }

  /** The same seats filled: nobody's access differs. */
  lemma SameSeatsBounded(a: Congregation, d: Congregation, actor: set<Permission>)
    requires d == a.(rows := d.rows, seats := d.seats) && forall s: SeatKey :: s in d.seats <==> s in a.seats
    ensures Bounded(a, d, actor)
  {
    var e := d.(rows := a.rows);
    CheckedRolesBound(a, e, {}, actor);
    forall u, q | Changes(a, d, u, q) ensures ActorHolds(actor, q) {
      SameAccess(d, a.rows, u);
      assert Changes(a, e, u, q);
    }
  }

  /** Without any mapping nobody's access changes. */
  lemma BareAdoptionBounded(a: Congregation, c: Role, order: Listing, choices: seq<Choice>, actor: set<Permission>)
    requires UniqueIds(a.rows) && UniqueKeys(a.rows) && AppointedVacant(a) && FindKey(a.rows, Committee) == Some(c)
    requires Resolve(a.rows, choices) == (Adopted, [])
    ensures BeforeSync(a, c, choices, order).Some?
    ensures Bounded(a, Sync(BeforeSync(a, c, choices, order).value), actor)
  {
    var p := a.(rows := PlaceCommittee(a.rows, c));
    PlaceSamePeople(a.rows, c);
    SamePeopleKeys(a.rows, p.rows);
    forall id | id in PostIds(p.rows) ensures Vacant(p.seats, id) {
      PostsAreAppointed(a.rows, id);
    }
    NothingToSync(p, c.id);
    SameSeatsBounded(a, Sync(p), actor);
  }

  /** Roles grant permissions of the catalogue: the foreign key on grants. */
  ghost predicate GrantsInCatalogue(a: Congregation) {
    forall r :: Granted(a, r) <= a.catalogue
  }

  /** With grants drawn from the catalogue, keeping grants keeps effective permissions, admins' too. */
  lemma NobodyLosesAccess(a: Congregation, b: Congregation, u: int)
    requires KeepsGrants(a, b) && b.catalogue == a.catalogue && GrantsInCatalogue(a)
    ensures Effective(a, u) <= Effective(b, u)
  {
    forall p | p in Effective(a, u) ensures p in Effective(b, u) {
      if p in GrantedTo(a, u) {
        var r :| r in RolesOf(a, u) && p in Granted(a, r);
      }
    }
  }

  /**
   Adoption onto vacant posts: it is never stopped by a seat collision; each post ends with at most
   one titulaire; the committee is made of exactly the titulaires; no account loses a granted permission nor,
   the grants being in the catalogue, an effective one; and whatever anyone gains, the actor holds.
   */
  lemma AdoptionKeepsPeople(a: Congregation, choices: seq<Choice>, order: Listing, actor: set<Permission>)
    requires UniqueIds(a.rows) && UniqueKeys(a.rows) && AppointedVacant(a)
    ensures Adopt(a, choices, order, actor).0 != Rejected(SeatTaken)
    ensures var (v, b) := Adopt(a, choices, order, actor);
            v.Adopted? ==>
              && (forall p | p in PostIds(a.rows) :: AtMostOne(b.seats, p))
              && InStep(b) && KeepsGrants(a, b) && Bounded(a, b, actor)
              && (GrantsInCatalogue(a) ==> forall u :: Effective(a, u) <= Effective(b, u))
  {
    if CheckChoices(choices, {}).Adopted? && FindKey(a.rows, Committee).Some? && Resolve(a.rows, choices).0.Adopted? {
      var c, ms := FindKey(a.rows, Committee).value, Resolve(a.rows, choices).1;
      AdoptionChanges(a, c, choices, order);
      FilledPosts(a, c, choices, order);
      var b := BeforeSync(a, c, choices, order).value;
      SamePeopleKeys(a.rows, b.rows);
      SyncEffect(b);
      forall p | p in PostIds(a.rows) ensures AtMostOne(Sync(b).seats, p) {
        AtMostOneStays(b, p);
      }
      if GrantsInCatalogue(a) {
        forall u ensures Effective(a, u) <= Effective(Sync(b), u) { NobodyLosesAccess(a, Sync(b), u); }
      }
      if ms == [] {
        BareAdoptionBounded(a, c, order, choices, actor);
      } else if HoldsRoles(a, actor, Involved(ms, c.id)) {
        ChangesAreBounded(a, Sync(b), Involved(ms, c.id), actor);
      }
    }
  }

  lemma AtMostOneStays(b: Congregation, p: int)
    requires UniqueIds(b.rows) && AtMostOne(b.seats, p)
    ensures AtMostOne(Sync(b).seats, p)
  {
    SyncEffect(b);
    forall u, w | LeadsSeat(Sync(b).seats, u, p) && LeadsSeat(Sync(b).seats, w, p) ensures u == w {
      assert LeadsSeat(b.seats, u, p) && LeadsSeat(b.seats, w, p);
    }
  }

  // ----- who ends on each post -----

  ghost predicate SameSeatsOn(a: Congregation, b: Congregation, role: int) {
    forall u :: (SeatKey(u, role) in a.seats <==> SeatKey(u, role) in b.seats)
                && (LeadsSeat(a.seats, u, role) <==> LeadsSeat(b.seats, u, role))
  }

  lemma {:induction false} CarryAllElsewhere(a: Congregation, ms: seq<Mapping>, order: Listing, role: int)
    requires CarryAll(a, ms, order).Some? && forall m | m in ms :: m.source.id != role && m.target.id != role
    ensures SameSeatsOn(a, CarryAll(a, ms, order).value, role)
    decreases |ms|
  {
    if ms != [] {
      assert ms[0] in ms;
      var b := CarryOver(a, ms[0], order).value;
      CarryAllElsewhere(b, ms[1..], order, role);
      assert SameSeatsOn(a, b, role);
    }
  }

  /** Mapped targets are pairwise different, vacant, and never sources. */
  ghost predicate Awaiting(a: Congregation, ms: seq<Mapping>) {
    && (forall i, j | 0 <= i < j < |ms| :: ms[i].target.id != ms[j].target.id)
    && (forall m, n | m in ms && n in ms :: m.source.id != n.target.id)
    && (forall m | m in ms :: Vacant(a.seats, m.target.id))
  }

  lemma StillAwaiting(a: Congregation, ms: seq<Mapping>, order: Listing)
    requires ms != [] && Awaiting(a, ms) && CarryOver(a, ms[0], order).Some?
    ensures Awaiting(CarryOver(a, ms[0], order).value, ms[1..])
  {
    assert ms[0] in ms && forall m | m in ms[1..] :: m in ms;
    forall m | m in ms[1..] ensures Vacant(CarryOver(a, ms[0], order).value.seats, m.target.id) {
      assert Vacant(a.seats, m.target.id);
      var i :| 0 <= i < |ms[1..]| && ms[1..][i] == m;
      assert ms[i + 1] == m;
    }
  }

  /** The state the first `i` mappings lead to. */
  lemma StageShifts(a: Congregation, ms: seq<Mapping>, order: Listing, i: nat)
    requires 0 < i <= |ms| && CarryOver(a, ms[0], order).Some?
    ensures CarryAll(a, ms[..i], order) == CarryAll(CarryOver(a, ms[0], order).value, ms[1..][..i - 1], order)
  {
    assert ms[..i][0] == ms[0] && ms[..i][1..] == ms[1..][..i - 1];
  }

  /** The account mapping `i` moves: the one its source hands over in the state the mappings before it led to. */
  ghost predicate MovedBy(a: Congregation, ms: seq<Mapping>, order: Listing, i: nat, u: int)
    requires i < |ms|
  {
    && !ms[i].target.key.Committee? && CarryAll(a, ms[..i], order).Some?
    && Incoming(CarryAll(a, ms[..i], order).value, ms[i].source.id, order(ms[i].target.id)) == Some(u)
  }

  lemma MovedByShifts(a: Congregation, ms: seq<Mapping>, order: Listing, i: nat, u: int)
    requires 0 < i < |ms| && CarryOver(a, ms[0], order).Some?
    ensures MovedBy(a, ms, order, i, u) <==> MovedBy(CarryOver(a, ms[0], order).value, ms[1..], order, i - 1, u)
  {
    StageShifts(a, ms, order, i);
  }

  lemma FirstMoves(a: Congregation, ms: seq<Mapping>, order: Listing, u: int)
    requires ms != [] && Awaiting(a, ms) && CarryOver(a, ms[0], order).Some?
    ensures var b, m := CarryOver(a, ms[0], order).value, ms[0];
            && (LeadsSeat(b.seats, u, m.target.id) <==> MovedBy(a, ms, order, 0, u))
            && forall s | s != m.target.id ::
                 SeatKey(u, s) in b.seats <==>
                   SeatKey(u, s) in a.seats && !(s == m.source.id && MovedBy(a, ms, order, 0, u))
  {
    assert ms[..0] == [] && ms[0] in ms && Vacant(a.seats, ms[0].target.id);
  }

  /** Each post is led by exactly the account its mapping moved. */
  lemma {:induction false} CarryAllFillsPost(a: Congregation, ms: seq<Mapping>, order: Listing, i: nat, u: int)
    requires CarryAll(a, ms, order).Some? && Awaiting(a, ms) && i < |ms|
    ensures LeadsSeat(CarryAll(a, ms, order).value.seats, u, ms[i].target.id) <==> MovedBy(a, ms, order, i, u)
    decreases |ms|
  {
    var b := CarryOver(a, ms[0], order).value;
    StillAwaiting(a, ms, order);
    if i == 0 {
      FirstMoves(a, ms, order, u);
      forall m | m in ms[1..] ensures m.source.id != ms[0].target.id && m.target.id != ms[0].target.id {
        assert m in ms && ms[0] in ms;
        var j :| 0 <= j < |ms[1..]| && ms[1..][j] == m;
        assert ms[j + 1] == m;
      }
      CarryAllElsewhere(b, ms[1..], order, ms[0].target.id);
    } else {
      CarryAllFillsPost(b, ms[1..], order, i - 1, u);
      MovedByShifts(a, ms, order, i, u);
    }
  }

  /** Some mapping of the role `s` moves the account. */
  ghost predicate MovedFrom(a: Congregation, ms: seq<Mapping>, order: Listing, s: int, u: int) {
    exists i: nat | i < |ms| :: ms[i].source.id == s && MovedBy(a, ms, order, i, u)
  }

  lemma MovedFromShifts(a: Congregation, ms: seq<Mapping>, order: Listing, s: int, u: int)
    requires ms != [] && CarryOver(a, ms[0], order).Some?
    ensures MovedFrom(a, ms, order, s, u)
       <==> (ms[0].source.id == s && MovedBy(a, ms, order, 0, u))
            || MovedFrom(CarryOver(a, ms[0], order).value, ms[1..], order, s, u)
  {
    var b := CarryOver(a, ms[0], order).value;
    if MovedFrom(a, ms, order, s, u) {
      var i: nat :| i < |ms| && ms[i].source.id == s && MovedBy(a, ms, order, i, u);
      if i > 0 {
        MovedByShifts(a, ms, order, i, u);
        assert ms[1..][i - 1].source.id == s && MovedBy(b, ms[1..], order, i - 1, u);
      }
    }
    if MovedFrom(b, ms[1..], order, s, u) {
      var i: nat :| i < |ms[1..]| && ms[1..][i].source.id == s && MovedBy(b, ms[1..], order, i, u);
      MovedByShifts(a, ms, order, i + 1, u);
      assert ms[i + 1].source.id == s;
    }
  }

  /** An account leaves a role that is no target exactly when some mapping of that role moves it. */
  lemma {:induction false} CarryAllLeaves(a: Congregation, ms: seq<Mapping>, order: Listing, s: int, u: int)
    requires CarryAll(a, ms, order).Some? && Awaiting(a, ms) && forall m | m in ms :: m.target.id != s
    ensures SeatKey(u, s) in CarryAll(a, ms, order).value.seats
       <==> SeatKey(u, s) in a.seats && !MovedFrom(a, ms, order, s, u)
    decreases |ms|
  {
    if ms != [] {
      assert ms[0] in ms;
      StillAwaiting(a, ms, order);
      FirstMoves(a, ms, order, u);
      MovedFromShifts(a, ms, order, s, u);
      CarryAllLeaves(CarryOver(a, ms[0], order).value, ms[1..], order, s, u);
    }
  }

  lemma SyncElsewhere(b: Congregation, role: int)
    requires UniqueIds(b.rows) && IdOfKey(b.rows, Committee) != Some(role)
    ensures SameSeatsOn(b, Sync(b), role)
  {
    SyncEffect(b);
    forall u ensures SeatKey(u, role) in b.seats <==> SeatKey(u, role) in Sync(b).seats {
    }
  }

  lemma AdoptedState(a: Congregation, choices: seq<Choice>, order: Listing, actor: set<Permission>)
    requires Adopt(a, choices, order, actor).0.Adopted?
    ensures CheckChoices(choices, {}).Adopted? && Resolve(a.rows, choices).0.Adopted?
    ensures FindKey(a.rows, Committee).Some?
    ensures BeforeSync(a, FindKey(a.rows, Committee).value, choices, order).Some?
    ensures Adopt(a, choices, order, actor).1
            == Sync(BeforeSync(a, FindKey(a.rows, Committee).value, choices, order).value)
  {
  }

  lemma ResolvedAwait(a: Congregation, choices: seq<Choice>)
    requires UniqueIds(a.rows) && UniqueKeys(a.rows) && AppointedVacant(a)
    requires CheckChoices(choices, {}).Adopted? && Resolve(a.rows, choices).0.Adopted?
    ensures Awaiting(a, Resolve(a.rows, choices).1)
  {
    var ms := Resolve(a.rows, choices).1;
    ReadyToFill(a, choices);
    ResolvedMappings(a.rows, choices, {});
    forall m, n | m in ms && n in ms ensures m.source.id != n.target.id {
      if m.source.id == n.target.id { SameIdSameRow(a.rows, m.source, n.target); }
    }
  }

  /** The chart with the committee placed, from which the mappings are carried over one by one. */
  ghost function WithCommittee(a: Congregation): Congregation
    requires FindKey(a.rows, Committee).Some?
  {
    a.(rows := PlaceCommittee(a.rows, FindKey(a.rows, Committee).value))
  }

  /**
   Each mapped post ends led by exactly the account its mapping moves: in the state the mappings before it led to,
   the old role's leader or else its first holder. A role taken over twice hands over twice.
   */
  lemma PostsTakeTheirHolders(
      a: Congregation, choices: seq<Choice>, order: Listing, actor: set<Permission>, i: nat, u: int)
    requires UniqueIds(a.rows) && UniqueKeys(a.rows) && AppointedVacant(a)
    requires Adopt(a, choices, order, actor).0.Adopted? && i < |Resolve(a.rows, choices).1|
    ensures FindKey(a.rows, Committee).Some?
    ensures var m := Resolve(a.rows, choices).1[i];
            !m.target.key.Committee? ==>
              (LeadsSeat(Adopt(a, choices, order, actor).1.seats, u, m.target.id)
               <==> MovedBy(WithCommittee(a), Resolve(a.rows, choices).1, order, i, u))
  {
    AdoptedState(a, choices, order, actor);
    var c, ms := FindKey(a.rows, Committee).value, Resolve(a.rows, choices).1;
    ResolvedAwait(a, choices);
    ResolvedMappings(a.rows, choices, {});
    FilledPosts(a, c, choices, order);
    var b := BeforeSync(a, c, choices, order).value;
    SamePeopleKeys(a.rows, b.rows);
    CarryAllFillsPost(WithCommittee(a), ms, order, i, u);
    assert ms[i] in ms;
    if !ms[i].target.key.Committee? {
      AppointedApart(a.rows, ms[i]);
      SyncElsewhere(b, ms[i].target.id);
    }
  }

  // ----- a takeover leaves no post empty -----

  /** Every query lists each account seated on the role it asks about. */
  ghost predicate ListsHolders(a: Congregation, ms: seq<Mapping>, order: Listing) {
    forall m, u | m in ms && SeatKey(u, m.source.id) in a.seats :: u in order(m.target.id)
  }

  lemma {:induction false} FirstIsFound(order: seq<int>, among: set<int>)
    ensures FirstIn(order, among).Some? ==> FirstIn(order, among).value in among
    ensures FirstIn(order, among).None? ==> forall u | u in order :: u !in among
  {
    if order != [] && order[0] !in among { FirstIsFound(order[1..], among); }
  }

  /** With every holder listed, the one that moves is a leader if there is one, and some holder if there is one. */
  lemma IncomingIsAHolder(b: Congregation, s: int, order: seq<int>)
    requires forall u | SeatKey(u, s) in b.seats :: u in order
    ensures Incoming(b, s, order).Some? <==> HoldersOfRole(b, s) != {}
    ensures Incoming(b, s, order).Some? && Leaders(b, s) != {} ==> Incoming(b, s, order).value in Leaders(b, s)
  {
    FirstIsFound(order, Leaders(b, s));
    FirstIsFound(order, HoldersOfRole(b, s));
    forall u | u in HoldersOfRole(b, s) || u in Leaders(b, s) ensures u in order {
      assert SeatKey(u, s) in b.seats;
    }
  }

  lemma {:induction false} CarryAllPrefix(a: Congregation, ms: seq<Mapping>, order: Listing, i: nat)
    requires CarryAll(a, ms, order).Some? && i <= |ms|
    ensures CarryAll(a, ms[..i], order).Some?
    decreases i
  {
    if i > 0 {
      CarryAllPrefix(CarryOver(a, ms[0], order).value, ms[1..], order, i - 1);
      StageShifts(a, ms, order, i);
    }
  }

  /** On a role that is taken over, nobody is seated whom the queries do not list, at any stage. */
  lemma StageIsListed(a: Congregation, ms: seq<Mapping>, order: Listing, i: nat)
    requires CarryAll(a, ms, order).Some? && Awaiting(a, ms) && i < |ms| && ListsHolders(a, ms, order)
    ensures CarryAll(a, ms[..i], order).Some?
    ensures forall u | SeatKey(u, ms[i].source.id) in CarryAll(a, ms[..i], order).value.seats ::
              u in order(ms[i].target.id)
  {
    CarryAllPrefix(a, ms, order, i);
    assert ms[i] in ms && forall m | m in ms[..i] :: m in ms;
    forall u | SeatKey(u, ms[i].source.id) in CarryAll(a, ms[..i], order).value.seats
      ensures u in order(ms[i].target.id) {
      CarryAllLeaves(a, ms[..i], order, ms[i].source.id, u);
    }
  }

  /** The post is led by somebody exactly when the role had a holder, and by one of its leaders if it had any. */
  ghost predicate FilledFrom(stage: Congregation, b: Congregation, source: int, post: int) {
    && ((exists u :: LeadsSeat(b.seats, u, post)) <==> HoldersOfRole(stage, source) != {})
    && (Leaders(stage, source) != {} ==> forall u | LeadsSeat(b.seats, u, post) :: u in Leaders(stage, source))
  }

  lemma IncomingFills(stage: Congregation, b: Congregation, source: int, post: int, order: seq<int>)
    requires forall u | SeatKey(u, source) in stage.seats :: u in order
    requires forall u :: LeadsSeat(b.seats, u, post) <==> Incoming(stage, source, order) == Some(u)
    ensures FilledFrom(stage, b, source, post)
  {
    IncomingIsAHolder(stage, source, order);
    if Incoming(stage, source, order).Some? {
      assert LeadsSeat(b.seats, Incoming(stage, source, order).value, post);
    }
  }

  lemma FilledStage(a: Congregation, choices: seq<Choice>, order: Listing, actor: set<Permission>, i: nat,
      ms: seq<Mapping>, b: Congregation)
    requires UniqueIds(a.rows) && UniqueKeys(a.rows) && AppointedVacant(a)
    requires Adopt(a, choices, order, actor) == (Adopted, b) && Resolve(a.rows, choices).1 == ms && i < |ms|
    requires FindKey(a.rows, Committee).Some? && CarryAll(WithCommittee(a), ms[..i], order).Some?
    requires !ms[i].target.key.Committee?
    requires forall u | SeatKey(u, ms[i].source.id) in CarryAll(WithCommittee(a), ms[..i], order).value.seats ::
               u in order(ms[i].target.id)
    ensures FilledFrom(CarryAll(WithCommittee(a), ms[..i], order).value, b, ms[i].source.id, ms[i].target.id)
  {
    var m, stage := ms[i], CarryAll(WithCommittee(a), ms[..i], order).value;
    forall u ensures LeadsSeat(b.seats, u, m.target.id)
                 <==> Incoming(stage, m.source.id, order(m.target.id)) == Some(u) {
      PostsTakeTheirHolders(a, choices, order, actor, i, u);
    }
    IncomingFills(stage, b, m.source.id, m.target.id, order(m.target.id));
  }

  /**
   A post that takes a role over ends without a titulaire only when nobody is left on that role, and with one of the
   role's leaders if it has any: whatever order each query lists the accounts in.
   */
  lemma TakenPostsAreFilled(a: Congregation, choices: seq<Choice>, order: Listing, actor: set<Permission>, i: nat)
    requires UniqueIds(a.rows) && UniqueKeys(a.rows) && AppointedVacant(a)
    requires Adopt(a, choices, order, actor).0.Adopted? && i < |Resolve(a.rows, choices).1|
    requires ListsHolders(a, Resolve(a.rows, choices).1, order)
    ensures FindKey(a.rows, Committee).Some?
    ensures CarryAll(WithCommittee(a), Resolve(a.rows, choices).1[..i], order).Some?
    ensures var m := Resolve(a.rows, choices).1[i];
            var stage := CarryAll(WithCommittee(a), Resolve(a.rows, choices).1[..i], order).value;
            !m.target.key.Committee? ==>
              FilledFrom(stage, Adopt(a, choices, order, actor).1, m.source.id, m.target.id)
  {
    AdoptedState(a, choices, order, actor);
    ResolvedAwait(a, choices);
    StageIsListed(WithCommittee(a), Resolve(a.rows, choices).1, order, i);
    if !Resolve(a.rows, choices).1[i].target.key.Committee? {
      FilledStage(a, choices, order, actor, i, Resolve(a.rows, choices).1, Adopt(a, choices, order, actor).1);
    }
  }

  // ----- who stays -----

  /** An account ends on a role that is neither post nor committee exactly when it was there and no mapping moved it. */
  lemma OthersStayBehind(
      a: Congregation, choices: seq<Choice>, order: Listing, actor: set<Permission>, s: Role, u: int)
    requires UniqueIds(a.rows) && UniqueKeys(a.rows) && AppointedVacant(a) && s in a.rows && !IsAppointed(s.key)
    requires Adopt(a, choices, order, actor).0.Adopted?
    ensures FindKey(a.rows, Committee).Some?
    ensures SeatKey(u, s.id) in Adopt(a, choices, order, actor).1.seats
       <==> SeatKey(u, s.id) in a.seats && !MovedFrom(WithCommittee(a), Resolve(a.rows, choices).1, order, s.id, u)
  {
    AdoptedState(a, choices, order, actor);
    var c, ms := FindKey(a.rows, Committee).value, Resolve(a.rows, choices).1;
    ResolvedAwait(a, choices);
    ResolvedMappings(a.rows, choices, {});
    FilledPosts(a, c, choices, order);
    var b := BeforeSync(a, c, choices, order).value;
    SamePeopleKeys(a.rows, b.rows);
    forall m | m in ms ensures m.target.id != s.id {
      if m.target.id == s.id { SameIdSameRow(a.rows, m.target, s); }
    }
    CarryAllLeaves(WithCommittee(a), ms, order, s.id, u);
    NotTheCommittee(a.rows, s);
    SyncElsewhere(b, s.id);
  }

  lemma NotTheCommittee(rows: seq<Role>, s: Role)
    requires UniqueIds(rows) && s in rows && !IsAppointed(s.key)
    ensures IdOfKey(rows, Committee) != Some(s.id)
  {
    if IdOfKey(rows, Committee) == Some(s.id) { SameIdSameRow(rows, s, FindKey(rows, Committee).value); }
  }
}
