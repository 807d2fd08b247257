/** The adoption as it runs: every check before the first write, then place, carry over, reconcile. */
module CommitteeAdoption {
  import opened Lists
  import opened Roles
  import opened Chart
  import opened Tree
  import opened Access
  import opened Adoption
  import opened SeatBooks

  method ValidateChoices(choices: seq<Choice>) returns (v: Ruling)
    ensures v == CheckChoices(choices, {})
  {
    var seen: set<Key> := {};
    for i := 0 to |choices|
      invariant CheckChoices(choices, {}) == CheckChoices(choices[i..], seen)
    {
      if !IsAppointed(choices[i].post) { return Rejected(UnknownPost); }
      if choices[i].post in seen { return Rejected(DuplicatePost); }
      seen := seen + {choices[i].post};
      assert choices[i..][1..] == choices[i + 1..];
    }
    v := Adopted;
  }

  method ResolveMappings(rows: seq<Role>, choices: seq<Choice>) returns (v: Ruling, mappings: seq<Mapping>)
    ensures (v, mappings) == Resolve(rows, choices)
  {
    mappings := [];
    assert choices[0..] == choices && mappings + Resolve(rows, choices).1 == Resolve(rows, choices).1;
    for i := 0 to |choices|
      invariant var (w, rest) := Resolve(rows, choices[i..]);
                Resolve(rows, choices) == if w.Rejected? then (w, []) else (Adopted, mappings + rest)
    {
      assert choices[i..][1..] == choices[i + 1..];
      if choices[i].from.Some? {
        var target, source := FindKey(rows, choices[i].post), Find(rows, choices[i].from.value);
        if target.None? || source.None? { return Rejected(RoleMissing), []; }
        if IsAppointed(source.value.key) { return Rejected(CannotTake), []; }
        var rest := Resolve(rows, choices[i + 1..]).1;
        assert mappings + ([Mapping(target.value, source.value)] + rest)
            == (mappings + [Mapping(target.value, source.value)]) + rest;
        mappings := mappings + [Mapping(target.value, source.value)];
      }
    }
    assert mappings + [] == mappings;
    v := Adopted;
  }

  /** The committee under the elders, then each post that exists inside it, 5, 10, 15. */
  method Place(rows: seq<Role>, committee: Role) returns (placed: seq<Role>)
    ensures placed == PlaceCommittee(rows, committee)
  {
    placed := Put(rows, PlacedAt(committee, IdOfKey(rows, Elder), ORDER_STEP));
    ghost var r0 := placed;
    ghost var r1 := PlacePost(r0, rows, Coordinator, committee.id, ORDER_STEP);
    ghost var r2 := PlacePost(r1, rows, Secretary, committee.id, 2 * ORDER_STEP);
    for index := 0 to |POST_KEYS|
      invariant index == 0 ==> placed == r0
      invariant index == 1 ==> placed == r1
      invariant index == 2 ==> placed == r2
      invariant index == 3 ==> placed == PlaceCommittee(rows, committee)
    {
      var post := FindKey(rows, POST_KEYS[index]);
      if post.Some? {
        placed := Put(placed, PlacedAt(post.value, Some(committee.id), (index + 1) * ORDER_STEP));
      }
    }
  }

  /** Copy the permissions, move the holder, re-hang the services, take the old role off the chart. */
  method CarryOver(book: SeatBook, m: Mapping, order: Listing) returns (ok: bool)
    modifies book`rows, book`grants, book`seats
    ensures Adoption.CarryOver(old(book.View()), m, order) == if ok then Some(book.View()) else None
  {
    var s, t := m.source.id, m.target.id;
    var permissions := Granted(book.View(), s);
    if permissions != {} {
      book.grants := book.grants[t := Granted(book.View(), t) + permissions];
    }
    if !m.target.key.Committee? {
      var incoming := Incoming(book.View(), s, order(t));
      assert Leaders(book.View(), s) == Leaders(old(book.View()), s);
      assert HoldersOfRole(book.View(), s) == HoldersOfRole(old(book.View()), s);
      if incoming.Some? {
        if SeatKey(incoming.value, t) in book.seats { return false; }
        book.seats := book.seats[SeatKey(incoming.value, t) := Leader];
        book.seats := book.seats - {SeatKey(incoming.value, s)};
      }
    }
    var rows := book.rows;
    var rehung := seq(|rows|, i requires 0 <= i < |rows| =>
      if rows[i].parent == Some(s) then rows[i].(parent := Some(t)) else rows[i]);
    book.rows := seq(|rehung|, i requires 0 <= i < |rehung| =>
      if rehung[i].id == s then rehung[i].(onChart := false, parent := None, order := None) else rehung[i]);
    assert book.rows == RehungRows(rows, s, t);
    ok := true;
  }

  method CarryOverAll(book: SeatBook, mappings: seq<Mapping>, order: Listing) returns (ok: bool)
    modifies book`rows, book`grants, book`seats
    ensures CarryAll(old(book.View()), mappings, order) == if ok then Some(book.View()) else None
  {
    assert mappings[0..] == mappings;
    for i := 0 to |mappings|
      invariant CarryAll(old(book.View()), mappings, order) == CarryAll(book.View(), mappings[i..], order)
    {
      assert mappings[i..][1..] == mappings[i + 1..];
      ok := CarryOver(book, mappings[i], order);
      if !ok { return; }
    }
    ok := true;
  }

  /** What stands before the first write: the choices, the committee, the mappings, the actor's permissions. */
  method CheckAdoption(book: SeatBook, choices: seq<Choice>, actor: set<Permission>)
    returns (v: Ruling, committee: Option<Role>, mappings: seq<Mapping>)
    ensures forall order :: v.Rejected? ==> Adopt(book.View(), choices, order, actor) == (v, book.View())
    ensures v.Adopted? ==>
      && CheckChoices(choices, {}).Adopted? && committee.Some? && FindKey(book.rows, Committee) == committee
      && !committee.value.onChart && Resolve(book.rows, choices) == (Adopted, mappings)
      && (mappings == [] || HoldsRoles(book.View(), actor, Involved(mappings, committee.value.id)))
  {
    committee, mappings := None, [];
    v := ValidateChoices(choices);
    if v.Rejected? { return; }
    committee := FindKey(book.rows, Committee);
    if committee.None? { v := Rejected(RoleMissing); return; }
    if committee.value.onChart { v := Rejected(AlreadyAdopted); return; }
    v, mappings := ResolveMappings(book.rows, choices);
    if v.Rejected? { return; }
    if mappings != [] && !HoldsRoles(book.View(), actor, Involved(mappings, committee.value.id)) {
      v := Rejected(NotHeld);
    }
  }

  /** The writes before the reconcile, in one transaction: a seat already taken undoes them all. */
  method PlaceAndCarry(book: SeatBook, committee: Role, mappings: seq<Mapping>, order: Listing) returns (ok: bool)
    modifies book`rows, book`grants, book`seats
    ensures var placed := old(book.View()).(rows := PlaceCommittee(old(book.rows), committee));
            CarryAll(placed, mappings, order) == if ok then Some(book.View()) else None
    ensures !ok ==> book.View() == old(book.View())
  {
    var rows, grants, seats := book.rows, book.grants, book.seats;
    book.rows := Place(rows, committee);
    ok := CarryOverAll(book, mappings, order);
    if !ok {
      book.rows, book.grants, book.seats := rows, grants, seats;
    }
  }

  method AdoptServiceCommittee(book: SeatBook, choices: seq<Choice>, order: Listing, actor: set<Permission>)
    returns (v: Ruling)
    modifies book`rows, book`grants, book`seats
    ensures (v, book.View()) == Adopt(old(book.View()), choices, order, actor)
  {
    var committee, mappings;
    v, committee, mappings := CheckAdoption(book, choices, actor);
    if v.Rejected? { return; }
    var ok := PlaceAndCarry(book, committee.value, mappings, order);
    if !ok { return Rejected(SeatTaken); }
    book.SyncServiceCommitteeMembers();
  }
}
