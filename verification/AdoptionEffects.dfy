/** What an adoption decides, and exactly what it leaves of rows, grants and seats. */
module AdoptionEffects {
  import opened Lists
  import opened Roles
  import opened Tree
  import opened Chart
  import opened Access
  import opened Adoption
  import opened AdoptedTree
  import opened AccessRules
  import Seats

  predicate IsFixed(key: Key) { key in {Committee, Coordinator, Secretary, ServiceOverseer} }

  // ----- the choices -----

  /** The choice names the committee or one of its posts, and none named before. */
  ghost predicate FineAt(choices: seq<Choice>, seen: set<Key>, i: int)
    requires 0 <= i < |choices|
  {
    && IsFixed(choices[i].post) && choices[i].post !in seen
    && forall j | 0 <= j < i :: choices[j].post != choices[i].post
  }

  /** All are fine, or the first that is not says why: no post of the committee, or one named before. */
  lemma {:induction false} ChoicesAreRight(choices: seq<Choice>, seen: set<Key>)
    ensures CheckChoices(choices, seen).Adopted? <==> forall i | 0 <= i < |choices| :: FineAt(choices, seen, i)
    ensures CheckChoices(choices, seen).Rejected? ==>
              exists i | 0 <= i < |choices| ::
                && !FineAt(choices, seen, i) && (forall j | 0 <= j < i :: FineAt(choices, seen, j))
                && CheckChoices(choices, seen).why == if IsFixed(choices[i].post) then DuplicatePost else UnknownPost
  {
    if choices != [] {
      if FineAt(choices, seen, 0) {
        var rest, met := choices[1..], seen + {choices[0].post};
        ChoicesAreRight(rest, met);
        forall i | 0 <= i < |rest| ensures FineAt(choices, seen, i + 1) <==> FineAt(rest, met, i) {
          FineLater(choices, seen, i);
        }
        if CheckChoices(choices, seen).Rejected? {
          var i :| 0 <= i < |rest| && !FineAt(rest, met, i) && (forall j | 0 <= j < i :: FineAt(rest, met, j))
                   && CheckChoices(rest, met).why == if IsFixed(rest[i].post) then DuplicatePost else UnknownPost;
          forall j | 0 <= j < i + 1 ensures FineAt(choices, seen, j) {
            if j > 0 { assert FineAt(rest, met, j - 1); }
          }
          assert rest[i] == choices[i + 1];
        } else {
          forall i | 0 <= i < |choices| ensures FineAt(choices, seen, i) {
            if i > 0 { assert FineAt(rest, met, i - 1); }
          }
        }
      } else {
        assert !FineAt(choices, seen, 0);
      }
    }
  }

  lemma FineLater(choices: seq<Choice>, seen: set<Key>, i: int)
    requires choices != [] && 0 <= i < |choices| - 1
    ensures FineAt(choices, seen, i + 1) <==> FineAt(choices[1..], seen + {choices[0].post}, i)
  {
    var rest := choices[1..];
    forall j | 0 <= j < i ensures rest[j] == choices[j + 1] {
    }
    if FineAt(rest, seen + {choices[0].post}, i) {
      forall j | 0 <= j < i + 1 ensures choices[j].post != choices[i + 1].post {
        if j > 0 { assert rest[j - 1].post != rest[i].post; }
      }
    }
  }

  // ----- the mappings -----

  /** A choice without a role to take over, or one whose post and role exist, the role being no post itself. */
  ghost predicate Resolvable(rows: seq<Role>, choice: Choice) {
    choice.from.Some? ==>
      && (exists t :: t in rows && t.key == choice.post)
      && (exists s :: s in rows && s.id == choice.from.value && !IsFixed(s.key))
  }

  ghost predicate NothingThere(rows: seq<Role>, choice: Choice)
    requires choice.from.Some?
  {
    (forall t | t in rows :: t.key != choice.post) || (forall s | s in rows :: s.id != choice.from.value)
  }

  ghost predicate IsMappingOf(rows: seq<Role>, m: Mapping, choice: Choice) {
    && m.target in rows && m.target.key == choice.post
    && m.source in rows && choice.from == Some(m.source.id) && !IsFixed(m.source.key)
  }

  /** The mappings are those of the choices at these places, in order, and no other choice takes a role over. */
  ghost predicate MappedAt(rows: seq<Role>, choices: seq<Choice>, ms: seq<Mapping>, at: seq<int>) {
    && |at| == |ms|
    && (forall k | 0 <= k < |at| :: 0 <= at[k] < |choices| && IsMappingOf(rows, ms[k], choices[at[k]]))
    && (forall k, l | 0 <= k < l < |at| :: at[k] < at[l])
    && (forall i | 0 <= i < |choices| :: choices[i].from.Some? <==> i in at)
  }

  function OneLater(at: seq<int>): (later: seq<int>)
    ensures |later| == |at| && forall k | 0 <= k < |at| :: later[k] == at[k] + 1
  {
    seq(|at|, k requires 0 <= k < |at| => at[k] + 1)
  }

  lemma LaterPlaces(choices: seq<Choice>, at: seq<int>, i: int)
    requires choices != [] && 0 < i < |choices|
    requires choices[1..][i - 1].from.Some? <==> i - 1 in at
    ensures choices[i].from.Some? <==> i in OneLater(at)
  {
    if i - 1 in at {
      var k :| 0 <= k < |at| && at[k] == i - 1;
      assert OneLater(at)[k] == i;
    }
  }

  lemma MappedLater(rows: seq<Role>, choices: seq<Choice>, ms: seq<Mapping>, at: seq<int>)
    requires choices != [] && MappedAt(rows, choices[1..], ms, at)
    ensures choices[0].from.None? ==> MappedAt(rows, choices, ms, OneLater(at))
    ensures forall m | IsMappingOf(rows, m, choices[0]) :: MappedAt(rows, choices, [m] + ms, [0] + OneLater(at))
  {
    var later := OneLater(at);
    forall k | 0 <= k < |at| ensures 0 < later[k] < |choices| && IsMappingOf(rows, ms[k], choices[later[k]]) {
      assert choices[1..][at[k]] == choices[later[k]];
    }
    forall i | 0 < i < |choices| ensures choices[i].from.Some? <==> i in later { LaterPlaces(choices, at, i); }
    forall m | IsMappingOf(rows, m, choices[0]) ensures MappedAt(rows, choices, [m] + ms, [0] + later) {
      FirstMapped(rows, choices, m, ms, later);
    }
  }

  lemma FirstMapped(rows: seq<Role>, choices: seq<Choice>, m: Mapping, ms: seq<Mapping>, later: seq<int>)
    requires choices != [] && IsMappingOf(rows, m, choices[0]) && |later| == |ms|
    requires forall k | 0 <= k < |later| :: 0 < later[k] < |choices| && IsMappingOf(rows, ms[k], choices[later[k]])
    requires forall k, l | 0 <= k < l < |later| :: later[k] < later[l]
    requires forall i | 0 < i < |choices| :: choices[i].from.Some? <==> i in later
    ensures MappedAt(rows, choices, [m] + ms, [0] + later)
  {
    var at, all := [0] + later, [m] + ms;
    forall k | 0 <= k < |at| ensures 0 <= at[k] < |choices| && IsMappingOf(rows, all[k], choices[at[k]]) {
      if k > 0 { assert at[k] == later[k - 1] && all[k] == ms[k - 1]; }
    }
    assert at[0] == 0;
    forall i | 0 <= i < |choices| ensures choices[i].from.Some? <==> i in at {
    }
  }

  /** Each choice that takes a role over is a mapping, and they come in the order of the choices. */
  lemma {:induction false} MappingsAreRight(rows: seq<Role>, choices: seq<Choice>) returns (at: seq<int>)
    requires Resolve(rows, choices).0.Adopted?
    ensures MappedAt(rows, choices, Resolve(rows, choices).1, at)
  {
    if choices == [] {
      at := [];
    } else {
      var rest := MappingsAreRight(rows, choices[1..]);
      MappedLater(rows, choices, Resolve(rows, choices[1..]).1, rest);
      at := if choices[0].from.Some? then [0] + OneLater(rest) else OneLater(rest);
    }
  }

  lemma {:induction false} ResolutionIsRight(rows: seq<Role>, choices: seq<Choice>)
    requires UniqueIds(rows)
    ensures Resolve(rows, choices).0.Adopted? <==> forall i | 0 <= i < |choices| :: Resolvable(rows, choices[i])
    ensures Resolve(rows, choices).0.Rejected? ==>
              exists i | 0 <= i < |choices| ::
                && !Resolvable(rows, choices[i]) && (forall j | 0 <= j < i :: Resolvable(rows, choices[j]))
                && Resolve(rows, choices).0.why == if NothingThere(rows, choices[i]) then RoleMissing else CannotTake
  {
    if choices != [] {
      var rest := choices[1..];
      ResolutionIsRight(rows, rest);
      FirstResolves(rows, choices);
      forall i | 0 <= i < |rest| ensures rest[i] == choices[i + 1] {
      }
      if Resolvable(rows, choices[0]) && Resolve(rows, rest).0.Rejected? {
        var i :| 0 <= i < |rest| && !Resolvable(rows, rest[i]) && (forall j | 0 <= j < i :: Resolvable(rows, rest[j]))
                 && Resolve(rows, rest).0.why == if NothingThere(rows, rest[i]) then RoleMissing else CannotTake;
        forall j | 0 <= j < i + 1 ensures Resolvable(rows, choices[j]) {
          if j > 0 { assert Resolvable(rows, rest[j - 1]); }
        }
        assert !Resolvable(rows, choices[i + 1]);
      } else if !Resolvable(rows, choices[0]) {
        assert !Resolvable(rows, choices[0]);
      } else {
        forall i | 0 <= i < |choices| ensures Resolvable(rows, choices[i]) {
          if i > 0 { assert Resolvable(rows, rest[i - 1]); }
        }
      }
    }
  }

  lemma FirstResolves(rows: seq<Role>, choices: seq<Choice>)
    requires UniqueIds(rows) && choices != []
    ensures Resolvable(rows, choices[0]) ==> Resolve(rows, choices).0 == Resolve(rows, choices[1..]).0
    ensures !Resolvable(rows, choices[0]) ==>
              Resolve(rows, choices).0 == Rejected(if NothingThere(rows, choices[0]) then RoleMissing else CannotTake)
  {
    var choice := choices[0];
    if choice.from.Some? {
      var source := Find(rows, choice.from.value);
      if source.Some? {
        forall s | s in rows && s.id == choice.from.value ensures s == source.value {
          SameIdSameRow(rows, s, source.value);
        }
      }
    }
  }

  // ----- the verdict -----

  /** The actor holds what the roles involved grant: the committee, the posts and the roles taken over. */
  ghost predicate MayCarry(a: Congregation, ms: seq<Mapping>, committee: int, actor: set<Permission>) {
    CanDoAnything in actor || forall role, p | IsInvolved(ms, committee, role) && Grants(a, role, p) :: p in actor
  }

  ghost predicate IsInvolved(ms: seq<Mapping>, committee: int, role: int) {
    role == committee || exists m :: m in ms && (m.target.id == role || m.source.id == role)
  }

  lemma InvolvedAre(a: Congregation, ms: seq<Mapping>, committee: int, actor: set<Permission>)
    ensures HoldsRoles(a, actor, Involved(ms, committee)) <==> MayCarry(a, ms, committee, actor)
  {
    assert forall r :: r in Involved(ms, committee) <==> IsInvolved(ms, committee, r);
    if HoldsRoles(a, actor, Involved(ms, committee)) && CanDoAnything !in actor {
      forall role, p | IsInvolved(ms, committee, role) && Grants(a, role, p) ensures p in actor {
        assert Granted(a, role) <= actor && p in Granted(a, role);
      }
    }
    if MayCarry(a, ms, committee, actor) && CanDoAnything !in actor {
      forall r | r in Involved(ms, committee) ensures Granted(a, r) <= actor {
        forall p | p in Granted(a, r) ensures p in actor { assert Grants(a, r, p); }
      }
    }
  }

  /** On vacant posts: refused for its choices, without a committee, on one in place, for its mappings, or by limits. */
  lemma AdoptionIsRight(a: Congregation, choices: seq<Choice>, order: Listing, actor: set<Permission>)
    requires UniqueIds(a.rows) && UniqueKeys(a.rows) && AppointedVacant(a)
    ensures var v, checked := Adopt(a, choices, order, actor).0, CheckChoices(choices, {});
            var (resolved, ms) := Resolve(a.rows, choices);
            if checked.Rejected? then v == checked
            else if forall c | c in a.rows :: !c.key.Committee? then v == Rejected(RoleMissing)
            else forall c | c in a.rows && c.key.Committee? ::
              v == if c.onChart then Rejected(AlreadyAdopted)
                   else if resolved.Rejected? then resolved
                   else if ms != [] && !MayCarry(a, ms, c.id, actor) then Rejected(NotHeld)
                   else Adopted
  {
    AdoptionKeepsPeople(a, choices, order, actor);
    forall c | c in a.rows && c.key.Committee? ensures FindKey(a.rows, Committee) == Some(c) {
      UniqueKeyRow(a.rows, FindKey(a.rows, Committee).value, c);
    }
    forall c | c in a.rows && c.key.Committee?
      ensures HoldsRoles(a, actor, Involved(Resolve(a.rows, choices).1, c.id))
         <==> MayCarry(a, Resolve(a.rows, choices).1, c.id, actor) {
      InvolvedAre(a, Resolve(a.rows, choices).1, c.id, actor);
    }
  }

  // ----- rows -----

  /** The committee under the elders, its posts inside it in order; every other row stays. */
  function PlacedInto(r: Role, elder: Option<int>, committee: int): Role {
    match r.key
    case Committee => r.(onChart := true, parent := elder, order := Some(5))
    case Coordinator => r.(onChart := true, parent := Some(committee), order := Some(5))
    case Secretary => r.(onChart := true, parent := Some(committee), order := Some(10))
    case ServiceOverseer => r.(onChart := true, parent := Some(committee), order := Some(15))
    case _ => r
  }

  /** The first role that hands over to a post decides. */
  lemma {:induction false} TargetIsFirst(ms: seq<Mapping>, s: int)
    ensures TargetOf(ms, s).None? ==> forall m | m in ms :: m.source.id != s
    ensures TargetOf(ms, s).Some? ==>
              exists i | 0 <= i < |ms| :: ms[i].source.id == s && TargetOf(ms, s) == Some(ms[i].target.id)
                                          && forall j | 0 <= j < i :: ms[j].source.id != s
  {
    if ms != [] && ms[0].source.id != s {
      TargetIsFirst(ms[1..], s);
      if TargetOf(ms, s).Some? {
        var i :| 0 <= i < |ms[1..]| && ms[1..][i].source.id == s && TargetOf(ms, s) == Some(ms[1..][i].target.id)
                 && forall j | 0 <= j < i :: ms[1..][j].source.id != s;
        assert ms[i + 1] == ms[1..][i];
        forall j | 0 <= j < i + 1 ensures ms[j].source.id != s {
          if j > 0 { assert ms[1..][j - 1] == ms[j]; }
        }
      }
    }
  }

  /** A role taken over leaves the chart; what hung under one hangs under its post; every other row stays. */
  function CarriedRow(ms: seq<Mapping>, r: Role): Role {
    if TargetOf(ms, r.id).Some? then r.(onChart := false, parent := None, order := None)
    else if r.parent.Some? && TargetOf(ms, r.parent.value).Some? then r.(parent := TargetOf(ms, r.parent.value))
    else r
  }

  lemma TargetUnfolds(ms: seq<Mapping>, x: int)
    requires ms != []
    ensures TargetOf(ms, x) == if ms[0].source.id == x then Some(ms[0].target.id) else TargetOf(ms[1..], x)
  {
  }

  lemma CarriedOnce(ms: seq<Mapping>, r: Role)
    requires ms != [] && TargetOf(ms[1..], ms[0].target.id).None? && ms[0].source.id != ms[0].target.id
    ensures CarriedRow(ms[1..], RehungRow(r, ms[0].source.id, ms[0].target.id)) == CarriedRow(ms, r)
  {
    TargetUnfolds(ms, r.id);
    if r.parent.Some? { TargetUnfolds(ms, r.parent.value); }
  }

  lemma {:induction false} CarriedRows(a: Congregation, ms: seq<Mapping>, order: Listing)
    requires CarryAll(a, ms, order).Some? && forall m, n | m in ms && n in ms :: m.source.id != n.target.id
    ensures |CarryAll(a, ms, order).value.rows| == |a.rows|
    ensures forall i | 0 <= i < |a.rows| :: CarryAll(a, ms, order).value.rows[i] == CarriedRow(ms, a.rows[i])
    decreases |ms|
  {
    if ms != [] {
      var b := CarryOver(a, ms[0], order).value;
      assert ms[0] in ms && forall m | m in ms[1..] :: m in ms;
      CarriedRows(b, ms[1..], order);
      TargetIsFirst(ms[1..], ms[0].target.id);
      forall i | 0 <= i < |a.rows| ensures CarriedRow(ms[1..], b.rows[i]) == CarriedRow(ms, a.rows[i]) {
        CarriedOnce(ms, a.rows[i]);
      }
    }
  }

  lemma PostIsPut(rows: seq<Role>, from: seq<Role>, key: Key, committee: int, order: int, i: int)
    requires UniqueIds(from) && UniqueKeys(from) && SamePeople(from, rows) && 0 <= i < |from|
    ensures |PlacePost(rows, from, key, committee, order)| == |rows|
    ensures PlacePost(rows, from, key, committee, order)[i]
         == if from[i].key == key then from[i].(onChart := true, parent := Some(committee), order := Some(order))
            else rows[i]
  {
    assert from[i] in from;
    if FindKey(from, key).Some? {
      var p := FindKey(from, key).value;
      if from[i].key == key { UniqueKeyRow(from, from[i], p); }
      if from[i].id == p.id { SameIdSameRow(from, from[i], p); }
    }
  }

  lemma CommitteeIsPut(rows: seq<Role>, c: Role, elder: Option<int>, i: int)
    requires UniqueIds(rows) && UniqueKeys(rows) && c in rows && c.key.Committee? && 0 <= i < |rows|
    ensures Put(rows, PlacedAt(c, elder, 5))[i]
         == if rows[i].key.Committee? then rows[i].(onChart := true, parent := elder, order := Some(5)) else rows[i]
    ensures SamePeople(rows, Put(rows, PlacedAt(c, elder, 5)))
  {
    PutSamePeople(rows, rows, c, PlacedAt(c, elder, 5));
    assert rows[i] in rows;
    if rows[i].id == c.id { SameIdSameRow(rows, rows[i], c); }
    if rows[i].key.Committee? { UniqueKeyRow(rows, rows[i], c); }
  }

  /** Placement, row by row. */
  lemma PlacementIsExact(rows: seq<Role>, c: Role, i: int)
    requires UniqueIds(rows) && UniqueKeys(rows) && FindKey(rows, Committee) == Some(c) && 0 <= i < |rows|
    ensures |PlaceCommittee(rows, c)| == |rows|
    ensures PlaceCommittee(rows, c)[i] == PlacedInto(rows[i], IdOfKey(rows, Elder), c.id)
  {
    var elder := IdOfKey(rows, Elder);
    CommitteeIsPut(rows, c, elder, i);
    ThreePostsPut(rows, Put(rows, PlacedAt(c, elder, 5)), c.id, elder, i);
    assert ORDER_STEP == 5;
  }

  lemma ThreePostsPut(rows: seq<Role>, r0: seq<Role>, committee: int, elder: Option<int>, i: int)
    requires UniqueIds(rows) && UniqueKeys(rows) && SamePeople(rows, r0) && 0 <= i < |rows|
    requires r0[i] == if rows[i].key.Committee? then rows[i].(onChart := true, parent := elder, order := Some(5))
                      else rows[i]
    ensures var r1 := PlacePost(r0, rows, Coordinator, committee, 5);
            var r2 := PlacePost(r1, rows, Secretary, committee, 10);
            var r3 := PlacePost(r2, rows, ServiceOverseer, committee, 15);
            |r3| == |rows| && r3[i] == PlacedInto(rows[i], elder, committee)
  {
    var r1 := PlacePost(r0, rows, Coordinator, committee, 5);
    var r2 := PlacePost(r1, rows, Secretary, committee, 10);
    PlacePostSamePeople(r0, rows, Coordinator, committee, 5);
    PlacePostSamePeople(r1, rows, Secretary, committee, 10);
    PostIsPut(r0, rows, Coordinator, committee, 5, i);
    PostIsPut(r1, rows, Secretary, committee, 10, i);
    PostIsPut(r2, rows, ServiceOverseer, committee, 15, i);
  }

  /** Every row after the adoption, from the row before it and the mappings. */
  lemma AdoptedRows(a: Congregation, choices: seq<Choice>, order: Listing, actor: set<Permission>)
    requires UniqueIds(a.rows) && UniqueKeys(a.rows) && AppointedVacant(a)
    requires Adopt(a, choices, order, actor).0.Adopted?
    ensures FindKey(a.rows, Committee).Some? && |Adopt(a, choices, order, actor).1.rows| == |a.rows|
    ensures forall i | 0 <= i < |a.rows| ::
              Adopt(a, choices, order, actor).1.rows[i]
              == CarriedRow(Resolve(a.rows, choices).1,
                            PlacedInto(a.rows[i], IdOfKey(a.rows, Elder), FindKey(a.rows, Committee).value.id))
  {
    AdoptedState(a, choices, order, actor);
    ResolvedAwait(a, choices);
    AdoptedRowsOf(a, Resolve(a.rows, choices).1, FindKey(a.rows, Committee).value, order);
  }

  lemma AdoptedRowsOf(a: Congregation, ms: seq<Mapping>, c: Role, order: Listing)
    requires UniqueIds(a.rows) && UniqueKeys(a.rows) && FindKey(a.rows, Committee) == Some(c)
    requires CarryAll(a.(rows := PlaceCommittee(a.rows, c)), ms, order).Some?
    requires forall m, n | m in ms && n in ms :: m.source.id != n.target.id
    ensures var b := Sync(CarryAll(a.(rows := PlaceCommittee(a.rows, c)), ms, order).value);
            && |b.rows| == |a.rows|
            && forall i | 0 <= i < |a.rows| ::
                 b.rows[i] == CarriedRow(ms, PlacedInto(a.rows[i], IdOfKey(a.rows, Elder), c.id))
  {
    var p := a.(rows := PlaceCommittee(a.rows, c));
    CarriedRows(p, ms, order);
    PlaceSamePeople(a.rows, c);
    forall i | 0 <= i < |a.rows| ensures p.rows[i] == PlacedInto(a.rows[i], IdOfKey(a.rows, Elder), c.id) {
      PlacementIsExact(a.rows, c, i);
    }
  }

  // ----- grants and seats -----

  /** A role grants what it did, and what any role it took over does. */
  ghost predicate GrantsCarried(a: Congregation, b: Congregation, ms: seq<Mapping>) {
    forall r, p :: Grants(b, r, p) <==>
      Grants(a, r, p) || exists m :: m in ms && m.target.id == r && Grants(a, m.source.id, p)
  }

  lemma GrantsOfOne(a: Congregation, m: Mapping, order: Listing, r: int, p: Permission)
    requires CarryOver(a, m, order).Some?
    ensures Grants(CarryOver(a, m, order).value, r, p)
       <==> Grants(a, r, p) || (m.target.id == r && Grants(a, m.source.id, p))
  {
  }

  lemma {:induction false} GrantsAreCarried(a: Congregation, ms: seq<Mapping>, order: Listing)
    requires CarryAll(a, ms, order).Some? && forall m, n | m in ms && n in ms :: m.source.id != n.target.id
    ensures GrantsCarried(a, CarryAll(a, ms, order).value, ms)
    decreases |ms|
  {
    if ms != [] {
      var b, d := CarryOver(a, ms[0], order).value, CarryAll(a, ms, order).value;
      assert ms[0] in ms && forall m | m in ms[1..] :: m in ms;
      GrantsAreCarried(b, ms[1..], order);
      forall r, p
        ensures Grants(b, r, p) <==> Grants(a, r, p) || (ms[0].target.id == r && Grants(a, ms[0].source.id, p)) {
        GrantsOfOne(a, ms[0], order, r, p);
      }
      forall r, p ensures Grants(d, r, p)
                     <==> Grants(a, r, p) || exists m :: m in ms && m.target.id == r && Grants(a, m.source.id, p) {
        if m :| m in ms[1..] && m.target.id == r && Grants(b, m.source.id, p) {
          assert Grants(a, m.source.id, p);
        }
        if m :| m in ms && m.target.id == r && Grants(a, m.source.id, p) {
          if m != ms[0] { assert m in ms[1..] && Grants(b, m.source.id, p); }
        }
      }
    }
  }

  /** Seats keep their kind; a new one is that of a titulaire on a post that takes a role over. */
  ghost predicate SeatsCarried(a: Congregation, b: Congregation, ms: seq<Mapping>) {
    forall s | s in b.seats ::
      if s in a.seats then b.seats[s] == a.seats[s]
      else b.seats[s].Leader? && exists m :: m in ms && m.target.id == s.role
  }

  lemma {:induction false} SeatsAreCarried(a: Congregation, ms: seq<Mapping>, order: Listing)
    requires CarryAll(a, ms, order).Some? && Awaiting(a, ms)
    ensures SeatsCarried(a, CarryAll(a, ms, order).value, ms)
    decreases |ms|
  {
    if ms != [] {
      var b, d := CarryOver(a, ms[0], order).value, CarryAll(a, ms, order).value;
      assert ms[0] in ms && forall m | m in ms[1..] :: m in ms;
      StillAwaiting(a, ms, order);
      SeatsAreCarried(b, ms[1..], order);
      forall s | s in b.seats ensures if s in a.seats then b.seats[s] == a.seats[s]
                                      else b.seats[s].Leader? && ms[0].target.id == s.role {
      }
      forall s | s in d.seats && s !in b.seats ensures s !in a.seats {
        var m :| m in ms[1..] && m.target.id == s.role;
        assert Vacant(a.seats, m.target.id);
      }
    }
  }

  // ----- who moves -----

  ghost predicate FirstWith(order: seq<int>, test: int -> bool, u: int) {
    exists i | 0 <= i < |order| :: order[i] == u && test(u) && forall j | 0 <= j < i :: !test(order[j])
  }

  ghost function LeadsOn(b: Congregation, s: int): int -> bool { (u: int) => Seats.LeadsSeat(b.seats, u, s) }

  ghost function SitsOn(b: Congregation, s: int): int -> bool { (u: int) => SeatKey(u, s) in b.seats }

  lemma {:induction false} FirstInIs(order: seq<int>, among: set<int>, test: int -> bool)
    requires forall u :: u in among <==> test(u)
    ensures FirstIn(order, among).Some? ==> FirstWith(order, test, FirstIn(order, among).value)
    ensures FirstIn(order, among).None? ==> forall u | u in order :: !test(u)
  {
    if order != [] {
      if order[0] in among {
        assert order[0] == FirstIn(order, among).value;
      } else {
        FirstInIs(order[1..], among, test);
        if FirstIn(order, among).Some? {
          var u := FirstIn(order, among).value;
          var i :| 0 <= i < |order[1..]| && order[1..][i] == u && test(u)
                   && forall j | 0 <= j < i :: !test(order[1..][j]);
          assert order[i + 1] == u;
          forall j | 0 <= j < i + 1 ensures !test(order[j]) {
            if j > 0 { assert order[j] == order[1..][j - 1]; }
          }
        }
      }
    }
  }

  /** The first leader listed moves, or with no leader listed the first account seated on the role. */
  lemma IncomingIsFirst(b: Congregation, s: int, order: seq<int>)
    ensures (exists u :: u in order && Seats.LeadsSeat(b.seats, u, s)) ==>
              Incoming(b, s, order).Some? && FirstWith(order, LeadsOn(b, s), Incoming(b, s, order).value)
    ensures (forall u | u in order :: !Seats.LeadsSeat(b.seats, u, s)) ==>
              if exists u :: u in order && SeatKey(u, s) in b.seats then
                Incoming(b, s, order).Some? && FirstWith(order, SitsOn(b, s), Incoming(b, s, order).value)
              else Incoming(b, s, order).None?
  {
    forall u ensures u in Leaders(b, s) <==> LeadsOn(b, s)(u) {
      if LeadsOn(b, s)(u) { assert SeatKey(u, s) in b.seats; }
    }
    forall u ensures u in HoldersOfRole(b, s) <==> SitsOn(b, s)(u) {
      if SitsOn(b, s)(u) { assert SeatKey(u, s) in b.seats; }
    }
    FirstInIs(order, Leaders(b, s), LeadsOn(b, s));
    FirstInIs(order, HoldersOfRole(b, s), SitsOn(b, s));
  }

  /** Nothing but rows, grants and seats changes; grants are carried, and all seats but the committee's. */
  lemma AdoptedAccess(a: Congregation, choices: seq<Choice>, order: Listing, actor: set<Permission>)
    requires UniqueIds(a.rows) && UniqueKeys(a.rows) && AppointedVacant(a)
    requires Adopt(a, choices, order, actor).0.Adopted?
    ensures var ms, b := Resolve(a.rows, choices).1, Adopt(a, choices, order, actor).1;
            && b == a.(rows := b.rows, grants := b.grants, seats := b.seats) && GrantsCarried(a, b, ms)
            && forall s | s in b.seats && IdOfKey(a.rows, Committee) != Some(s.role) ::
                 if s in a.seats then b.seats[s] == a.seats[s]
                 else b.seats[s].Leader? && exists m :: m in ms && m.target.id == s.role
  {
    AdoptedState(a, choices, order, actor);
    ResolvedAwait(a, choices);
    AdoptedAccessOf(a, Resolve(a.rows, choices).1, FindKey(a.rows, Committee).value, order);
  }

  lemma {:induction false} OnlyThreeChange(a: Congregation, ms: seq<Mapping>, order: Listing)
    requires CarryAll(a, ms, order).Some?
    ensures var b := CarryAll(a, ms, order).value; b == a.(rows := b.rows, grants := b.grants, seats := b.seats)
    decreases |ms|
  {
    if ms != [] { OnlyThreeChange(CarryOver(a, ms[0], order).value, ms[1..], order); }
  }

  lemma AdoptedAccessOf(a: Congregation, ms: seq<Mapping>, c: Role, order: Listing)
    requires UniqueIds(a.rows) && UniqueKeys(a.rows) && FindKey(a.rows, Committee) == Some(c)
    requires CarryAll(a.(rows := PlaceCommittee(a.rows, c)), ms, order).Some? && Awaiting(a, ms)
    ensures var b := Sync(CarryAll(a.(rows := PlaceCommittee(a.rows, c)), ms, order).value);
            && b == a.(rows := b.rows, grants := b.grants, seats := b.seats) && GrantsCarried(a, b, ms)
            && forall s | s in b.seats && c.id != s.role ::
                 if s in a.seats then b.seats[s] == a.seats[s]
                 else b.seats[s].Leader? && exists m :: m in ms && m.target.id == s.role
  {
    var p := a.(rows := PlaceCommittee(a.rows, c));
    var d := CarryAll(p, ms, order).value;
    OnlyThreeChange(p, ms, order);
    assert forall r, q :: Grants(p, r, q) <==> Grants(a, r, q);
    GrantsAreCarried(p, ms, order);
    SeatsAreCarried(p, ms, order);
    PlaceSamePeople(a.rows, c);
    CarryAllSamePeople(p, ms, order);
    SamePeopleChain(a.rows, p.rows, d.rows);
    SamePeopleKeys(a.rows, d.rows);
    Seats.SyncEffect(d);
    assert forall r, q :: Grants(Sync(d), r, q) <==> Grants(d, r, q);
  }
}
