/** Charts on which an accepted adoption closes a cycle or passes the depth cap. */
module AdoptionExamples {
  import opened Lists
  import opened Graph
  import opened Roles
  import opened Chart
  import opened Access
  import opened Adoption
  import opened AdoptedTree
  import opened AdoptedDepths
  import opened AdoptedRuns
  import Runs
  import Safety

  /** A built-in role: off the chart, but for the elders. */
  function BuiltIn(i: nat): Role
    requires i < |BUILT_IN_KEYS|
  {
    var r := Runs.SeededRow(i);
    if r.key.Elder? then r.(onChart := true, order := Some(ORDER_STEP)) else r
  }

  /** The first id after the built-in roles. */
  const FIRST: int := |BUILT_IN_KEYS| + 1

  const ELDERS: int := 8
  const COMMITTEE: int := 12
  const COORDINATOR: int := 13

  function Service(i: nat, top: int): Role {
    Role(FIRST + i, Custom(seq(i + 1, _ => 'x')), "", 0, "", false, false,
         Some(if i == 0 then top else FIRST + i - 1), Some(ORDER_STEP), true)
  }

  /** The built-in roles, the elders on the chart and the committee not yet, and `n` services in a line under `top`. */
  function Line(n: nat, top: int): (rows: seq<Role>)
    ensures |rows| == |BUILT_IN_KEYS| + n
    ensures forall i | 0 <= i < |BUILT_IN_KEYS| :: rows[i] == BuiltIn(i)
    ensures forall i | 0 <= i < n :: rows[|BUILT_IN_KEYS| + i] == Service(i, top)
  {
    seq(|BUILT_IN_KEYS|, i requires 0 <= i < |BUILT_IN_KEYS| => BuiltIn(i))
    + seq(n, i requires 0 <= i < n => Service(i, top))
  }

  /** Nobody seated, nothing granted. */
  function Bare(rows: seq<Role>): Congregation {
    Congregation(rows, map[], map[], map[], {}, {}, {})
  }

  lemma LineRow(n: nat, top: int, i: nat)
    requires i < n
    ensures Service(i, top) in Line(n, top)
  {
    assert Line(n, top)[|BUILT_IN_KEYS| + i] == Service(i, top);
  }

  /** What the `i`-th row is, whichever part it is of. */
  lemma RowAt(n: nat, top: int, i: nat)
    requires i < |BUILT_IN_KEYS| + n
    ensures var r := Line(n, top)[i];
            && r.id == i + 1 && (IsBuiltInKey(r.key) <==> i < |BUILT_IN_KEYS|)
            && (IsBuiltInKey(r.key) ==> r.isBuiltIn && Runs.SeedingPlace(r.key) == i)
            && (r.key.Custom? ==> |r.key.slug| == r.id - FIRST + 1)
  {
    if i < |BUILT_IN_KEYS| {
      Runs.PlacedOnce(i);
    } else {
      assert Line(n, top)[i] == Service(i - |BUILT_IN_KEYS|, top);
    }
  }

  lemma LineIsKeyed(n: nat, top: int)
    ensures Safety.Keyed(Line(n, top))
  {
    var rows := Line(n, top);
    forall i, j | 0 <= i < j < |rows| ensures rows[i].key != rows[j].key && rows[i].id != rows[j].id {
      RowAt(n, top, i);
      RowAt(n, top, j);
    }
    forall r | r in rows && IsBuiltInKey(r.key) ensures r.isBuiltIn {
      var i :| 0 <= i < |rows| && rows[i] == r;
      RowAt(n, top, i);
    }
    forall k | IsBuiltInKey(k) ensures Safety.HasKey(rows, k) {
      assert rows[Runs.SeedingPlace(k)].key == k && rows[Runs.SeedingPlace(k)] in rows;
    }
  }

  lemma LineKeys(n: nat, top: int)
    requires UniqueKeys(Line(n, top))
    ensures FindKey(Line(n, top), Elder) == Some(BuiltIn(7))
    ensures FindKey(Line(n, top), Committee) == Some(BuiltIn(11))
    ensures FindKey(Line(n, top), Coordinator) == Some(BuiltIn(12)) && BuiltIn(12) in Line(n, top)
  {
    var rows := Line(n, top);
    assert rows[7] in rows && rows[11] in rows && rows[12] in rows;
    UniqueKeyRow(rows, FindKey(rows, Elder).value, rows[7]);
    UniqueKeyRow(rows, FindKey(rows, Committee).value, rows[11]);
    UniqueKeyRow(rows, FindKey(rows, Coordinator).value, rows[12]);
  }

  lemma ServiceIsPlaced(n: nat, top: int, i: nat)
    requires i < n && 1 <= top < FIRST
    ensures Safety.WellPlaced(Line(n, top), Service(i, top))
  {
    var rows := Line(n, top);
    if i == 0 {
      assert rows[top - 1] in rows && rows[top - 1].id == top;
    } else {
      LineRow(n, top, i - 1);
    }
  }

  ghost predicate LegacyRow(rows: seq<Role>, r: Role) {
    if IsAppointed(r.key) then !r.onChart && r.parent.None? else Safety.WellPlaced(rows, r)
  }

  lemma BuiltInIsLegacy(rows: seq<Role>, i: nat)
    requires i < |BUILT_IN_KEYS|
    ensures LegacyRow(rows, BuiltIn(i))
  {
  }

  lemma RowIsLegacy(n: nat, top: int, i: nat)
    requires i < |BUILT_IN_KEYS| + n && 1 <= top < FIRST
    ensures LegacyRow(Line(n, top), Line(n, top)[i])
  {
    if i < |BUILT_IN_KEYS| {
      BuiltInIsLegacy(Line(n, top), i);
    } else {
      assert Line(n, top)[i] == Service(i - |BUILT_IN_KEYS|, top);
      ServiceIsPlaced(n, top, i - |BUILT_IN_KEYS|);
    }
  }

  lemma RowsAreLegacy(rows: seq<Role>)
    requires Safety.Keyed(rows) && Acyclic(ParentLinks(rows)) && forall i | 0 <= i < |rows| :: LegacyRow(rows, rows[i])
    ensures Legacy(rows)
  {
    forall r | r in rows ensures LegacyRow(rows, r) {
      var i :| 0 <= i < |rows| && rows[i] == r;
    }
  }

  lemma LineIsLegacy(rows: seq<Role>, n: nat, top: int)
    requires rows == Line(n, top) && 1 <= top < FIRST && Safety.Keyed(rows) && Acyclic(ParentLinks(rows))
    ensures Legacy(rows)
  {
    forall i | 0 <= i < |rows| ensures LegacyRow(rows, rows[i]) { RowIsLegacy(n, top, i); }
    RowsAreLegacy(rows);
  }

  predicate LineLink(up: Links, top: int, i: int) {
    FIRST + i in up && up[FIRST + i] == if i == 0 then top else FIRST + i - 1
  }

  /** The links of the line: every service has its link, and nobody else has one. */
  ghost predicate LineLinks(up: Links, n: nat, top: int) {
    && top < FIRST
    && (forall i | 0 <= i < n :: LineLink(up, top, i))
    && (forall x | x in up :: FIRST <= x < FIRST + n)
  }

  lemma LineHasLink(n: nat, top: int, i: nat)
    requires i < n && UniqueIds(Line(n, top))
    ensures LineLink(ParentLinks(Line(n, top)), top, i)
  {
    LineRow(n, top, i);
    Safety.RowLink(Line(n, top), Service(i, top));
  }

  lemma LineHasLinks(n: nat, top: int)
    requires UniqueIds(Line(n, top)) && top < FIRST
    ensures LineLinks(ParentLinks(Line(n, top)), n, top)
  {
    var up, rows := ParentLinks(Line(n, top)), Line(n, top);
    forall i | 0 <= i < n ensures LineLink(up, top, i) { LineHasLink(n, top, i); }
    forall x | x in up ensures FIRST <= x < FIRST + n {
      var r :| r in rows && r.id == x && r.parent.Some?;
      var j :| 0 <= j < |rows| && rows[j] == r;
      RowAt(n, top, j);
    }
  }

  lemma LineIsAcyclic(up: Links, n: nat, top: int)
    requires LineLinks(up, n, top)
    ensures Acyclic(up)
  {
    forall x | x in up ensures up[x] < x {
      assert LineLink(up, top, x - FIRST);
    }
    RankedIsAcyclic(up, (x: int) => x);
  }

  /** The first `k + 1` ids count down from `from`. */
  predicate CountsDown(chain: seq<int>, from: int, k: nat) {
    k < |chain| && forall j | 0 <= j <= k :: chain[j] == from - j
  }

  /** The `i`-th service stands `i` below the first one and one more below the top. */
  lemma {:induction false} LineChain(up: Links, n: nat, top: int, i: nat)
    requires i < n && LineLinks(up, n, top) && Acyclic(up)
    ensures Depth(up, FIRST + i) == i + 2 && Chain(up, FIRST + i)[i + 1] == top
    ensures CountsDown(Chain(up, FIRST + i), FIRST + i, i)
    decreases i
  {
    ChainUnfolds(up, FIRST + i);
    assert LineLink(up, top, i);
    if i > 0 {
      LineChain(up, n, top, i - 1);
    } else {
      ChainUnfolds(up, top);
    }
  }

  lemma LineIsCapped(up: Links, top: int)
    requires LineLinks(up, 9, top) && Acyclic(up)
    ensures Safety.Capped(up)
  {
    forall x ensures Depth(up, x) <= MAX_DEPTH {
      if x in up {
        LineChain(up, 9, top, x - FIRST);
      } else {
        ChainUnfolds(up, x);
      }
    }
  }

  lemma LineIsReady(rows: seq<Role>, n: nat, top: int)
    requires rows == Line(n, top) && 1 <= top < FIRST
    ensures UniqueIds(rows) && UniqueKeys(rows) && Legacy(rows) && NotYetPlaced(rows) && Acyclic(ParentLinks(rows))
    ensures LineLinks(ParentLinks(rows), n, top)
    ensures FindKey(rows, Elder) == Some(BuiltIn(7)) && BuiltIn(7) in rows
    ensures FindKey(rows, Committee) == Some(BuiltIn(11)) && !BuiltIn(11).onChart
    ensures FindKey(rows, Coordinator) == Some(BuiltIn(12)) && COORDINATOR in PostIds(rows)
  {
    LineIsKeyed(n, top);
    LineKeys(n, top);
    LineHasLinks(n, top);
    LineIsAcyclic(ParentLinks(rows), n, top);
    LineIsLegacy(rows, n, top);
    LegacyIsNotYetPlaced(rows);
    assert rows[7] in rows;
  }

  /** Taking the coordinator's post from role `id`. */
  function TakeFrom(id: int): seq<Choice> { [Choice(Coordinator, Some(id))] }

  lemma OneMapping(rows: seq<Role>, source: Role)
    requires UniqueIds(rows) && source in rows && !IsAppointed(source.key) && FindKey(rows, Coordinator).Some?
    ensures CheckChoices(TakeFrom(source.id), {}).Adopted?
    ensures Resolve(rows, TakeFrom(source.id)) == (Adopted, [Mapping(FindKey(rows, Coordinator).value, source)])
  {
    SameIdSameRow(rows, Find(rows, source.id).value, source);
    var choices, none := TakeFrom(source.id), [];
    assert choices[1..] == none && Resolve(rows, none) == (Adopted, []);
    assert CheckChoices(none, {Coordinator}).Adopted?;
    var m := Mapping(FindKey(rows, Coordinator).value, source);
    assert [m] + [] == [m];
  }

  lemma TakingIsAccepted(a: Congregation, source: Role, order: Listing)
    requires UniqueIds(a.rows) && UniqueKeys(a.rows) && AppointedVacant(a)
    requires source in a.rows && !IsAppointed(source.key) && FindKey(a.rows, Coordinator).Some?
    requires FindKey(a.rows, Committee).Some? && !FindKey(a.rows, Committee).value.onChart
    ensures Adopt(a, TakeFrom(source.id), order, {CanDoAnything}).0.Adopted?
  {
    OneMapping(a.rows, source);
    AdoptionKeepsPeople(a, TakeFrom(source.id), order, {CanDoAnything});
  }

  /** Taking over the elder roster is accepted, and closes a cycle. */
  lemma TakingTheEldersClosesACycle(a: Congregation, order: Listing)
    requires a == Bare(Line(0, ELDERS))
    ensures Legacy(a.rows)
    ensures var (v, b) := Adopt(a, TakeFrom(ELDERS), order, {CanDoAnything});
            v.Adopted? && UniqueIds(b.rows) && !Acyclic(ParentLinks(b.rows))
  {
    LineIsReady(a.rows, 0, ELDERS);
    TakingIsAccepted(a, BuiltIn(7), order);
    OneMapping(a.rows, BuiltIn(7));
    AcyclicUnlessElderIsTaken(a, TakeFrom(ELDERS), order, {CanDoAnything});
    assert Resolve(a.rows, TakeFrom(ELDERS)).1[0].source.key.Elder?;
  }

  /** One role whose level passes ten is enough. */
  lemma OneTooDeep(a: Congregation, choices: seq<Choice>, order: Listing, actor: set<Permission>, y: int)
    requires UniqueIds(a.rows) && UniqueKeys(a.rows) && Acyclic(ParentLinks(a.rows)) && NotYetPlaced(a.rows)
    requires Adopt(a, choices, order, actor).0.Adopted?
    requires forall m | m in Resolve(a.rows, choices).1 :: !m.source.key.Elder?
    requires AdoptedLevel(a.rows, Resolve(a.rows, choices).1, y) > MAX_DEPTH
    ensures UniqueIds(Adopt(a, choices, order, actor).1.rows)
    ensures !Safety.Capped(ParentLinks(Adopt(a, choices, order, actor).1.rows))
  {
    AdoptionKeepsCapIff(a, choices, order, actor);
  }

  /** The id of the last of nine services. */
  const LAST: int := FIRST + 8

  lemma FirstIsTaken(ms: seq<Mapping>, chain: seq<int>)
    requires CountsDown(chain, LAST, 8) && forall x :: TargetOf(ms, x).Some? <==> x == FIRST
    ensures BelowSource(ms, chain) == 8 && chain[8] == FIRST
  {
    var k := BelowSource(ms, chain);
    assert chain[8] == FIRST && TargetOf(ms, chain[8]).Some?;
    assert k <= 8;
    assert chain[k] == LAST - k;
  }

  lemma TakenLineLevel(chain: seq<int>, ms: seq<Mapping>, posts: set<int>)
    requires CountsDown(chain, LAST, 8) && |chain| == 10 && COORDINATOR in posts
    requires TargetOf(ms, FIRST) == Some(COORDINATOR) && forall x :: TargetOf(ms, x).Some? <==> x == FIRST
    ensures LevelOver(chain, ms, Some(ELDERS), Some(COMMITTEE), posts) == 11
  {
    FirstIsTaken(ms, chain);
  }

  lemma OneSource(m: Mapping)
    ensures forall x :: TargetOf([m], x) == if x == m.source.id then Some(m.target.id) else None
  {
    assert [m][1..] == [];
  }

  lemma TakenLineLinks(up: Links, n: nat, m: Mapping, posts: set<int>)
    requires n == 9 && LineLinks(up, n, ELDERS) && Acyclic(up)
    requires m == Mapping(BuiltIn(12), Service(0, ELDERS)) && COORDINATOR in posts
    ensures LevelOver(Chain(up, LAST), [m], Some(ELDERS), Some(COMMITTEE), posts) == 11
  {
    LineChain(up, n, ELDERS, 8);
    OneSource(m);
    TakenLineLevel(Chain(up, LAST), [m], posts);
  }

  lemma LineMapping(rows: seq<Role>, n: nat)
    requires rows == Line(n, ELDERS) && n == 9 && UniqueIds(rows)
    requires FindKey(rows, Coordinator) == Some(BuiltIn(12))
    ensures Service(0, ELDERS) in rows
    ensures Resolve(rows, TakeFrom(FIRST)).1 == [Mapping(BuiltIn(12), Service(0, ELDERS))]
  {
    LineRow(n, ELDERS, 0);
    OneMapping(rows, Service(0, ELDERS));
  }

  lemma LineIsTaken(rows: seq<Role>, n: nat)
    requires rows == Line(n, ELDERS) && n == 9 && UniqueIds(rows) && LineLinks(ParentLinks(rows), n, ELDERS)
    requires Acyclic(ParentLinks(rows))
    requires FindKey(rows, Elder) == Some(BuiltIn(7)) && FindKey(rows, Committee) == Some(BuiltIn(11))
    requires FindKey(rows, Coordinator) == Some(BuiltIn(12)) && COORDINATOR in PostIds(rows)
    ensures Service(0, ELDERS) in rows && forall m | m in Resolve(rows, TakeFrom(FIRST)).1 :: !m.source.key.Elder?
    ensures AdoptedLevel(rows, Resolve(rows, TakeFrom(FIRST)).1, LAST) == 11
  {
    LineMapping(rows, n);
    TakenLineLinks(ParentLinks(rows), n, Mapping(BuiltIn(12), Service(0, ELDERS)), PostIds(rows));
  }

  /**
   A capped line of nine services under the elders whose first one is taken over: the last one ends
   at level eleven.
   */
  lemma AdoptionCanExceedTheCap(a: Congregation, n: nat, order: Listing)
    requires n == 9 && a == Bare(Line(n, ELDERS))
    ensures Legacy(a.rows) && Safety.Capped(ParentLinks(a.rows))
    ensures var (v, b) := Adopt(a, TakeFrom(FIRST), order, {CanDoAnything});
            v.Adopted? && UniqueIds(b.rows) && !Safety.Capped(ParentLinks(b.rows))
  {
    LineIsReady(a.rows, n, ELDERS);
    LineIsCapped(ParentLinks(a.rows), ELDERS);
    LineIsTaken(a.rows, n);
    TakingIsAccepted(a, Service(0, ELDERS), order);
    OneTooDeep(a, TakeFrom(FIRST), order, {CanDoAnything}, LAST);
  }

  lemma HungLineLevel(rows: seq<Role>, n: nat)
    requires rows == Line(n, COORDINATOR) && n == 9 && UniqueIds(rows) && LineLinks(ParentLinks(rows), n, COORDINATOR)
    requires Acyclic(ParentLinks(rows))
    requires FindKey(rows, Elder).Some? && COORDINATOR in PostIds(rows)
    ensures AdoptedLevel(rows, [], LAST) == 12
  {
    LineChain(ParentLinks(rows), n, COORDINATOR, 8);
    NoSource([], Chain(ParentLinks(rows), LAST));
  }

  lemma BareIsAccepted(a: Congregation, order: Listing)
    requires FindKey(a.rows, Committee).Some? && !FindKey(a.rows, Committee).value.onChart
    ensures Resolve(a.rows, []) == (Adopted, []) && Adopt(a, [], order, {}).0.Adopted?
  {
    assert CheckChoices([], {}).Adopted?;
  }

  /** Without any mapping: a capped line hung under the unplaced coordinator sinks with the post, to level twelve. */
  lemma BareAdoptionCanExceedTheCap(a: Congregation, n: nat, order: Listing)
    requires n == 9 && a == Bare(Line(n, COORDINATOR))
    ensures Legacy(a.rows) && Safety.Capped(ParentLinks(a.rows))
    ensures var (v, b) := Adopt(a, [], order, {});
            v.Adopted? && UniqueIds(b.rows) && !Safety.Capped(ParentLinks(b.rows))
  {
    LineIsReady(a.rows, n, COORDINATOR);
    LineIsCapped(ParentLinks(a.rows), COORDINATOR);
    BareIsAccepted(a, order);
    HungLineLevel(a.rows, n);
    OneTooDeep(a, [], order, {}, LAST);
  }
}
