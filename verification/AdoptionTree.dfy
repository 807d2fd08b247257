/** What adoption does to the tree: acyclic unless the elder roster is taken over, and how deep roles end. */
module AdoptedTree {
  import opened Lists
  import opened Graph
  import opened Roles
  import opened Chart
  import opened Access
  import opened Adoption
  import Safety
  import Seats

  /** The committee hangs under the elders when there are some, its posts under it. */
  ghost predicate Anchored(up: Links, e: Option<int>, c: int, posts: set<int>) {
    && (if e.Some? then c in up && up[c] == e.value && e.value !in up else c !in up)
    && (forall p | p in posts :: p in up && up[p] == c)
  }

  lemma AnchoredChain(up: Links, e: Option<int>, c: int, posts: set<int>, t: int)
    requires Anchored(up, e, c, posts) && (t == c || t in posts)
    ensures forall x | x in Chain(up, t) :: x == t || x == c || e == Some(x)
  {
    ChainIsLeast(up, t, iset x | x == t || x == c || e == Some(x));
  }

  // ----- placing the committee -----

  lemma PutOverLinks(rows: seq<Role>, from: seq<Role>, r: Role, r': Role)
    requires UniqueIds(from) && SamePeople(from, rows) && r in from && Safety.Replaces(r, r')
    ensures UniqueIds(rows) && UniqueIds(Put(rows, r'))
    ensures ParentLinks(Put(rows, r')) == Safety.Relinked(ParentLinks(rows), r.id, r'.parent)
  {
    SamePeopleKeys(from, rows);
    var i :| 0 <= i < |from| && from[i] == r;
    Safety.PutChangesOneLink(rows, rows[i], r');
  }

  ghost function IdsOfKey(rows: seq<Role>, key: Key): set<int> {
    match FindKey(rows, key) case None => {} case Some(r) => {r.id}
  }

  lemma KeysApart(rows: seq<Role>, a: Role, b: Role)
    requires UniqueIds(rows) && a in rows && b in rows && a.key != b.key
    ensures a.id != b.id
  {
    if a.id == b.id { SameIdSameRow(rows, a, b); }
  }

  lemma PlacePostAnchors(rows: seq<Role>, from: seq<Role>, key: Key, c: Role, order: int, done: set<int>)
    requires UniqueIds(from) && SamePeople(from, rows) && c in from && c.key.Committee? && IsPost(key)
    requires UniqueIds(rows) && Acyclic(ParentLinks(rows))
    requires Anchored(ParentLinks(rows), IdOfKey(from, Elder), c.id, done)
    ensures var rows' := PlacePost(rows, from, key, c.id, order);
            && SamePeople(from, rows') && UniqueIds(rows') && Acyclic(ParentLinks(rows'))
            && Anchored(ParentLinks(rows'), IdOfKey(from, Elder), c.id, done + IdsOfKey(from, key))
  {
    PlacePostSamePeople(rows, from, key, c.id, order);
    if FindKey(from, key).Some? {
      var p, e := FindKey(from, key).value, FindKey(from, Elder);
      var up := ParentLinks(rows);
      PutOverLinks(rows, from, p, PlacedAt(p, Some(c.id), order));
      KeysApart(from, p, c);
      if e.Some? { KeysApart(from, p, e.value); }
      AnchoredChain(up, IdOfKey(from, Elder), c.id, done, c.id);
      ReattachIsAcyclic(up, p.id, c.id);
    }
  }

  /** Elders, committee and posts hang under nobody: the chart before the committee existed. */
  ghost predicate NotYetPlaced(rows: seq<Role>) {
    forall r | r in rows && (r.key.Elder? || IsAppointed(r.key)) :: r.parent.None?
  }

  lemma CommitteeAnchors(rows: seq<Role>, c: Role)
    requires UniqueIds(rows) && Acyclic(ParentLinks(rows)) && NotYetPlaced(rows)
    requires FindKey(rows, Committee) == Some(c)
    ensures var e := IdOfKey(rows, Elder);
            var r0 := Put(rows, PlacedAt(c, e, ORDER_STEP));
            SamePeople(rows, r0) && UniqueIds(r0) && Acyclic(ParentLinks(r0)) && Anchored(ParentLinks(r0), e, c.id, {})
  {
    var up, e := ParentLinks(rows), FindKey(rows, Elder);
    PutSamePeople(rows, rows, c, PlacedAt(c, IdOfKey(rows, Elder), ORDER_STEP));
    PutOverLinks(rows, rows, c, PlacedAt(c, IdOfKey(rows, Elder), ORDER_STEP));
    Safety.NoParentNoLink(rows, c);
    if e.Some? {
      KeysApart(rows, c, e.value);
      Safety.NoParentNoLink(rows, e.value);
      ReattachIsAcyclic(up, c.id, e.value.id);
    } else {
      FewerLinksAcyclic(up, c.id);
    }
  }

  lemma PostIdsByKey(rows: seq<Role>)
    requires UniqueKeys(rows)
    ensures PostIds(rows) == IdsOfKey(rows, Coordinator) + IdsOfKey(rows, Secretary) + IdsOfKey(rows, ServiceOverseer)
  {
    forall id | id in PostIds(rows)
      ensures id in IdsOfKey(rows, Coordinator) + IdsOfKey(rows, Secretary) + IdsOfKey(rows, ServiceOverseer)
    {
      var r :| r in rows && IsPost(r.key) && r.id == id;
      assert FindKey(rows, r.key).Some? && FindKey(rows, r.key).value == r;
    }
  }

  /** Placement hangs the committee under the elders and the posts under it, and closes no cycle. */
  lemma PlacementAnchors(rows: seq<Role>, c: Role)
    requires UniqueIds(rows) && UniqueKeys(rows) && Acyclic(ParentLinks(rows)) && NotYetPlaced(rows)
    requires FindKey(rows, Committee) == Some(c)
    ensures var rows' := PlaceCommittee(rows, c);
            && UniqueIds(rows') && Acyclic(ParentLinks(rows'))
            && Anchored(ParentLinks(rows'), IdOfKey(rows, Elder), c.id, PostIds(rows))
  {
    CommitteeAnchors(rows, c);
    PostIdsByKey(rows);
    var r0 := Put(rows, PlacedAt(c, IdOfKey(rows, Elder), ORDER_STEP));
    var r1 := PlacePost(r0, rows, Coordinator, c.id, ORDER_STEP);
    PlacePostAnchors(r0, rows, Coordinator, c, ORDER_STEP, {});
    var d1 := {} + IdsOfKey(rows, Coordinator);
    PlacePostAnchors(r1, rows, Secretary, c, 2 * ORDER_STEP, d1);
    var r2 := PlacePost(r1, rows, Secretary, c.id, 2 * ORDER_STEP);
    PlacePostAnchors(r2, rows, ServiceOverseer, c, 3 * ORDER_STEP, d1 + IdsOfKey(rows, Secretary));
  }

  // ----- carrying over -----

  lemma RehungLinkOut(rows: seq<Role>, s: int, t: int, x: int)
    requires UniqueIds(rows) && UniqueIds(RehungRows(rows, s, t)) && x in ParentLinks(RehungRows(rows, s, t))
    ensures x in Rehung(ParentLinks(rows), s, t)
    ensures ParentLinks(RehungRows(rows, s, t))[x] == Rehung(ParentLinks(rows), s, t)[x]
  {
    var rows' := RehungRows(rows, s, t);
    var r :| r in rows' && r.id == x && r.parent == Some(ParentLinks(rows')[x]);
    var i :| 0 <= i < |rows'| && rows'[i] == r;
    Safety.RowLink(rows, rows[i]);
  }

  lemma RehungLinkIn(rows: seq<Role>, s: int, t: int, x: int)
    requires UniqueIds(rows) && UniqueIds(RehungRows(rows, s, t)) && x in Rehung(ParentLinks(rows), s, t)
    ensures x in ParentLinks(RehungRows(rows, s, t))
  {
    var rows' := RehungRows(rows, s, t);
    var r :| r in rows && r.id == x && r.parent.Some?;
    var i :| 0 <= i < |rows| && rows[i] == r;
    assert rows'[i] in rows';
  }

  lemma RehungLinks(rows: seq<Role>, s: int, t: int)
    requires UniqueIds(rows)
    ensures UniqueIds(RehungRows(rows, s, t))
    ensures ParentLinks(RehungRows(rows, s, t)) == Rehung(ParentLinks(rows), s, t)
  {
    var up', w := ParentLinks(RehungRows(rows, s, t)), Rehung(ParentLinks(rows), s, t);
    forall x | x in up' ensures x in w && up'[x] == w[x] {
      RehungLinkOut(rows, s, t, x);
    }
    forall x | x in w ensures x in up' {
      RehungLinkIn(rows, s, t, x);
    }
    assert up'.Keys == w.Keys;
  }

  /** The links once every mapping has been carried over. */
  ghost function Carried(up: Links, ms: seq<Mapping>): Links
    decreases |ms|
  {
    if ms == [] then up else Carried(Rehung(up, ms[0].source.id, ms[0].target.id), ms[1..])
  }

  lemma {:induction false} CarriedLinks(a: Congregation, ms: seq<Mapping>, order: Listing)
    requires UniqueIds(a.rows) && CarryAll(a, ms, order).Some?
    ensures var b := CarryAll(a, ms, order).value;
            UniqueIds(b.rows) && ParentLinks(b.rows) == Carried(ParentLinks(a.rows), ms)
    decreases |ms|
  {
    if ms != [] {
      RehungLinks(a.rows, ms[0].source.id, ms[0].target.id);
      CarriedLinks(CarryOver(a, ms[0], order).value, ms[1..], order);
    }
  }

  ghost predicate Anchors(c: int, posts: set<int>, ms: seq<Mapping>) {
    forall m | m in ms :: (m.target.id == c || m.target.id in posts) && m.source.id != c && m.source.id !in posts
  }

  lemma RehungKeepsAnchors(up: Links, e: Option<int>, c: int, posts: set<int>, s: int, t: int)
    requires Acyclic(up) && Anchored(up, e, c, posts) && (t == c || t in posts)
    requires s != c && s !in posts && e != Some(s)
    ensures Acyclic(Rehung(up, s, t)) && Anchored(Rehung(up, s, t), e, c, posts)
  {
    AnchoredChain(up, e, c, posts, t);
    RehungIsAcyclic(up, s, t);
  }

  lemma {:induction false} CarriedIsAcyclic(up: Links, e: Option<int>, c: int, posts: set<int>, ms: seq<Mapping>)
    requires Acyclic(up) && Anchored(up, e, c, posts) && Anchors(c, posts, ms)
    requires forall m | m in ms :: e != Some(m.source.id)
    ensures Acyclic(Carried(up, ms)) && Anchored(Carried(up, ms), e, c, posts)
    decreases |ms|
  {
    if ms != [] {
      assert ms[0] in ms;
      RehungKeepsAnchors(up, e, c, posts, ms[0].source.id, ms[0].target.id);
      CarriedIsAcyclic(Rehung(up, ms[0].source.id, ms[0].target.id), e, c, posts, ms[1..]);
    }
  }

  /** The committee hangs under itself, or under one of its own posts. */
  ghost predicate Looped(up: Links, c: int, posts: set<int>) {
    c in up && (up[c] == c || (up[c] in posts && up[c] in up && up[up[c]] == c))
  }

  lemma LoopIsCyclic(up: Links, c: int, posts: set<int>)
    requires Looped(up, c, posts)
    ensures !Acyclic(up)
  {
    var t := up[c];
    if t != c {
      assert {} + {t} == {t};
      assert Chain(up, t) == [t] + Climb(up, c, {t});
      assert Climb(up, c, {t})[0] == c && c in Climb(up, c, {t});
    }
    assert Under(up, t, c);
  }

  lemma {:induction false} LoopStays(up: Links, c: int, posts: set<int>, ms: seq<Mapping>)
    requires Looped(up, c, posts) && Anchors(c, posts, ms)
    ensures Looped(Carried(up, ms), c, posts)
    decreases |ms|
  {
    if ms != [] {
      assert ms[0] in ms;
      LoopStays(Rehung(up, ms[0].source.id, ms[0].target.id), c, posts, ms[1..]);
    }
  }

  /** Taking over the elder roster re-hangs the committee under its own post. */
  lemma {:induction false} ElderLoops(up: Links, e: int, c: int, posts: set<int>, ms: seq<Mapping>)
    requires Acyclic(up) && Anchored(up, Some(e), c, posts) && Anchors(c, posts, ms)
    requires exists m :: m in ms && m.source.id == e
    ensures !Acyclic(Carried(up, ms))
    decreases |ms|
  {
    var s, t := ms[0].source.id, ms[0].target.id;
    assert ms[0] in ms;
    if s == e {
      LoopStays(Rehung(up, s, t), c, posts, ms[1..]);
      LoopIsCyclic(Carried(up, ms), c, posts);
    } else {
      RehungKeepsAnchors(up, Some(e), c, posts, s, t);
      ElderLoops(Rehung(up, s, t), e, c, posts, ms[1..]);
    }
  }

  // ----- the adoption as a whole -----

  lemma MappingsAnchor(rows: seq<Role>, choices: seq<Choice>, c: Role)
    requires UniqueIds(rows) && UniqueKeys(rows) && FindKey(rows, Committee) == Some(c)
    requires CheckChoices(choices, {}).Adopted? && Resolve(rows, choices).0.Adopted?
    ensures Anchors(c.id, PostIds(rows), Resolve(rows, choices).1)
    ensures forall m | m in Resolve(rows, choices).1 ::
              IdOfKey(rows, Elder) == Some(m.source.id) <==> m.source.key.Elder?
  {
    ResolvedMappings(rows, choices, {});
    forall m | m in Resolve(rows, choices).1
      ensures m.target.id == c.id || m.target.id in PostIds(rows)
      ensures m.source.id != c.id && m.source.id !in PostIds(rows)
      ensures IdOfKey(rows, Elder) == Some(m.source.id) <==> m.source.key.Elder?
    {
      AppointedApart(rows, m);
      if m.target.key.Committee? { UniqueKeyRow(rows, m.target, c); }
      var e := FindKey(rows, Elder);
      if e.Some? && e.value.id == m.source.id { SameIdSameRow(rows, e.value, m.source); }
      if m.source.key.Elder? { UniqueKeyRow(rows, m.source, e.value); }
    }
  }

  lemma AdoptedLinks(a: Congregation, choices: seq<Choice>, order: Listing, actor: set<Permission>)
    requires UniqueIds(a.rows) && UniqueKeys(a.rows) && Acyclic(ParentLinks(a.rows)) && NotYetPlaced(a.rows)
    requires Adopt(a, choices, order, actor).0.Adopted?
    ensures var c, b := FindKey(a.rows, Committee).value, Adopt(a, choices, order, actor).1;
            && UniqueIds(PlaceCommittee(a.rows, c)) && UniqueIds(b.rows)
            && ParentLinks(b.rows) == Carried(ParentLinks(PlaceCommittee(a.rows, c)), Resolve(a.rows, choices).1)
  {
    AdoptedState(a, choices, order, actor);
    var c := FindKey(a.rows, Committee).value;
    PlacementAnchors(a.rows, c);
    CarriedLinks(a.(rows := PlaceCommittee(a.rows, c)), Resolve(a.rows, choices).1, order);
    Seats.SyncEffect(BeforeSync(a, c, choices, order).value);
  }

  /** Adoption leaves the chart free of cycles exactly when no choice takes over the elder roster. */
  lemma AcyclicUnlessElderIsTaken(a: Congregation, choices: seq<Choice>, order: Listing, actor: set<Permission>)
    requires UniqueIds(a.rows) && UniqueKeys(a.rows) && Acyclic(ParentLinks(a.rows)) && NotYetPlaced(a.rows)
    requires Adopt(a, choices, order, actor).0.Adopted?
    ensures UniqueIds(Adopt(a, choices, order, actor).1.rows)
    ensures Acyclic(ParentLinks(Adopt(a, choices, order, actor).1.rows))
       <==> forall m | m in Resolve(a.rows, choices).1 :: !m.source.key.Elder?
  {
    var c, ms, e := FindKey(a.rows, Committee).value, Resolve(a.rows, choices).1, IdOfKey(a.rows, Elder);
    AdoptedLinks(a, choices, order, actor);
    PlacementAnchors(a.rows, c);
    MappingsAnchor(a.rows, choices, c);
    var up := ParentLinks(PlaceCommittee(a.rows, c));
    if m :| m in ms && m.source.key.Elder? {
      ElderLoops(up, e.value, c.id, PostIds(a.rows), ms);
    } else {
      CarriedIsAcyclic(up, e, c.id, PostIds(a.rows), ms);
    }
  }

  // ----- depth -----

  /** The post a mapped role hands its children to. */
  function TargetOf(ms: seq<Mapping>, s: int): (t: Option<int>)
    ensures t.Some? <==> exists m :: m in ms && m.source.id == s
    ensures t.Some? ==> exists m :: m in ms && m.source.id == s && m.target.id == t.value
  {
    if ms == [] then None
    else if ms[0].source.id == s then Some(ms[0].target.id)
    else
      var t := TargetOf(ms[1..], s);
      assert forall m | m in ms[1..] :: m in ms;
      t
  }

  lemma {:induction false} CarriedLink(up: Links, c: int, posts: set<int>, ms: seq<Mapping>, x: int)
    requires Anchors(c, posts, ms)
    ensures x in Carried(up, ms) <==> x in up && TargetOf(ms, x).None?
    ensures x in Carried(up, ms) ==>
              Carried(up, ms)[x] == if TargetOf(ms, up[x]).Some? then TargetOf(ms, up[x]).value else up[x]
    decreases |ms|
  {
    if ms != [] {
      var s, t := ms[0].source.id, ms[0].target.id;
      assert ms[0] in ms;
      CarriedLink(Rehung(up, s, t), c, posts, ms[1..], x);
      assert TargetOf(ms[1..], t).None?;
    }
  }

  /** How many of the chain's roles, from the bottom, come before the first mapped one. */
  function BelowSource(ms: seq<Mapping>, chain: seq<int>): (k: nat)
    ensures k <= |chain| && forall i | 0 <= i < k :: TargetOf(ms, chain[i]).None?
    ensures k < |chain| ==> TargetOf(ms, chain[k]).Some?
  {
    if chain == [] || TargetOf(ms, chain[0]).Some? then 0 else 1 + BelowSource(ms, chain[1..])
  }

  /** The part of the chain below the first mapped role, then the chain of the post taking over from it. */
  ghost function Spliced(up: Links, ms: seq<Mapping>, chain: seq<int>): seq<int> {
    var k := BelowSource(ms, chain);
    if k == |chain| then chain
    else if k == 0 then chain[..1]
    else chain[..k] + Chain(up, TargetOf(ms, chain[k]).value)
  }

  lemma CarriedAnchorChain(up: Links, e: Option<int>, c: int, posts: set<int>, ms: seq<Mapping>, t: int)
    requires Acyclic(up) && Anchored(up, e, c, posts) && Anchors(c, posts, ms) && (t == c || t in posts)
    requires forall m | m in ms :: e != Some(m.source.id)
    ensures Chain(Carried(up, ms), t) == Chain(up, t)
  {
    AnchoredChain(up, e, c, posts, t);
    ChainIsLeast(up, t, iset x | x in up.Keys + up.Values + {t});
    forall x | x in Chain(up, t)
      ensures (x in up <==> x in Carried(up, ms)) && (x in up ==> up[x] == Carried(up, ms)[x])
    {
      CarriedLink(up, c, posts, ms, x);
      assert TargetOf(ms, x).None?;
      if x in up { assert up[x] in Chain(up, t) && TargetOf(ms, up[x]).None?; }
    }
    ClimbFrame(up, Carried(up, ms), t, {});
  }

  lemma SplicedStep(up: Links, ms: seq<Mapping>, y: int, rest: seq<int>)
    requires TargetOf(ms, y).None? && rest != []
    ensures Spliced(up, ms, [y] + rest) == [y] +
              if TargetOf(ms, rest[0]).Some? then Chain(up, TargetOf(ms, rest[0]).value) else Spliced(up, ms, rest)
  {
    var k, chain := BelowSource(ms, rest), [y] + rest;
    assert chain[1..] == rest;
    assert BelowSource(ms, chain) == k + 1;
    if k < |rest| {
      assert chain[k + 1] == rest[k] && chain[..k + 1] == [y] + rest[..k];
      AppendSplit(y, rest[..k], Chain(up, TargetOf(ms, rest[k]).value));
    }
  }

  lemma AppendSplit(y: int, a: seq<int>, b: seq<int>)
    ensures ([y] + a) + b == [y] + (a + b)
  {
  }

  /** After adoption every role's chain is the spliced one. */
  lemma {:induction false} CarriedChain(up: Links, e: Option<int>, c: int, posts: set<int>, ms: seq<Mapping>, y: int)
    requires Acyclic(up) && Anchored(up, e, c, posts) && Anchors(c, posts, ms)
    requires forall m | m in ms :: e != Some(m.source.id)
    ensures Chain(Carried(up, ms), y) == Spliced(up, ms, Chain(up, y))
    decreases Depth(up, y)
  {
    var up' := Carried(up, ms);
    CarriedIsAcyclic(up, e, c, posts, ms);
    CarriedLink(up, c, posts, ms, y);
    ChainUnfolds(up', y);
    ChainUnfolds(up, y);
    if y in up && TargetOf(ms, y).None? {
      assert Chain(up, up[y])[0] == up[y];
      SplicedStep(up, ms, y, Chain(up, up[y]));
      if TargetOf(ms, up[y]).Some? {
        CarriedAnchorChain(up, e, c, posts, ms, TargetOf(ms, up[y]).value);
      } else {
        CarriedChain(up, e, c, posts, ms, up[y]);
      }
    }
  }
}
