/**
 How deep roles end after an adoption, which checks no depth: the exact level of every role, and two
 ways past the cap.
 */
module AdoptedDepths {
  import opened Lists
  import opened Graph
  import opened Roles
  import opened Chart
  import opened Access
  import opened Adoption
  import opened AdoptedTree
  import Safety
  import Seats

  // ----- placement gives parents to tops -----

  lemma PutLeaves(rows: seq<Role>, r': Role, r: Role)
    requires r in rows && r.id != r'.id
    ensures r in Put(rows, r')
  {
    var i :| 0 <= i < |rows| && rows[i] == r;
    assert Put(rows, r')[i] == r;
  }

  lemma PlacePostLeaves(rows: seq<Role>, from: seq<Role>, key: Key, committee: int, order: int, r: Role)
    requires UniqueIds(from) && r in rows && r in from && IsPost(key) && !IsAppointed(r.key)
    ensures r in PlacePost(rows, from, key, committee, order)
  {
    if FindKey(from, key).Some? {
      var p := FindKey(from, key).value;
      KeysApart(from, r, p);
      PutLeaves(rows, PlacedAt(p, Some(committee), order), r);
    }
  }

  /** Placement leaves every other row as it was. */
  lemma PlacementLeaves(rows: seq<Role>, c: Role, r: Role)
    requires UniqueIds(rows) && r in rows && !IsAppointed(r.key) && c in rows && c.key.Committee?
    ensures r in PlaceCommittee(rows, c)
  {
    var r0 := Put(rows, PlacedAt(c, IdOfKey(rows, Elder), ORDER_STEP));
    KeysApart(rows, r, c);
    PutLeaves(rows, PlacedAt(c, IdOfKey(rows, Elder), ORDER_STEP), r);
    PlacePostLeaves(r0, rows, Coordinator, c.id, ORDER_STEP, r);
    var r1 := PlacePost(r0, rows, Coordinator, c.id, ORDER_STEP);
    PlacePostLeaves(r1, rows, Secretary, c.id, 2 * ORDER_STEP, r);
    PlacePostLeaves(PlacePost(r1, rows, Secretary, c.id, 2 * ORDER_STEP),
                    rows, ServiceOverseer, c.id, 3 * ORDER_STEP, r);
  }

  lemma PlacedRow(rows: seq<Role>, c: Role, r: Role)
    requires UniqueIds(rows) && UniqueIds(PlaceCommittee(rows, c)) && c in rows && c.key.Committee?
    requires r in rows && !IsAppointed(r.key) && r.parent.Some?
    ensures r.id in ParentLinks(PlaceCommittee(rows, c)) && ParentLinks(PlaceCommittee(rows, c))[r.id] == r.parent.value
  {
    PlacementLeaves(rows, c, r);
    Safety.RowLink(PlaceCommittee(rows, c), r);
  }

  /** The row a placed row was before. */
  lemma RowBefore(rows: seq<Role>, c: Role, x: Role) returns (r: Role)
    requires UniqueIds(rows) && c in rows && x in PlaceCommittee(rows, c)
    ensures r in rows && r.id == x.id && r.key == x.key
  {
    PlaceSamePeople(rows, c);
    var i :| 0 <= i < |PlaceCommittee(rows, c)| && PlaceCommittee(rows, c)[i] == x;
    r := rows[i];
  }

  /** The links once the committee and its posts are placed, before anything is carried over. */
  ghost function PlacedLinks(rows: seq<Role>): Links
    requires UniqueIds(rows) && UniqueKeys(rows) && Acyclic(ParentLinks(rows)) && NotYetPlaced(rows)
    requires FindKey(rows, Committee).Some?
  {
    PlacementAnchors(rows, FindKey(rows, Committee).value);
    ParentLinks(PlaceCommittee(rows, FindKey(rows, Committee).value))
  }

  lemma PlacedLinkIsOldOrAppointed(rows: seq<Role>, c: Role, x: int)
    requires UniqueIds(rows) && UniqueKeys(rows) && UniqueIds(PlaceCommittee(rows, c))
    requires FindKey(rows, Committee) == Some(c)
    requires x in ParentLinks(PlaceCommittee(rows, c))
    ensures x in ParentLinks(rows) || x == c.id || x in PostIds(rows)
  {
    var y :| y in PlaceCommittee(rows, c) && y.id == x && y.parent.Some?;
    var r := RowBefore(rows, c, y);
    if IsAppointed(r.key) {
      if r.key.Committee? { UniqueKeyRow(rows, r, c); }
    } else {
      PlacementLeaves(rows, c, r);
      SameIdSameRow(PlaceCommittee(rows, c), r, y);
      Safety.RowLink(rows, r);
    }
  }

  lemma PlacementExtends(rows: seq<Role>, c: Role, x: int)
    requires UniqueIds(rows) && UniqueIds(PlaceCommittee(rows, c)) && NotYetPlaced(rows) && c in rows
    requires c.key.Committee?
    requires x in ParentLinks(rows)
    ensures x in ParentLinks(PlaceCommittee(rows, c)) && ParentLinks(PlaceCommittee(rows, c))[x] == ParentLinks(rows)[x]
  {
    var r :| r in rows && r.id == x && r.parent == Some(ParentLinks(rows)[x]);
    PlacedRow(rows, c, r);
  }

  /**
   Placement as the links see it: `up'` anchors the committee and its posts, tops until then, and
   keeps every link.
   */
  ghost predicate Grown(up: Links, up': Links, e: Option<int>, c: int, posts: set<int>) {
    && Acyclic(up) && Acyclic(up') && Anchored(up', e, c, posts)
    && (forall x | x in up :: x in up' && up'[x] == up[x])
    && (forall x | x in up' :: x in up || x == c || x in posts)
    && c !in up && posts !! up.Keys
  }

  lemma PlacementGrows(rows: seq<Role>, c: Role)
    requires UniqueIds(rows) && UniqueKeys(rows) && Acyclic(ParentLinks(rows)) && NotYetPlaced(rows)
    requires FindKey(rows, Committee) == Some(c)
    ensures Grown(ParentLinks(rows), PlacedLinks(rows), IdOfKey(rows, Elder), c.id, PostIds(rows))
  {
    PlacementAnchors(rows, c);
    var up, up' := ParentLinks(rows), PlacedLinks(rows);
    forall x | x in up ensures x in up' && up'[x] == up[x] { PlacementExtends(rows, c, x); }
    forall x | x in up' ensures x in up || x == c.id || x in PostIds(rows) { PlacedLinkIsOldOrAppointed(rows, c, x); }
    Safety.NoParentNoLink(rows, c);
    forall p | p in PostIds(rows) ensures p !in up { PostIsTop(rows, p); }
  }

  lemma PostIsTop(rows: seq<Role>, p: int)
    requires UniqueIds(rows) && NotYetPlaced(rows) && p in PostIds(rows)
    ensures p !in ParentLinks(rows)
  {
    var r :| r in rows && IsPost(r.key) && r.id == p;
    Safety.NoParentNoLink(rows, r);
  }

  // ----- the level of every role -----

  /** The level placement gives a role that hung under nobody: a post, the committee, or any other top. */
  function RootLevel(e: Option<int>, c: Option<int>, posts: set<int>, id: int): nat {
    var elders := if e.Some? then 1 else 0;
    if id in posts then elders + 2 else if c == Some(id) then elders + 1 else 1
  }

  lemma RootDepth(up: Links, up': Links, e: Option<int>, c: int, posts: set<int>, id: int)
    requires Grown(up, up', e, c, posts) && c !in posts && id !in up
    ensures Depth(up', id) == RootLevel(e, Some(c), posts, id)
  {
    ChainUnfolds(up', id);
    ChainUnfolds(up', c);
    if e.Some? { ChainUnfolds(up', e.value); }
  }

  /** The level at which a role of the chart as it stands ends after adoption with these mappings. */
  ghost function AdoptedLevel(rows: seq<Role>, ms: seq<Mapping>, y: int): nat
    requires UniqueIds(rows)
  {
    LevelOver(Chain(ParentLinks(rows), y), ms, IdOfKey(rows, Elder), IdOfKey(rows, Committee), PostIds(rows))
  }

  /**
   Up to the first role taken over the chain is kept, and the post's own chain follows; with none taken over the chain
   is kept whole, and what placement put above its top follows.
   */
  ghost function LevelOver(chain: seq<int>, ms: seq<Mapping>, e: Option<int>, c: Option<int>, posts: set<int>): nat {
    var k := BelowSource(ms, chain);
    if k == |chain| then if chain == [] then 0 else |chain| - 1 + RootLevel(e, c, posts, chain[|chain| - 1])
    else if k == 0 then 1
    else k + RootLevel(e, c, posts, TargetOf(ms, chain[k]).value)
  }

  lemma {:induction false} BelowSourceOfLonger(ms: seq<Mapping>, a: seq<int>, b: seq<int>)
    ensures BelowSource(ms, a) < |a| ==> BelowSource(ms, a + b) == BelowSource(ms, a)
    ensures BelowSource(ms, a) == |a| ==> BelowSource(ms, a + b) == |a| + BelowSource(ms, b)
  {
    if a == [] {
      assert a + b == b;
    } else {
      assert (a + b)[1..] == a[1..] + b;
      BelowSourceOfLonger(ms, a[1..], b);
    }
  }

  lemma {:induction false} NoSource(ms: seq<Mapping>, s: seq<int>)
    requires forall x | x in s :: TargetOf(ms, x).None?
    ensures BelowSource(ms, s) == |s|
  {
    if s != [] {
      assert s[0] in s && forall x | x in s[1..] :: x in s;
      NoSource(ms, s[1..]);
    }
  }

  /** Above a top that was placed stand only the committee and the elders, and none of them is taken over. */
  lemma NoSourceAboveTop(
      up: Links, up': Links, e: Option<int>, c: int, posts: set<int>, ms: seq<Mapping>, top: int)
    requires Grown(up, up', e, c, posts) && top !in up && TargetOf(ms, top).None?
    requires Anchors(c, posts, ms) && forall m | m in ms :: e != Some(m.source.id)
    ensures BelowSource(ms, Chain(up', top)) == Depth(up', top)
  {
    ChainUnfolds(up', top);
    if top in up' { AnchoredChain(up', e, c, posts, top); }
    forall x | x in Chain(up', top) ensures TargetOf(ms, x).None? {
    }
    NoSource(ms, Chain(up', top));
  }

  /** A chain that goes on above its old top is spliced where it was, or not at all. */
  lemma SplicedOnwards(up: Links, ms: seq<Mapping>, chain: seq<int>, above: seq<int>)
    requires chain != [] && above != [] && above[0] == chain[|chain| - 1]
    requires BelowSource(ms, chain) == |chain| ==> BelowSource(ms, above) == |above|
    ensures var k := BelowSource(ms, chain);
            |Spliced(up, ms, chain + above[1..])| ==
              if k == |chain| then |chain| - 1 + |above|
              else if k == 0 then 1 else k + Depth(up, TargetOf(ms, chain[k]).value)
  {
    var k, more := BelowSource(ms, chain), above[1..];
    BelowSourceOfLonger(ms, chain, more);
    if k == |chain| {
      BelowSourceOfLonger(ms, [above[0]], more);
      assert above == [above[0]] + more;
    } else {
      assert (chain + more)[k] == chain[k];
    }
  }

  lemma GrownChain(up: Links, up': Links, e: Option<int>, c: int, posts: set<int>, y: int)
    requires Grown(up, up', e, c, posts)
    ensures var chain := Chain(up, y);
            var top := chain[|chain| - 1];
            top !in up && Chain(up', y) == chain + Chain(up', top)[1..]
  {
    ChainExtends(up, up', y);
    var chain := Chain(up, y);
    var top := chain[|chain| - 1];
    assert chain == chain[..|chain| - 1] + [top];
    assert Chain(up', top) == [top] + Chain(up', top)[1..];
  }

  lemma TargetIsTop(up: Links, up': Links, e: Option<int>, c: int, posts: set<int>, ms: seq<Mapping>, s: int)
    requires Grown(up, up', e, c, posts) && Anchors(c, posts, ms) && TargetOf(ms, s).Some?
    ensures TargetOf(ms, s).value !in up
  {
    var m :| m in ms && m.source.id == s && m.target.id == TargetOf(ms, s).value;
  }

  /** The spliced chain is as long as the level says. */
  lemma SplicedLevel(up: Links, up': Links, e: Option<int>, c: int, posts: set<int>, ms: seq<Mapping>, y: int)
    requires Grown(up, up', e, c, posts) && c !in posts
    requires Anchors(c, posts, ms) && forall m | m in ms :: e != Some(m.source.id)
    ensures |Spliced(up', ms, Chain(up', y))| == LevelOver(Chain(up, y), ms, e, Some(c), posts)
  {
    var chain := Chain(up, y);
    var k, top := BelowSource(ms, chain), chain[|chain| - 1];
    GrownChain(up, up', e, c, posts, y);
    RootDepth(up, up', e, c, posts, top);
    if k == |chain| {
      NoSourceAboveTop(up, up', e, c, posts, ms, top);
    } else {
      TargetIsTop(up, up', e, c, posts, ms, chain[k]);
      RootDepth(up, up', e, c, posts, TargetOf(ms, chain[k]).value);
    }
    SplicedOnwards(up', ms, chain, Chain(up', top));
  }

  /** After adoption every role stands exactly at its adopted level. */
  lemma AdoptedDepth(a: Congregation, choices: seq<Choice>, order: Listing, actor: set<Permission>, y: int)
    requires UniqueIds(a.rows) && UniqueKeys(a.rows) && Acyclic(ParentLinks(a.rows)) && NotYetPlaced(a.rows)
    requires Adopt(a, choices, order, actor).0.Adopted?
    requires forall m | m in Resolve(a.rows, choices).1 :: !m.source.key.Elder?
    ensures UniqueIds(Adopt(a, choices, order, actor).1.rows)
    ensures Depth(ParentLinks(Adopt(a, choices, order, actor).1.rows), y)
            == AdoptedLevel(a.rows, Resolve(a.rows, choices).1, y)
  {
    var c, ms, e := FindKey(a.rows, Committee).value, Resolve(a.rows, choices).1, IdOfKey(a.rows, Elder);
    AdoptedLinks(a, choices, order, actor);
    PlacementGrows(a.rows, c);
    MappingsAnchor(a.rows, choices, c);
    Seats.CommitteeIsNoPost(a.rows, c.id);
    CarriedChain(PlacedLinks(a.rows), e, c.id, PostIds(a.rows), ms, y);
    SplicedLevel(ParentLinks(a.rows), PlacedLinks(a.rows), e, c.id, PostIds(a.rows), ms, y);
  }

  /**
   Adoption keeps every chain within ten exactly when, on the chart as it stands, no role's adopted
   level passes ten.
   */
  lemma AdoptionKeepsCapIff(a: Congregation, choices: seq<Choice>, order: Listing, actor: set<Permission>)
    requires UniqueIds(a.rows) && UniqueKeys(a.rows) && Acyclic(ParentLinks(a.rows)) && NotYetPlaced(a.rows)
    requires Adopt(a, choices, order, actor).0.Adopted?
    requires forall m | m in Resolve(a.rows, choices).1 :: !m.source.key.Elder?
    ensures UniqueIds(Adopt(a, choices, order, actor).1.rows)
    ensures Safety.Capped(ParentLinks(Adopt(a, choices, order, actor).1.rows))
       <==> forall y :: AdoptedLevel(a.rows, Resolve(a.rows, choices).1, y) <= MAX_DEPTH
  {
    AdoptedDepth(a, choices, order, actor, 0);
    forall y ensures Depth(ParentLinks(Adopt(a, choices, order, actor).1.rows), y)
                  == AdoptedLevel(a.rows, Resolve(a.rows, choices).1, y) {
      AdoptedDepth(a, choices, order, actor, y);
    }
  }
}
