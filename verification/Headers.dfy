/** What stands on each line of the sheet: whose responsibility a band falls under, and who is named. */
module Headers {
  import opened Lists
  import opened Roles
  import opened Tree
  import opened Layout

  ghost predicate InForest(f: seq<Node>, p: Node) {
    f != [] && (f[0] == p || InForest(f[0].children, p) || InForest(f[1..], p))
  }

  lemma {:induction false} MembersInForest(f: seq<Node>, g: seq<Node>, p: Node)
    requires p in g && forall n | n in g :: n in f
    ensures InForest(f, p)
    decreases |f|
  {
    if f[0] != p {
      assert p in f[1..];
      MembersInForest(f[1..], f[1..], p);
    }
  }

  lemma {:induction false} DeeperInForest(f: seq<Node>, n: Node, p: Node)
    requires InForest(f, n) && InForest(n.children, p)
    ensures InForest(f, p)
    decreases f
  {
    if f[0] == n {
    } else if InForest(f[0].children, n) {
      DeeperInForest(f[0].children, n, p);
    } else {
      DeeperInForest(f[1..], n, p);
    }
  }

  /** The line a band prints: its node with all its leaf children, or some leaves without a node. */
  ghost predicate LineOf(b: Block, siblings: seq<Node>) {
    && b.Band?
    && (b.head.Some? ==>
          b.head.value in siblings && b.id == b.head.value.id && b.rows == Filter(b.head.value.children, IsLeaf))
    && (b.head.None? ==> b.rows != [] && b.rows == Filter(siblings, IsLeaf))
  }

  /** The band prints children of `p`, under `p`'s name. */
  ghost predicate Answers(b: Block, p: Node) {
    LineOf(b, p.children) && b.under == Some(p.name)
  }

  /** Somewhere in the forest stands the node this band answers to. */
  ghost predicate AnswersIn(f: seq<Node>, b: Block) {
    exists p :: InForest(f, p) && Answers(b, p)
  }

  lemma AnswersDeeper(f: seq<Node>, n: Node, b: Block)
    requires InForest(f, n) && AnswersIn(n.children, b)
    ensures AnswersIn(f, b)
  {
    var p :| InForest(n.children, p) && Answers(b, p);
    DeeperInForest(f, n, p);
  }

  /** Below `nodes` the band answers to a node, or it is the line of one of `nodes`, headed `under`. */
  ghost predicate Headed(nodes: seq<Node>, under: Option<string>, b: Block) {
    AnswersIn(nodes, b) || (LineOf(b, nodes) && b.head.Some? && b.under == under)
  }

  lemma HeadedAmongMore(nodes: seq<Node>, more: seq<Node>, under: Option<string>, b: Block)
    requires Headed(nodes, under, b) && forall n | n in nodes :: n in more
    ensures Headed(more, under, b)
  {
    if AnswersIn(nodes, b) {
      var p :| InForest(nodes, p) && Answers(b, p);
      SomeInForest(nodes, more, p);
    }
  }

  lemma {:induction false} WalkHeads(n: Node, under: Option<string>)
    requires IsContainer(n)
    ensures forall b | b in WalkContainer(n, under) :: Headed([n], under, b)
    decreases n, 0
  {
    if Filter(n.children, IsContainer) == [] {
      forall c | c in n.children ensures IsLeaf(c) {
        assert IsContainer(c) ==> c in Filter(n.children, IsContainer);
      }
      FilterAll(n.children, IsLeaf);
    } else {
      WalksHead(n.children, Some(n.name));
      forall b | b in WalkContainers(n.children, Some(n.name)) ensures AnswersIn([n], b) {
        if AnswersIn(n.children, b) {
          AnswersDeeper([n], n, b);
        } else {
          assert Answers(b, n) && InForest([n], n);
        }
      }
    }
  }

  lemma {:induction false} WalksHead(nodes: seq<Node>, under: Option<string>)
    ensures forall b | b in WalkContainers(nodes, under) :: Headed(nodes, under, b)
    decreases nodes, 1
  {
    if nodes != [] {
      WalksHead(nodes[1..], under);
      if IsContainer(nodes[0]) {
        WalkHeads(nodes[0], under);
      }
      forall b | b in WalkContainers(nodes, under) ensures Headed(nodes, under, b) {
        if b in WalkContainers(nodes[1..], under) {
          HeadedAmongMore(nodes[1..], nodes, under, b);
        } else {
          HeadedAmongMore([nodes[0]], nodes, under, b);
        }
      }
    }
  }

  /** A branch emitted for `nodes`: every band answers below, or is a line of `nodes` with the header given. */
  lemma BranchHeads(nodes: seq<Node>, under: Option<string>)
    ensures forall b | b in EmitBranch(nodes, under) ::
              || AnswersIn(nodes, b)
              || (LineOf(b, nodes) && b.under == under && (under.None? ==> b.head.Some?))
              || (b.RowBlock? && under.None? && b.row in nodes && b.id == b.row.id)
  {
    WalksHead(nodes, under);
    var leaves := Filter(nodes, IsLeaf);
    if under.None? {
      forall b | b in RowBlocks(leaves) ensures b.RowBlock? && b.row in nodes && b.id == b.row.id {
        var i :| 0 <= i < |leaves| && RowBlocks(leaves)[i] == b;
        assert leaves[i] in leaves;
      }
    }
  }

  /** Which children of a node a branch of the sheet was emitted for. */
  ghost predicate HeadedBy(tree: seq<Node>, b: Block, p: Node, header: string) {
    && InForest(tree, p) && b.Band? && b.under == Some(header)
    && exists some :: (forall n | n in some :: n in p.children) && LineOf(b, some)
  }

  /** What a branch answers to: the node by its name, but the elder roster as the body of elders. */
  predicate TitleOfRoster(p: Node) { p.isRoster && p.key.Elder? }

  function TitleOf(tree: seq<Node>, p: Node): string {
    if p in tree && TitleOfRoster(p) then "Collège des anciens" else p.name
  }

  // ----- a node below a root is no root -----

  lemma {:induction false} ForestHasId(f: seq<Node>, p: Node)
    requires InForest(f, p)
    ensures p.id in FlatIds(f)
  {
    if f[0] == p {
    } else if InForest(f[0].children, p) {
      ForestHasId(f[0].children, p);
    } else {
      ForestHasId(f[1..], p);
    }
  }

  lemma {:induction false} DeepIsNoRoot(f: seq<Node>, r: Node, p: Node)
    requires Distinct(FlatIds(f)) && r in f && InForest(r.children, p)
    ensures p !in f
  {
    var own, rest := [f[0].id] + FlatIds(f[0].children), FlatIds(f[1..]);
    DistinctParts(own, rest);
    ForestHasId(r.children, p);
    assert f[0].id in own;
    if r == f[0] {
      DistinctParts([f[0].id], FlatIds(f[0].children));
      if p in f[1..] { MembersInForest(f[1..], [p], p); ForestHasId(f[1..], p); }
    } else {
      DeepIsNoRoot(f[1..], r, p);
      MembersInForest(f[1..], [r], r);
      DeeperInForest(f[1..], r, p);
      ForestHasId(f[1..], p);
    }
  }

  lemma {:induction false} RootAbove(f: seq<Node>, n: Node, p: Node) returns (r: Node)
    requires InForest(f, n) && InForest(n.children, p)
    ensures r in f && InForest(r.children, p)
  {
    if f[0] == n {
      r := n;
    } else if InForest(f[0].children, n) {
      DeeperInForest(f[0].children, n, p);
      r := f[0];
    } else {
      r := RootAbove(f[1..], n, p);
    }
  }

  /**
   Every band carries the header of the node its lines hang under: the node's own name, except the
   elder roster's, which reads as the body of elders. Only roots outside the rosters have none.
   */
  ghost predicate RightHeader(tree: seq<Node>, b: Block) {
    match b
    case RosterBlock(id, title, n) => n in tree && n.isRoster && id == n.id && title == n.name
    case CommitteeBlock(id, c, posts) =>
      && InForest(tree, c) && c.key.Committee? && id == c.id && posts == PostsIn(c.children, POST_KEYS)
    case RowBlock(id, n) => n in tree && !n.isRoster && id == n.id
    case Band(_, head, under, _) =>
      if under.None? then head.Some? && head.value in tree && !head.value.isRoster
      else exists p :: HeadedBy(tree, b, p, under.value) && under.value == TitleOf(tree, p)
  }

  lemma AnswersAreRight(tree: seq<Node>, n: Node, some: seq<Node>, b: Block)
    requires Distinct(FlatIds(tree))
    requires InForest(tree, n) && (forall c | c in some :: c in n.children) && AnswersIn(some, b)
    ensures RightHeader(tree, b)
  {
    var p :| InForest(some, p) && Answers(b, p);
    SomeInForest(some, n.children, p);
    DeeperInForest(tree, n, p);
    var r := RootAbove(tree, n, p);
    DeepIsNoRoot(tree, r, p);
    assert HeadedBy(tree, b, p, p.name);
  }

  lemma {:induction false} SomeInForest(some: seq<Node>, all: seq<Node>, p: Node)
    requires InForest(some, p) && forall c | c in some :: c in all
    ensures InForest(all, p)
    decreases |some|
  {
    if some[0] == p {
      assert p in some;
      MembersInForest(all, [p], p);
    } else if InForest(some[0].children, p) {
      assert some[0] in some;
      MembersInForest(all, [some[0]], some[0]);
      DeeperInForest(all, some[0], p);
    } else {
      SomeInForest(some[1..], all, p);
    }
  }

  lemma BranchIsRight(tree: seq<Node>, p: Node, some: seq<Node>, header: string)
    requires InForest(tree, p) && forall c | c in some :: c in p.children
    requires Distinct(FlatIds(tree)) && header == TitleOf(tree, p)
    ensures forall b | b in EmitBranch(some, Some(header)) :: RightHeader(tree, b)
  {
    BranchHeads(some, Some(header));
    forall b | b in EmitBranch(some, Some(header)) ensures RightHeader(tree, b) {
      if AnswersIn(some, b) {
        AnswersAreRight(tree, p, some, b);
      } else {
        assert HeadedBy(tree, b, p, header);
      }
    }
  }

  lemma {:induction false} PostsAreRight(tree: seq<Node>, posts: seq<Node>)
    requires Distinct(FlatIds(tree)) && forall p | p in posts :: InForest(tree, p) && !TitleOfRoster(p)
    ensures forall b | b in EmitPosts(posts) :: RightHeader(tree, b)
  {
    if posts != [] {
      BranchIsRight(tree, posts[0], posts[0].children, posts[0].name);
      PostsAreRight(tree, posts[1..]);
    }
  }

  lemma {:induction false} PostsAreChildren(nodes: seq<Node>, keys: seq<Key>)
    ensures forall p | p in PostsIn(nodes, keys) :: p in nodes
  {
    if keys != [] {
      PostsAreChildren(nodes, keys[1..]);
    }
  }

  lemma {:induction false} PostsHaveKeys(nodes: seq<Node>, keys: seq<Key>)
    ensures forall p | p in PostsIn(nodes, keys) :: p.key in keys
  {
    if keys != [] {
      PostsHaveKeys(nodes, keys[1..]);
    }
  }

  lemma ChildInForest(tree: seq<Node>, n: Node, c: Node)
    requires InForest(tree, n) && c in n.children
    ensures InForest(tree, c)
  {
    MembersInForest(n.children, [c], c);
    DeeperInForest(tree, n, c);
  }

  lemma CommitteeIsRight(tree: seq<Node>, c: Node)
    requires Distinct(FlatIds(tree)) && InForest(tree, c) && c.key.Committee?
    ensures var posts := PostsIn(c.children, POST_KEYS);
            && RightHeader(tree, CommitteeBlock(c.id, c, posts))
            && (forall b | b in EmitPosts(posts) :: RightHeader(tree, b))
            && (forall b | b in EmitBranch(Filter(c.children, NotPostNode), Some(c.name)) :: RightHeader(tree, b))
  {
    var posts := PostsIn(c.children, POST_KEYS);
    PostsAreChildren(c.children, POST_KEYS);
    forall p | p in posts ensures InForest(tree, p) && !TitleOfRoster(p) {
      ChildInForest(tree, c, p);
      PostsHaveKeys(c.children, POST_KEYS);
    }
    PostsAreRight(tree, posts);
    BranchIsRight(tree, c, Filter(c.children, NotPostNode), c.name);
  }

  lemma {:induction false} RostersAreRight(tree: seq<Node>, rosters: seq<Node>)
    requires Distinct(FlatIds(tree)) && forall r | r in rosters :: r in tree && r.isRoster
    ensures forall b | b in EmitRosters(rosters) :: RightHeader(tree, b)
  {
    if rosters != [] {
      var r := rosters[0];
      MembersInForest(tree, [r], r);
      BranchIsRight(tree, r, Filter(r.children, NotCommitteeNode), RosterHeader(r));
      RostersAreRight(tree, rosters[1..]);
    }
  }

  lemma {:induction false} ChildrenOfSome(nodes: seq<Node>, c: Node) returns (n: Node)
    requires c in ChildrenOfAll(nodes)
    ensures n in nodes && c in n.children
  {
    if c in nodes[0].children {
      n := nodes[0];
    } else {
      n := ChildrenOfSome(nodes[1..], c);
    }
  }

  lemma {:induction false} RootOf(f: seq<Node>, p: Node) returns (r: Node)
    requires InForest(f, p)
    ensures r in f && (r == p || InForest(r.children, p))
  {
    if f[0] == p || InForest(f[0].children, p) { r := f[0]; } else { r := RootOf(f[1..], p); }
  }

  /** Nothing below the other roots is a roster of the sheet. */
  lemma OtherHasName(tree: seq<Node>, p: Node)
    requires Distinct(FlatIds(tree)) && InForest(Filter(tree, OtherNode), p)
    ensures TitleOf(tree, p) == p.name
  {
    var r := RootOf(Filter(tree, OtherNode), p);
    if r != p { DeepIsNoRoot(tree, r, p); }
  }

  lemma LegacyIsRight(tree: seq<Node>)
    requires Distinct(FlatIds(tree))
    ensures forall b | b in EmitBranch(Filter(tree, OtherNode), None) :: RightHeader(tree, b)
  {
    var others := Filter(tree, OtherNode);
    BranchHeads(others, None);
    forall b | b in EmitBranch(others, None) ensures RightHeader(tree, b) {
      if AnswersIn(others, b) {
        var p :| InForest(others, p) && Answers(b, p);
        SomeInForest(others, tree, p);
        OtherHasName(tree, p);
        assert HeadedBy(tree, b, p, p.name);
      }
    }
  }

  lemma MastheadIsRight(tree: seq<Node>)
    ensures forall b | b in RosterBlocks(Filter(tree, RosterNode)) :: RightHeader(tree, b)
  {
    var rosters := Filter(tree, RosterNode);
    forall b | b in RosterBlocks(rosters) ensures RightHeader(tree, b) {
      var i :| 0 <= i < |rosters| && RosterBlocks(rosters)[i] == b;
      assert rosters[i] in rosters;
    }
  }

  lemma CommitteePartIsRight(tree: seq<Node>)
    requires Distinct(FlatIds(tree))
    ensures forall b | b in EmitCommittee(ChildrenOfAll(Filter(tree, RosterNode))) :: RightHeader(tree, b)
  {
    var rosters := Filter(tree, RosterNode);
    var found := Filter(ChildrenOfAll(rosters), CommitteeNode);
    if found != [] {
      assert found[0] in found;
      var r := ChildrenOfSome(rosters, found[0]);
      MembersInForest(tree, [r], r);
      ChildInForest(tree, r, found[0]);
      CommitteeIsRight(tree, found[0]);
    }
  }

  /** Every block of the sheet carries the right header, for any tree that shows no role twice. */
  lemma SheetHeadersAreRight(tree: seq<Node>)
    requires Distinct(FlatIds(tree))
    ensures forall b | b in ToLayout(tree) :: RightHeader(tree, b)
  {
    MastheadIsRight(tree);
    CommitteePartIsRight(tree);
    RostersAreRight(tree, Filter(tree, RosterNode));
    LegacyIsRight(tree);
  }

  /** So does every block of the sheet of any chart rows. */
  lemma ChartHeadersAreRight(rows: seq<Role>, holders: seq<Holder>)
    requires UniqueIds(rows)
    ensures var tree := Forest(rows, holders); forall b | b in ToLayout(tree) :: RightHeader(tree, b)
  {
    ForestShowsEachRoleOnce(rows, holders);
    SheetHeadersAreRight(Forest(rows, holders));
  }
}
