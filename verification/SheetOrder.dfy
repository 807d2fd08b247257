/** The order of the printed sheet: which branch a block prints decides where it stands. */
module SheetOrder {
  import opened Lists
  import opened Roles
  import opened Tree
  import opened Layout

  // ----- one after the other in a list of ids -----

  ghost predicate Before(s: seq<int>, x: int, y: int) {
    exists i, j | 0 <= i < j < |s| :: s[i] == x && s[j] == y
  }

  lemma BeforeInLeft(s: seq<int>, t: seq<int>, x: int, y: int)
    requires Before(s, x, y)
    ensures Before(s + t, x, y)
  {
    var i, j :| 0 <= i < j < |s| && s[i] == x && s[j] == y;
    assert (s + t)[i] == x && (s + t)[j] == y;
  }

  lemma BeforeInRight(s: seq<int>, t: seq<int>, x: int, y: int)
    requires Before(t, x, y)
    ensures Before(s + t, x, y)
  {
    var i, j :| 0 <= i < j < |t| && t[i] == x && t[j] == y;
    assert (s + t)[|s| + i] == x && (s + t)[|s| + j] == y;
  }

  lemma BeforeAcross(s: seq<int>, t: seq<int>, x: int, y: int)
    requires x in s && y in t
    ensures Before(s + t, x, y)
  {
    var i :| 0 <= i < |s| && s[i] == x;
    var j :| 0 <= j < |t| && t[j] == y;
    assert (s + t)[i] == x && (s + t)[|s| + j] == y;
  }

  /** `s` reads within `t`: all of it, in the same order. */
  ghost predicate ReadsIn(s: seq<int>, t: seq<int>) {
    (forall x | x in s :: x in t) && (forall x, y | Before(s, x, y) :: Before(t, x, y))
  }

  lemma ReadsInAppend(s: seq<int>, t: seq<int>, s': seq<int>, t': seq<int>)
    requires ReadsIn(s, t) && ReadsIn(s', t')
    ensures ReadsIn(s + s', t + t')
  {
    forall x, y | Before(s + s', x, y) ensures Before(t + t', x, y) {
      var i, j :| 0 <= i < j < |s + s'| && (s + s')[i] == x && (s + s')[j] == y;
      if j < |s| {
        assert Before(s, x, y);
        BeforeInLeft(t, t', x, y);
      } else if i >= |s| {
        assert s'[i - |s|] == x && s'[j - |s|] == y && Before(s', x, y);
        BeforeInRight(t, t', x, y);
      } else {
        assert s[i] == x && s'[j - |s|] == y;
        BeforeAcross(t, t', x, y);
      }
    }
  }

  lemma {:induction false} FilterReadsIn(f: seq<Node>, keep: Node -> bool)
    ensures ReadsIn(FlatIds(Filter(f, keep)), FlatIds(f))
  {
    if f != [] {
      FilterReadsIn(f[1..], keep);
      var own := [f[0].id] + FlatIds(f[0].children);
      var rest := Filter(f[1..], keep);
      if keep(f[0]) {
        assert Filter(f, keep)[0] == f[0] && Filter(f, keep)[1..] == rest;
        ReadsInAppend(own, own, FlatIds(rest), FlatIds(f[1..]));
      } else {
        ReadsInAppend([], own, FlatIds(rest), FlatIds(f[1..]));
        assert [] + FlatIds(rest) == FlatIds(rest);
      }
    }
  }

  /** What hangs below a node of the forest reads within it. */
  lemma {:induction false} BelowReadsIn(f: seq<Node>, n: Node)
    requires n in f
    ensures n.id in FlatIds(f) && ReadsIn(FlatIds(n.children), FlatIds(f))
  {
    var own := [f[0].id] + FlatIds(f[0].children);
    if n == f[0] {
      ReadsInAppend([], [n.id], FlatIds(n.children), FlatIds(n.children));
      assert [] + FlatIds(n.children) == FlatIds(n.children);
      ReadsInAppend(FlatIds(n.children), own, [], FlatIds(f[1..]));
      assert FlatIds(n.children) + [] == FlatIds(n.children);
    } else {
      BelowReadsIn(f[1..], n);
      ReadsInAppend([], own, FlatIds(n.children), FlatIds(f[1..]));
      assert [] + FlatIds(n.children) == FlatIds(n.children);
    }
  }

  // ----- one branch -----

  /** The blocks read in this order of ids. */
  ghost predicate InOrder(flat: seq<int>, blocks: seq<Block>) {
    && (forall b | b in blocks :: b.id in flat)
    && (forall i, j | 0 <= i < j < |blocks| :: Before(flat, blocks[i].id, blocks[j].id))
  }

  lemma InOrderAppend(s: seq<int>, a: seq<Block>, t: seq<int>, b: seq<Block>)
    requires InOrder(s, a) && InOrder(t, b)
    ensures InOrder(s + t, a + b)
  {
    forall i, j | 0 <= i < j < |a + b| ensures Before(s + t, (a + b)[i].id, (a + b)[j].id) {
      if j < |a| {
        BeforeInLeft(s, t, a[i].id, a[j].id);
      } else if i >= |a| {
        BeforeInRight(s, t, b[i - |a|].id, b[j - |a|].id);
      } else {
        assert a[i] in a && b[j - |a|] in b;
        BeforeAcross(s, t, a[i].id, b[j - |a|].id);
      }
    }
  }

  lemma OneInOrder(flat: seq<int>, b: Block)
    requires b.id in flat
    ensures InOrder(flat, [b])
  {
  }

  /** The line of a node itself, as against a line of leaves without one. */
  predicate HasHead(b: Block) { b.Band? && b.head.Some? }

  lemma {:induction false} WalkInOrder(n: Node, under: Option<string>)
    ensures InOrder([n.id] + FlatIds(n.children), WalkContainer(n, under))
    ensures forall b | b in WalkContainer(n, under) :: HasHead(b)
    decreases n, 0
  {
    var own := Band(n.id, Some(n), under, Filter(n.children, IsLeaf));
    OneInOrder([n.id], own);
    if Filter(n.children, IsContainer) != [] {
      WalksInOrder(n.children, Some(n.name));
      InOrderAppend([n.id], [own], FlatIds(n.children), WalkContainers(n.children, Some(n.name)));
    }
  }

  lemma {:induction false} WalksInOrder(nodes: seq<Node>, under: Option<string>)
    ensures InOrder(FlatIds(nodes), WalkContainers(nodes, under))
    ensures forall b | b in WalkContainers(nodes, under) :: HasHead(b)
    decreases nodes, 1
  {
    if nodes != [] {
      WalksInOrder(nodes[1..], under);
      var first := if IsContainer(nodes[0]) then WalkContainer(nodes[0], under) else [];
      if IsContainer(nodes[0]) { WalkInOrder(nodes[0], under); }
      InOrderAppend([nodes[0].id] + FlatIds(nodes[0].children), first,
                    FlatIds(nodes[1..]), WalkContainers(nodes[1..], under));
    }
  }

  lemma {:induction false} RowsInOrder(leaves: seq<Node>)
    ensures InOrder(FlatIds(leaves), RowBlocks(leaves))
  {
    if leaves != [] {
      RowsInOrder(leaves[1..]);
      assert RowBlocks(leaves) == [RowBlock(leaves[0].id, leaves[0])] + RowBlocks(leaves[1..]);
      var own := [leaves[0].id] + FlatIds(leaves[0].children);
      OneInOrder(own, RowBlock(leaves[0].id, leaves[0]));
      InOrderAppend(own, [RowBlock(leaves[0].id, leaves[0])], FlatIds(leaves[1..]), RowBlocks(leaves[1..]));
    }
  }

  /** Within a branch: lines of leaves first, then the containers, each in the order of the tree. */
  ghost predicate ComesFirst(flat: seq<int>, a: Block, b: Block) {
    (!HasHead(a) && HasHead(b)) || (HasHead(a) == HasHead(b) && Before(flat, a.id, b.id))
  }

  ghost predicate BranchOrder(flat: seq<int>, blocks: seq<Block>) {
    && (forall b | b in blocks :: b.id in flat && (b.Band? || b.RowBlock?))
    && (forall i, j | 0 <= i < j < |blocks| :: ComesFirst(flat, blocks[i], blocks[j]))
  }

  lemma LeavesInOrder(nodes: seq<Node>, under: Option<string>)
    ensures InOrder(FlatIds(nodes), LeafBlocks(Filter(nodes, IsLeaf), under))
    ensures forall b | b in LeafBlocks(Filter(nodes, IsLeaf), under) :: !HasHead(b) && (b.Band? || b.RowBlock?)
  {
    var leaves := Filter(nodes, IsLeaf);
    FilterReadsIn(nodes, IsLeaf);
    RowsInOrder(leaves);
    if leaves != [] { assert leaves[0].id in FlatIds(leaves); }
  }

  lemma BranchInOrder(nodes: seq<Node>, under: Option<string>)
    ensures BranchOrder(FlatIds(nodes), EmitBranch(nodes, under))
  {
    LeavesInOrder(nodes, under);
    WalksInOrder(nodes, under);
    HeadsLast(FlatIds(nodes), LeafBlocks(Filter(nodes, IsLeaf), under), WalkContainers(nodes, under));
  }

  lemma HeadsLast(flat: seq<int>, a: seq<Block>, b: seq<Block>)
    requires InOrder(flat, a) && InOrder(flat, b)
    requires forall x | x in a :: !HasHead(x) && (x.Band? || x.RowBlock?)
    requires forall x | x in b :: HasHead(x)
    ensures BranchOrder(flat, a + b)
  {
    forall i, j | 0 <= i < j < |a + b| ensures ComesFirst(flat, (a + b)[i], (a + b)[j]) {
      if i < |a| { assert a[i] in a; } else { assert b[i - |a|] in b; }
      if j < |a| { assert a[j] in a; } else { assert b[j - |a|] in b; }
    }
  }

  // ----- the branches of the sheet -----

  datatype Stage =
    | Masthead | OfCommittee | UnderPost(post: Key) | UnderCommittee | UnderRoster | OtherRoots

  /** Masthead, committee, its posts' branches in their order, its other services, the rosters' own, other roots. */
  function Rank(s: Stage): int {
    match s
    case Masthead => 0
    case OfCommittee => 1
    case UnderPost(k) => if k.Coordinator? then 2 else if k.Secretary? then 3 else if k.ServiceOverseer? then 4 else 0
    case UnderCommittee => 5
    case UnderRoster => 6
    case OtherRoots => 7
  }

  ghost predicate IsCommitteeOf(tree: seq<Node>, c: Node) {
    exists r :: r in tree && r.isRoster && c in r.children && c.key.Committee?
  }

  /** Where in the tree the block's first role stands, and whose branch that is. */
  ghost predicate Stands(tree: seq<Node>, b: Block, s: Stage, home: Node) {
    match s
    case Masthead => b.RosterBlock? && home in tree && home.isRoster && b.id == home.id
    case OfCommittee => b.CommitteeBlock? && IsCommitteeOf(tree, home) && b.id == home.id
    case UnderPost(k) =>
      && (b.Band? || b.RowBlock?) && home.key == k && k in {Coordinator, Secretary, ServiceOverseer}
      && (exists c :: IsCommitteeOf(tree, c) && home in c.children) && b.id in FlatIds(home.children)
    case UnderCommittee =>
      && (b.Band? || b.RowBlock?) && IsCommitteeOf(tree, home)
      && exists n :: n in home.children && n.key !in {Coordinator, Secretary, ServiceOverseer} && b.id in FlatIds([n])
    case UnderRoster =>
      && (b.Band? || b.RowBlock?) && home in tree && home.isRoster
      && exists n :: n in home.children && !n.key.Committee? && b.id in FlatIds([n])
    case OtherRoots =>
      (b.Band? || b.RowBlock?) && home in tree && !home.isRoster && b.id in FlatIds([home])
  }

  datatype Spot = Spot(stage: Stage, home: Node)

  /** By branch; branches of one kind as their heads come in the tree; within a branch as above. */
  ghost predicate Follows(flat: seq<int>, a: Block, p: Spot, b: Block, q: Spot) {
    || Rank(p.stage) < Rank(q.stage)
    || (p.stage == q.stage && !p.stage.OtherRoots? && p.home != q.home && Before(flat, p.home.id, q.home.id))
    || (p.stage == q.stage && (p.stage.OtherRoots? || p.home == q.home) && ComesFirst(flat, a, b))
  }

  /** Each block stands at its spot, and the spots come in the order of the sheet. */
  ghost predicate SheetInOrder(tree: seq<Node>, blocks: seq<Block>, spots: seq<Spot>) {
    && |spots| == |blocks|
    && (forall i | 0 <= i < |blocks| :: Stands(tree, blocks[i], spots[i].stage, spots[i].home))
    && (forall i, j | 0 <= i < j < |blocks| :: Follows(FlatIds(tree), blocks[i], spots[i], blocks[j], spots[j]))
  }

  lemma SheetAppend(tree: seq<Node>, a: seq<Block>, p: seq<Spot>, b: seq<Block>, q: seq<Spot>)
    requires SheetInOrder(tree, a, p) && SheetInOrder(tree, b, q)
    requires forall i, j | 0 <= i < |p| && 0 <= j < |q| :: Follows(FlatIds(tree), a[i], p[i], b[j], q[j])
    ensures SheetInOrder(tree, a + b, p + q)
  {
    var blocks, spots, n := a + b, p + q, |a|;
    forall i | 0 <= i < |blocks| ensures Stands(tree, blocks[i], spots[i].stage, spots[i].home) {
      if i < n {
        assert blocks[i] == a[i] && spots[i] == p[i];
      } else {
        assert blocks[i] == b[i - n] && spots[i] == q[i - n];
      }
    }
    forall i, j | 0 <= i < j < |blocks| ensures Follows(FlatIds(tree), blocks[i], spots[i], blocks[j], spots[j]) {
      FollowsInJoin(FlatIds(tree), a, p, b, q, i, j);
    }
  }

  ghost predicate AllFollow(flat: seq<int>, a: seq<Block>, p: seq<Spot>)
    requires |a| == |p|
  {
    forall i, j | 0 <= i < j < |a| :: Follows(flat, a[i], p[i], a[j], p[j])
  }

  lemma FollowsInJoin(flat: seq<int>, a: seq<Block>, p: seq<Spot>, b: seq<Block>, q: seq<Spot>, i: int, j: int)
    requires |a| == |p| && |b| == |q| && AllFollow(flat, a, p) && AllFollow(flat, b, q)
    requires forall i, j | 0 <= i < |p| && 0 <= j < |q| :: Follows(flat, a[i], p[i], b[j], q[j])
    requires 0 <= i < j < |a + b|
    ensures Follows(flat, (a + b)[i], (p + q)[i], (a + b)[j], (p + q)[j])
  {
    var n := |a|;
    if j < n {
      assert Follows(flat, a[i], p[i], a[j], p[j]);
    } else if i >= n {
      assert Follows(flat, b[i - n], q[i - n], b[j - n], q[j - n]);
    } else {
      assert Follows(flat, a[i], p[i], b[j - n], q[j - n]);
    }
  }

  ghost predicate Between(spots: seq<Spot>, lo: int, hi: int) {
    forall s | s in spots :: lo <= Rank(s.stage) <= hi
  }

  /** Every spot of the one comes before every spot of the other. */
  lemma StagesAppend(tree: seq<Node>, a: seq<Block>, p: seq<Spot>, b: seq<Block>, q: seq<Spot>, lo: int, mid: int,
      hi: int)
    requires SheetInOrder(tree, a, p) && SheetInOrder(tree, b, q)
    requires Between(p, lo, mid) && Between(q, mid + 1, hi) && lo <= mid < hi
    ensures SheetInOrder(tree, a + b, p + q) && Between(p + q, lo, hi)
  {
    forall i, j | 0 <= i < |p| && 0 <= j < |q| ensures Follows(FlatIds(tree), a[i], p[i], b[j], q[j]) {
      assert p[i] in p && q[j] in q;
    }
    SheetAppend(tree, a, p, b, q);
  }

  function Repeat(n: nat, p: Spot): (s: seq<Spot>)
    ensures |s| == n && forall i | 0 <= i < n :: s[i] == p
  {
    seq(n, _ => p)
  }

  /** A branch at one spot. */
  lemma BranchAt(tree: seq<Node>, nodes: seq<Node>, under: Option<string>, p: Spot)
    requires ReadsIn(FlatIds(nodes), FlatIds(tree))
    requires forall b: Block | (b.Band? || b.RowBlock?) && b.id in FlatIds(nodes) :: Stands(tree, b, p.stage, p.home)
    ensures SheetInOrder(tree, EmitBranch(nodes, under), Repeat(|EmitBranch(nodes, under)|, p))
  {
    var blocks := EmitBranch(nodes, under);
    BranchInOrder(nodes, under);
    forall i | 0 <= i < |blocks| ensures Stands(tree, blocks[i], p.stage, p.home) { assert blocks[i] in blocks; }
  }

  lemma {:induction false} FoundUnder(nodes: seq<Node>, id: int) returns (n: Node)
    requires id in FlatIds(nodes)
    ensures n in nodes && id in FlatIds([n])
  {
    var own := [nodes[0].id] + FlatIds(nodes[0].children);
    assert FlatIds([nodes[0]]) == own + FlatIds([]);
    if id in own {
      n := nodes[0];
    } else {
      n := FoundUnder(nodes[1..], id);
    }
  }

  lemma ReadsInTrans(s: seq<int>, t: seq<int>, u: seq<int>)
    requires ReadsIn(s, t) && ReadsIn(t, u)
    ensures ReadsIn(s, u)
  {
  }

  // ----- the committee's part -----

  lemma CommitteeReadsIn(tree: seq<Node>, c: Node)
    requires IsCommitteeOf(tree, c)
    ensures c.id in FlatIds(tree) && ReadsIn(FlatIds(c.children), FlatIds(tree))
  {
    var r :| r in tree && r.isRoster && c in r.children && c.key.Committee?;
    BelowReadsIn(tree, r);
    BelowReadsIn(r.children, c);
    ReadsInTrans(FlatIds(c.children), FlatIds(r.children), FlatIds(tree));
  }

  lemma OnePostAt(tree: seq<Node>, c: Node, p: Node)
    requires IsCommitteeOf(tree, c) && p in c.children && p.key in {Coordinator, Secretary, ServiceOverseer}
    ensures var blocks := EmitBranch(p.children, Some(p.name));
            SheetInOrder(tree, blocks, Repeat(|blocks|, Spot(UnderPost(p.key), p)))
  {
    CommitteeReadsIn(tree, c);
    BelowReadsIn(c.children, p);
    ReadsInTrans(FlatIds(p.children), FlatIds(c.children), FlatIds(tree));
    BranchAt(tree, p.children, Some(p.name), Spot(UnderPost(p.key), p));
  }

  /** The branches of some of a committee's posts, all of one key, in the order of the tree. */
  lemma {:induction false} PostsAt(tree: seq<Node>, c: Node, posts: seq<Node>, k: Key) returns (spots: seq<Spot>)
    requires IsCommitteeOf(tree, c) && k in {Coordinator, Secretary, ServiceOverseer}
    requires forall p | p in posts :: p in c.children && p.key == k
    requires Distinct(posts) && ReadsIn(NodeIds(posts), FlatIds(tree))
    ensures SheetInOrder(tree, EmitPosts(posts), spots)
    ensures forall s | s in spots :: s.stage == UnderPost(k) && s.home in posts
  {
    if posts == [] {
      spots := [];
    } else {
      var p, rest := posts[0], posts[1..];
      var first := EmitBranch(p.children, Some(p.name));
      OnePostAt(tree, c, p);
      RestReadsIn(posts, FlatIds(tree));
      var later := PostsAt(tree, c, rest, k);
      var mine := Repeat(|first|, Spot(UnderPost(k), p));
      HomesFollow(tree, first, mine, EmitPosts(rest), later, posts);
      SheetAppend(tree, first, mine, EmitPosts(rest), later);
      spots := mine + later;
    }
  }

  lemma RestReadsIn(posts: seq<Node>, flat: seq<int>)
    requires posts != [] && ReadsIn(NodeIds(posts), flat)
    ensures ReadsIn(NodeIds(posts[1..]), flat)
  {
    assert NodeIds(posts) == [posts[0].id] + NodeIds(posts[1..]);
    forall x, y | Before(NodeIds(posts[1..]), x, y) ensures Before(flat, x, y) {
      BeforeInRight([posts[0].id], NodeIds(posts[1..]), x, y);
    }
  }

  lemma HeadReadsFirst(posts: seq<Node>, n: Node, flat: seq<int>)
    requires posts != [] && n in posts[1..] && Distinct(posts) && ReadsIn(NodeIds(posts), flat)
    ensures n != posts[0] && Before(flat, posts[0].id, n.id)
  {
    var j :| 0 <= j < |posts[1..]| && posts[1..][j] == n;
    assert posts[j + 1] == n && NodeIds(posts)[0] == posts[0].id && NodeIds(posts)[j + 1] == n.id;
    assert Before(NodeIds(posts), posts[0].id, n.id);
  }

  /** A branch of the first home comes before those of the others. */
  lemma HomesFollow(tree: seq<Node>, first: seq<Block>, mine: seq<Spot>, rest: seq<Block>, later: seq<Spot>,
      homes: seq<Node>)
    requires |first| == |mine| && |rest| == |later| && homes != [] && Distinct(homes)
    requires ReadsIn(NodeIds(homes), FlatIds(tree))
    requires forall x, y | x in mine && y in later :: x.stage == y.stage && !x.stage.OtherRoots?
    requires (forall x | x in mine :: x.home == homes[0]) && forall y | y in later :: y.home in homes[1..]
    ensures forall i, j | 0 <= i < |mine| && 0 <= j < |later| ::
              Follows(FlatIds(tree), first[i], mine[i], rest[j], later[j])
  {
    forall i, j | 0 <= i < |mine| && 0 <= j < |later|
      ensures Follows(FlatIds(tree), first[i], mine[i], rest[j], later[j]) {
      assert mine[i] in mine && later[j] in later;
      HeadReadsFirst(homes, later[j].home, FlatIds(tree));
    }
  }

  /** Nodes of a list read in it by id. */
  lemma {:induction false} IdsReadIn(f: seq<Node>)
    ensures ReadsIn(NodeIds(f), FlatIds(f))
  {
    if f != [] {
      IdsReadIn(f[1..]);
      var own := [f[0].id] + FlatIds(f[0].children);
      ReadsInAppend([f[0].id], [f[0].id], [], FlatIds(f[0].children));
      ReadsInAppend([f[0].id], own, NodeIds(f[1..]), FlatIds(f[1..]));
      assert NodeIds(f) == [f[0].id] + NodeIds(f[1..]) && [f[0].id] + [] == [f[0].id];
    }
  }

  lemma KeyPostsAt(tree: seq<Node>, c: Node, k: Key) returns (spots: seq<Spot>)
    requires IsCommitteeOf(tree, c) && k in {Coordinator, Secretary, ServiceOverseer} && Distinct(c.children)
    ensures SheetInOrder(tree, EmitPosts(Filter(c.children, KeyIs(k))), spots)
    ensures forall s | s in spots :: s.stage == UnderPost(k)
  {
    var posts := Filter(c.children, KeyIs(k));
    FilterDistinct(c.children, KeyIs(k));
    CommitteeReadsIn(tree, c);
    IdsReadIn(posts);
    FilterReadsIn(c.children, KeyIs(k));
    ReadsInTrans(NodeIds(posts), FlatIds(posts), FlatIds(c.children));
    ReadsInTrans(NodeIds(posts), FlatIds(c.children), FlatIds(tree));
    spots := PostsAt(tree, c, posts, k);
  }

  lemma EmitPostsCons(p: Node, rest: seq<Node>)
    ensures EmitPosts([p] + rest) == EmitBranch(p.children, Some(p.name)) + EmitPosts(rest)
  {
    assert ([p] + rest)[1..] == rest;
  }

  lemma Regrouped(a: seq<Block>, b: seq<Block>, c: seq<Block>)
    ensures a + (b + c) == a + b + c
  {
  }

  lemma {:induction false} EmitPostsAppend(a: seq<Node>, b: seq<Node>)
    ensures EmitPosts(a + b) == EmitPosts(a) + EmitPosts(b)
  {
    if a == [] {
      assert a + b == b;
    } else {
      var p, rest := a[0], a[1..];
      var first := EmitBranch(p.children, Some(p.name));
      assert a == [p] + rest && a + b == [p] + (rest + b);
      EmitPostsAppend(rest, b);
      calc {
        EmitPosts(a + b);
        EmitPosts([p] + (rest + b));
        { EmitPostsCons(p, rest + b); }
        first + (EmitPosts(rest) + EmitPosts(b));
        { Regrouped(first, EmitPosts(rest), EmitPosts(b)); }
        (first + EmitPosts(rest)) + EmitPosts(b);
        { EmitPostsCons(p, rest); }
        EmitPosts(a) + EmitPosts(b);
      }
    }
  }

  /** The posts by key, in the order of the keys. */
  lemma PostsAre(nodes: seq<Node>)
    ensures PostsIn(nodes, POST_KEYS)
         == Filter(nodes, KeyIs(Coordinator)) + Filter(nodes, KeyIs(Secretary)) + Filter(nodes, KeyIs(ServiceOverseer))
  {
    var a, b := Filter(nodes, KeyIs(Coordinator)), Filter(nodes, KeyIs(Secretary));
    var c := Filter(nodes, KeyIs(ServiceOverseer));
    assert POST_KEYS[1..] == [Secretary, ServiceOverseer] && [Secretary, ServiceOverseer][1..] == [ServiceOverseer];
    assert PostsIn(nodes, []) == [] && PostsIn(nodes, [ServiceOverseer]) == c + [] == c;
    assert PostsIn(nodes, [Secretary, ServiceOverseer]) == b + c;
    assert PostsIn(nodes, POST_KEYS) == a + (b + c) == a + b + c;
  }

  lemma PostsByKey(nodes: seq<Node>)
    ensures EmitPosts(PostsIn(nodes, POST_KEYS))
         == EmitPosts(Filter(nodes, KeyIs(Coordinator))) + EmitPosts(Filter(nodes, KeyIs(Secretary)))
            + EmitPosts(Filter(nodes, KeyIs(ServiceOverseer)))
  {
    var a, b := Filter(nodes, KeyIs(Coordinator)), Filter(nodes, KeyIs(Secretary));
    PostsAre(nodes);
    EmitPostsAppend(a + b, Filter(nodes, KeyIs(ServiceOverseer)));
    EmitPostsAppend(a, b);
  }

  lemma PostBranchesAt(tree: seq<Node>, c: Node) returns (spots: seq<Spot>)
    requires IsCommitteeOf(tree, c) && Distinct(c.children)
    ensures SheetInOrder(tree, EmitPosts(PostsIn(c.children, POST_KEYS)), spots)
    ensures Between(spots, 2, 4)
  {
    var p := KeyPostsAt(tree, c, Coordinator);
    var q := KeyPostsAt(tree, c, Secretary);
    var r := KeyPostsAt(tree, c, ServiceOverseer);
    var a, b := EmitPosts(Filter(c.children, KeyIs(Coordinator))), EmitPosts(Filter(c.children, KeyIs(Secretary)));
    StagesAppend(tree, a, p, b, q, 2, 2, 3);
    StagesAppend(tree, a + b, p + q, EmitPosts(Filter(c.children, KeyIs(ServiceOverseer))), r, 2, 3, 4);
    PostsByKey(c.children);
    spots := p + q + r;
  }

  lemma OthersOfCommitteeAt(tree: seq<Node>, c: Node) returns (spots: seq<Spot>)
    requires IsCommitteeOf(tree, c)
    ensures SheetInOrder(tree, EmitBranch(Filter(c.children, NotPostNode), Some(c.name)), spots)
    ensures forall s | s in spots :: s.stage == UnderCommittee
  {
    var nodes := Filter(c.children, NotPostNode);
    CommitteeReadsIn(tree, c);
    FilterReadsIn(c.children, NotPostNode);
    ReadsInTrans(FlatIds(nodes), FlatIds(c.children), FlatIds(tree));
    forall b: Block | (b.Band? || b.RowBlock?) && b.id in FlatIds(nodes) ensures Stands(tree, b, UnderCommittee, c) {
      var n := FoundUnder(nodes, b.id);
    }
    BranchAt(tree, nodes, Some(c.name), Spot(UnderCommittee, c));
    spots := Repeat(|EmitBranch(nodes, Some(c.name))|, Spot(UnderCommittee, c));
  }

  lemma CommitteeAt(tree: seq<Node>, c: Node) returns (spots: seq<Spot>)
    requires IsCommitteeOf(tree, c) && Distinct(c.children)
    ensures SheetInOrder(tree, [CommitteeBlock(c.id, c, PostsIn(c.children, POST_KEYS))]
                               + EmitPosts(PostsIn(c.children, POST_KEYS))
                               + EmitBranch(Filter(c.children, NotPostNode), Some(c.name)), spots)
    ensures Between(spots, 1, 5)
  {
    var head := [CommitteeBlock(c.id, c, PostsIn(c.children, POST_KEYS))];
    var first := [Spot(OfCommittee, c)];
    assert SheetInOrder(tree, head, first);
    var p := PostBranchesAt(tree, c);
    var q := OthersOfCommitteeAt(tree, c);
    StagesAppend(tree, head, first, EmitPosts(PostsIn(c.children, POST_KEYS)), p, 1, 1, 4);
    StagesAppend(tree, head + EmitPosts(PostsIn(c.children, POST_KEYS)), first + p,
                 EmitBranch(Filter(c.children, NotPostNode), Some(c.name)), q, 1, 4, 5);
    spots := first + p + q;
  }

  // ----- the rosters and the rest -----

  lemma MastheadAt(tree: seq<Node>) returns (spots: seq<Spot>)
    requires Distinct(tree)
    ensures SheetInOrder(tree, RosterBlocks(Filter(tree, RosterNode)), spots)
    ensures Between(spots, 0, 0)
  {
    var rosters := Filter(tree, RosterNode);
    var blocks := RosterBlocks(rosters);
    FilterReadsIn(tree, RosterNode);
    IdsReadIn(rosters);
    ReadsInTrans(NodeIds(rosters), FlatIds(rosters), FlatIds(tree));
    FilterDistinct(tree, RosterNode);
    spots := seq(|rosters|, i requires 0 <= i < |rosters| => Spot(Masthead, rosters[i]));
    forall i | 0 <= i < |rosters| ensures Stands(tree, blocks[i], Masthead, rosters[i]) {
      assert rosters[i] in rosters;
    }
    forall i, j | 0 <= i < j < |rosters| ensures Follows(FlatIds(tree), blocks[i], spots[i], blocks[j], spots[j]) {
      assert NodeIds(rosters)[i] == rosters[i].id && NodeIds(rosters)[j] == rosters[j].id;
      assert Before(NodeIds(rosters), rosters[i].id, rosters[j].id);
    }
  }

  lemma OwnAt(tree: seq<Node>, r: Node) returns (spots: seq<Spot>)
    requires r in tree && r.isRoster
    ensures SheetInOrder(tree, OwnBlocks(r), spots)
    ensures forall s | s in spots :: s == Spot(UnderRoster, r)
  {
    var nodes := Filter(r.children, NotCommitteeNode);
    BelowReadsIn(tree, r);
    FilterReadsIn(r.children, NotCommitteeNode);
    ReadsInTrans(FlatIds(nodes), FlatIds(r.children), FlatIds(tree));
    forall b: Block | (b.Band? || b.RowBlock?) && b.id in FlatIds(nodes) ensures Stands(tree, b, UnderRoster, r) {
      var n := FoundUnder(nodes, b.id);
    }
    BranchAt(tree, nodes, Some(RosterHeader(r)), Spot(UnderRoster, r));
    spots := Repeat(|OwnBlocks(r)|, Spot(UnderRoster, r));
  }

  lemma {:induction false} RostersAt(tree: seq<Node>, rosters: seq<Node>) returns (spots: seq<Spot>)
    requires forall r | r in rosters :: r in tree && r.isRoster
    requires Distinct(rosters) && ReadsIn(NodeIds(rosters), FlatIds(tree))
    ensures SheetInOrder(tree, EmitRosters(rosters), spots)
    ensures forall s | s in spots :: s.stage.UnderRoster? && s.home in rosters
  {
    if rosters == [] {
      spots := [];
    } else {
      var first, rest := OwnBlocks(rosters[0]), EmitRosters(rosters[1..]);
      var mine := OwnAt(tree, rosters[0]);
      RestReadsIn(rosters, FlatIds(tree));
      var later := RostersAt(tree, rosters[1..]);
      HomesFollow(tree, first, mine, rest, later, rosters);
      SheetAppend(tree, first, mine, rest, later);
      spots := mine + later;
    }
  }

  /** No node stands twice in a list. */
  lemma {:induction false} DistinctNodes(f: seq<Node>)
    requires Distinct(FlatIds(f))
    ensures Distinct(f) && forall n | n in f :: Distinct(FlatIds(n.children)) && n.id in FlatIds(f)
  {
    if f != [] {
      var own, rest := [f[0].id] + FlatIds(f[0].children), FlatIds(f[1..]);
      DistinctParts(own, rest);
      DistinctParts([f[0].id], FlatIds(f[0].children));
      DistinctNodes(f[1..]);
      assert f[0].id in own;
      assert f[0] !in f[1..];
      assert f == [f[0]] + f[1..];
    }
  }

  lemma RostersReadIn(tree: seq<Node>)
    requires Distinct(FlatIds(tree))
    ensures var rosters := Filter(tree, RosterNode);
            Distinct(tree) && Distinct(rosters) && ReadsIn(NodeIds(rosters), FlatIds(tree))
  {
    var rosters := Filter(tree, RosterNode);
    DistinctNodes(tree);
    FilterDistinct(tree, RosterNode);
    FilterReadsIn(tree, RosterNode);
    IdsReadIn(rosters);
    ReadsInTrans(NodeIds(rosters), FlatIds(rosters), FlatIds(tree));
  }

  lemma RosterPartAt(tree: seq<Node>) returns (spots: seq<Spot>)
    requires Distinct(FlatIds(tree))
    ensures SheetInOrder(tree, EmitRosters(Filter(tree, RosterNode)), spots)
    ensures Between(spots, 6, 6)
  {
    var rosters := Filter(tree, RosterNode);
    RostersReadIn(tree);
    spots := RostersAt(tree, rosters);
    AllUnderRosters(spots);
  }

  lemma AllUnderRosters(spots: seq<Spot>)
    requires forall s | s in spots :: s.stage.UnderRoster?
    ensures Between(spots, 6, 6)
  {
  }

  lemma OtherRootStands(tree: seq<Node>, nodes: seq<Node>, b: Block) returns (p: Spot)
    requires forall n | n in nodes :: n in tree && !n.isRoster
    requires (b.Band? || b.RowBlock?) && b.id in FlatIds(nodes)
    ensures p.stage.OtherRoots? && Stands(tree, b, OtherRoots, p.home)
  {
    var n := FoundUnder(nodes, b.id);
    p := Spot(OtherRoots, n);
  }

  lemma OtherRootsStand(tree: seq<Node>, nodes: seq<Node>, blocks: seq<Block>, n: nat) returns (spots: seq<Spot>)
    requires forall n | n in nodes :: n in tree && !n.isRoster
    requires n <= |blocks| && forall b | b in blocks :: (b.Band? || b.RowBlock?) && b.id in FlatIds(nodes)
    ensures |spots| == n && forall i | 0 <= i < n :: spots[i].stage.OtherRoots?
    ensures forall i | 0 <= i < n :: Stands(tree, blocks[i], OtherRoots, spots[i].home)
  {
    if n == 0 {
      spots := [];
    } else {
      var before := OtherRootsStand(tree, nodes, blocks, n - 1);
      var p := OtherRootStands(tree, nodes, blocks[n - 1]);
      spots := before + [p];
    }
  }

  lemma OthersAt(tree: seq<Node>) returns (spots: seq<Spot>)
    ensures SheetInOrder(tree, EmitBranch(Filter(tree, OtherNode), None), spots)
    ensures Between(spots, 7, 7)
  {
    var nodes := Filter(tree, OtherNode);
    var blocks := EmitBranch(nodes, None);
    FilterReadsIn(tree, OtherNode);
    BranchInOrder(nodes, None);
    spots := OtherRootsStand(tree, nodes, blocks, |blocks|);
    forall i, j | 0 <= i < j < |blocks| ensures Follows(FlatIds(tree), blocks[i], spots[i], blocks[j], spots[j]) {
      assert ComesFirst(FlatIds(nodes), blocks[i], blocks[j]);
    }
    forall s | s in spots ensures s.stage.OtherRoots? {
      var i :| 0 <= i < |spots| && spots[i] == s;
    }
  }

  // ----- the whole sheet -----

  lemma {:induction false} FoundCommittee(nodes: seq<Node>, c: Node) returns (r: Node)
    requires c in ChildrenOfAll(nodes)
    ensures r in nodes && c in r.children
  {
    if c in nodes[0].children { r := nodes[0]; } else { r := FoundCommittee(nodes[1..], c); }
  }

  lemma CommitteePartAt(tree: seq<Node>) returns (spots: seq<Spot>)
    requires Distinct(FlatIds(tree))
    ensures SheetInOrder(tree, EmitCommittee(ChildrenOfAll(Filter(tree, RosterNode))), spots)
    ensures Between(spots, 1, 5)
  {
    var rosters := Filter(tree, RosterNode);
    var found := Filter(ChildrenOfAll(rosters), CommitteeNode);
    if found == [] {
      spots := [];
    } else {
      assert found[0] in found;
      var r := FoundCommittee(rosters, found[0]);
      assert r in tree && r.isRoster && IsCommitteeOf(tree, found[0]);
      DistinctNodes(tree);
      DistinctNodes(r.children);
      DistinctNodes(found[0].children);
      spots := CommitteeAt(tree, found[0]);
    }
  }

  lemma FourParts(tree: seq<Node>, a: seq<Block>, p: seq<Spot>, b: seq<Block>, q: seq<Spot>, c: seq<Block>,
      r: seq<Spot>, d: seq<Block>, s: seq<Spot>)
    requires SheetInOrder(tree, a, p) && SheetInOrder(tree, b, q) && SheetInOrder(tree, c, r)
    requires SheetInOrder(tree, d, s)
    requires Between(p, 0, 0) && Between(q, 1, 5) && Between(r, 6, 6) && Between(s, 7, 7)
    ensures SheetInOrder(tree, a + b + c + d, p + q + r + s)
  {
    StagesAppend(tree, a, p, b, q, 0, 0, 5);
    StagesAppend(tree, a + b, p + q, c, r, 0, 5, 6);
    StagesAppend(tree, a + b + c, p + q + r, d, s, 0, 6, 7);
  }

  /**
   The sheet reads masthead, committee, its posts' branches, its other services, the rosters' own, other roots: branches
   of one kind and the masthead as the tree has them, and in each branch the leaves' line before the containers, which
   come in the tree's order.
   */
  lemma SheetIsInOrder(tree: seq<Node>) returns (spots: seq<Spot>)
    requires Distinct(FlatIds(tree))
    ensures SheetInOrder(tree, ToLayout(tree), spots)
  {
    var rosters := Filter(tree, RosterNode);
    DistinctNodes(tree);
    var p := MastheadAt(tree);
    var q := CommitteePartAt(tree);
    var r := RosterPartAt(tree);
    var s := OthersAt(tree);
    FourParts(tree, RosterBlocks(rosters), p, EmitCommittee(ChildrenOfAll(rosters)), q, EmitRosters(rosters), r,
              EmitBranch(Filter(tree, OtherNode), None), s);
    spots := p + q + r + s;
  }

  /** So does the sheet of any chart rows. */
  lemma ChartSheetIsInOrder(rows: seq<Role>, holders: seq<Holder>)
    requires UniqueIds(rows)
    ensures exists spots :: SheetInOrder(Forest(rows, holders), ToLayout(Forest(rows, holders)), spots)
  {
    ForestShowsEachRoleOnce(rows, holders);
    var spots := SheetIsInOrder(Forest(rows, holders));
  }

  lemma KeysInOrder(a: seq<Node>, b: seq<Node>, d: seq<Node>)
    requires (forall n | n in a :: n.key.Coordinator?) && (forall n | n in b :: n.key.Secretary?)
    requires forall n | n in d :: n.key.ServiceOverseer?
    ensures forall i, j | 0 <= i < j < |a + b + d| ::
              Rank(UnderPost((a + b + d)[i].key)) <= Rank(UnderPost((a + b + d)[j].key))
  {
    var posts := a + b + d;
    forall i | 0 <= i < |posts|
      ensures posts[i].key == if i < |a| then Coordinator else if i < |a| + |b| then Secretary else ServiceOverseer {
      if i < |a| {
        assert a[i] in a;
      } else if i < |a| + |b| {
        assert b[i - |a|] in b;
      } else {
        assert d[i - |a| - |b|] in d;
      }
    }
  }

  /** The committee's block lists the committee's posts, all of them, in their order. */
  lemma PostsInOrder(c: Node)
    ensures var posts := PostsIn(c.children, POST_KEYS);
            && (forall n :: n in posts <==> n in c.children && n.key in {Coordinator, Secretary, ServiceOverseer})
            && (forall i, j | 0 <= i < j < |posts| :: Rank(UnderPost(posts[i].key)) <= Rank(UnderPost(posts[j].key)))
  {
    PostsAre(c.children);
    KeysInOrder(Filter(c.children, KeyIs(Coordinator)), Filter(c.children, KeyIs(Secretary)),
                Filter(c.children, KeyIs(ServiceOverseer)));
  }
}
