/** The printed sheet: from the tree to blocks, and from blocks to the grouped view. */
module Layout {
  import opened Lists
  import opened Roles
  import opened Tree

  datatype Block =
    | RosterBlock(id: int, title: string, node: Node)
    | CommitteeBlock(id: int, committee: Node, posts: seq<Node>)
    | Band(id: int, head: Option<Node>, under: Option<string>, rows: seq<Node>)
    | RowBlock(id: int, row: Node)

  predicate IsLeaf(n: Node) { n.children == [] }

  predicate IsContainer(n: Node) { n.children != [] }

  predicate RosterNode(n: Node) { n.isRoster }

  predicate OtherNode(n: Node) { !n.isRoster }

  predicate CommitteeNode(n: Node) { n.key.Committee? }

  predicate NotCommitteeNode(n: Node) { !n.key.Committee? }

  predicate NotPostNode(n: Node) { !IsPost(n.key) }

  function KeyIs(key: Key): Node -> bool { (n: Node) => n.key == key }

  function NodeIds(f: seq<Node>): (ids: seq<int>)
    ensures |ids| == |f| && forall i | 0 <= i < |f| :: ids[i] == f[i].id
  {
    seq(|f|, i requires 0 <= i < |f| => f[i].id)
  }

  /** A container and everything below it, as sibling bands. */
  function WalkContainer(n: Node, under: Option<string>): seq<Block>
    decreases n, 0
  {
    if Filter(n.children, IsContainer) == [] then [Band(n.id, Some(n), under, n.children)]
    else [Band(n.id, Some(n), under, Filter(n.children, IsLeaf))] + WalkContainers(n.children, Some(n.name))
  }

  function WalkContainers(nodes: seq<Node>, under: Option<string>): seq<Block>
    decreases nodes, 1
  {
    if nodes == [] then []
    else (if IsContainer(nodes[0]) then WalkContainer(nodes[0], under) else []) + WalkContainers(nodes[1..], under)
  }

  function RowBlocks(leaves: seq<Node>): (blocks: seq<Block>)
    ensures |blocks| == |leaves|
  {
    seq(|leaves|, i requires 0 <= i < |leaves| => RowBlock(leaves[i].id, leaves[i]))
  }

  /** One branch: its leaves share a collector band (or print as rows), its containers band themselves. */
  function EmitBranch(nodes: seq<Node>, under: Option<string>): seq<Block> {
    LeafBlocks(Filter(nodes, IsLeaf), under) + WalkContainers(nodes, under)
  }

  /** Leaves under a header share one band; legacy leaves print as plain rows. */
  function LeafBlocks(leaves: seq<Node>, under: Option<string>): seq<Block> {
    if leaves == [] then []
    else if under.None? then RowBlocks(leaves)
    else [Band(leaves[0].id, None, under, leaves)]
  }

  function ChildrenOfAll(nodes: seq<Node>): seq<Node> {
    if nodes == [] then [] else nodes[0].children + ChildrenOfAll(nodes[1..])
  }

  function RosterBlocks(rosters: seq<Node>): (blocks: seq<Block>)
    ensures |blocks| == |rosters|
  {
    seq(|rosters|, i requires 0 <= i < |rosters| => RosterBlock(rosters[i].id, rosters[i].name, rosters[i]))
  }

  function PostsIn(nodes: seq<Node>, keys: seq<Key>): seq<Node> {
    if keys == [] then [] else Filter(nodes, KeyIs(keys[0])) + PostsIn(nodes, keys[1..])
  }

  function EmitPosts(posts: seq<Node>): seq<Block> {
    if posts == [] then [] else EmitBranch(posts[0].children, Some(posts[0].name)) + EmitPosts(posts[1..])
  }

  function EmitCommittee(candidates: seq<Node>): seq<Block> {
    var found := Filter(candidates, CommitteeNode);
    if found == [] then []
    else
      var c := found[0];
      var posts := PostsIn(c.children, POST_KEYS);
      [CommitteeBlock(c.id, c, posts)] + EmitPosts(posts) + EmitBranch(Filter(c.children, NotPostNode), Some(c.name))
  }

  function RosterHeader(n: Node): string {
    if n.key.Elder? then "Collège des anciens" else n.name
  }

  function OwnBlocks(roster: Node): seq<Block> {
    EmitBranch(Filter(roster.children, NotCommitteeNode), Some(RosterHeader(roster)))
  }

  function EmitRosters(rosters: seq<Node>): seq<Block> {
    if rosters == [] then [] else OwnBlocks(rosters[0]) + EmitRosters(rosters[1..])
  }

  /** Masthead, committee and its posts' branches, the rosters' own services, then everything else. */
  function ToLayout(tree: seq<Node>): seq<Block> {
    var rosters := Filter(tree, RosterNode);
    RosterBlocks(rosters) + EmitCommittee(ChildrenOfAll(rosters)) + EmitRosters(rosters)
    + EmitBranch(Filter(tree, OtherNode), None)
  }

  /** The nodes a block prints: itself, its posts or its rows. */
  function Printed(b: Block): seq<int> {
    match b
    case RosterBlock(id, _, _) => [id]
    case CommitteeBlock(id, _, posts) => [id] + NodeIds(posts)
    case Band(_, head, _, rows) => (if head.Some? then [head.value.id] else []) + NodeIds(rows)
    case RowBlock(id, _) => [id]
  }

  function PrintedAll(blocks: seq<Block>): seq<int> {
    if blocks == [] then [] else Printed(blocks[0]) + PrintedAll(blocks[1..])
  }

  /** How often each id is printed by a block, and by all of them. */
  ghost function Bag(b: Block): multiset<int> {
    match b
    case RosterBlock(id, _, _) => multiset{id}
    case CommitteeBlock(id, _, posts) => multiset{id} + NodeBag(posts)
    case Band(_, head, _, rows) => (if head.Some? then multiset{head.value.id} else multiset{}) + NodeBag(rows)
    case RowBlock(id, _) => multiset{id}
  }

  ghost function BagAll(blocks: seq<Block>): multiset<int> {
    if blocks == [] then multiset{} else Bag(blocks[0]) + BagAll(blocks[1..])
  }

  ghost function NodeBag(f: seq<Node>): multiset<int> {
    if f == [] then multiset{} else multiset{f[0].id} + NodeBag(f[1..])
  }

  /** How often each id occurs in a forest, at any depth. */
  ghost function Count(f: seq<Node>): multiset<int> {
    if f == [] then multiset{} else multiset{f[0].id} + Count(f[0].children) + Count(f[1..])
  }

  lemma {:induction false} CountIsFlat(f: seq<Node>)
    ensures multiset(FlatIds(f)) == Count(f)
  {
    if f != [] {
      CountIsFlat(f[0].children);
      CountIsFlat(f[1..]);
    }
  }

  lemma {:induction false} NodeBagIs(f: seq<Node>)
    ensures multiset(NodeIds(f)) == NodeBag(f)
  {
    if f != [] {
      NodeBagIs(f[1..]);
      assert NodeIds(f) == [f[0].id] + NodeIds(f[1..]);
    }
  }

  lemma BagIs(b: Block)
    ensures multiset(Printed(b)) == Bag(b)
  {
    match b
    case CommitteeBlock(id, _, posts) => NodeBagIs(posts);
    case Band(_, head, _, rows) => NodeBagIs(rows);
    case _ =>
  }

  lemma {:induction false} BagAllIs(blocks: seq<Block>)
    ensures multiset(PrintedAll(blocks)) == BagAll(blocks)
  {
    if blocks != [] {
      BagIs(blocks[0]);
      BagAllIs(blocks[1..]);
    }
  }

  lemma {:induction false} BagAppend(a: seq<Block>, b: seq<Block>)
    ensures BagAll(a + b) == BagAll(a) + BagAll(b)
  {
    if a == [] {
      assert a + b == b;
    } else {
      assert (a + b)[1..] == a[1..] + b;
      BagAppend(a[1..], b);
    }
  }

  lemma BagOne(b: Block)
    ensures BagAll([b]) == Bag(b)
  {
    assert [b][1..] == [];
  }

  lemma {:induction false} CountAppend(f: seq<Node>, g: seq<Node>)
    ensures Count(f + g) == Count(f) + Count(g)
  {
    if f == [] {
      assert f + g == g;
    } else {
      assert (f + g)[1..] == f[1..] + g;
      CountAppend(f[1..], g);
    }
  }

  lemma FilterCount(nodes: seq<Node>, keep: Node -> bool)
    requires nodes != []
    ensures Count(Filter(nodes, keep))
         == (if keep(nodes[0]) then multiset{nodes[0].id} + Count(nodes[0].children) else multiset{})
            + Count(Filter(nodes[1..], keep))
  {
    if keep(nodes[0]) {
      assert Filter(nodes, keep)[1..] == Filter(nodes[1..], keep);
    }
  }

  /** A filter and its complement share the nodes out. */
  lemma {:induction false} CountSplit(f: seq<Node>, keep: Node -> bool, drop: Node -> bool)
    requires forall n: Node :: keep(n) <==> !drop(n)
    ensures Count(f) == Count(Filter(f, keep)) + Count(Filter(f, drop))
  {
    if f != [] {
      CountSplit(f[1..], keep, drop);
      FilterCount(f, keep);
      FilterCount(f, drop);
    }
  }

  lemma {:induction false} CountLeaves(f: seq<Node>)
    requires forall n | n in f :: IsLeaf(n)
    ensures Count(f) == NodeBag(f)
  {
    if f != [] {
      assert IsLeaf(f[0]);
      CountLeaves(f[1..]);
    }
  }

  lemma {:induction false} WalkContainerPrints(n: Node, under: Option<string>)
    requires IsContainer(n)
    ensures BagAll(WalkContainer(n, under)) == multiset{n.id} + Count(n.children)
    decreases n, 0
  {
    var leaves, units := Filter(n.children, IsLeaf), Filter(n.children, IsContainer);
    if units == [] {
      forall c | c in n.children ensures IsLeaf(c) {
        assert IsContainer(c) ==> c in units;
      }
      CountLeaves(n.children);
      BagOne(Band(n.id, Some(n), under, n.children));
    } else {
      CountSplit(n.children, IsLeaf, IsContainer);
      CountLeaves(leaves);
      WalkContainersPrint(n.children, Some(n.name));
      BagOne(Band(n.id, Some(n), under, leaves));
      BagAppend([Band(n.id, Some(n), under, leaves)], WalkContainers(n.children, Some(n.name)));
    }
  }

  lemma {:induction false} WalkContainersPrint(nodes: seq<Node>, under: Option<string>)
    ensures BagAll(WalkContainers(nodes, under)) == Count(Filter(nodes, IsContainer))
    decreases nodes, 1
  {
    if nodes != [] {
      var first := if IsContainer(nodes[0]) then WalkContainer(nodes[0], under) else [];
      BagAppend(first, WalkContainers(nodes[1..], under));
      WalkContainersPrint(nodes[1..], under);
      FilterCount(nodes, IsContainer);
      if IsContainer(nodes[0]) {
        WalkContainerPrints(nodes[0], under);
      }
    }
  }

  lemma {:induction false} RowBlocksPrint(leaves: seq<Node>)
    ensures BagAll(RowBlocks(leaves)) == NodeBag(leaves)
  {
    if leaves != [] {
      assert RowBlocks(leaves)[1..] == RowBlocks(leaves[1..]);
      RowBlocksPrint(leaves[1..]);
    }
  }

  lemma LeafBlocksPrint(leaves: seq<Node>, under: Option<string>)
    ensures BagAll(LeafBlocks(leaves, under)) == NodeBag(leaves)
  {
    RowBlocksPrint(leaves);
    if leaves != [] {
      BagOne(Band(leaves[0].id, None, under, leaves));
    }
  }

  lemma EmitBranchPrints(nodes: seq<Node>, under: Option<string>)
    ensures BagAll(EmitBranch(nodes, under)) == Count(nodes)
  {
    var leaves := Filter(nodes, IsLeaf);
    CountSplit(nodes, IsLeaf, IsContainer);
    CountLeaves(leaves);
    LeafBlocksPrint(leaves, under);
    WalkContainersPrint(nodes, under);
    BagAppend(LeafBlocks(leaves, under), WalkContainers(nodes, under));
  }

  lemma AddOne(m: multiset<int>, a: multiset<int>, b: multiset<int>, c: multiset<int>, d: multiset<int>)
    ensures m + (a + b + c + d) == (m + a) + b + c + d == a + (m + b) + c + d
    ensures m + (a + b + c + d) == a + b + (m + c) + d == a + b + c + (m + d)
  {
  }

  /** How the nodes are shared out between the posts and the rest. */
  ghost function Shares(nodes: seq<Node>): (multiset<int>, multiset<int>, multiset<int>, multiset<int>) {
    (Count(Filter(nodes, KeyIs(Coordinator))), Count(Filter(nodes, KeyIs(Secretary))),
     Count(Filter(nodes, KeyIs(ServiceOverseer))), Count(Filter(nodes, NotPostNode)))
  }

  lemma SharesOne(nodes: seq<Node>)
    requires nodes != []
    ensures var m := multiset{nodes[0].id} + Count(nodes[0].children);
            var (a, b, c, d) := Shares(nodes[1..]);
            Shares(nodes) == match nodes[0].key
              case Coordinator => (m + a, b, c, d)
              case Secretary => (a, m + b, c, d)
              case ServiceOverseer => (a, b, m + c, d)
              case _ => (a, b, c, m + d)
  {
    FilterCount(nodes, KeyIs(Coordinator));
    FilterCount(nodes, KeyIs(Secretary));
    FilterCount(nodes, KeyIs(ServiceOverseer));
    FilterCount(nodes, NotPostNode);
  }

  /** The three posts and the rest share the committee's children out. */
  lemma {:induction false} CountByKey(nodes: seq<Node>)
    ensures var (a, b, c, d) := Shares(nodes); Count(nodes) == a + b + c + d
  {
    if nodes != [] {
      CountByKey(nodes[1..]);
      SharesOne(nodes);
      var (a, b, c, d) := Shares(nodes[1..]);
      AddOne(multiset{nodes[0].id} + Count(nodes[0].children), a, b, c, d);
    }
  }

  lemma CountPosts(nodes: seq<Node>)
    ensures Count(nodes) == Count(PostsIn(nodes, POST_KEYS)) + Count(Filter(nodes, NotPostNode))
  {
    var a, b := Filter(nodes, KeyIs(Coordinator)), Filter(nodes, KeyIs(Secretary));
    var c := Filter(nodes, KeyIs(ServiceOverseer));
    assert POST_KEYS[1..] == [Secretary, ServiceOverseer] && [Secretary, ServiceOverseer][1..] == [ServiceOverseer];
    assert PostsIn(nodes, []) == [];
    assert PostsIn(nodes, [ServiceOverseer]) == c + [];
    assert PostsIn(nodes, [Secretary, ServiceOverseer]) == b + (c + []);
    assert PostsIn(nodes, POST_KEYS) == a + (b + (c + []));
    CountAppend(a, b + (c + []));
    CountAppend(b, c + []);
    CountAppend(c, []);
    CountByKey(nodes);
  }

  lemma {:induction false} EmitPostsPrint(posts: seq<Node>)
    ensures NodeBag(posts) + BagAll(EmitPosts(posts)) == Count(posts)
  {
    if posts != [] {
      EmitBranchPrints(posts[0].children, Some(posts[0].name));
      EmitPostsPrint(posts[1..]);
      BagAppend(EmitBranch(posts[0].children, Some(posts[0].name)), EmitPosts(posts[1..]));
    }
  }

  lemma EmitCommitteePrints(candidates: seq<Node>)
    requires |Filter(candidates, CommitteeNode)| <= 1
    ensures BagAll(EmitCommittee(candidates)) == Count(Filter(candidates, CommitteeNode))
  {
    var found := Filter(candidates, CommitteeNode);
    if found != [] {
      var c := found[0];
      var posts, others := PostsIn(c.children, POST_KEYS), Filter(c.children, NotPostNode);
      var head, mine, rest := CommitteeBlock(c.id, c, posts), EmitPosts(posts), EmitBranch(others, Some(c.name));
      assert found[1..] == [];
      CountPosts(c.children);
      EmitPostsPrint(posts);
      EmitBranchPrints(others, Some(c.name));
      BagOne(head);
      BagAppend([head], mine);
      BagAppend([head] + mine, rest);
    }
  }

  lemma {:induction false} EmitRostersPrint(rosters: seq<Node>)
    ensures BagAll(EmitRosters(rosters)) == Count(Filter(ChildrenOfAll(rosters), NotCommitteeNode))
  {
    if rosters != [] {
      var own := Filter(rosters[0].children, NotCommitteeNode);
      EmitRostersPrint(rosters[1..]);
      EmitBranchPrints(own, Some(RosterHeader(rosters[0])));
      BagAppend(OwnBlocks(rosters[0]), EmitRosters(rosters[1..]));
      FilterAppend(rosters[0].children, ChildrenOfAll(rosters[1..]), NotCommitteeNode);
      CountAppend(own, Filter(ChildrenOfAll(rosters[1..]), NotCommitteeNode));
    }
  }

  lemma {:induction false} RosterBlocksPrint(rosters: seq<Node>)
    ensures Count(rosters) == BagAll(RosterBlocks(rosters)) + Count(ChildrenOfAll(rosters))
  {
    if rosters != [] {
      assert RosterBlocks(rosters)[1..] == RosterBlocks(rosters[1..]);
      RosterBlocksPrint(rosters[1..]);
      CountAppend(rosters[0].children, ChildrenOfAll(rosters[1..]));
    }
  }

  /** The sheet prints every node of the tree, as often as it stands there. */
  lemma SheetPrintsTree(tree: seq<Node>)
    requires |Filter(ChildrenOfAll(Filter(tree, RosterNode)), CommitteeNode)| <= 1
    ensures multiset(PrintedAll(ToLayout(tree))) == multiset(FlatIds(tree))
  {
    var rosters, others := Filter(tree, RosterNode), Filter(tree, OtherNode);
    var below := ChildrenOfAll(rosters);
    CountSplit(tree, RosterNode, OtherNode);
    RosterBlocksPrint(rosters);
    CountSplit(below, CommitteeNode, NotCommitteeNode);
    EmitCommitteePrints(below);
    EmitRostersPrint(rosters);
    EmitBranchPrints(others, None);
    var a, b, c, d := RosterBlocks(rosters), EmitCommittee(below), EmitRosters(rosters), EmitBranch(others, None);
    BagAppend(a, b);
    BagAppend(a + b, c);
    BagAppend(a + b + c, d);
    BagAllIs(ToLayout(tree));
    CountIsFlat(tree);
  }
}
