/** Nothing is lost on the printed sheet, and the sheet as it is put together block by block. */
module Sheet {
  import opened Lists
  import opened Roles
  import opened Tree
  import opened Layout

  lemma DistinctFromBag<T(!new)>(s: seq<T>, t: seq<T>)
    requires multiset(s) == multiset(t) && Distinct(t)
    ensures Distinct(s)
    ensures forall x :: x in s <==> x in t
  {
    forall x ensures x in s <==> x in t {
      assert x in s <==> x in multiset(s);
      assert x in t <==> x in multiset(t);
    }
    forall i, j | 0 <= i < j < |s| ensures s[i] != s[j] {
      if s[i] == s[j] {
        TwiceInBag(s, i, j);
        OnceInBag(t, s[i]);
      }
    }
  }

  lemma TwiceInBag<T(!new)>(s: seq<T>, i: nat, j: nat)
    requires i < j < |s| && s[i] == s[j]
    ensures multiset(s)[s[i]] >= 2
  {
    assert s == s[..j] + [s[j]] + s[j + 1..];
    assert s[..j][i] == s[i];
  }

  lemma {:induction false} OnceInBag<T(!new)>(t: seq<T>, x: T)
    requires Distinct(t)
    ensures multiset(t)[x] <= 1
  {
    if t != [] {
      assert t == [t[0]] + t[1..] && t[0] !in t[1..];
      OnceInBag(t[1..], x);
    }
  }

  /** A node anywhere in a faithful forest shows a row of its id and key. */
  ghost predicate Shows(rows: seq<Role>, n: Node) {
    exists r :: r in rows && r.id == n.id && r.key == n.key
  }

  lemma {:induction false} FaithfulShows(rows: seq<Role>, holders: seq<Holder>, f: seq<Node>, above: Option<int>)
    requires Faithful(rows, holders, f, above)
    ensures forall n | n in f :: Shows(rows, n) && Faithful(rows, holders, n.children, Some(n.id))
    decreases |f|
  {
    if f != [] {
      FaithfulShows(rows, holders, f[1..], above);
      forall n | n in f ensures Shows(rows, n) && Faithful(rows, holders, n.children, Some(n.id)) {
        assert n == f[0] || n in f[1..];
      }
    }
  }

  lemma {:induction false} ChildrenShow(rows: seq<Role>, holders: seq<Holder>, nodes: seq<Node>)
    requires forall n | n in nodes :: Faithful(rows, holders, n.children, Some(n.id))
    ensures forall n | n in ChildrenOfAll(nodes) :: Shows(rows, n)
  {
    if nodes != [] {
      FaithfulShows(rows, holders, nodes[0].children, Some(nodes[0].id));
      ChildrenShow(rows, holders, nodes[1..]);
    }
  }

  /** Ids of some of the nodes, children of some of the nodes: each part of a forest counts at most as much. */
  lemma {:induction false} TopsWithin(f: seq<Node>)
    ensures NodeBag(f) <= Count(f) && Count(ChildrenOfAll(f)) <= Count(f)
  {
    if f != [] {
      TopsWithin(f[1..]);
      CountAppend(f[0].children, ChildrenOfAll(f[1..]));
    }
  }

  lemma {:induction false} FilterBag(f: seq<Node>, keep: Node -> bool)
    ensures NodeBag(Filter(f, keep)) <= NodeBag(f) && Count(Filter(f, keep)) <= Count(f)
  {
    if f != [] {
      FilterBag(f[1..], keep);
      FilterCount(f, keep);
      if keep(f[0]) {
        assert Filter(f, keep)[1..] == Filter(f[1..], keep);
      }
    }
  }

  lemma CommitteesWithin(tree: seq<Node>)
    ensures NodeBag(Filter(ChildrenOfAll(Filter(tree, RosterNode)), CommitteeNode)) <= multiset(FlatIds(tree))
  {
    var rosters := Filter(tree, RosterNode);
    var below := ChildrenOfAll(rosters);
    FilterBag(tree, RosterNode);
    TopsWithin(rosters);
    TopsWithin(below);
    FilterBag(below, CommitteeNode);
    CountIsFlat(tree);
  }

  lemma SameKeySameId(rows: seq<Role>, a: Node, b: Node)
    requires UniqueKeys(rows) && Shows(rows, a) && Shows(rows, b) && a.key == b.key
    ensures a.id == b.id
  {
  }

  /** With unique keys only one node under the rosters can be the committee. */
  lemma OneCommittee(rows: seq<Role>, holders: seq<Holder>, tree: seq<Node>)
    requires UniqueKeys(rows) && Faithful(rows, holders, tree, None) && Distinct(FlatIds(tree))
    ensures |Filter(ChildrenOfAll(Filter(tree, RosterNode)), CommitteeNode)| <= 1
  {
    var rosters := Filter(tree, RosterNode);
    var found := Filter(ChildrenOfAll(rosters), CommitteeNode);
    FaithfulShows(rows, holders, tree, None);
    ChildrenShow(rows, holders, rosters);
    CommitteesWithin(tree);
    if |found| > 1 {
      assert found[0] in found && found[1] in found;
      SameKeySameId(rows, found[0], found[1]);
      NodeBagTwo(found);
      OnceInBag(FlatIds(tree), found[0].id);
    }
  }

  lemma NodeBagTwo(f: seq<Node>)
    requires |f| > 1 && f[0].id == f[1].id
    ensures NodeBag(f)[f[0].id] >= 2
  {
    assert f[1..][0] == f[1];
  }

  function BlockIds(blocks: seq<Block>): (ids: seq<int>)
    ensures |ids| == |blocks| && forall i | 0 <= i < |blocks| :: ids[i] == blocks[i].id
  {
    seq(|blocks|, i requires 0 <= i < |blocks| => blocks[i].id)
  }

  /** Each block is named after the first thing it prints. */
  ghost predicate NamedFirst(blocks: seq<Block>) {
    forall b | b in blocks :: Printed(b) != [] && Printed(b)[0] == b.id
  }

  /** Bands and rows only: neither masthead nor committee. */
  ghost predicate BranchOnly(blocks: seq<Block>) {
    forall b | b in blocks :: b.Band? || b.RowBlock?
  }

  lemma {:induction false} WalkNamed(n: Node, under: Option<string>)
    ensures NamedFirst(WalkContainer(n, under)) && BranchOnly(WalkContainer(n, under))
    decreases n, 0
  {
    if Filter(n.children, IsContainer) != [] {
      WalksNamed(n.children, Some(n.name));
    }
  }

  lemma {:induction false} WalksNamed(nodes: seq<Node>, under: Option<string>)
    ensures NamedFirst(WalkContainers(nodes, under)) && BranchOnly(WalkContainers(nodes, under))
    decreases nodes, 1
  {
    if nodes != [] {
      if IsContainer(nodes[0]) { WalkNamed(nodes[0], under); }
      WalksNamed(nodes[1..], under);
    }
  }

  lemma BranchNamed(nodes: seq<Node>, under: Option<string>)
    ensures NamedFirst(EmitBranch(nodes, under)) && BranchOnly(EmitBranch(nodes, under))
  {
    WalksNamed(nodes, under);
    var leaves := Filter(nodes, IsLeaf);
    forall b | b in LeafBlocks(leaves, under)
      ensures Printed(b) != [] && Printed(b)[0] == b.id && (b.Band? || b.RowBlock?) {
    }
  }

  lemma {:induction false} PostsNamed(posts: seq<Node>)
    ensures NamedFirst(EmitPosts(posts)) && BranchOnly(EmitPosts(posts))
  {
    if posts != [] {
      BranchNamed(posts[0].children, Some(posts[0].name));
      PostsNamed(posts[1..]);
    }
  }

  lemma {:induction false} RostersNamed(rosters: seq<Node>)
    ensures NamedFirst(EmitRosters(rosters)) && BranchOnly(EmitRosters(rosters))
  {
    if rosters != [] {
      BranchNamed(Filter(rosters[0].children, NotCommitteeNode), Some(RosterHeader(rosters[0])));
      RostersNamed(rosters[1..]);
    }
  }

  lemma CommitteeNamed(candidates: seq<Node>)
    ensures NamedFirst(EmitCommittee(candidates))
  {
    var found := Filter(candidates, CommitteeNode);
    if found != [] {
      PostsNamed(PostsIn(found[0].children, POST_KEYS));
      BranchNamed(Filter(found[0].children, NotPostNode), Some(found[0].name));
    }
  }

  lemma NamedAppend(a: seq<Block>, b: seq<Block>)
    requires NamedFirst(a) && NamedFirst(b)
    ensures NamedFirst(a + b)
  {
  }

  lemma SheetNamed(tree: seq<Node>)
    ensures NamedFirst(ToLayout(tree))
  {
    var rosters := Filter(tree, RosterNode);
    var a, b, c := RosterBlocks(rosters), EmitCommittee(ChildrenOfAll(rosters)), EmitRosters(rosters);
    CommitteeNamed(ChildrenOfAll(rosters));
    RostersNamed(rosters);
    BranchNamed(Filter(tree, OtherNode), None);
    NamedAppend(a, b);
    NamedAppend(a + b, c);
    NamedAppend(a + b + c, EmitBranch(Filter(tree, OtherNode), None));
  }

  lemma {:induction false} NamesDistinct(blocks: seq<Block>)
    requires NamedFirst(blocks) && Distinct(PrintedAll(blocks))
    ensures Distinct(BlockIds(blocks)) && forall id | id in BlockIds(blocks) :: id in PrintedAll(blocks)
  {
    if blocks != [] {
      var first, rest := Printed(blocks[0]), PrintedAll(blocks[1..]);
      DistinctParts(first, rest);
      NamesDistinct(blocks[1..]);
      assert blocks[0] in blocks && first[0] in first;
      assert BlockIds(blocks) == [blocks[0].id] + BlockIds(blocks[1..]);
    }
  }

  /**
   Nothing is lost on the sheet, whatever the rows hold: every chart role is printed exactly once,
   nothing else is, and no two blocks share an id.
   */
  lemma NothingIsLostOnTheSheet(rows: seq<Role>, holders: seq<Holder>)
    requires UniqueIds(rows) && UniqueKeys(rows)
    ensures var blocks := ToLayout(Forest(rows, holders));
            && Distinct(PrintedAll(blocks))
            && (forall id :: id in PrintedAll(blocks) <==> id in IdSet(rows))
            && Distinct(BlockIds(blocks))
  {
    var tree := Forest(rows, holders);
    ForestShowsEachRoleOnce(rows, holders);
    OneCommittee(rows, holders, tree);
    SheetPrintsTree(tree);
    DistinctFromBag(PrintedAll(ToLayout(tree)), FlatIds(tree));
    SheetNamed(tree);
    NamesDistinct(ToLayout(tree));
  }

  lemma Joined(a: seq<Block>, b: seq<Block>, c: seq<Block>)
    ensures a + b + c == a + (b + c)
  {
  }

  /** `toLayout` as it runs: recursive walks pushing onto one list of blocks. */
  class SheetWriter {
    var blocks: seq<Block>

    constructor ()
      ensures blocks == []
    {
      blocks := [];
    }

    method Push(b: Block)
      modifies this
      ensures blocks == old(blocks) + [b]
    {
      blocks := blocks + [b];
    }

    method Walk(n: Node, under: Option<string>)
      modifies this
      ensures blocks == old(blocks) + WalkContainer(n, under)
      decreases n, 0
    {
      if Filter(n.children, IsContainer) == [] {
        Push(Band(n.id, Some(n), under, n.children));
        return;
      }
      Push(Band(n.id, Some(n), under, Filter(n.children, IsLeaf)));
      WalkEach(n.children, Some(n.name));
    }

    method WalkEach(nodes: seq<Node>, under: Option<string>)
      modifies this
      ensures blocks == old(blocks) + WalkContainers(nodes, under)
      decreases nodes, 1
    {
      if nodes != [] {
        if IsContainer(nodes[0]) {
          Walk(nodes[0], under);
        }
        WalkEach(nodes[1..], under);
      }
    }

    method Emit(nodes: seq<Node>, under: Option<string>)
      modifies this
      ensures blocks == old(blocks) + EmitBranch(nodes, under)
    {
      var leaves := Filter(nodes, IsLeaf);
      if leaves != [] {
        if under.None? {
          for i := 0 to |leaves|
            invariant blocks == old(blocks) + RowBlocks(leaves)[..i]
          {
            Push(RowBlock(leaves[i].id, leaves[i]));
            assert RowBlocks(leaves)[..i + 1] == RowBlocks(leaves)[..i] + [RowBlock(leaves[i].id, leaves[i])];
          }
          assert RowBlocks(leaves)[..|leaves|] == RowBlocks(leaves);
        } else {
          Push(Band(leaves[0].id, None, under, leaves));
        }
      }
      assert blocks == old(blocks) + LeafBlocks(leaves, under);
      WalkEach(nodes, under);
    }

    method EmitEachPost(posts: seq<Node>)
      modifies this
      ensures blocks == old(blocks) + EmitPosts(posts)
    {
      if posts != [] {
        Emit(posts[0].children, Some(posts[0].name));
        EmitEachPost(posts[1..]);
      }
    }

    method EmitOwn(roster: Node)
      modifies this
      ensures blocks == old(blocks) + OwnBlocks(roster)
    {
      Emit(Filter(roster.children, NotCommitteeNode), Some(RosterHeader(roster)));
    }

    method EmitEachRoster(rosters: seq<Node>)
      modifies this
      ensures blocks == old(blocks) + EmitRosters(rosters)
    {
      if rosters != [] {
        EmitOwn(rosters[0]);
        ghost var own := OwnBlocks(rosters[0]);
        EmitEachRoster(rosters[1..]);
        Joined(old(blocks), own, EmitRosters(rosters[1..]));
      }
    }

    method EmitTheCommittee(candidates: seq<Node>)
      modifies this
      ensures blocks == old(blocks) + EmitCommittee(candidates)
    {
      var found := Filter(candidates, CommitteeNode);
      if found != [] {
        var committee := found[0];
        var posts := PostsIn(committee.children, POST_KEYS);
        EmitCommitteeOf(committee, posts);
      }
    }

    method EmitCommitteeOf(committee: Node, posts: seq<Node>)
      modifies this
      ensures blocks == old(blocks) + ([CommitteeBlock(committee.id, committee, posts)] + EmitPosts(posts)
                                       + EmitBranch(Filter(committee.children, NotPostNode), Some(committee.name)))
    {
      ghost var head, mine := CommitteeBlock(committee.id, committee, posts), EmitPosts(posts);
      ghost var rest := EmitBranch(Filter(committee.children, NotPostNode), Some(committee.name));
      Push(CommitteeBlock(committee.id, committee, posts));
      EmitEachPost(posts);
      Emit(Filter(committee.children, NotPostNode), Some(committee.name));
      Joined(old(blocks), [head], mine);
      Joined(old(blocks), [head] + mine, rest);
    }

    method Write(tree: seq<Node>)
      requires blocks == []
      modifies this
      ensures blocks == ToLayout(tree)
    {
      var rosters := Filter(tree, RosterNode);
      for i := 0 to |rosters|
        invariant blocks == RosterBlocks(rosters)[..i]
      {
        Push(RosterBlock(rosters[i].id, rosters[i].name, rosters[i]));
        assert RosterBlocks(rosters)[..i + 1]
            == RosterBlocks(rosters)[..i] + [RosterBlock(rosters[i].id, rosters[i].name, rosters[i])];
      }
      assert RosterBlocks(rosters)[..|rosters|] == RosterBlocks(rosters);
      EmitTheCommittee(ChildrenOfAll(rosters));
      EmitEachRoster(rosters);
      Emit(Filter(tree, OtherNode), None);
    }
  }

  datatype Section = Section(under: string, bands: seq<Block>)

  datatype GroupedLayout = GroupedLayout(
    rosters: seq<Block>, committee: Option<Block>, sections: seq<Section>, legacy: seq<Block>)

  predicate IsRosterBlock(b: Block) { b.RosterBlock? }

  predicate IsCommitteeBlock(b: Block) { b.CommitteeBlock? }

  predicate IsClaimed(b: Block) { b.Band? && b.under.Some? }

  predicate IsLegacy(b: Block) { b.RowBlock? || (b.Band? && b.under.None?) }

  function Bands(sections: seq<Section>): seq<Block> {
    if sections == [] then [] else sections[0].bands + Bands(sections[1..])
  }

  lemma BandsAppend(a: seq<Section>, s: Section)
    ensures Bands(a + [s]) == Bands(a) + s.bands
  {
    if a == [] {
      assert [s][1..] == [];
    } else {
      assert (a + [s])[1..] == a[1..] + [s];
      BandsAppend(a[1..], s);
    }
  }

  /** Sections are runs: never empty, one header each, no two neighbours alike. */
  ghost predicate AreRuns(sections: seq<Section>) {
    && (forall s | s in sections :: s.bands != [] && forall b | b in s.bands :: b.Band? && b.under == Some(s.under))
    && (forall i, j | 0 <= i && j == i + 1 && j < |sections| :: sections[i].under != sections[j].under)
  }

  lemma LastOne(s: seq<Block>, b: Block, keep: Block -> bool)
    ensures Filter(s + [b], keep) == Filter(s, keep) + (if keep(b) then [b] else [])
  {
    FilterAppend(s, [b], keep);
    assert [b][1..] == [];
  }

  function AddToSections(sections: seq<Section>, b: Block): seq<Section>
    requires IsClaimed(b)
  {
    var last := |sections| - 1;
    if sections != [] && sections[last].under == b.under.value then
      sections[..last] + [sections[last].(bands := sections[last].bands + [b])]
    else sections + [Section(b.under.value, [b])]
  }

  lemma AddedBand(sections: seq<Section>, b: Block)
    requires IsClaimed(b)
    ensures Bands(AddToSections(sections, b)) == Bands(sections) + [b]
  {
    var last := |sections| - 1;
    if sections != [] && sections[last].under == b.under.value {
      BandsAppend(sections[..last], sections[last]);
      BandsAppend(sections[..last], sections[last].(bands := sections[last].bands + [b]));
      assert sections == sections[..last] + [sections[last]];
    } else {
      BandsAppend(sections, Section(b.under.value, [b]));
    }
  }

  lemma AddedKeepsRuns(sections: seq<Section>, b: Block)
    requires IsClaimed(b) && AreRuns(sections)
    ensures AreRuns(AddToSections(sections, b))
  {
    var r := AddToSections(sections, b);
    forall i | 0 <= i < |r|
      ensures r[i].bands != [] && forall x | x in r[i].bands :: x.Band? && x.under == Some(r[i].under) {
      assert i < |sections| ==> sections[i] in sections;
    }
  }

  function LastOf(s: seq<Block>): Option<Block> { if s == [] then None else Some(s[|s| - 1]) }

  /** Every block kept once, in order, by kind; sections as runs; the last committee block. */
  ghost predicate Groups(g: GroupedLayout, blocks: seq<Block>) {
    && g.rosters == Filter(blocks, IsRosterBlock)
    && AreRuns(g.sections) && Bands(g.sections) == Filter(blocks, IsClaimed)
    && g.legacy == Filter(blocks, IsLegacy)
    && g.committee == LastOf(Filter(blocks, IsCommitteeBlock))
  }

  method GroupBlock(g: GroupedLayout, b: Block, ghost blocks: seq<Block>) returns (g': GroupedLayout)
    requires Groups(g, blocks)
    ensures Groups(g', blocks + [b])
  {
    LastOne(blocks, b, IsRosterBlock);
    LastOne(blocks, b, IsClaimed);
    LastOne(blocks, b, IsLegacy);
    LastOne(blocks, b, IsCommitteeBlock);
    if b.RosterBlock? {
      g' := g.(rosters := g.rosters + [b]);
    } else if b.CommitteeBlock? {
      g' := g.(committee := Some(b));
    } else if b.Band? && b.under.Some? {
      AddedBand(g.sections, b);
      AddedKeepsRuns(g.sections, b);
      g' := g.(sections := AddToSections(g.sections, b));
    } else {
      g' := g.(legacy := g.legacy + [b]);
    }
  }

  /** The renderer's view keeps every block once and in order, and sections are its runs. */
  method GroupLayout(blocks: seq<Block>) returns (g: GroupedLayout)
    ensures Groups(g, blocks)
  {
    g := GroupedLayout([], None, [], []);
    for i := 0 to |blocks|
      invariant Groups(g, blocks[..i])
    {
      assert blocks[..i + 1] == blocks[..i] + [blocks[i]];
      g := GroupBlock(g, blocks[i], blocks[..i]);
    }
    assert blocks[..|blocks|] == blocks;
  }

  lemma BranchHasNoCommittee(blocks: seq<Block>)
    requires BranchOnly(blocks)
    ensures Filter(blocks, IsCommitteeBlock) == []
  {
    FilterNone(blocks, IsCommitteeBlock);
  }

  lemma CommitteeComesFirst(candidates: seq<Node>)
    ensures |Filter(EmitCommittee(candidates), IsCommitteeBlock)| <= 1
  {
    var found := Filter(candidates, CommitteeNode);
    if found != [] {
      var c := found[0];
      var posts, rest := PostsIn(c.children, POST_KEYS), Filter(c.children, NotPostNode);
      PostsNamed(posts);
      BranchNamed(rest, Some(c.name));
      BranchHasNoCommittee(EmitPosts(posts));
      BranchHasNoCommittee(EmitBranch(rest, Some(c.name)));
      FilterAppend([CommitteeBlock(c.id, c, posts)] + EmitPosts(posts),
                   EmitBranch(rest, Some(c.name)), IsCommitteeBlock);
      FilterAppend([CommitteeBlock(c.id, c, posts)], EmitPosts(posts), IsCommitteeBlock);
    }
  }

  /** The sheet has at most one committee block, whatever the tree. */
  lemma SheetHasOneCommittee(tree: seq<Node>)
    ensures |Filter(ToLayout(tree), IsCommitteeBlock)| <= 1
  {
    var rosters := Filter(tree, RosterNode);
    var a, b, c := RosterBlocks(rosters), EmitCommittee(ChildrenOfAll(rosters)), EmitRosters(rosters);
    var d := EmitBranch(Filter(tree, OtherNode), None);
    CommitteeComesFirst(ChildrenOfAll(rosters));
    RostersNamed(rosters);
    BranchNamed(Filter(tree, OtherNode), None);
    FilterNone(a, IsCommitteeBlock);
    BranchHasNoCommittee(c);
    BranchHasNoCommittee(d);
    FilterAppend(a + b + c, d, IsCommitteeBlock);
    FilterAppend(a + b, c, IsCommitteeBlock);
    FilterAppend(a, b, IsCommitteeBlock);
  }

  ghost function Kept(blocks: seq<Block>, keep: Block -> bool): multiset<Block> {
    multiset(Filter(blocks, keep))
  }

  lemma Added(x: Block, a: multiset<Block>, b: multiset<Block>, c: multiset<Block>, d: multiset<Block>)
    ensures multiset{x} + (a + b + c + d) == (multiset{x} + a) + b + c + d
    ensures multiset{x} + (a + b + c + d) == a + (multiset{x} + b) + c + d
    ensures multiset{x} + (a + b + c + d) == a + b + (multiset{x} + c) + d
    ensures multiset{x} + (a + b + c + d) == a + b + c + (multiset{x} + d)
  {
  }

  lemma {:induction false} KindsShare(blocks: seq<Block>)
    ensures multiset(blocks) == Kept(blocks, IsRosterBlock) + Kept(blocks, IsCommitteeBlock)
                                + Kept(blocks, IsClaimed) + Kept(blocks, IsLegacy)
  {
    if blocks != [] {
      var x, rest := blocks[0], blocks[1..];
      KindsShare(rest);
      assert blocks == [x] + rest;
      KindOfFirst(blocks, IsRosterBlock);
      KindOfFirst(blocks, IsCommitteeBlock);
      KindOfFirst(blocks, IsClaimed);
      KindOfFirst(blocks, IsLegacy);
      Added(x, Kept(rest, IsRosterBlock), Kept(rest, IsCommitteeBlock), Kept(rest, IsClaimed), Kept(rest, IsLegacy));
    }
  }

  lemma KindOfFirst(blocks: seq<Block>, keep: Block -> bool)
    requires blocks != []
    ensures Kept(blocks, keep) == if keep(blocks[0]) then multiset{blocks[0]} + Kept(blocks[1..], keep)
                                  else Kept(blocks[1..], keep)
  {
  }

  /** The grouped view of a sheet holds every one of its blocks, exactly as often. */
  lemma GroupedSheetKeepsAll(tree: seq<Node>, g: GroupedLayout)
    requires Groups(g, ToLayout(tree))
    ensures multiset(ToLayout(tree)) == multiset(g.rosters)
              + (if g.committee.Some? then multiset{g.committee.value} else multiset{})
              + multiset(Bands(g.sections)) + multiset(g.legacy)
  {
    var blocks := ToLayout(tree);
    SheetHasOneCommittee(tree);
    KindsShare(blocks);
    OneOrNone(Filter(blocks, IsCommitteeBlock), g.committee);
  }

  lemma OneOrNone(c: seq<Block>, last: Option<Block>)
    requires |c| <= 1 && last == if c == [] then None else Some(c[|c| - 1])
    ensures multiset(c) == if last.Some? then multiset{last.value} else multiset{}
  {
    if c != [] { assert c == [c[0]]; }
  }
}
