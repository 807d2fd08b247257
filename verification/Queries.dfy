/** The derivations over flat links: ancestor chain, descendants, subtree height. */
module Queries {
  import opened Lists
  import opened Graph

  datatype TreeLink = TreeLink(id: int, parent: Option<int>)

  ghost predicate UniqueLinks(links: seq<TreeLink>) {
    forall i, j | 0 <= i < j < |links| :: links[i].id != links[j].id
  }

  function LinkMap(links: seq<TreeLink>): Links
    requires UniqueLinks(links)
  {
    map l | l in links && l.parent.Some? :: l.id := l.parent.value
  }

  ghost function LinkIds(links: seq<TreeLink>): set<int> {
    set l | l in links :: l.id
  }

  /** The ids linked directly to `id`, in row order. */
  function LinkChildren(links: seq<TreeLink>, id: int): (kids: seq<int>)
    ensures forall c :: c in kids <==> TreeLink(c, Some(id)) in links
  {
    if links == [] then []
    else if links[0].parent == Some(id) then [links[0].id] + LinkChildren(links[1..], id)
    else LinkChildren(links[1..], id)
  }

  lemma ChildrenAreLinked(links: seq<TreeLink>, id: int, c: int)
    requires UniqueLinks(links)
    ensures c in LinkChildren(links, id) <==> c in LinkMap(links) && LinkMap(links)[c] == id
  {
    if c in LinkMap(links) && LinkMap(links)[c] == id {
      var l :| l in links && l.id == c && l.parent == Some(id);
      assert l == TreeLink(c, Some(id));
    }
  }

  lemma LinkChildrenAppend(links: seq<TreeLink>, l: TreeLink, id: int)
    ensures LinkChildren(links + [l], id)
         == LinkChildren(links, id) + (if l.parent == Some(id) then [l.id] else [])
  {
    if links == [] {
      assert links + [l] == [l];
    } else {
      assert (links + [l])[1..] == links[1..] + [l];
      LinkChildrenAppend(links[1..], l, id);
    }
  }

  /** The chain the policy is asked about: empty for the top, else the parent and its ancestors. */
  function ChainFrom(links: seq<TreeLink>, start: Option<int>): seq<int>
    requires UniqueLinks(links)
  {
    if start.None? then [] else Chain(LinkMap(links), start.value)
  }

  method AncestorChainIds(links: seq<TreeLink>, start: Option<int>) returns (chain: seq<int>)
    requires UniqueLinks(links)
    ensures chain == ChainFrom(links, start) && Distinct(chain)
    ensures forall x :: x in chain <==> start.Some? && Under(LinkMap(links), start.value, x)
  {
    chain := [];
    if start == None { return; }
    var up := LinkMap(links);
    ClimbDistinct(up, start.value, {});
    var current, seen := start, {};
    while current.Some? && current.value !in seen
      invariant current.Some? ==> chain + Climb(up, current.value, seen) == Chain(up, start.value)
      invariant current.None? ==> chain == Chain(up, start.value)
      decreases up.Keys - seen, current.Some?
    {
      var x := current.value;
      if x in up {
        assert chain + ([x] + Climb(up, up[x], seen + {x})) == (chain + [x]) + Climb(up, up[x], seen + {x});
      }
      seen := seen + {x};
      chain := chain + [x];
      current := if x in up then Some(up[x]) else None;
    }
  }

  method ChildrenByParent(links: seq<TreeLink>) returns (childrenOf: map<int, seq<int>>)
    ensures forall id :: (if id in childrenOf then childrenOf[id] else []) == LinkChildren(links, id)
  {
    childrenOf := map[];
    for i := 0 to |links|
      invariant forall id :: (if id in childrenOf then childrenOf[id] else []) == LinkChildren(links[..i], id)
    {
      var l := links[i];
      assert links[..i + 1] == links[..i] + [l];
      forall id ensures LinkChildren(links[..i + 1], id)
                     == LinkChildren(links[..i], id) + (if l.parent == Some(id) then [l.id] else []) {
        LinkChildrenAppend(links[..i], l, id);
      }
      if l.parent.Some? {
        var p := l.parent.value;
        childrenOf := childrenOf[p := (if p in childrenOf then childrenOf[p] else []) + [l.id]];
      }
    }
    assert links[..|links|] == links;
  }

  lemma KidsAreUnder(links: seq<TreeLink>, id: int, root: int)
    requires UniqueLinks(links) && Under(LinkMap(links), id, root)
    ensures forall c :: c in LinkChildren(links, id) <==> c in LinkMap(links) && LinkMap(links)[c] == id
    ensures forall c | c in LinkChildren(links, id) :: Under(LinkMap(links), c, root)
  {
    var up := LinkMap(links);
    forall c ensures c in LinkChildren(links, id) <==> c in up && up[c] == id {
      ChildrenAreLinked(links, id, c);
    }
    forall c | c in up && up[c] == id ensures Under(up, c, root) {
      ChainIsLeast(up, c, iset y | y in up.Keys + up.Values + {c});
      UnderIsTransitive(up, c, id, root);
    }
  }

  lemma ClosedDownwards(up: Links, s: set<int>, root: int)
    requires root in s && forall c | c in up && up[c] in s :: c in s
    ensures forall d | Under(up, d, root) :: d in s
  {
    forall d | d !in s ensures !Under(up, d, root) {
      ChainIsLeast(up, d, iset y | y in up.Keys + up.Values + {d} && y !in s);
    }
  }

  /** What the search knows: all it met is below `root`, and only queued children are missing. */
  ghost predicate Explored(up: Links, root: int, seen: set<int>, queue: seq<int>) {
    && root in seen
    && (forall d | d in seen :: Under(up, d, root))
    && (forall d | d in queue :: Under(up, d, root) && d in up)
    && (forall c | c in up && up[c] in seen :: c in seen || c in queue)
  }

  lemma ExploreNext(up: Links, root: int, seen: set<int>, queue: seq<int>, kids: seq<int>)
    requires queue != [] && Explored(up, root, seen, queue)
    requires forall c :: c in kids <==> c in up && up[c] == queue[0]
    requires forall c | c in kids :: Under(up, c, root)
    ensures Explored(up, root, seen + {queue[0]}, queue[1..] + kids)
    ensures queue[0] in seen ==> Explored(up, root, seen, queue[1..])
  {
    assert forall c | c in queue :: c == queue[0] || c in queue[1..];
    assert forall c | c in queue[1..] + kids :: c in queue || c in kids;
  }

  /** The ids found, each once, are those seen but the root. */
  ghost predicate Met(root: int, seen: set<int>, found: seq<int>) {
    Distinct(found) && root !in found && forall y :: y in seen <==> y == root || y in found
  }

  lemma MeetNext(root: int, seen: set<int>, found: seq<int>, id: int)
    requires Met(root, seen, found) && id !in seen
    ensures Met(root, seen + {id}, found + [id])
  {
    DistinctAppend(found, [id]);
  }

  lemma ExploreChildren(links: seq<TreeLink>, root: int, seen: set<int>, queue: seq<int>, kids: seq<int>)
    requires UniqueLinks(links) && queue != [] && kids == LinkChildren(links, queue[0])
    requires Explored(LinkMap(links), root, seen, queue)
    ensures Explored(LinkMap(links), root, seen + {queue[0]}, queue[1..] + kids)
    ensures queue[0] in seen ==> Explored(LinkMap(links), root, seen, queue[1..])
  {
    KidsAreUnder(links, queue[0], root);
    ExploreNext(LinkMap(links), root, seen, queue, kids);
  }

  /** Everything strictly below `root`: exactly the other nodes whose chain passes through it. */
  method DescendantIds(links: seq<TreeLink>, root: int) returns (found: seq<int>)
    requires UniqueLinks(links)
    ensures Distinct(found)
    ensures forall d :: d in found <==> d != root && Under(LinkMap(links), d, root)
  {
    var childrenOf := ChildrenByParent(links);
    ghost var up := LinkMap(links);
    found := [];
    var seen := {root};
    var queue := if root in childrenOf then childrenOf[root] else [];
    KidsAreUnder(links, root, root);
    while queue != []
      invariant Met(root, seen, found)
      invariant Explored(up, root, seen, queue)
      decreases up.Keys - seen, |queue|
    {
      var id := queue[0];
      var kids := if id in childrenOf then childrenOf[id] else [];
      ExploreChildren(links, root, seen, queue, kids);
      queue := queue[1..];
      if id !in seen {
        MeetNext(root, seen, found, id);
        seen := seen + {id};
        found := found + [id];
        queue := queue + kids;
      }
    }
    ClosedDownwards(up, seen, root);
  }

  /** Levels below `id` along paths that avoid `seen`. */
  function Height(links: seq<TreeLink>, id: int, seen: set<int>): nat
    decreases LinkIds(links) - seen, 1, 0
  {
    var kids := Filter(LinkChildren(links, id), c => c !in seen);
    if kids == [] then 0 else 1 + MaxHeight(links, kids, seen)
  }

  function MaxHeight(links: seq<TreeLink>, kids: seq<int>, seen: set<int>): nat
    requires kids != [] && forall c | c in kids :: c in LinkIds(links) && c !in seen
    decreases LinkIds(links) - seen, 0, |kids|
  {
    var first := Height(links, kids[0], seen + {kids[0]});
    if |kids| == 1 then first
    else
      var others := MaxHeight(links, kids[1..], seen);
      if first >= others then first else others
  }

  function SubtreeHeight(links: seq<TreeLink>, root: int): nat {
    Height(links, root, {root})
  }

  lemma MaxHeightBounds(links: seq<TreeLink>, kids: seq<int>, seen: set<int>, c: int)
    requires kids != [] && forall c | c in kids :: c in LinkIds(links) && c !in seen
    requires c in kids
    ensures Height(links, c, seen + {c}) <= MaxHeight(links, kids, seen)
    decreases |kids|
  {
    if c != kids[0] {
      MaxHeightBounds(links, kids[1..], seen, c);
    }
  }

  lemma MaxHeightReached(links: seq<TreeLink>, kids: seq<int>, seen: set<int>) returns (c: int)
    requires kids != [] && forall c | c in kids :: c in LinkIds(links) && c !in seen
    ensures c in kids && Height(links, c, seen + {c}) == MaxHeight(links, kids, seen)
    decreases |kids|
  {
    if Height(links, kids[0], seen + {kids[0]}) == MaxHeight(links, kids, seen) {
      c := kids[0];
    } else {
      c := MaxHeightReached(links, kids[1..], seen);
    }
  }

  predicate Hop(up: Links, q: seq<int>, i: int)
    requires 0 <= i < |q| - 1
  {
    q[i] in up && up[q[i]] == q[i + 1]
  }

  /** A walk upwards, one parent link at a time, that never repeats a node. */
  ghost predicate IsPath(up: Links, q: seq<int>) {
    q != [] && Distinct(q) && forall i | 0 <= i < |q| - 1 :: Hop(up, q, i)
  }

  lemma PathSlice(up: Links, q: seq<int>, lo: nat, hi: nat)
    requires IsPath(up, q) && lo < hi <= |q|
    ensures IsPath(up, q[lo..hi])
  {
    forall i | 0 <= i < hi - lo - 1 ensures Hop(up, q[lo..hi], i) {
      assert Hop(up, q, lo + i);
    }
  }

  lemma PathJoin(up: Links, p: seq<int>, q: seq<int>)
    requires IsPath(up, p) && IsPath(up, q) && forall x | x in p :: x !in q
    requires p[|p| - 1] in up && up[p[|p| - 1]] == q[0]
    ensures IsPath(up, p + q)
  {
    assert forall x :: x in p ==> x !in q;
    DistinctAppend(p, q);
    forall i | 0 <= i < |p + q| - 1 ensures Hop(up, p + q, i) {
      assert i < |p| - 1 ==> Hop(up, p, i);
      assert i >= |p| ==> Hop(up, q, i - |p|);
    }
  }

  lemma {:induction false} ClimbIsPath(up: Links, x: int, seen: set<int>)
    requires x !in seen
    ensures IsPath(up, Climb(up, x, seen))
    decreases up.Keys - seen
  {
    if x in up && up[x] !in seen + {x} {
      ClimbIsPath(up, up[x], seen + {x});
      ClimbDistinct(up, up[x], seen + {x});
      PathJoin(up, [x], Climb(up, up[x], seen + {x}));
    }
  }

  lemma {:induction false} PathIsClimb(up: Links, q: seq<int>, seen: set<int>)
    requires IsPath(up, q) && forall y | y in q :: y !in seen
    ensures |q| <= |Climb(up, q[0], seen)| && Climb(up, q[0], seen)[..|q|] == q
    decreases |q|
  {
    if |q| > 1 {
      PathSlice(up, q, 1, |q|);
      assert q[1..] == q[1..|q|];
      assert Hop(up, q, 0) && q[0] !in q[1..];
      PathIsClimb(up, q[1..], seen + {q[0]});
      assert Climb(up, q[0], seen)[..|q|] == [q[0]] + Climb(up, q[1], seen + {q[0]})[..|q| - 1];
    }
  }

  lemma {:induction false} PathBoundedByHeight(links: seq<TreeLink>, q: seq<int>, seen: set<int>)
    requires UniqueLinks(links) && IsPath(LinkMap(links), q)
    requires q[|q| - 1] in seen && forall i | 0 <= i < |q| - 1 :: q[i] !in seen
    ensures |q| - 1 <= Height(links, q[|q| - 1], seen)
    decreases |q|
  {
    if |q| > 1 {
      var n := |q| - 2;
      assert Hop(LinkMap(links), q, n);
      PathSlice(LinkMap(links), q, 0, n + 1);
      PathBoundedByHeight(links, q[..n + 1], seen + {q[n]});
      ChildIsLower(links, q[n + 1], q[n], seen);
    }
  }

  lemma ChildIsLower(links: seq<TreeLink>, id: int, c: int, seen: set<int>)
    requires UniqueLinks(links) && c in LinkMap(links) && LinkMap(links)[c] == id && c !in seen
    ensures Height(links, c, seen + {c}) < Height(links, id, seen)
  {
    ChildrenAreLinked(links, id, c);
    var kids := Filter(LinkChildren(links, id), c => c !in seen);
    assert c in kids;
    MaxHeightBounds(links, kids, seen, c);
  }

  lemma PathUp(links: seq<TreeLink>, p: seq<int>, id: int, c: int, seen: set<int>)
    requires UniqueLinks(links) && IsPath(LinkMap(links), p) && p[|p| - 1] == c
    requires c in LinkChildren(links, id) && c !in seen && id in seen
    requires forall i | 0 <= i < |p| - 1 :: p[i] !in seen
    ensures IsPath(LinkMap(links), p + [id])
    ensures forall i | 0 <= i < |p + [id]| - 1 :: (p + [id])[i] !in seen
  {
    ChildrenAreLinked(links, id, c);
    assert forall i | 0 <= i < |p| :: p[i] !in seen;
    PathJoin(LinkMap(links), p, [id]);
  }

  lemma {:induction false} HeightHasPath(links: seq<TreeLink>, id: int, seen: set<int>) returns (q: seq<int>)
    requires UniqueLinks(links) && id in seen
    ensures IsPath(LinkMap(links), q) && q[|q| - 1] == id
    ensures forall i | 0 <= i < |q| - 1 :: q[i] !in seen
    ensures |q| - 1 == Height(links, id, seen)
    decreases LinkIds(links) - seen
  {
    var kids := Filter(LinkChildren(links, id), c => c !in seen);
    if kids == [] {
      q := [id];
    } else {
      var c := MaxHeightReached(links, kids, seen);
      assert c in LinkIds(links) && c !in seen;
      var p := HeightHasPath(links, c, seen + {c});
      PathUp(links, p, id, c, seen);
      q := p + [id];
    }
  }

  lemma NoneFarther(links: seq<TreeLink>, root: int, d: int)
    requires UniqueLinks(links) && Under(LinkMap(links), d, root)
    ensures IndexOf(Chain(LinkMap(links), d), root) <= SubtreeHeight(links, root)
  {
    var up := LinkMap(links);
    ClimbIsPath(up, d, {});
    var c := Chain(up, d);
    var k := IndexOf(c, root);
    PathSlice(up, c, 0, k + 1);
    PathBoundedByHeight(links, c[..k + 1], {root});
  }

  lemma SomeAsFar(links: seq<TreeLink>, root: int) returns (d: int)
    requires UniqueLinks(links)
    ensures Under(LinkMap(links), d, root)
    ensures IndexOf(Chain(LinkMap(links), d), root) == SubtreeHeight(links, root)
  {
    var q := HeightHasPath(links, root, {root});
    d := q[0];
    PathIsClimb(LinkMap(links), q, {});
    LastOfPrefix(Chain(LinkMap(links), d), q);
  }

  lemma LastOfPrefix(c: seq<int>, q: seq<int>)
    requires q != [] && Distinct(q) && q <= c
    ensures q[|q| - 1] in c && IndexOf(c, q[|q| - 1]) == |q| - 1
  {
    assert c[..|q| - 1] == q[..|q| - 1];
    IndexIsFirst(c, |q| - 1);
  }

  /**
   The height is the greatest distance from a node below to `root`, on any rows: no descendant
   is farther, and one stands exactly that far.
   */
  lemma HeightIsFarthestDescendant(links: seq<TreeLink>, root: int)
    requires UniqueLinks(links)
    ensures forall d | Under(LinkMap(links), d, root) ::
              IndexOf(Chain(LinkMap(links), d), root) <= SubtreeHeight(links, root)
    ensures exists d :: Under(LinkMap(links), d, root)
              && IndexOf(Chain(LinkMap(links), d), root) == SubtreeHeight(links, root)
  {
    var up := LinkMap(links);
    forall d | Under(up, d, root) ensures IndexOf(Chain(up, d), root) <= SubtreeHeight(links, root) {
      NoneFarther(links, root, d);
    }
    var d := SomeAsFar(links, root);
  }
}
