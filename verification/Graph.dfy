/**
 The parent relation as a partial function `up`, with no assumption that it is acyclic: a
 hand-edited database may hold a cycle, and every reader has to survive one.
 */
module Graph {
  import opened Lists

  type Links = map<int, int>

  /** The nodes met walking upwards from `x` until the top or a node already seen. */
  function Climb(up: Links, x: int, seen: set<int>): (chain: seq<int>)
    ensures chain == [] <==> x in seen
    ensures x !in seen ==> chain[0] == x
    decreases up.Keys - seen
  {
    if x in seen then []
    else if x in up then [x] + Climb(up, up[x], seen + {x})
    else [x]
  }

  lemma {:induction false} ClimbDistinct(up: Links, x: int, seen: set<int>)
    ensures Distinct(Climb(up, x, seen)) && forall y | y in Climb(up, x, seen) :: y !in seen
    decreases up.Keys - seen
  {
    if x !in seen && x in up {
      ClimbDistinct(up, up[x], seen + {x});
    }
  }

  /** `x` and its ancestors, nearest first. */
  function Chain(up: Links, x: int): seq<int> {
    Climb(up, x, {})
  }

  /** `x` is strictly below `top`, or is `top` itself. */
  ghost predicate Under(up: Links, x: int, top: int) {
    top in Chain(up, x)
  }

  ghost predicate Acyclic(up: Links) {
    forall x | x in up :: !Under(up, up[x], x)
  }

  /** Nothing leads out of `s`. */
  ghost predicate ClosedUpwards(up: Links, s: iset<int>) {
    forall y | y in s && y in up :: up[y] in s
  }

  lemma {:induction false} ClimbStaysIn(up: Links, x: int, seen: set<int>, s: iset<int>)
    requires ClosedUpwards(up, s) && x in s
    ensures forall y | y in Climb(up, x, seen) :: y in s
    decreases up.Keys - seen
  {
    if x !in seen && x in up {
      ClimbStaysIn(up, up[x], seen + {x}, s);
    }
  }

  lemma {:induction false} ClimbIsClosed(up: Links, x: int, seen: set<int>, y: int)
    requires y in Climb(up, x, seen) && y in up
    ensures up[y] in Climb(up, x, seen) || up[y] in seen
    decreases up.Keys - seen
  {
    if y != x {
      ClimbIsClosed(up, up[x], seen + {x}, y);
    }
  }

  /** The chain is the least set holding `x` and closed under the parent relation. */
  lemma ChainIsLeast(up: Links, x: int, s: iset<int>)
    requires ClosedUpwards(up, s) && x in s
    ensures forall y | y in Chain(up, x) :: y in s
    ensures forall y | y in Chain(up, x) && y in up :: up[y] in Chain(up, x)
  {
    ClimbStaysIn(up, x, {}, s);
    forall y | y in Chain(up, x) && y in up ensures up[y] in Chain(up, x) {
      ClimbIsClosed(up, x, {}, y);
    }
  }

  lemma UnderIsTransitive(up: Links, x: int, y: int, z: int)
    requires Under(up, x, y) && Under(up, y, z)
    ensures Under(up, x, z)
  {
    ChainIsLeast(up, x, iset w | w in up.Keys + up.Values + {x});
    ChainIsLeast(up, y, iset w | w in Chain(up, x));
  }

  /** Seeing more beforehand changes nothing if the walk never gets there. */
  lemma {:induction false} ClimbIgnores(up: Links, x: int, seen: set<int>, more: set<int>)
    requires seen <= more
    requires forall y | y in Climb(up, x, seen) :: y !in more
    ensures Climb(up, x, more) == Climb(up, x, seen)
    decreases up.Keys - seen
  {
    if x !in seen && x in up {
      ClimbDistinct(up, up[x], seen + {x});
      assert forall y | y in Climb(up, up[x], seen + {x}) :: y in Climb(up, x, seen);
      ClimbIgnores(up, up[x], seen + {x}, more + {x});
    }
  }

  /** On acyclic links a chain is the node followed by its parent's chain. */
  lemma ChainUnfolds(up: Links, x: int)
    requires Acyclic(up)
    ensures Chain(up, x) == if x in up then [x] + Chain(up, up[x]) else [x]
  {
    if x in up {
      ClimbIgnores(up, up[x], {}, {x});
      assert {} + {x} == {x};
    }
  }

  /** A measure that drops at every step rules cycles out. */
  lemma {:induction false} ClimbDescends(up: Links, x: int, seen: set<int>, rank: int -> int)
    requires forall y | y in up :: rank(up[y]) < rank(y)
    ensures forall y | y in Climb(up, x, seen) :: rank(y) <= rank(x)
    decreases up.Keys - seen
  {
    if x !in seen && x in up {
      ClimbDescends(up, up[x], seen + {x}, rank);
    }
  }

  lemma RankedIsAcyclic(up: Links, rank: int -> int)
    requires forall y | y in up :: rank(up[y]) < rank(y)
    ensures Acyclic(up)
  {
    forall x | x in up ensures !Under(up, up[x], x) {
      ClimbDescends(up, up[x], {}, rank);
    }
  }

  /** How many levels `x` stands at, the top being level 1. */
  ghost function Depth(up: Links, x: int): nat {
    |Chain(up, x)|
  }

  /** Where `y` first stands in `s`. */
  function IndexOf(s: seq<int>, y: int): (i: nat)
    requires y in s
    ensures i < |s| && s[i] == y
    ensures y !in s[..i]
  {
    if s[0] == y then 0 else
    var i := 1 + IndexOf(s[1..], y);
    assert s[..i] == [s[0]] + s[1..][..i - 1];
    i
  }

  lemma {:induction false} IndexIsFirst(s: seq<int>, k: nat)
    requires k < |s| && s[k] !in s[..k]
    ensures IndexOf(s, s[k]) == k
  {
    if k > 0 {
      assert s[0] in s[..k] && s[1..][..k - 1] == s[1..k];
      assert forall x | x in s[1..k] :: x in s[..k];
      IndexIsFirst(s[1..], k - 1);
    }
  }

  /** Chains that meet continue alike: everything above `y` on `x`'s chain is `y`'s chain. */
  lemma {:induction false} ChainTail(up: Links, x: int, y: int)
    requires Acyclic(up) && Under(up, x, y)
    ensures Chain(up, x) == Chain(up, x)[..IndexOf(Chain(up, x), y)] + Chain(up, y)
    decreases Depth(up, x)
  {
    ChainUnfolds(up, x);
    var c := Chain(up, x);
    if x == y {
      assert IndexOf(c, y) == 0;
    } else {
      assert x in up;
      var d := Chain(up, up[x]);
      assert c[1..] == d;
      ChainTail(up, up[x], y);
      var i := IndexOf(d, y);
      assert IndexOf(c, y) == i + 1;
      calc {
        c;
        [x] + d;
        [x] + (d[..i] + Chain(up, y));
        ([x] + d[..i]) + Chain(up, y);
        { assert c[..i + 1] == [x] + d[..i]; }
        c[..i + 1] + Chain(up, y);
      }
    }
  }

  /** Chains only depend on the links along them. */
  lemma {:induction false} ClimbFrame(up: Links, up': Links, x: int, seen: set<int>)
    requires forall y | y in Climb(up, x, seen) :: (y in up <==> y in up') && (y in up ==> up[y] == up'[y])
    ensures Climb(up', x, seen) == Climb(up, x, seen)
    decreases up.Keys - seen
  {
    if x !in seen && x in up {
      assert forall y | y in Climb(up, up[x], seen + {x}) :: y in Climb(up, x, seen);
      ClimbFrame(up, up', up[x], seen + {x});
    }
  }

  /** Hanging `id` under `p` closes no cycle when `id` is not on `p`'s chain. */
  lemma ReattachIsAcyclic(up: Links, id: int, p: int)
    requires Acyclic(up) && !Under(up, p, id)
    ensures Acyclic(up[id := p])
  {
    var up', lift := up[id := p], Depth(up, p);
    var rank := (x: int) => Depth(up, x) + (if id in Chain(up, x) then lift else 0);
    forall x | x in up' ensures rank(up'[x]) < rank(x) {
      ChainUnfolds(up, x);
      ChainUnfolds(up, id);
    }
    RankedIsAcyclic(up', rank);
  }

  lemma ReattachedAbove(up: Links, id: int, p: int, x: int)
    requires !Under(up, p, id) && id !in Chain(up, x)
    ensures Chain(up[id := p], x) == Chain(up, x)
  {
    ClimbFrame(up, up[id := p], x, {});
  }

  lemma ReattachedHere(up: Links, id: int, p: int)
    requires Acyclic(up) && !Under(up, p, id)
    ensures Chain(up[id := p], id) == [id] + Chain(up, p)
  {
    ReattachIsAcyclic(up, id, p);
    ChainUnfolds(up[id := p], id);
    ReattachedAbove(up, id, p, p);
  }

  /** Chains below `id` keep their part up to `id` and go on with `p`'s chain; others stay. */
  lemma {:induction false} ReattachedChain(up: Links, id: int, p: int, x: int)
    requires Acyclic(up) && !Under(up, p, id)
    ensures Chain(up[id := p], x)
         == if id in Chain(up, x) then Chain(up, x)[..IndexOf(Chain(up, x), id)] + [id] + Chain(up, p)
            else Chain(up, x)
    decreases Depth(up, x)
  {
    if id !in Chain(up, x) {
      ReattachedAbove(up, id, p, x);
    } else if x == id {
      ReattachedHere(up, id, p);
      assert IndexOf(Chain(up, id), id) == 0;
    } else {
      ChainUnfolds(up, x);
      ReattachedChain(up, id, p, up[x]);
      ReattachedBelow(up, id, p, x);
    }
  }

  lemma ReattachedBelow(up: Links, id: int, p: int, x: int)
    requires Acyclic(up) && !Under(up, p, id) && x in up && x != id && id in Chain(up, up[x])
    requires Chain(up[id := p], up[x])
          == Chain(up, up[x])[..IndexOf(Chain(up, up[x]), id)] + [id] + Chain(up, p)
    ensures id in Chain(up, x)
    ensures Chain(up[id := p], x) == Chain(up, x)[..IndexOf(Chain(up, x), id)] + [id] + Chain(up, p)
  {
    ReattachIsAcyclic(up, id, p);
    ChainUnfolds(up, x);
    ChainUnfolds(up[id := p], x);
    JoinBelow(x, Chain(up, up[x]), id, Chain(up, p));
  }

  lemma JoinBelow(x: int, d: seq<int>, id: int, rest: seq<int>)
    requires id in d && x != id
    ensures var c := [x] + d;
            c[..IndexOf(c, id)] + [id] + rest == [x] + (d[..IndexOf(d, id)] + [id] + rest)
  {
    var c, i := [x] + d, IndexOf(d, id);
    assert c[1..] == d && c[0] == x;
    assert IndexOf(c, id) == i + 1 && c[..i + 1] == [x] + d[..i];
  }

  /** Take `id` out and let its children answer to its own parent, if it has one. */
  ghost function Contract(up: Links, id: int): Links {
    map x | x in up && x != id && (up[x] != id || id in up) :: if up[x] == id then up[id] else up[x]
  }

  function Without(s: seq<int>, id: int): (r: seq<int>)
    ensures forall x :: x in r <==> x in s && x != id
    ensures id !in s ==> r == s
  {
    if s == [] then [] else (if s[0] == id then [] else [s[0]]) + Without(s[1..], id)
  }

  lemma ContractIsAcyclic(up: Links, id: int)
    requires Acyclic(up)
    ensures Acyclic(Contract(up, id))
  {
    var rank := (x: int) => Depth(up, x);
    forall x | x in Contract(up, id) ensures rank(Contract(up, id)[x]) < rank(x) {
      ChainUnfolds(up, x);
      ChainUnfolds(up, id);
    }
    RankedIsAcyclic(Contract(up, id), rank);
  }

  lemma ContractAway(up: Links, id: int, x: int)
    requires Acyclic(up) && Acyclic(Contract(up, id)) && x != id && x in up && up[x] != id
    requires Chain(Contract(up, id), up[x]) == Without(Chain(up, up[x]), id)
    ensures Chain(Contract(up, id), x) == Without(Chain(up, x), id)
  {
    ChainUnfolds(up, x);
    ChainUnfolds(Contract(up, id), x);
    WithoutFirst(x, Chain(up, up[x]), id);
  }

  lemma ContractUnderTop(up: Links, id: int, x: int)
    requires Acyclic(up) && x != id && x in up && up[x] == id && id !in up
    ensures Chain(Contract(up, id), x) == Without(Chain(up, x), id)
  {
    assert x !in Contract(up, id);
    ChainUnfolds(up, x);
    WithoutFirst(x, [id], id);
  }

  lemma ContractHere(up: Links, id: int, x: int)
    requires Acyclic(up) && Acyclic(Contract(up, id)) && x != id && x in up && up[x] == id && id in up
    requires Chain(Contract(up, id), up[id]) == Without(Chain(up, up[id]), id)
    ensures Chain(Contract(up, id), x) == Without(Chain(up, x), id)
  {
    var up', rest := Contract(up, id), Chain(up, up[id]);
    assert x in up' && up'[x] == up[id];
    ChainUnfolds(up', x);
    ChainUnfolds(up, x);
    ChainUnfolds(up, id);
    calc {
      Without(Chain(up, x), id);
      Without([x] + ([id] + rest), id);
      { WithoutFirst(x, [id] + rest, id); }
      [x] + Without([id] + rest, id);
      { WithoutFirst(id, rest, id); }
      [x] + Without(rest, id);
      Chain(up', x);
    }
  }

  /** Contraction only takes `id` off the chains. */
  lemma {:induction false} ContractedChain(up: Links, id: int, x: int)
    requires Acyclic(up) && x != id
    ensures Chain(Contract(up, id), x) == Without(Chain(up, x), id)
    decreases Depth(up, x)
  {
    ContractIsAcyclic(up, id);
    if x in up {
      ChainUnfolds(up, x);
      if up[x] != id {
        ContractedChain(up, id, up[x]);
        ContractAway(up, id, x);
      } else {
        if id in up {
          ChainUnfolds(up, id);
          assert !Under(up, up[id], id);
          ContractedChain(up, id, up[id]);
          ContractHere(up, id, x);
        } else {
          ContractUnderTop(up, id, x);
        }
      }
    }
  }

  lemma WithoutFirst(x: int, s: seq<int>, id: int)
    ensures Without([x] + s, id) == (if x == id then [] else [x]) + Without(s, id)
  {
    assert ([x] + s)[1..] == s;
  }

  lemma {:induction false} WithoutLength(s: seq<int>, id: int)
    requires Distinct(s)
    ensures |Without(s, id)| == if id in s then |s| - 1 else |s|
  {
    if s != [] {
      assert s[0] !in s[1..];
      WithoutLength(s[1..], id);
    }
  }

  /** Dropping a node nobody answers to leaves every other chain alone. */
  lemma PrunedChain(up: Links, id: int, x: int)
    requires forall y | y in up :: up[y] != id
    requires x != id
    ensures id !in Chain(up, x) && Chain(up - {id}, x) == Chain(up, x)
  {
    ChainIsLeast(up, x, iset y | y in up.Keys + up.Values + {x} && y != id);
    ClimbFrame(up, up - {id}, x, {});
  }

  lemma FewerLinksAcyclic(up: Links, id: int)
    requires Acyclic(up)
    ensures Acyclic(up - {id})
  {
    var rank := (x: int) => Depth(up, x);
    forall x | x in up - {id} ensures rank(up[x]) < rank(x) {
      ChainUnfolds(up, x);
    }
    RankedIsAcyclic(up - {id}, rank);
  }

  /** Hang every child of `s` under `t` instead, and free `s`. */
  ghost function Rehung(up: Links, s: int, t: int): Links {
    map x | x in up && x != s :: if up[x] == s then t else up[x]
  }

  /** Nothing on `t`'s own chain hangs directly under `s`. */
  ghost predicate ClearOf(up: Links, s: int, t: int) {
    forall x | x in Chain(up, t) && x in up :: up[x] != s
  }

  lemma RehungIsAcyclic(up: Links, s: int, t: int)
    requires Acyclic(up) && ClearOf(up, s, t)
    ensures Acyclic(Rehung(up, s, t))
  {
    var up', lift, k := Rehung(up, s, t), Depth(up, t) + 1, Chain(up, t);
    var rank := (x: int) => Depth(up, x) + (if x in k then 0 else lift);
    forall x | x in up' ensures rank(up'[x]) < rank(x) {
      ChainUnfolds(up, x);
      ChainIsLeast(up, t, iset y | y in up.Keys + up.Values + {t});
    }
    RankedIsAcyclic(up', rank);
  }

  lemma RehungAbove(up: Links, s: int, t: int, x: int)
    requires Acyclic(up) && s !in Chain(up, x)
    ensures Chain(Rehung(up, s, t), x) == Chain(up, x)
  {
    ChainIsLeast(up, x, iset y | y in up.Keys + up.Values + {x});
    ClimbFrame(up, Rehung(up, s, t), x, {});
  }

  /** Below `s` a chain keeps its part up to `s` and goes on with `t`'s chain; `s` itself is free. */
  lemma {:induction false} RehungChain(up: Links, s: int, t: int, x: int)
    requires Acyclic(up) && ClearOf(up, s, t) && !Under(up, t, s)
    ensures Chain(Rehung(up, s, t), x)
         == if x == s then [s]
            else if s in Chain(up, x) then Chain(up, x)[..IndexOf(Chain(up, x), s)] + Chain(up, t)
            else Chain(up, x)
    decreases Depth(up, x)
  {
    var up' := Rehung(up, s, t);
    if x == s {
      assert s !in up';
    } else if s !in Chain(up, x) {
      RehungAbove(up, s, t, x);
    } else {
      RehungIsAcyclic(up, s, t);
      ChainUnfolds(up, x);
      ChainUnfolds(up', x);
      if up[x] == s {
        RehungAbove(up, s, t, t);
        assert Chain(up, x)[1] == s && Chain(up, x)[..1] == [x];
        IndexIsFirst(Chain(up, x), 1);
      } else {
        RehungChain(up, s, t, up[x]);
        JoinBelowEnd(x, Chain(up, up[x]), s, Chain(up, t));
      }
    }
  }

  lemma JoinBelowEnd(x: int, d: seq<int>, id: int, rest: seq<int>)
    requires id in d && x != id
    ensures var c := [x] + d;
            id in c && c[..IndexOf(c, id)] + rest == [x] + (d[..IndexOf(d, id)] + rest)
  {
    var c, i := [x] + d, IndexOf(d, id);
    assert c[1..] == d && c[0] == x;
    assert IndexOf(c, id) == i + 1 && c[..i + 1] == [x] + d[..i];
  }

  /** Giving parents to tops only lengthens chains: each goes on from the top it used to end at. */
  lemma {:induction false} ChainExtends(up: Links, up': Links, x: int)
    requires Acyclic(up) && Acyclic(up') && forall y | y in up :: y in up' && up'[y] == up[y]
    ensures var c := Chain(up, x);
            var top := c[|c| - 1];
            top !in up && Chain(up', x) == c[..|c| - 1] + Chain(up', top)
    decreases Depth(up, x)
  {
    ChainUnfolds(up, x);
    ChainUnfolds(up', x);
    var c := Chain(up, x);
    if x in up {
      ChainExtends(up, up', up[x]);
      var d := Chain(up, up[x]);
      assert c[..|c| - 1] == [x] + d[..|d| - 1];
      assert c[|c| - 1] == d[|d| - 1];
      Regroup(x, d[..|d| - 1], Chain(up', d[|d| - 1]));
    } else {
      assert c == [x] && [] + Chain(up', x) == Chain(up', x);
    }
  }

  lemma Regroup(x: int, a: seq<int>, b: seq<int>)
    ensures [x] + (a + b) == ([x] + a) + b
  {
  }
}
