/** Sequences: distinctness, filtering, and the stable sort that orders siblings. */
module Lists {

  datatype Option<+T> = None | Some(value: T)

  ghost predicate Distinct<T(!new)>(s: seq<T>) {
    forall i, j | 0 <= i < j < |s| :: s[i] != s[j]
  }

  ghost function Elems<T(!new)>(s: seq<T>): set<T> {
    set x | x in s
  }

  function Filter<T(!new)>(s: seq<T>, keep: T -> bool): (r: seq<T>)
    ensures forall x :: x in r <==> x in s && keep(x)
    ensures |r| <= |s|
  {
    if s == [] then []
    else if keep(s[0]) then [s[0]] + Filter(s[1..], keep)
    else Filter(s[1..], keep)
  }

  lemma FilterAppend<T(!new)>(a: seq<T>, b: seq<T>, keep: T -> bool)
    ensures Filter(a + b, keep) == Filter(a, keep) + Filter(b, keep)
  {
    if a == [] {
      assert a + b == b;
    } else {
      assert (a + b)[1..] == a[1..] + b;
      FilterAppend(a[1..], b, keep);
    }
  }

  lemma FilterAll<T(!new)>(s: seq<T>, keep: T -> bool)
    requires forall x | x in s :: keep(x)
    ensures Filter(s, keep) == s
  {
  }

  lemma FilterNone<T(!new)>(s: seq<T>, keep: T -> bool)
    requires forall x | x in s :: !keep(x)
    ensures Filter(s, keep) == []
  {
  }

  lemma FilterDistinct<T(!new)>(s: seq<T>, keep: T -> bool)
    requires Distinct(s)
    ensures Distinct(Filter(s, keep))
  {
    if s != [] {
      FilterDistinct(s[1..], keep);
      assert s[0] !in s[1..];
    }
  }

  lemma DistinctAppend<T(!new)>(a: seq<T>, b: seq<T>)
    requires Distinct(a) && Distinct(b)
    requires forall x :: x in a ==> x !in b
    ensures Distinct(a + b)
  {
    forall i, j | 0 <= i < j < |a + b| ensures (a + b)[i] != (a + b)[j] {
      if i < |a| <= j {
        assert a[i] in a && b[j - |a|] in b;
      }
    }
  }

  lemma DistinctParts<T(!new)>(a: seq<T>, b: seq<T>)
    requires Distinct(a + b)
    ensures Distinct(a) && Distinct(b)
    ensures forall x :: x in a ==> x !in b
  {
    var s := a + b;
    assert forall i | 0 <= i < |a| :: s[i] == a[i];
    assert forall i | 0 <= i < |b| :: s[|a| + i] == b[i];
  }

  lemma DistinctCount<T(!new)>(s: seq<T>)
    requires Distinct(s)
    ensures |Elems(s)| == |s|
  {
    if s != [] {
      DistinctCount(s[1..]);
      assert Elems(s) == {s[0]} + Elems(s[1..]);
      assert s[0] !in s[1..];
    }
  }

  /** What a comparator looks at: a number first, then a place in the collation order. */
  datatype Rank = Rank(major: int, minor: int)

  predicate Le(a: Rank, b: Rank) {
    a.major < b.major || (a.major == b.major && a.minor <= b.minor)
  }

  predicate Lt(a: Rank, b: Rank) {
    !Le(b, a)
  }

  ghost predicate Sorted<T(!new)>(s: seq<T>, key: T -> Rank) {
    forall i, j | 0 <= i < j < |s| :: Le(key(s[i]), key(s[j]))
  }

  /** Put `x` before the first element that does not rank below it. */
  function Insert<T(!new)>(x: T, s: seq<T>, key: T -> Rank): (r: seq<T>)
    ensures |r| == |s| + 1
    ensures forall y :: y in r <==> y == x || y in s
  {
    if s == [] || Le(key(x), key(s[0])) then [x] + s
    else [s[0]] + Insert(x, s[1..], key)
  }

  /** The stable sort every reader relies on: ties keep the order of the rows. */
  function Sort<T(!new)>(s: seq<T>, key: T -> Rank): (r: seq<T>)
    ensures |r| == |s|
    ensures forall x :: x in r <==> x in s
  {
    if s == [] then [] else Insert(s[0], Sort(s[1..], key), key)
  }

  lemma InsertSorted<T(!new)>(x: T, s: seq<T>, key: T -> Rank)
    requires Sorted(s, key)
    ensures Sorted(Insert(x, s, key), key)
  {
    if s == [] || Le(key(x), key(s[0])) {
    } else {
      InsertSorted(x, s[1..], key);
      var t := Insert(x, s[1..], key);
      forall y | y in t ensures Le(key(s[0]), key(y)) {
      }
    }
  }

  lemma SortSorted<T(!new)>(s: seq<T>, key: T -> Rank)
    ensures Sorted(Sort(s, key), key)
  {
    if s != [] {
      SortSorted(s[1..], key);
      InsertSorted(s[0], Sort(s[1..], key), key);
    }
  }

  lemma InsertDistinct<T(!new)>(x: T, s: seq<T>, key: T -> Rank)
    requires Distinct(s) && x !in s
    ensures Distinct(Insert(x, s, key))
  {
    if s == [] || Le(key(x), key(s[0])) {
    } else {
      InsertDistinct(x, s[1..], key);
      assert s[0] !in s[1..];
    }
  }

  lemma SortDistinct<T(!new)>(s: seq<T>, key: T -> Rank)
    requires Distinct(s)
    ensures Distinct(Sort(s, key))
  {
    if s != [] {
      SortDistinct(s[1..], key);
      assert s[0] !in s[1..];
      InsertDistinct(s[0], Sort(s[1..], key), key);
    }
  }

  lemma {:induction false} FilterInsert<T(!new)>(x: T, s: seq<T>, key: T -> Rank, keep: T -> bool)
    requires Sorted(s, key)
    ensures Filter(Insert(x, s, key), keep)
         == if keep(x) then Insert(x, Filter(s, keep), key) else Filter(s, keep)
  {
    if s == [] || Le(key(x), key(s[0])) {
      var t := Filter(s, keep);
      assert ([x] + s)[1..] == s;
      if t != [] {
        assert t[0] in s;
        assert Le(key(x), key(t[0]));
      }
    } else {
      FilterInsert(x, s[1..], key, keep);
      var r := Insert(x, s[1..], key);
      assert ([s[0]] + r)[1..] == r;
      if keep(s[0]) {
        assert ([s[0]] + Filter(s[1..], keep))[1..] == Filter(s[1..], keep);
      } else if keep(x) {
        var t := Filter(s[1..], keep);
        assert Filter(s, keep) == t;
      }
    }
  }

  /** Sorting is stable, so it commutes with dropping elements. */
  lemma {:induction false} SortFilter<T(!new)>(s: seq<T>, key: T -> Rank, keep: T -> bool)
    ensures Sort(Filter(s, keep), key) == Filter(Sort(s, key), keep)
  {
    if s != [] {
      SortFilter(s[1..], key, keep);
      SortSorted(s[1..], key);
      FilterInsert(s[0], Sort(s[1..], key), key, keep);
      if keep(s[0]) {
        assert ([s[0]] + Filter(s[1..], keep))[1..] == Filter(s[1..], keep);
      }
    }
  }

  lemma TopIsLast<T(!new)>(s: seq<T>, key: T -> Rank, top: T)
    requires Sorted(s, key) && top in s
    requires forall x | x in s && x != top :: Lt(key(x), key(top))
    ensures s[|s| - 1] == top
  {
    var k :| 0 <= k < |s| && s[k] == top;
    var last := s[|s| - 1];
    assert last in s && Le(key(top), key(last));
  }

  /** A single element that outranks every other one comes last. */
  lemma TopComesLast<T(!new)>(s: seq<T>, key: T -> Rank, top: T, rest: T -> bool)
    requires Sorted(s, key) && Distinct(s) && top in s
    requires forall x | x in s && x != top :: Lt(key(x), key(top))
    requires forall x | x in s :: rest(x) <==> x != top
    ensures s == Filter(s, rest) + [top]
  {
    TopIsLast(s, key, top);
    var front := s[..|s| - 1];
    assert s == front + [top];
    FilterAppend(front, [top], rest);
    forall x | x in front ensures rest(x) {
      assert x in s && x != top;
    }
    FilterAll(front, rest);
    FilterNone([top], rest);
    assert front + [] == front;
  }

  /** Where `x` is inserted it precedes everything that does not rank below it. */
  lemma {:induction false} InsertPrecedes<T(!new)>(x: T, s: seq<T>, key: T -> Rank, y: T)
    requires Sorted(s, key) && y in s && Le(key(x), key(y))
    ensures exists i, j | 0 <= i < j < |s| + 1 :: Insert(x, s, key)[i] == x && Insert(x, s, key)[j] == y
  {
    var r := Insert(x, s, key);
    if Le(key(x), key(s[0])) {
      var j :| 0 <= j < |s| && s[j] == y;
      assert r[0] == x && r[j + 1] == y;
    } else {
      InsertPrecedes(x, s[1..], key, y);
      var t := Insert(x, s[1..], key);
      var i, j :| 0 <= i < j < |t| && t[i] == x && t[j] == y;
      assert r[i + 1] == x && r[j + 1] == y;
    }
  }

  /** Two orders of the same elements, both sorted with no ties, are one. */
  lemma {:induction false} SortedIsUnique<T(!new)>(s: seq<T>, t: seq<T>, key: T -> Rank)
    requires Sorted(s, key) && Sorted(t, key) && Distinct(s) && Distinct(t)
    requires forall x :: x in s <==> x in t
    requires forall x, y | x in s && y in s && Le(key(x), key(y)) && Le(key(y), key(x)) :: x == y
    ensures s == t
  {
    assert Elems(s) == Elems(t);
    DistinctCount(s);
    DistinctCount(t);
    if s != [] {
      assert s[0] in t;
      assert t != [] && t[0] in s;
      assert Le(key(s[0]), key(t[0])) && Le(key(t[0]), key(s[0]));
      assert s[0] == t[0];
      DistinctParts([s[0]], s[1..]);
      DistinctParts([t[0]], t[1..]);
      assert s == [s[0]] + s[1..] && t == [t[0]] + t[1..];
      forall x ensures x in s[1..] <==> x in t[1..] {
        assert x in s <==> x == s[0] || x in s[1..];
        assert x in t <==> x == t[0] || x in t[1..];
      }
      SortedIsUnique(s[1..], t[1..], key);
    }
  }
}
