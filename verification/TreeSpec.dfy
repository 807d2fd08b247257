/** The assembled tree read from the rows alone: who stands where, in which order, and what each node shows. */
module TreeSpec {
  import opened Lists
  import opened Graph
  import opened Roles
  import opened Tree

  // ----- a stable sort -----

  ghost predicate Precedes<T(!new)>(s: seq<T>, x: T, y: T) {
    exists i, j | 0 <= i < j < |s| :: s[i] == x && s[j] == y
  }

  lemma PrecedesLater<T(!new)>(a: seq<T>, s: seq<T>, x: T, y: T)
    requires Precedes(s, x, y)
    ensures Precedes(a + s, x, y)
  {
    var i, j :| 0 <= i < j < |s| && s[i] == x && s[j] == y;
    assert (a + s)[|a| + i] == x && (a + s)[|a| + j] == y;
  }

  lemma FirstPrecedes<T(!new)>(s: seq<T>, y: T)
    requires s != [] && y in s[1..]
    ensures Precedes(s, s[0], y)
  {
    var j :| 0 <= j < |s[1..]| && s[1..][j] == y;
    assert s[j + 1] == y;
  }

  /** Sorted, and elements that rank alike come as they did in `s`. */
  ghost predicate SortedFrom<T(!new)>(s: seq<T>, r: seq<T>, key: T -> Rank) {
    forall i, j | 0 <= i < j < |r| ::
      Lt(key(r[i]), key(r[j])) || (key(r[i]) == key(r[j]) && Precedes(s, r[i], r[j]))
  }

  lemma {:induction false} InsertIsStable<T(!new)>(s: seq<T>, x: T, r: seq<T>, key: T -> Rank)
    requires s != [] && s[0] == x && SortedFrom(s, r, key) && forall y | y in r :: y in s[1..]
    ensures SortedFrom(s, Insert(x, r, key), key)
  {
    if r == [] || Le(key(x), key(r[0])) {
      forall j | 0 <= j < |r| ensures Lt(key(x), key(r[j])) || (key(x) == key(r[j]) && Precedes(s, x, r[j])) {
        assert r[j] in r;
        FirstPrecedes(s, r[j]);
      }
    } else {
      InsertIsStable(s, x, r[1..], key);
      var t := Insert(x, r[1..], key);
      forall j | 0 <= j < |t|
        ensures Lt(key(r[0]), key(t[j])) || (key(r[0]) == key(t[j]) && Precedes(s, r[0], t[j])) {
        assert t[j] in t && (t[j] == x || t[j] in r[1..]);
      }
    }
  }

  lemma {:induction false} SortIsStable<T(!new)>(s: seq<T>, key: T -> Rank)
    ensures SortedFrom(s, Sort(s, key), key)
  {
    if s != [] {
      var r := Sort(s[1..], key);
      SortIsStable(s[1..], key);
      assert s == [s[0]] + s[1..];
      forall i, j | 0 <= i < j < |r| && key(r[i]) == key(r[j]) && Precedes(s[1..], r[i], r[j])
        ensures Precedes(s, r[i], r[j]) {
        PrecedesLater([s[0]], s[1..], r[i], r[j]);
      }
      InsertIsStable(s, s[0], r, key);
    }
  }

  lemma {:induction false} FilterPrecedes<T(!new)>(s: seq<T>, keep: T -> bool, x: T, y: T)
    requires Precedes(Filter(s, keep), x, y)
    ensures Precedes(s, x, y)
  {
    var t := Filter(s, keep);
    var i, j :| 0 <= i < j < |t| && t[i] == x && t[j] == y;
    assert s == [s[0]] + s[1..];
    if keep(s[0]) {
      assert t == [s[0]] + Filter(s[1..], keep);
      if i == 0 {
        assert Filter(s[1..], keep)[j - 1] == y && y in Filter(s[1..], keep);
        FirstPrecedes(s, y);
      } else {
        assert Filter(s[1..], keep)[i - 1] == x && Filter(s[1..], keep)[j - 1] == y;
        FilterPrecedes(s[1..], keep, x, y);
        PrecedesLater([s[0]], s[1..], x, y);
      }
    } else {
      FilterPrecedes(s[1..], keep, x, y);
      PrecedesLater([s[0]], s[1..], x, y);
    }
  }

  lemma FilterSortIsStable<T(!new)>(s: seq<T>, keep: T -> bool, key: T -> Rank)
    ensures SortedFrom(s, Sort(Filter(s, keep), key), key)
  {
    var t, r := Filter(s, keep), Sort(Filter(s, keep), key);
    SortIsStable(t, key);
    forall i, j | 0 <= i < j < |r| && key(r[i]) == key(r[j]) && Precedes(t, r[i], r[j])
      ensures Precedes(s, r[i], r[j]) {
      FilterPrecedes(s, keep, r[i], r[j]);
    }
  }

  // ----- what a list of the tree shows -----

  /** By order, a missing one counting as zero; then by name; then as the rows come. */
  ghost predicate ComesBefore(rows: seq<Role>, x: Role, y: Role) {
    var o, p := if x.order.Some? then x.order.value else 0, if y.order.Some? then y.order.value else 0;
    o < p || (o == p && (x.collation < y.collation || (x.collation == y.collation && Precedes(rows, x, y))))
  }

  /** Leaders, then deputies, then the rest; by last name; then as the assignments come. */
  ghost predicate SitsBefore(holders: seq<Holder>, h: Holder, k: Holder) {
    || (h.kind.Leader? && !k.kind.Leader?) || (h.kind.Deputy? && k.kind.Plain?)
    || (h.kind == k.kind && (h.lastname < k.lastname || (h.lastname == k.lastname && Precedes(holders, h, k))))
  }

  /** The node shows the row and exactly its holders, in order. */
  ghost predicate ShowsRow(holders: seq<Holder>, n: Node, r: Role) {
    && n.id == r.id && n.key == r.key && n.name == r.name && n.note == r.note && n.isSinglePerson == r.isSinglePerson
    && (n.isRoster <==> r.key in {Elder, AssistantServant})
    && (forall h :: h in n.holders <==> h in holders && h.roleId == r.id)
    && (forall i, j | 0 <= i < j < |n.holders| :: SitsBefore(holders, n.holders[i], n.holders[j]))
  }

  /** The rows the two nodes show come in this order. */
  ghost predicate InTurn(rows: seq<Role>, n: Node, m: Node) {
    n.id != m.id && forall x, y | x in rows && y in rows && x.id == n.id && y.id == m.id :: ComesBefore(rows, x, y)
  }

  ghost predicate IsShown(f: seq<Node>, r: Role) {
    exists n :: n in f && n.id == r.id
  }

  ghost predicate ShowsSome(rows: seq<Role>, holders: seq<Holder>, n: Node, here: Role -> bool) {
    exists r :: r in rows && here(r) && ShowsRow(holders, n, r)
  }

  /** The list shows exactly the rows that belong here, each once and in order. */
  ghost predicate ListsRows(rows: seq<Role>, holders: seq<Holder>, f: seq<Node>, here: Role -> bool) {
    && (forall r | r in rows && here(r) :: IsShown(f, r))
    && (forall n | n in f :: ShowsSome(rows, holders, n, here))
    && (forall i, j | 0 <= i < j < |f| :: InTurn(rows, f[i], f[j]))
  }

  /** So does the list of children below each node. */
  ghost predicate Depicts(rows: seq<Role>, holders: seq<Holder>, f: seq<Node>, here: Role -> bool)
    decreases f
  {
    ListsRows(rows, holders, f, here) && forall n | n in f :: Depicts(rows, holders, n.children, Reports(n.id))
  }

  function Reports(id: int): Role -> bool { (r: Role) => r.parent == Some(id) }

  /** A role whose parent is missing stands at the top. */
  ghost function AtTheTop(rows: seq<Role>): Role -> bool {
    (r: Role) => r.parent.None? || forall p | p in rows :: p.id != r.parent.value
  }

  // ----- the assembled tree is that -----

  lemma NodeShowsRow(holders: seq<Holder>, r: Role, children: seq<Node>)
    ensures ShowsRow(holders, MakeNode(r, holders, children), r)
  {
    var mine := Sort(HoldersOf(holders, r.id), SeatRank);
    FilterSortIsStable(holders, HeldIn(r.id), SeatRank);
    forall i, j | 0 <= i < j < |mine| ensures SitsBefore(holders, mine[i], mine[j]) {
    }
  }

  lemma RanksAre(rows: seq<Role>, keep: Role -> bool)
    ensures var r := Sort(Filter(rows, keep), ChartRank);
            forall i, j | 0 <= i < j < |r| :: ComesBefore(rows, r[i], r[j])
  {
    FilterSortIsStable(rows, keep, ChartRank);
  }

  lemma {:induction false} MirrorNode(rows: seq<Role>, holders: seq<Holder>, f: seq<Node>, shown: seq<Role>, i: nat)
    requires Mirrors(rows, holders, f, shown) && i < |f|
    ensures f[i] == MakeNode(shown[i], holders, f[i].children)
    ensures Mirrors(rows, holders, f[i].children, SortedKids(rows, shown[i].id))
  {
    if i > 0 { MirrorNode(rows, holders, f[1..], shown[1..], i - 1); }
  }

  lemma MirrorShows(rows: seq<Role>, holders: seq<Holder>, f: seq<Node>, shown: seq<Role>, here: Role -> bool, i: nat)
    requires Mirrors(rows, holders, f, shown) && shown == Sort(Filter(rows, here), ChartRank) && i < |f|
    ensures shown[i] in rows && here(shown[i]) && f[i].id == shown[i].id && ShowsSome(rows, holders, f[i], here)
  {
    MirrorNode(rows, holders, f, shown, i);
    assert shown[i] in shown && shown[i] in Filter(rows, here);
    NodeShowsRow(holders, shown[i], f[i].children);
  }

  lemma MirrorInTurn(rows: seq<Role>, holders: seq<Holder>, f: seq<Node>, shown: seq<Role>, here: Role -> bool, i: nat,
      j: nat)
    requires UniqueIds(rows) && Mirrors(rows, holders, f, shown) && shown == Sort(Filter(rows, here), ChartRank)
    requires i < j < |f| && Distinct(shown)
    ensures InTurn(rows, f[i], f[j])
  {
    MirrorShows(rows, holders, f, shown, here, i);
    MirrorShows(rows, holders, f, shown, here, j);
    RanksAre(rows, here);
    if f[i].id == f[j].id { SameIdSameRow(rows, shown[i], shown[j]); }
    forall x, y | x in rows && y in rows && x.id == f[i].id && y.id == f[j].id ensures ComesBefore(rows, x, y) {
      SameIdSameRow(rows, x, shown[i]);
      SameIdSameRow(rows, y, shown[j]);
    }
  }

  /** What the list promises of itself, its children aside. */
  lemma MirrorListsRows(rows: seq<Role>, holders: seq<Holder>, f: seq<Node>, shown: seq<Role>, here: Role -> bool)
    requires UniqueIds(rows) && Mirrors(rows, holders, f, shown) && shown == Sort(Filter(rows, here), ChartRank)
    ensures ListsRows(rows, holders, f, here)
  {
    UniqueIsDistinct(rows);
    FilterDistinct(rows, here);
    SortDistinct(Filter(rows, here), ChartRank);
    forall r | r in rows && here(r) ensures IsShown(f, r) {
      assert r in Filter(rows, here) && r in shown;
      var i :| 0 <= i < |shown| && shown[i] == r;
      MirrorShows(rows, holders, f, shown, here, i);
    }
    forall n | n in f ensures ShowsSome(rows, holders, n, here) {
      var i :| 0 <= i < |f| && f[i] == n;
      MirrorShows(rows, holders, f, shown, here, i);
    }
    forall i, j | 0 <= i < j < |f| ensures InTurn(rows, f[i], f[j]) {
      MirrorInTurn(rows, holders, f, shown, here, i, j);
    }
  }

  lemma {:induction false} MirrorIsDepicted(rows: seq<Role>, holders: seq<Holder>, f: seq<Node>, shown: seq<Role>,
      here: Role -> bool)
    requires UniqueIds(rows) && Mirrors(rows, holders, f, shown) && shown == Sort(Filter(rows, here), ChartRank)
    ensures Depicts(rows, holders, f, here)
    decreases f
  {
    MirrorListsRows(rows, holders, f, shown, here);
    forall n | n in f ensures Depicts(rows, holders, n.children, Reports(n.id)) {
      var i: nat :| i < |f| && f[i] == n;
      MirrorNode(rows, holders, f, shown, i);
      SameFilter(rows, ChildOf(n.id), Reports(n.id));
      MirrorIsDepicted(rows, holders, n.children, SortedKids(rows, n.id), Reports(n.id));
    }
  }

  lemma {:induction false} SameFilter(rows: seq<Role>, one: Role -> bool, two: Role -> bool)
    requires forall r | r in rows :: one(r) == two(r)
    ensures Filter(rows, one) == Filter(rows, two)
  {
    if rows != [] {
      assert rows[0] in rows && forall r | r in rows[1..] :: r in rows;
      SameFilter(rows[1..], one, two);
    }
  }

  /** On acyclic rows the assembled tree depicts them: the roots are the roles whose parent is missing. */
  lemma ForestDepictsRows(rows: seq<Role>, holders: seq<Holder>)
    requires UniqueIds(rows) && Acyclic(ParentLinks(rows))
    ensures Depicts(rows, holders, Forest(rows, holders), AtTheTop(rows))
  {
    ForestMirrorsAcyclicRows(rows, holders);
    forall r | r in rows ensures TopIn(rows)(r) == AtTheTop(rows)(r) {
    }
    SameFilter(rows, TopIn(rows), AtTheTop(rows));
    MirrorIsDepicted(rows, holders, Forest(rows, holders), SortedTops(rows), AtTheTop(rows));
  }
}
