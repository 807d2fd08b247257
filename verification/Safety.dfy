/** What every run of chart operations keeps: a finite forest, capped, with the fixed posts in place. */
module Safety {
  import opened Lists
  import opened Graph
  import opened Roles
  import opened Queries
  import opened Chart

  ghost predicate HasKey(rows: seq<Role>, k: Key) {
    exists r :: r in rows && r.key == k
  }

  ghost predicate IsIdOf(rows: seq<Role>, id: int, k: Key) {
    exists r :: r in rows && r.id == id && r.key == k
  }

  /** Ids and keys are unique, and every built-in role is there, flagged as such. */
  ghost predicate Keyed(rows: seq<Role>) {
    && UniqueIds(rows) && UniqueKeys(rows)
    && (forall k | IsBuiltInKey(k) :: HasKey(rows, k))
    && (forall r | r in rows && IsBuiltInKey(r.key) :: r.isBuiltIn)
  }

  ghost predicate Known(rows: seq<Role>, id: int) {
    exists r :: r in rows && r.id == id
  }

  /** What one row must satisfy among `rows`. */
  ghost predicate WellPlaced(rows: seq<Role>, r: Role) {
    && (r.parent.Some? ==> Known(rows, r.parent.value))
    && (r.onChart ==> CanShow(r.key))
    && (!r.onChart ==> r.parent.None?)
    && (IsRoster(r.key) ==> r.parent.None?)
    && (r.key.Committee? ==> r.onChart && (r.parent.Some? ==> IsIdOf(rows, r.parent.value, Elder)))
    && (IsPost(r.key) ==> r.onChart && r.parent.Some? && IsIdOf(rows, r.parent.value, Committee))
  }

  ghost predicate Capped(up: Links) {
    forall x :: Depth(up, x) <= MAX_DEPTH
  }

  /** The invariant: no cycle, no chain over ten, off-chart roles and rosters free, posts in place. */
  ghost predicate Sound(rows: seq<Role>) {
    && Keyed(rows)
    && (forall r | r in rows :: WellPlaced(rows, r))
    && Acyclic(ParentLinks(rows)) && Capped(ParentLinks(rows))
  }

  /** Same roles in the same order, whatever became of their placement. */
  ghost predicate SameRoles(rows: seq<Role>, rows': seq<Role>) {
    && |rows'| == |rows|
    && forall i | 0 <= i < |rows| ::
         rows'[i].id == rows[i].id && rows'[i].key == rows[i].key && rows'[i].isBuiltIn == rows[i].isBuiltIn
  }

  lemma SameRolesKeepKeys(rows: seq<Role>, rows': seq<Role>)
    requires SameRoles(rows, rows')
    ensures UniqueIds(rows) ==> UniqueIds(rows')
    ensures Keyed(rows) ==> Keyed(rows')
    ensures forall id | Known(rows, id) :: Known(rows', id)
    ensures forall id, k | IsIdOf(rows, id, k) :: IsIdOf(rows', id, k)
  {
    forall id, k | IsIdOf(rows, id, k) ensures IsIdOf(rows', id, k) {
      var i :| 0 <= i < |rows| && rows[i].id == id && rows[i].key == k;
      assert rows'[i] in rows';
    }
    forall id | Known(rows, id) ensures Known(rows', id) {
      var i :| 0 <= i < |rows| && rows[i].id == id;
      assert rows'[i] in rows';
    }
    forall k | HasKey(rows, k) ensures HasKey(rows', k) {
      var i :| 0 <= i < |rows| && rows[i].key == k;
      assert rows'[i] in rows';
    }
  }

  lemma ChartLinkIn(rows: seq<Role>, r: Role)
    requires r in rows && r.onChart
    ensures TreeLink(r.id, r.parent) in ChartLinks(rows)
  {
    var links, chart := ChartLinks(rows), ChartRows(rows);
    assert r in chart;
    var i :| 0 <= i < |chart| && chart[i] == r;
    assert links[i] == TreeLink(r.id, r.parent);
  }

  lemma ChartLinkOut(rows: seq<Role>, l: TreeLink) returns (r: Role)
    requires l in ChartLinks(rows)
    ensures r in rows && TreeLink(r.id, r.parent) == l
  {
    var links, chart := ChartLinks(rows), ChartRows(rows);
    var i :| 0 <= i < |links| && links[i] == l;
    r := chart[i];
    assert r in chart;
  }

  /** With off-chart roles parentless, the chart's links are all the links. */
  lemma ChartLinksAreParentLinks(rows: seq<Role>)
    requires UniqueIds(rows) && forall r | r in rows && !r.onChart :: r.parent.None?
    ensures UniqueLinks(ChartLinks(rows)) && LinkMap(ChartLinks(rows)) == ParentLinks(rows)
  {
    ChartLinksUnique(rows);
    var up, up' := ParentLinks(rows), LinkMap(ChartLinks(rows));
    forall x | x in up ensures x in up' && up'[x] == up[x] {
      var r :| r in rows && r.id == x && r.parent == Some(up[x]);
      ChartLinkIn(rows, r);
    }
    forall x | x in up' ensures x in up {
      var l :| l in ChartLinks(rows) && l.id == x && l.parent.Some?;
      var r := ChartLinkOut(rows, l);
    }
  }

  ghost predicate Replaces(r: Role, r': Role) {
    r'.id == r.id && r'.key == r.key && r'.isBuiltIn == r.isBuiltIn
  }

  lemma PutMembers(rows: seq<Role>, r: Role, r': Role)
    requires UniqueIds(rows) && r in rows && Replaces(r, r')
    ensures SameRoles(rows, Put(rows, r')) && UniqueIds(Put(rows, r'))
    ensures forall x :: x in Put(rows, r') <==> x == r' || (x in rows && x.id != r.id)
  {
    var rows' := Put(rows, r');
    var k :| 0 <= k < |rows| && rows[k] == r;
    assert rows'[k] == r';
    forall x | x in rows && x.id != r.id ensures x in rows' {
      var i :| 0 <= i < |rows| && rows[i] == x;
      assert rows'[i] == x;
    }
  }

  /** The links after one row was replaced. */
  ghost function Relinked(up: Links, id: int, parent: Option<int>): Links {
    if parent.Some? then up[id := parent.value] else up - {id}
  }

  lemma PutLinkOut(rows: seq<Role>, r: Role, r': Role, x: int)
    requires UniqueIds(rows) && r in rows && Replaces(r, r')
    requires UniqueIds(Put(rows, r')) && x in ParentLinks(Put(rows, r'))
    ensures var w := Relinked(ParentLinks(rows), r.id, r'.parent);
            x in w && ParentLinks(Put(rows, r'))[x] == w[x]
  {
    PutMembers(rows, r, r');
    var y :| y in Put(rows, r') && y.id == x && y.parent == Some(ParentLinks(Put(rows, r'))[x]);
    if y != r' {
      assert y in rows && y.id != r.id;
    }
  }

  lemma PutLinkIn(rows: seq<Role>, r: Role, r': Role, x: int)
    requires UniqueIds(rows) && r in rows && Replaces(r, r')
    requires UniqueIds(Put(rows, r')) && x in Relinked(ParentLinks(rows), r.id, r'.parent)
    ensures x in ParentLinks(Put(rows, r'))
  {
    PutMembers(rows, r, r');
    if x != r.id {
      var y :| y in rows && y.id == x && y.parent.Some?;
      assert y in Put(rows, r');
    } else {
      assert r' in Put(rows, r');
    }
  }

  lemma PutChangesOneLink(rows: seq<Role>, r: Role, r': Role)
    requires UniqueIds(rows) && r in rows && Replaces(r, r')
    ensures UniqueIds(Put(rows, r'))
    ensures ParentLinks(Put(rows, r')) == Relinked(ParentLinks(rows), r.id, r'.parent)
  {
    PutMembers(rows, r, r');
    var up', w := ParentLinks(Put(rows, r')), Relinked(ParentLinks(rows), r.id, r'.parent);
    forall x | x in up' ensures x in w && up'[x] == w[x] {
      PutLinkOut(rows, r, r', x);
    }
    forall x | x in w ensures x in up' {
      PutLinkIn(rows, r, r', x);
    }
    assert up'.Keys == w.Keys;
  }

  lemma DepthBelow(up: Links, id: int, p: int, x: int, h: nat)
    requires Acyclic(up) && Capped(up) && !Under(up, p, id) && Depth(up, p) + 1 + h <= MAX_DEPTH
    requires Under(up, x, id) ==> IndexOf(Chain(up, x), id) <= h
    ensures Depth(up[id := p], x) <= MAX_DEPTH
  {
    ReattachedChain(up, id, p, x);
    assert Depth(up, x) <= MAX_DEPTH;
  }

  /** Chains in an accepted attachment: what hung below `r` stays within the cap. */
  lemma AttachKeepsCap(rows: seq<Role>, r: Role, p: int)
    requires UniqueIds(rows) && Acyclic(ParentLinks(rows)) && Capped(ParentLinks(rows))
    requires forall r | r in rows && !r.onChart :: r.parent.None?
    requires DecideParent(rows, r, Some(p)).Done?
    ensures var up := ParentLinks(rows);
            !Under(up, p, r.id) && Acyclic(up[r.id := p]) && Capped(up[r.id := p])
  {
    var up := ParentLinks(rows);
    ChartLinksAreParentLinks(rows);
    ReattachIsAcyclic(up, r.id, p);
    var up', links := up[r.id := p], ChartLinks(rows);
    HeightIsFarthestDescendant(links, r.id);
    forall x ensures Depth(up', x) <= MAX_DEPTH {
      DepthBelow(up, r.id, p, x, SubtreeHeight(links, r.id));
    }
  }

  lemma PutKeepsPlaces(rows: seq<Role>, r: Role, r': Role)
    requires Keyed(rows) && forall x | x in rows :: WellPlaced(rows, x)
    requires r in rows && Replaces(r, r') && WellPlaced(rows, r')
    ensures Keyed(Put(rows, r')) && forall x | x in Put(rows, r') :: WellPlaced(Put(rows, r'), x)
  {
    PutMembers(rows, r, r');
    SameRolesKeepKeys(rows, Put(rows, r'));
  }

  /** A row's link is its parent. */
  lemma RowLink(rows: seq<Role>, r: Role)
    requires UniqueIds(rows) && r in rows
    ensures r.id in ParentLinks(rows) <==> r.parent.Some?
    ensures r.parent.Some? ==> ParentLinks(rows)[r.id] == r.parent.value
  {
    forall x | x in rows && x.id == r.id ensures x == r { SameIdSameRow(rows, x, r); }
  }

  lemma NoParentNoLink(rows: seq<Role>, r: Role)
    requires UniqueIds(rows) && r in rows && r.parent.None?
    ensures r.id !in ParentLinks(rows)
  {
    forall x | x in rows && x.id == r.id ensures x.parent.None? { SameIdSameRow(rows, x, r); }
  }

  lemma AttachedIsPlaced(rows: seq<Role>, r: Role, parent: Option<int>)
    requires UniqueIds(rows) && r in rows && CanShow(r.key)
    requires Attach(rows, r, parent).0.Done?
    ensures WellPlaced(rows, Attached(rows, r, parent))
    ensures parent.Some? ==> DecideParent(rows, r, parent).Done?
    ensures parent.None? ==> IsRoster(r.key)
  {
    ChartLinksUnique(rows);
    if parent.Some? {
      assert parent.value in ChainFrom(ChartLinks(rows), parent);
      assert Find(rows, parent.value).value in rows;
    }
  }

  lemma AttachKeepsLinks(rows: seq<Role>, r: Role, parent: Option<int>)
    requires UniqueIds(rows) && Acyclic(ParentLinks(rows)) && Capped(ParentLinks(rows))
    requires forall r | r in rows && !r.onChart :: r.parent.None?
    requires r in rows && if parent.Some? then DecideParent(rows, r, parent).Done? else r.parent.None?
    ensures var up' := Relinked(ParentLinks(rows), r.id, parent); Acyclic(up') && Capped(up')
  {
    if parent.Some? {
      AttachKeepsCap(rows, r, parent.value);
    } else {
      NoParentNoLink(rows, r);
      assert ParentLinks(rows) - {r.id} == ParentLinks(rows);
    }
  }

  lemma AttachKeepsSound(rows: seq<Role>, r: Role, parent: Option<int>)
    requires Sound(rows) && r in rows && CanShow(r.key)
    ensures Sound(Attach(rows, r, parent).1)
  {
    if Attach(rows, r, parent).0.Done? {
      var r' := Attached(rows, r, parent);
      assert WellPlaced(rows, r);
      AttachedIsPlaced(rows, r, parent);
      AttachKeepsLinks(rows, r, parent);
      PutChangesOneLink(rows, r, r');
      PutKeepsPlaces(rows, r, r');
    }
  }
}
