/** Who a service line names: leaders, adjoints folded in from beneath, and teams. */
module ServiceLines {
  import opened Lists
  import opened Tree
  import opened Layout

  predicate Leads(h: Holder) { h.kind.Leader? }

  predicate Assists(h: Holder) { h.kind.Deputy? }

  predicate Seated(h: Holder) { h.kind.Leader? || h.kind.Deputy? }

  predicate IsTeam(n: Node) { !n.isSinglePerson }

  function LeadersOf(rows: seq<Node>): seq<Holder> {
    if rows == [] then [] else Filter(rows[0].holders, Leads) + LeadersOf(rows[1..])
  }

  function MemberSet(holders: seq<Holder>): set<int> {
    set h | h in holders :: h.memberId
  }

  /** Keep each person's first appearance, leaving out those already seen. */
  function FirstOnes(holders: seq<Holder>, seen: set<int>): seq<Holder> {
    if holders == [] then []
    else if holders[0].memberId in seen then FirstOnes(holders[1..], seen)
    else [holders[0]] + FirstOnes(holders[1..], seen + {holders[0].memberId})
  }

  function Candidates(n: Node, rows: seq<Node>): seq<Holder> {
    Filter(n.holders, Assists) + LeadersOf(rows)
  }

  method BandAdjoints(n: Node, rows: seq<Node>) returns (adjoints: seq<Holder>)
    ensures adjoints == FirstOnes(Candidates(n, rows), MemberSet(Filter(n.holders, Leads)))
  {
    var candidates := Candidates(n, rows);
    var seen := MemberSet(Filter(n.holders, Leads));
    ghost var from := seen;
    adjoints := [];
    for i := 0 to |candidates|
      invariant adjoints + FirstOnes(candidates[i..], seen) == FirstOnes(candidates, from)
    {
      var h := candidates[i];
      if h.memberId !in seen {
        assert adjoints + ([h] + FirstOnes(candidates[i..][1..], seen + {h.memberId}))
            == (adjoints + [h]) + FirstOnes(candidates[i..][1..], seen + {h.memberId});
        adjoints := adjoints + [h];
        seen := seen + {h.memberId};
      }
      assert candidates[i..][1..] == candidates[i + 1..];
    }
  }

  ghost predicate OncePerMember(holders: seq<Holder>) {
    forall i, j | 0 <= i < j < |holders| :: holders[i].memberId != holders[j].memberId
  }

  lemma MembersOfFirst(h: Holder, rest: seq<Holder>)
    ensures MemberSet([h] + rest) == {h.memberId} + MemberSet(rest)
  {
    assert forall x :: x in [h] + rest <==> x == h || x in rest;
  }

  lemma OnceWithFirst(h: Holder, tail: seq<Holder>)
    requires OncePerMember(tail) && forall x | x in tail :: x.memberId != h.memberId
    ensures OncePerMember([h] + tail)
  {
  }

  lemma {:induction false} FirstOnesAreOnce(holders: seq<Holder>, seen: set<int>)
    ensures OncePerMember(FirstOnes(holders, seen))
    ensures MemberSet(FirstOnes(holders, seen)) == MemberSet(holders) - seen
    ensures forall h | h in FirstOnes(holders, seen) :: h in holders && h.memberId !in seen
  {
    if holders != [] {
      var h, rest := holders[0], holders[1..];
      assert holders == [h] + rest;
      MembersOfFirst(h, rest);
      if h.memberId in seen {
        FirstOnesAreOnce(rest, seen);
      } else {
        FirstOnesAreOnce(rest, seen + {h.memberId});
        var tail := FirstOnes(rest, seen + {h.memberId});
        MembersOfFirst(h, tail);
        OnceWithFirst(h, tail);
      }
    }
  }

  function AsDeputies(holders: seq<Holder>): (r: seq<Holder>)
    ensures |r| == |holders| && forall i | 0 <= i < |holders| :: r[i] == holders[i].(kind := Deputy)
  {
    seq(|holders|, i requires 0 <= i < |holders| => holders[i].(kind := Deputy))
  }

  /** What one line prints: people, then the group roles it names as teams. */
  method ServiceParts(n: Node, rows: Option<seq<Node>>) returns (people: seq<Holder>, teams: seq<Node>)
    ensures rows.None? ==> people == Filter(n.holders, Seated) && teams == []
    ensures rows.Some? ==>
              && people == Filter(n.holders, Leads)
                         + AsDeputies(FirstOnes(Candidates(n, rows.value), MemberSet(Filter(n.holders, Leads))))
              && teams == Filter(rows.value, IsTeam)
  {
    if rows.None? {
      return Filter(n.holders, Seated), [];
    }
    var adjoints := BandAdjoints(n, rows.value);
    people := Filter(n.holders, Leads) + AsDeputies(adjoints);
    teams := Filter(rows.value, IsTeam);
  }

  lemma {:induction false} LeadersOfRow(rows: seq<Node>, row: Node, h: Holder)
    requires row in rows && h in row.holders && Leads(h)
    ensures h in LeadersOf(rows)
  {
    if row != rows[0] {
      LeadersOfRow(rows[1..], row, h);
    }
  }

  /**
   A band's line loses nobody and repeats nobody: each leader of the band, each of its deputies and
   each leader of what sits beneath it is there; nobody is an adjoint twice, or adjoint and leader.
   */
  lemma BandLineNamesEveryone(n: Node, rows: seq<Node>)
    ensures var leaders := Filter(n.holders, Leads);
            var adjoints := FirstOnes(Candidates(n, rows), MemberSet(leaders));
            && OncePerMember(adjoints)
            && MemberSet(leaders) * MemberSet(adjoints) == {}
            && (forall h | h in n.holders && Seated(h) :: h.memberId in MemberSet(leaders) + MemberSet(adjoints))
            && (forall row, h | row in rows && h in row.holders && Leads(h) ::
                  h.memberId in MemberSet(leaders) + MemberSet(adjoints))
            && (forall h | h in adjoints :: h in Candidates(n, rows))
  {
    var leaders, all := Filter(n.holders, Leads), Candidates(n, rows);
    FirstOnesAreOnce(all, MemberSet(leaders));
    forall h | h in n.holders && Seated(h) ensures h.memberId in MemberSet(leaders) + MemberSet(all) {
      if Leads(h) {
        assert h in leaders;
      } else {
        assert h in Filter(n.holders, Assists);
      }
    }
    forall row, h | row in rows && h in row.holders && Leads(h) ensures h.memberId in MemberSet(all) {
      LeadersOfRow(rows, row, h);
      assert h in all;
    }
  }

  /**
   What a band's line reads: its leaders, then, as adjoints, its deputies and the leaders beneath it, each person once
   and nobody else; as teams exactly the rows that are no personal role. A personal row's leader is among the people.
   */
  lemma BandLineIsRight(n: Node, rows: seq<Node>)
    ensures var leaders := Filter(n.holders, Leads);
            var adjoints := AsDeputies(FirstOnes(Candidates(n, rows), MemberSet(leaders)));
            var people, teams := leaders + adjoints, Filter(rows, IsTeam);
            && (forall h :: h in leaders <==> h in n.holders && h.kind.Leader?)
            && (forall h | h in adjoints :: h.kind.Deputy?)
            && (forall m :: m in MemberSet(people) <==> OnTheLine(n, rows, m))
            && (forall row :: row in teams <==> row in rows && !row.isSinglePerson)
            && (forall row, h | row in rows && row.isSinglePerson && h in row.holders && h.kind.Leader? ::
                  h.memberId in MemberSet(people))
  {
    var leaders := Filter(n.holders, Leads);
    var adjoints := FirstOnes(Candidates(n, rows), MemberSet(leaders));
    FirstOnesAreOnce(Candidates(n, rows), MemberSet(leaders));
    SameMembers(adjoints);
    MembersJoin(leaders, AsDeputies(adjoints));
    forall m ensures m in MemberSet(leaders) + MemberSet(Candidates(n, rows)) <==> OnTheLine(n, rows, m) {
      CandidatesAre(n, rows, m);
    }
  }

  /** The person leads or assists the band, or leads what sits beneath it. */
  ghost predicate OnTheLine(n: Node, rows: seq<Node>, m: int) {
    || (exists h :: h in n.holders && h.memberId == m && (h.kind.Leader? || h.kind.Deputy?))
    || (exists row, h :: row in rows && h in row.holders && h.memberId == m && h.kind.Leader?)
  }

  lemma SameMembers(holders: seq<Holder>)
    ensures MemberSet(AsDeputies(holders)) == MemberSet(holders)
    ensures forall h | h in AsDeputies(holders) :: h.kind.Deputy?
  {
    var d := AsDeputies(holders);
    forall h | h in holders ensures h.memberId in MemberSet(d) {
      var i :| 0 <= i < |holders| && holders[i] == h;
      assert d[i] in d && d[i].memberId == h.memberId;
    }
    forall h | h in d ensures h.memberId in MemberSet(holders) {
      var i :| 0 <= i < |d| && d[i] == h;
      assert holders[i] in holders;
    }
  }

  lemma MembersJoin(a: seq<Holder>, b: seq<Holder>)
    ensures MemberSet(a + b) == MemberSet(a) + MemberSet(b)
  {
    assert forall h :: h in a + b <==> h in a || h in b;
  }

  lemma {:induction false} LeaderIsOfRow(rows: seq<Node>, h: Holder) returns (row: Node)
    requires h in LeadersOf(rows)
    ensures row in rows && h in row.holders && h.kind.Leader?
  {
    if h in Filter(rows[0].holders, Leads) { row := rows[0]; } else { row := LeaderIsOfRow(rows[1..], h); }
  }

  lemma CandidatesAre(n: Node, rows: seq<Node>, m: int)
    ensures m in MemberSet(Filter(n.holders, Leads)) + MemberSet(Candidates(n, rows)) <==> OnTheLine(n, rows, m)
  {
    if h :| h in Candidates(n, rows) && h.memberId == m {
      if h !in Filter(n.holders, Assists) { var row := LeaderIsOfRow(rows, h); }
    }
    if h :| h in n.holders && h.memberId == m && (h.kind.Leader? || h.kind.Deputy?) {
      assert if h.kind.Leader? then h in Filter(n.holders, Leads) else h in Filter(n.holders, Assists);
      assert h.kind.Deputy? ==> h in Candidates(n, rows);
    }
    if row, h :| row in rows && h in row.holders && h.memberId == m && h.kind.Leader? {
      LeadersOfRow(rows, row, h);
      assert h in Candidates(n, rows);
    }
  }

  // ----- the lines of a section -----

  datatype ServiceEntry = ServiceEntry(node: Node, rows: Option<seq<Node>>)

  function AsLines(rows: seq<Node>): (es: seq<ServiceEntry>)
    ensures |es| == |rows| && forall i | 0 <= i < |rows| :: es[i] == ServiceEntry(rows[i], None)
  {
    seq(|rows|, i requires 0 <= i < |rows| => ServiceEntry(rows[i], None))
  }

  /** `bandEntries`: a band's own node with its rows, or each row of a collector band as a line. */
  function BandEntries(bands: seq<Block>): seq<ServiceEntry>
    requires forall b | b in bands :: b.Band?
  {
    if bands == [] then [] else EntriesOf(bands[0]) + BandEntries(bands[1..])
  }

  function EntriesOf(b: Block): seq<ServiceEntry>
    requires b.Band?
  {
    if b.head.Some? then [ServiceEntry(b.head.value, Some(b.rows))] else AsLines(b.rows)
  }

  /** The roles a line stands for: its own, and those beneath it. */
  function EntryIds(e: ServiceEntry): seq<int> {
    [e.node.id] + if e.rows.Some? then NodeIds(e.rows.value) else []
  }

  function EntryRoles(es: seq<ServiceEntry>): seq<int> {
    if es == [] then [] else EntryIds(es[0]) + EntryRoles(es[1..])
  }

  lemma {:induction false} EntryRolesAppend(a: seq<ServiceEntry>, b: seq<ServiceEntry>)
    ensures EntryRoles(a + b) == EntryRoles(a) + EntryRoles(b)
  {
    if a == [] {
      assert a + b == b;
    } else {
      assert (a + b)[1..] == a[1..] + b;
      EntryRolesAppend(a[1..], b);
    }
  }

  lemma {:induction false} LinesStandForRows(rows: seq<Node>)
    ensures EntryRoles(AsLines(rows)) == NodeIds(rows)
  {
    if rows != [] {
      LinesStandForRows(rows[1..]);
      assert AsLines(rows)[1..] == AsLines(rows[1..]);
      assert EntryIds(AsLines(rows)[0]) == [rows[0].id];
      assert NodeIds(rows) == [rows[0].id] + NodeIds(rows[1..]);
    }
  }

  lemma LinesOfBand(b: Block)
    requires b.Band?
    ensures EntryRoles(EntriesOf(b)) == Printed(b)
  {
    LinesStandForRows(b.rows);
    if b.head.Some? {
      var e := ServiceEntry(b.head.value, Some(b.rows));
      assert [e][1..] == [];
    }
  }

  /** The lines of a section stand for the roles its bands print, each as often and in the same order. */
  lemma {:induction false} LinesPrintTheBands(bands: seq<Block>)
    requires forall b | b in bands :: b.Band?
    ensures EntryRoles(BandEntries(bands)) == PrintedAll(bands)
  {
    if bands != [] {
      LinesOfBand(bands[0]);
      LinesPrintTheBands(bands[1..]);
      EntryRolesAppend(EntriesOf(bands[0]), BandEntries(bands[1..]));
    }
  }
}
