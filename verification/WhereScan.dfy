/** The analysis of a `where` body: properties, nested condition objects, and the three flags. */
module WhereScanning {
  import opened Scanning

  /** What `\s` matches. */
  predicate IsSpace(c: char) {
    || c == ' ' || '\U{9}' <= c <= '\U{D}' || c == '\U{A0}' || c == '\U{1680}' || '\U{2000}' <= c <= '\U{200A}'
    || c == '\U{2028}' || c == '\U{2029}' || c == '\U{202F}' || c == '\U{205F}' || c == '\U{3000}' || c == '\U{FEFF}'
  }

  predicate IsIdentStart(c: char) { 'A' <= c <= 'Z' || 'a' <= c <= 'z' || c == '_' }

  predicate IsIdentChar(c: char) { IsIdentStart(c) || '0' <= c <= '9' }

  const COMBINATORS: set<string> := {"AND", "OR", "NOT"}

  /** The next comma outside brackets and strings, or the end. */
  function NextComma(body: string, i: nat, depth: int): (e: nat)
    ensures i <= |body| ==> i <= e <= |body|
    decreases |body| - i
  {
    if i >= |body| then |body|
    else if IsQuote(body[i]) then NextComma(body, SkipString(body, i) + 1, depth)
    else if IsOpen(body[i]) then NextComma(body, i + 1, depth + 1)
    else if IsClose(body[i]) then NextComma(body, i + 1, depth - 1)
    else if body[i] == ',' && depth == 0 then i
    else NextComma(body, i + 1, depth)
  }

  function IdentEnd(body: string, j: nat): (e: nat)
    requires j <= |body|
    ensures j <= e <= |body|
    decreases |body| - j
  {
    if j < |body| && IsIdentChar(body[j]) then IdentEnd(body, j + 1) else j
  }

  function SpaceEnd(body: string, k: nat): (e: nat)
    requires k <= |body|
    ensures k <= e <= |body|
    decreases |body| - k
  {
    if k < |body| && IsSpace(body[k]) then SpaceEnd(body, k + 1) else k
  }

  datatype Entry = Entry(key: string, value: string)

  /** The property whose key starts at `i`, and where the scan goes on; a shorthand key has an empty value. */
  function EntryFrom(body: string, i: nat): (e: (Entry, nat))
    requires i < |body| && IsIdentStart(body[i])
    ensures i < e.1 && |e.0.value| < |body|
  {
    var j := IdentEnd(body, i + 1);
    var k := SpaceEnd(body, j);
    if k < |body| && body[k] == ':' then
      var end := NextComma(body, k + 1, 0);
      (Entry(body[i..j], body[k + 1..end]), end + 1)
    else (Entry(body[i..j], ""), k)
  }

  /** The top-level properties from `i` on. */
  function Entries(body: string, i: nat): (es: seq<Entry>)
    ensures forall e | e in es :: |e.value| < |body|
    decreases |body| - i
  {
    if i >= |body| then []
    else if IsSpace(body[i]) || body[i] == ',' then Entries(body, i + 1)
    else if !IsIdentStart(body[i]) then Entries(body, NextComma(body, i, 0) + 1)
    else
      var (e, next) := EntryFrom(body, i);
      [e] + Entries(body, next)
  }

  /** The body of each object literal met from `i` on, not looking inside the ones found. */
  function ObjectBodies(text: string, i: nat): (bodies: seq<string>)
    ensures forall b | b in bodies :: |b| < |text|
    decreases |text| - i
  {
    if i >= |text| then []
    else if IsQuote(text[i]) then ObjectBodies(text, SkipString(text, i) + 1)
    else if text[i] == '{' then
      var end := CountMatch(text, i, 0);
      assert end != -1 ==> end > i + 1;
      if end == -1 then [] else [text[i + 1..end - 1]] + ObjectBodies(text, end)
    else ObjectBodies(text, i + 1)
  }

  datatype Shape = Shape(bareId: bool, congregationId: bool, compound: bool)

  const NOTHING: Shape := Shape(false, false, false)

  function Join(a: Shape, b: Shape): Shape {
    Shape(a.bareId || b.bareId, a.congregationId || b.congregationId, a.compound || b.compound)
  }

  /** `analyzeWhere` ends on any text: a nested body is shorter than the body it stands in. */
  function Analyze(body: string): Shape
    decreases |body|, 2, 0
  {
    AnalyzeEntries(Entries(body, 0), |body|)
  }

  function AnalyzeEntries(es: seq<Entry>, bound: nat): Shape
    requires forall e | e in es :: |e.value| < bound
    decreases bound, 1, |es|
  {
    if es == [] then NOTHING else Join(AnalyzeEntry(es[0], bound), AnalyzeEntries(es[1..], bound))
  }

  function AnalyzeEntry(e: Entry, bound: nat): Shape
    requires |e.value| < bound
    decreases bound, 0, 0
  {
    if e.key == "id" then Shape(true, false, false)
    else if e.key == "congregationId" then Shape(false, true, false)
    else if e.key == "id_congregationId" then Shape(false, false, true)
    else if e.key in COMBINATORS then AnalyzeBodies(ObjectBodies(e.value, 0), |e.value|)
    else NOTHING
  }

  function AnalyzeBodies(bodies: seq<string>, bound: nat): Shape
    requires forall b | b in bodies :: |b| < bound
    decreases bound, 3, |bodies|
  {
    if bodies == [] then NOTHING else Join(Analyze(bodies[0]), AnalyzeBodies(bodies[1..], bound))
  }

  // ----- the same as loops -----

  method NextTopLevelComma(body: string, start: nat) returns (end: nat)
    ensures end == NextComma(body, start, 0)
  {
    var depth, i := 0, start;
    while i < |body|
      invariant NextComma(body, i, depth) == NextComma(body, start, 0)
    {
      var c := body[i];
      if IsQuote(c) {
        i := SkipStringAt(body, i);
      } else if IsOpen(c) {
        depth := depth + 1;
      } else if IsClose(c) {
        depth := depth - 1;
      } else if c == ',' && depth == 0 {
        return i;
      }
      i := i + 1;
    }
    end := |body|;
  }

  /** The two inner loops: over the identifier, then over the space after it. */
  method KeyAt(body: string, i: nat) returns (j: nat, k: nat)
    requires i < |body| && IsIdentStart(body[i])
    ensures j == IdentEnd(body, i + 1) && k == SpaceEnd(body, j)
  {
    j := i;
    while j < |body| && IsIdentChar(body[j])
      invariant i <= j <= |body| && IdentEnd(body, j) == IdentEnd(body, i)
    {
      j := j + 1;
    }
    k := j;
    while k < |body| && IsSpace(body[k])
      invariant j <= k <= |body| && SpaceEnd(body, k) == SpaceEnd(body, j)
    {
      k := k + 1;
    }
  }

  lemma EntryStep(body: string, i: nat, e: Entry, next: nat)
    requires i < |body| && IsIdentStart(body[i]) && EntryFrom(body, i) == (e, next)
    ensures Entries(body, i) == [e] + Entries(body, next)
  {
    assert !IsSpace(body[i]) && body[i] != ',';
  }

  method EntryAt(body: string, i: nat) returns (e: Entry, next: nat)
    requires i < |body| && IsIdentStart(body[i])
    ensures (e, next) == EntryFrom(body, i)
  {
    var j, k := KeyAt(body, i);
    if k < |body| && body[k] == ':' {
      var end := NextTopLevelComma(body, k + 1);
      e, next := Entry(body[i..j], body[k + 1..end]), end + 1;
    } else {
      e, next := Entry(body[i..j], ""), k;
    }
  }

  method TopLevelEntries(body: string) returns (entries: seq<Entry>)
    ensures entries == Entries(body, 0)
  {
    entries := [];
    var i := 0;
    while i < |body|
      invariant Entries(body, 0) == entries + Entries(body, i)
      decreases |body| - i
    {
      if IsSpace(body[i]) || body[i] == ',' {
        i := i + 1;
      } else if !IsIdentStart(body[i]) {
        var comma := NextTopLevelComma(body, i);
        i := comma + 1;
      } else {
        var e, next := EntryAt(body, i);
        EntryStep(body, i, e, next);
        assert entries + ([e] + Entries(body, next)) == (entries + [e]) + Entries(body, next);
        entries, i := entries + [e], next;
      }
    }
  }

  method ObjectBodiesIn(text: string) returns (bodies: seq<string>)
    ensures bodies == ObjectBodies(text, 0)
  {
    bodies := [];
    var i := 0;
    while i < |text|
      invariant ObjectBodies(text, 0) == bodies + ObjectBodies(text, i)
      decreases |text| - i
    {
      if IsQuote(text[i]) {
        i := SkipStringAt(text, i);
      } else if text[i] == '{' {
        var end := MatchBalancedByCounting(text, i);
        if end == -1 { break; }
        bodies := bodies + [text[i + 1..end - 1]];
        i := end - 1;
      }
      i := i + 1;
    }
  }

  method AnalyzeWhere(body: string) returns (shape: Shape)
    ensures shape == Analyze(body)
    decreases |body|
  {
    shape := NOTHING;
    var entries := TopLevelEntries(body);
    for n := 0 to |entries|
      invariant Join(shape, AnalyzeEntries(entries[n..], |body|)) == Analyze(body)
    {
      var key, value := entries[n].key, entries[n].value;
      assert entries[n] in entries && entries[n..][1..] == entries[n + 1..];
      if key == "id" {
        shape := shape.(bareId := true);
      } else if key == "congregationId" {
        shape := shape.(congregationId := true);
      } else if key == "id_congregationId" {
        shape := shape.(compound := true);
      } else if key in COMBINATORS {
        var bodies := ObjectBodiesIn(value);
        ghost var before := shape;
        for m := 0 to |bodies|
          invariant Join(shape, AnalyzeBodies(bodies[m..], |value|)) == Join(before, AnalyzeBodies(bodies, |value|))
        {
          assert bodies[m] in bodies && bodies[m..][1..] == bodies[m + 1..];
          var inner := AnalyzeWhere(bodies[m]);
          shape := Join(shape, inner);
        }
      }
    }
  }
}
