/** The analysis recovers the grammar: every flag is set exactly when its key occurs. */
module WhereRecovery {
  import opened Scanning
  import opened WhereScanning
  import opened WhereGrammar

  // ----- scanning runs of characters -----

  lemma {:induction false} SepIsSkipped(body: string, i: nat, sep: string)
    requires IsSep(sep) && At(body, i, sep)
    ensures Entries(body, i) == Entries(body, i + |sep|)
    decreases |sep|
  {
    if sep != [] {
      AtSplits(body, i, sep[..1], sep[1..]);
      AtChar(body, i, sep, 0);
      SepIsSkipped(body, i + 1, sep[1..]);
    }
  }

  lemma {:induction false} IdentIsRead(body: string, j: nat, s: string)
    requires At(body, j, s) && forall k | 0 <= k < |s| :: IsIdentChar(s[k])
    requires j + |s| == |body| || !IsIdentChar(body[j + |s|])
    ensures IdentEnd(body, j) == j + |s|
    decreases |s|
  {
    if s != [] {
      AtSplits(body, j, s[..1], s[1..]);
      AtChar(body, j, s, 0);
      IdentIsRead(body, j + 1, s[1..]);
    }
  }

  lemma {:induction false} GapIsRead(body: string, j: nat, s: string)
    requires At(body, j, s) && IsGap(s)
    requires j + |s| == |body| || !IsSpace(body[j + |s|])
    ensures SpaceEnd(body, j) == j + |s|
    decreases |s|
  {
    if s != [] {
      AtSplits(body, j, s[..1], s[1..]);
      AtChar(body, j, s, 0);
      GapIsRead(body, j + 1, s[1..]);
    }
  }

  /** A comma search runs over nested text: all of it inside a bracket, comma-free text at the top. */
  lemma {:induction false} CommaSearchPasses(body: string, i: nat, j: nat, t: Text, depth: int)
    requires IsText(t) && At(body, i, Render(t)) && j == i + |Render(t)|
    requires depth >= 1 || (depth == 0 && NoComma(t))
    ensures NextComma(body, i, depth) == NextComma(body, j, depth)
    decreases t, 1
  {
    match t
    case Nil =>
    case Char(c, rest) =>
      CharParts(body, i, c, rest);
      CommaSearchPasses(body, i + 1, j, rest, depth);
    case Quoted(quote, text, rest) =>
      QuotedParts(body, i, quote, text, rest);
      QuotedIsSkipped(body, i, quote, text);
      CommaSearchPasses(body, i + |text| + 2, j, rest, depth);
    case Group(b, inside, rest) =>
      CommaSearchPassesGroup(body, i, j, b, inside, rest, depth);
  }

  lemma {:induction false} CommaSearchPassesGroup(body: string, i: nat, j: nat, b: Bracket, inside: Text,
      rest: Text, depth: int)
    requires IsText(inside) && IsText(rest) && At(body, i, Render(Group(b, inside, rest)))
    requires j == i + |Render(Group(b, inside, rest))| && (depth >= 1 || (depth == 0 && NoComma(rest)))
    ensures NextComma(body, i, depth) == NextComma(body, j, depth)
    decreases Group(b, inside, rest), 0
  {
    GroupParts(body, i, b, inside, rest);
    var k := i + 1 + |Render(inside)|;
    assert NextComma(body, i, depth) == NextComma(body, k + 1, depth) by {
      CommaSearchPasses(body, i + 1, k, inside, depth + 1);
      CommaPassesGroup(body, i, k, depth);
    }
    CommaSearchPasses(body, k + 1, j, rest, depth);
  }

  lemma CommaPassesGroup(body: string, i: nat, k: nat, depth: int)
    requires i < k < |body| && IsOpen(body[i]) && IsClose(body[k])
    requires NextComma(body, i + 1, depth + 1) == NextComma(body, k, depth + 1)
    ensures NextComma(body, i, depth) == NextComma(body, k + 1, depth)
  {
  }

  /** A property ends at `e`. */
  predicate EndsAt(body: string, e: nat) {
    e == |body| || (e < |body| && body[e] == ',')
  }

  lemma ValueIsRead(body: string, i: nat, t: Text)
    requires IsText(t) && NoComma(t) && At(body, i, Render(t)) && EndsAt(body, i + |Render(t)|)
    ensures NextComma(body, i, 0) == i + |Render(t)|
    ensures body[i..i + |Render(t)|] == Render(t)
  {
    CommaSearchPasses(body, i, i + |Render(t)|, t, 0);
  }

  lemma RestEnds(body: string, i: nat, rest: Body)
    requires Separated(rest) && At(body, i, RenderBody(rest)) && i + |RenderBody(rest)| == |body|
    ensures EndsAt(body, i)
  {
    if rest != End("") {
      assert RenderBody(rest)[0] == ',';
      AtChar(body, i, RenderBody(rest), 0);
    }
  }

  // ----- one property at a time -----

  /** The properties a body holds, as the analysis should list them. */
  function EntryList(b: Body): seq<Entry> {
    match b
    case End(_) => []
    case Short(_, key, _, rest) => [Entry(key, "")] + EntryList(rest)
    case Pair(_, key, _, value, rest) => [Entry(key, Render(value))] + EntryList(rest)
    case Combine(_, key, _, operand, rest) => [Entry(key, RenderCond(operand))] + EntryList(rest)
    case Other(_, _, rest) => EntryList(rest)
  }

  lemma KeyParts(body: string, i: nat, key: string, gap: string, after: string)
    requires At(body, i, key + (gap + after))
    ensures At(body, i, key) && At(body, i + |key|, gap) && At(body, i + |key| + |gap|, after)
    ensures body[i..i + |key|] == key
  {
    AtSplits(body, i, key, gap + after);
    AtSplits(body, i + |key|, gap, after);
  }

  /** The character where `s` starts, or else the one where the next text does. */
  lemma FirstOf(body: string, i: nat, s: string)
    requires At(body, i, s) && s != ""
    ensures i < |body| && body[i] == s[0]
  {
    AtChar(body, i, s, 0);
  }

  lemma KeyIsRead(body: string, i: nat, key: string, gap: string, after: string)
    requires IsKey(key) && IsGap(gap) && At(body, i, key) && At(body, i + |key|, gap)
    requires At(body, i + |key| + |gap|, after)
    requires i + |key| + |gap| + |after| == |body|
    requires after == "" || after[0] == ',' || after[0] == ':'
    ensures i < |body| && IsIdentStart(body[i])
    ensures IdentEnd(body, i + 1) == i + |key| && SpaceEnd(body, i + |key|) == i + |key| + |gap|
  {
    FirstOf(body, i, key);
    if gap != "" { FirstOf(body, i + |key|, gap); }
    if after != "" { FirstOf(body, i + |key| + |gap|, after); }
    IdentIsRead(body, i, key);
    GapIsRead(body, i + |key|, gap);
  }

  lemma ShortIsRead(body: string, i: nat, key: string, gap: string, rest: Body)
    requires IsKey(key) && IsGap(gap) && Separated(rest) && At(body, i, key + (gap + RenderBody(rest)))
    requires i + |key + (gap + RenderBody(rest))| == |body|
    ensures i < |body| && IsIdentStart(body[i])
    ensures IdentEnd(body, i + 1) == i + |key| && SpaceEnd(body, i + |key|) == i + |key| + |gap|
    ensures body[i..i + |key|] == key && EndsAt(body, i + |key| + |gap|)
    ensures At(body, i + |key| + |gap|, RenderBody(rest))
  {
    assert RenderBody(rest) == "" || RenderBody(rest)[0] == ',';
    KeyParts(body, i, key, gap, RenderBody(rest));
    KeyIsRead(body, i, key, gap, RenderBody(rest));
    RestEnds(body, i + |key| + |gap|, rest);
  }

  lemma ValueParts(body: string, k: nat, value: Text, rest: Body)
    requires At(body, k, [':'] + (Render(value) + RenderBody(rest)))
    ensures k < |body| && body[k] == ':' && At(body, k + 1, Render(value))
    ensures At(body, k + 1 + |Render(value)|, RenderBody(rest))
  {
    AtSplits(body, k, [':'], Render(value) + RenderBody(rest));
    AtChar(body, k, [':'], 0);
    AtSplits(body, k + 1, Render(value), RenderBody(rest));
  }

  lemma ValueEnds(body: string, k: nat, e: nat, value: Text, rest: Body)
    requires IsText(value) && NoComma(value) && Separated(rest) && e == k + 1 + |Render(value)|
    requires At(body, k, [':'] + (Render(value) + RenderBody(rest))) && e + |RenderBody(rest)| == |body|
    ensures k < e <= |body| && body[k] == ':' && NextComma(body, k + 1, 0) == e && body[k + 1..e] == Render(value)
    ensures EndsAt(body, e) && At(body, e, RenderBody(rest))
  {
    ValueParts(body, k, value, rest);
    RestEnds(body, e, rest);
    ValueIsRead(body, k + 1, value);
  }

  lemma KeyedIsRead(body: string, i: nat, key: string, gap: string, after: string, j: nat, k: nat)
    requires IsKey(key) && IsGap(gap) && after != "" && after[0] == ':' && At(body, i, key + (gap + after))
    requires i + |key + (gap + after)| == |body| && j == i + |key| && k == j + |gap|
    ensures i < |body| && IsIdentStart(body[i]) && IdentEnd(body, i + 1) == j && SpaceEnd(body, j) == k
    ensures body[i..j] == key && At(body, k, after) && k + |after| == |body|
  {
    KeyParts(body, i, key, gap, after);
    KeyIsRead(body, i, key, gap, after);
  }

  lemma SkipEnd(body: string, e: nat)
    requires EndsAt(body, e)
    ensures Entries(body, e + 1) == Entries(body, e)
  {
  }

  lemma OtherIsRead(body: string, i: nat, text: Text, rest: Body)
    requires IsText(text) && NoComma(text) && StartsOther(text) && Separated(rest)
    requires At(body, i, Render(text) + RenderBody(rest)) && i + |Render(text) + RenderBody(rest)| == |body|
    ensures Entries(body, i) == Entries(body, i + |Render(text)|) && At(body, i + |Render(text)|, RenderBody(rest))
  {
    AtSplits(body, i, Render(text), RenderBody(rest));
    RestEnds(body, i + |Render(text)|, rest);
    ValueIsRead(body, i, text);
    SkipEnd(body, i + |Render(text)|);
    AtChar(body, i, Render(text), 0);
  }

  lemma SepIsRead(body: string, i: nat, b: Body)
    requires IsSep(b.sep) && At(body, i, RenderBody(b)) && i + |RenderBody(b)| == |body|
    ensures At(body, i + |b.sep|, AfterSep(b)) && i + |b.sep| + |AfterSep(b)| == |body|
    ensures Entries(body, i) == Entries(body, i + |b.sep|)
  {
    AtSplits(body, i, b.sep, AfterSep(b));
    SepIsSkipped(body, i, b.sep);
  }

  /** The generator yields the properties of the grammar, in order. */
  lemma {:induction false} EntriesOfBody(body: string, i: nat, b: Body)
    requires IsBody(b) && At(body, i, RenderBody(b)) && i + |RenderBody(b)| == |body|
    ensures Entries(body, i) == EntryList(b)
    decreases b, 5
  {
    SepIsRead(body, i, b);
    EntriesAfterSep(body, i + |b.sep|, b);
  }

  lemma {:induction false} EntriesAfterSep(body: string, j: nat, b: Body)
    requires IsBody(b) && At(body, j, AfterSep(b)) && j + |AfterSep(b)| == |body|
    ensures Entries(body, j) == EntryList(b)
    decreases b, 4
  {
    match b
    case End(_) =>
    case Short(_, key, gap, rest) => EntriesAfterShort(body, j, key, gap, rest);
    case Pair(_, key, gap, value, rest) => EntriesAfterKeyed(body, j, key, gap, value, rest);
    case Combine(_, key, gap, operand, rest) => EntriesAfterCombine(body, j, key, gap, operand, rest);
    case Other(_, text, rest) => EntriesAfterOther(body, j, text, rest);
  }

  lemma ShortEntry(body: string, j: nat, key: string, gap: string, rest: Body)
    requires IsKey(key) && IsGap(gap) && Separated(rest)
    requires At(body, j, key + (gap + RenderBody(rest))) && j + |key + (gap + RenderBody(rest))| == |body|
    ensures var k := j + |key| + |gap|;
            && At(body, k, RenderBody(rest)) && k + |RenderBody(rest)| == |body|
            && j < |body| && IsIdentStart(body[j]) && EntryFrom(body, j) == (Entry(key, ""), k)
  {
    ShortIsRead(body, j, key, gap, rest);
  }

  lemma {:induction false} EntriesAfterShort(body: string, j: nat, key: string, gap: string, rest: Body)
    requires IsKey(key) && IsGap(gap) && IsBody(rest) && Separated(rest)
    requires At(body, j, key + (gap + RenderBody(rest))) && j + |key + (gap + RenderBody(rest))| == |body|
    ensures Entries(body, j) == [Entry(key, "")] + EntryList(rest)
    decreases rest, 6
  {
    var k := j + |key| + |gap|;
    ShortEntry(body, j, key, gap, rest);
    EntriesOfBody(body, k, rest);
    EntryStep(body, j, Entry(key, ""), k);
  }

  lemma {:induction false} EntriesAfterKeyed(body: string, j: nat, key: string, gap: string, value: Text, rest: Body)
    requires IsKey(key) && IsGap(gap) && IsText(value) && NoComma(value) && IsBody(rest) && Separated(rest)
    requires At(body, j, key + (gap + ([':'] + (Render(value) + RenderBody(rest)))))
    requires j + |key + (gap + ([':'] + (Render(value) + RenderBody(rest))))| == |body|
    ensures Entries(body, j) == [Entry(key, Render(value))] + EntryList(rest)
    decreases rest, 6
  {
    var k := j + |key| + |gap|;
    var e := k + 1 + |Render(value)|;
    KeyedIsRead(body, j, key, gap, [':'] + (Render(value) + RenderBody(rest)), j + |key|, k);
    ValueEnds(body, k, e, value, rest);
    EntriesOfBody(body, e, rest);
    EntryStep(body, j, Entry(key, Render(value)), e + 1);
    SkipEnd(body, e);
  }

  lemma {:induction false} EntriesAfterCombine(body: string, j: nat, key: string, gap: string, operand: Cond,
      rest: Body)
    requires key in COMBINATORS && IsGap(gap) && IsCond(operand) && NoCommaCond(operand) && IsBody(rest)
    requires Separated(rest)
    requires At(body, j, key + (gap + ([':'] + (RenderCond(operand) + RenderBody(rest)))))
    requires j + |key + (gap + ([':'] + (RenderCond(operand) + RenderBody(rest))))| == |body|
    ensures Entries(body, j) == [Entry(key, RenderCond(operand))] + EntryList(rest)
    decreases rest, 7
  {
    CombinatorIsKey(key);
    CondIsText(operand);
    EntriesAfterKeyed(body, j, key, gap, CondText(operand), rest);
  }

  lemma {:induction false} EntriesAfterOther(body: string, j: nat, text: Text, rest: Body)
    requires IsText(text) && NoComma(text) && StartsOther(text) && IsBody(rest) && Separated(rest)
    requires At(body, j, Render(text) + RenderBody(rest)) && j + |Render(text) + RenderBody(rest)| == |body|
    ensures Entries(body, j) == EntryList(rest)
    decreases rest, 6
  {
    OtherIsRead(body, j, text, rest);
    EntriesOfBody(body, j + |Render(text)|, rest);
  }

  // ----- the objects a combinator applies to -----

  function CondBodies(c: Cond): seq<string> {
    match c
    case CondEnd => []
    case CondChar(_, after) => CondBodies(after)
    case CondQuoted(_, _, after) => CondBodies(after)
    case CondObject(w, after) => [RenderBody(w)] + CondBodies(after)
    case CondGroup(_, inside, after) => CondBodies(inside) + CondBodies(after)
  }

  lemma ObjectMatches(text: string, i: nat, w: Body)
    requires IsBody(w) && At(text, i, ['{'] + RenderBody(w) + ['}'])
    ensures i + |RenderBody(w)| + 2 <= |text| && text[i] == '{'
    ensures CountMatch(text, i, 0) == i + |RenderBody(w)| + 2
    ensures text[i + 1..i + 1 + |RenderBody(w)|] == RenderBody(w)
  {
    BodyIsText(w);
    BothMatchersAgree(text, i, Curly, BodyText(w));
    AtWrapped(text, i, '{', RenderBody(w), '}');
    AtSlice(text, i + 1, RenderBody(w));
  }

  lemma ObjectIsRead(text: string, i: nat, w: Body)
    requires IsBody(w) && At(text, i, ['{'] + RenderBody(w) + ['}'])
    ensures i + |RenderBody(w)| + 2 <= |text|
    ensures ObjectBodies(text, i) == [RenderBody(w)] + ObjectBodies(text, i + |RenderBody(w)| + 2)
  {
    ObjectMatches(text, i, w);
    ObjectStep(text, i, i + |RenderBody(w)| + 2);
  }

  lemma ObjectStep(text: string, i: nat, end: nat)
    requires i < |text| && text[i] == '{' && end == CountMatch(text, i, 0) && i + 1 < end
    ensures ObjectBodies(text, i) == [text[i + 1..end - 1]] + ObjectBodies(text, end)
  {
  }

  /** The objects found are the outermost ones of the operand, whatever brackets stand around them. */
  lemma {:induction false} BodiesOfCond(text: string, i: nat, j: nat, c: Cond)
    requires IsCond(c) && At(text, i, RenderCond(c)) && j == i + |RenderCond(c)|
    ensures ObjectBodies(text, i) == CondBodies(c) + ObjectBodies(text, j)
    decreases c, 1
  {
    match c
    case CondEnd =>
    case CondChar(ch, after) =>
      BodiesOfChar(text, i, ch, after);
      BodiesOfCond(text, i + 1, j, after);
    case CondQuoted(quote, s, after) =>
      BodiesOfQuoted(text, i, quote, s, after);
      BodiesOfCond(text, i + |s| + 2, j, after);
    case CondObject(w, after) => BodiesOfObject(text, i, j, w, after);
    case CondGroup(b, inside, after) => GroupBodies(text, i, j, b, inside, after);
  }

  lemma BodiesOfChar(text: string, i: nat, ch: char, after: Cond)
    requires IsPlain(ch) && At(text, i, RenderCond(CondChar(ch, after)))
    ensures |RenderCond(CondChar(ch, after))| == 1 + |RenderCond(after)|
    ensures At(text, i + 1, RenderCond(after)) && ObjectBodies(text, i) == ObjectBodies(text, i + 1)
  {
    AtSplits(text, i, [ch], RenderCond(after));
    AtChar(text, i, [ch], 0);
  }

  lemma BodiesOfQuoted(text: string, i: nat, quote: char, s: string, after: Cond)
    requires IsQuote(quote) && IsQuotedBody(quote, s) && At(text, i, RenderCond(CondQuoted(quote, s, after)))
    ensures |RenderCond(CondQuoted(quote, s, after))| == |s| + 2 + |RenderCond(after)|
    ensures At(text, i + |s| + 2, RenderCond(after)) && ObjectBodies(text, i) == ObjectBodies(text, i + |s| + 2)
  {
    AtSplits(text, i, [quote] + s + [quote], RenderCond(after));
    QuotedIsSkipped(text, i, quote, s);
  }

  lemma ObjectThenRest(text: string, i: nat, k: nat, w: Body, after: Cond)
    requires IsBody(w) && At(text, i, RenderCond(CondObject(w, after))) && k == i + |RenderBody(w)| + 2
    ensures i + |RenderCond(CondObject(w, after))| == k + |RenderCond(after)| && At(text, k, RenderCond(after))
    ensures ObjectBodies(text, i) == [RenderBody(w)] + ObjectBodies(text, k)
  {
    AtSplits(text, i, ['{'] + RenderBody(w) + ['}'], RenderCond(after));
    ObjectIsRead(text, i, w);
  }

  lemma {:induction false} BodiesOfObject(text: string, i: nat, j: nat, w: Body, after: Cond)
    requires IsBody(w) && IsCond(after)
    requires At(text, i, RenderCond(CondObject(w, after))) && j == i + |RenderCond(CondObject(w, after))|
    ensures ObjectBodies(text, i) == ([RenderBody(w)] + CondBodies(after)) + ObjectBodies(text, j)
    decreases CondObject(w, after), 0
  {
    var k := i + |RenderBody(w)| + 2;
    ObjectThenRest(text, i, k, w, after);
    BodiesOfCond(text, k, j, after);
    Regroup([RenderBody(w)], CondBodies(after), ObjectBodies(text, j));
  }

  lemma Regroup<T>(a: seq<T>, b: seq<T>, c: seq<T>)
    ensures a + (b + c) == (a + b) + c
  {
  }

  lemma RegroupTwo<T>(x: seq<T>, a: seq<T>, y: seq<T>, b: seq<T>, z: seq<T>)
    requires x == a + y && y == b + z
    ensures x == (a + b) + z
  {
  }

  lemma PlainIsSkipped(text: string, i: nat)
    requires i < |text| && !IsQuote(text[i]) && text[i] != '{'
    ensures ObjectBodies(text, i) == ObjectBodies(text, i + 1)
  {
  }

  lemma {:induction false} GroupBodies(text: string, i: nat, j: nat, b: Bracket, inside: Cond, after: Cond)
    requires b != Curly && IsCond(inside) && IsCond(after)
    requires At(text, i, RenderCond(CondGroup(b, inside, after))) && j == i + |RenderCond(CondGroup(b, inside, after))|
    ensures ObjectBodies(text, i) == (CondBodies(inside) + CondBodies(after)) + ObjectBodies(text, j)
    decreases CondGroup(b, inside, after), 0
  {
    AtSplits(text, i, [OpenOf(b)] + RenderCond(inside) + [CloseOf(b)], RenderCond(after));
    AtWrapped(text, i, OpenOf(b), RenderCond(inside), CloseOf(b));
    var k := i + 1 + |RenderCond(inside)|;
    BodiesOfCond(text, i + 1, k, inside);
    BodiesOfCond(text, k + 1, j, after);
    PlainIsSkipped(text, i);
    PlainIsSkipped(text, k);
    ghost var x, y, z := ObjectBodies(text, i), ObjectBodies(text, k), ObjectBodies(text, j);
    assert x == CondBodies(inside) + y && y == CondBodies(after) + z;
    RegroupTwo(x, CondBodies(inside), y, CondBodies(after), z);
  }

  // ----- the flags -----

  lemma {:induction false} AnalyzeBodiesAppend(a: seq<string>, b: seq<string>, bound: nat)
    requires forall s | s in a + b :: |s| < bound
    ensures forall s | s in a :: |s| < bound
    ensures forall s | s in b :: |s| < bound
    ensures AnalyzeBodies(a + b, bound) == Join(AnalyzeBodies(a, bound), AnalyzeBodies(b, bound))
    decreases |a|
  {
    forall s | s in a || s in b ensures s in a + b {
    }
    if a == [] {
      assert a + b == b;
    } else {
      assert (a + b)[1..] == a[1..] + b;
      forall s | s in a[1..] + b ensures s in a + b {
      }
      AnalyzeBodiesAppend(a[1..], b, bound);
    }
  }

  lemma {:induction false} FlagsOfCond(c: Cond, bound: nat)
    requires IsCond(c) && forall s | s in CondBodies(c) :: |s| < bound
    ensures AnalyzeBodies(CondBodies(c), bound) == ShapeIn(c)
    decreases c, 0
  {
    match c
    case CondEnd =>
    case CondChar(_, after) => FlagsOfCond(after, bound);
    case CondQuoted(_, _, after) => FlagsOfCond(after, bound);
    case CondObject(w, after) =>
      assert CondBodies(c)[1..] == CondBodies(after);
      WhereIsRecovered(w);
      FlagsOfCond(after, bound);
    case CondGroup(_, inside, after) =>
      AnalyzeBodiesAppend(CondBodies(inside), CondBodies(after), bound);
      FlagsOfCond(inside, bound);
      FlagsOfCond(after, bound);
  }

  lemma {:induction false} FlagsOfOperand(key: string, operand: Cond, bound: nat)
    requires key in COMBINATORS && IsCond(operand) && |RenderCond(operand)| < bound
    ensures AnalyzeEntry(Entry(key, RenderCond(operand)), bound) == ShapeIn(operand)
    decreases operand, 2
  {
    var text := RenderCond(operand);
    assert text[0..] == text;
    BodiesOfCond(text, 0, |text|, operand);
    assert ObjectBodies(text, 0) == CondBodies(operand);
    FlagsOfCond(operand, |text|);
  }

  /** Any other property counts for its key alone. */
  lemma FlagsOfKey(e: Entry, bound: nat)
    requires |e.value| < bound && (e.key in COMBINATORS ==> e.value == "")
    ensures AnalyzeEntry(e, bound) == Shape(e.key == "id", e.key == "congregationId", e.key == "id_congregationId")
  {
    if e.key in COMBINATORS {
      assert ObjectBodies(e.value, 0) == [];
    }
  }

  lemma {:induction false} FlagsOfEntries(b: Body, bound: nat)
    requires IsBody(b) && forall e | e in EntryList(b) :: |e.value| < bound
    ensures AnalyzeEntries(EntryList(b), bound) == ShapeOf(b)
    decreases b, 0
  {
    if !b.End? {
      forall e | e in EntryList(b.rest) ensures e in EntryList(b) {
      }
      FlagsOfEntries(b.rest, bound);
      if !b.Other? {
        assert EntryList(b)[1..] == EntryList(b.rest);
        assert EntryList(b)[0] in EntryList(b);
      }
      match b
      case Short(_, key, _, _) => FlagsOfKey(Entry(key, ""), bound);
      case Pair(_, key, _, value, _) => FlagsOfKey(Entry(key, Render(value)), bound);
      case Combine(_, key, _, operand, _) => FlagsOfOperand(key, operand, bound);
      case Other(_, _, _) =>
    }
  }

  /** For every `where` body of the grammar: a flag is set exactly when its key occurs outside relation filters. */
  lemma {:induction false} WhereIsRecovered(b: Body)
    requires IsBody(b)
    ensures Analyze(RenderBody(b)) == ShapeOf(b)
    decreases b, 1
  {
    var body := RenderBody(b);
    assert body[0..] == body;
    EntriesOfBody(body, 0, b);
    FlagsOfEntries(b, |body|);
  }
}
