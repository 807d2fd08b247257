/** Bracket matching over source text: one scanner counts, the other keeps a stack. */
module Scanning {
  import opened Lists

  predicate IsQuote(c: char) { c == '"' || c == '\'' || c == '`' }

  predicate IsOpen(c: char) { c == '{' || c == '(' || c == '[' }

  predicate IsClose(c: char) { c == '}' || c == ')' || c == ']' }

  function Closer(c: char): char
    requires IsOpen(c)
  {
    if c == '{' then '}' else if c == '(' then ')' else ']'
  }

  // ----- the scanners as functions -----

  /** Where a string opened earlier ends: at its quote, or on the last character if it never does. */
  function StringEnd(src: string, i: nat, quote: char): (e: int)
    ensures e < |src| && (i <= e || e == |src| - 1)
    decreases |src| - i
  {
    if i >= |src| then |src| - 1
    else if src[i] == '\\' then StringEnd(src, i + 2, quote)
    else if src[i] == quote then i
    else StringEnd(src, i + 1, quote)
  }

  function SkipString(src: string, start: nat): (e: nat)
    requires start < |src|
    ensures start <= e < |src|
  {
    StringEnd(src, start + 1, src[start])
  }

  /** Any closing bracket closes one level. */
  function CountMatch(src: string, i: nat, depth: int): (e: int)
    ensures e == -1 || i < e <= |src|
    decreases |src| - i
  {
    if i >= |src| then -1
    else if IsQuote(src[i]) then CountMatch(src, SkipString(src, i) + 1, depth)
    else if IsOpen(src[i]) then CountMatch(src, i + 1, depth + 1)
    else if IsClose(src[i]) then if depth == 1 then i + 1 else CountMatch(src, i + 1, depth - 1)
    else CountMatch(src, i + 1, depth)
  }

  function MatchBalanced(src: string, open: nat): (e: int)
    ensures e == -1 || open < e <= |src|
  {
    if open < |src| && IsOpen(src[open]) then CountMatch(src, open, 0) else -1
  }

  /** Only the expected closing bracket closes a level; any other is passed over. */
  function StackMatch(src: string, i: nat, stack: seq<char>, quote: Option<char>): (e: int)
    decreases |src| - i
  {
    if i >= |src| then -1
    else if quote.Some? then
      if src[i] == '\\' then StackMatch(src, i + 2, stack, quote)
      else StackMatch(src, i + 1, stack, if src[i] == quote.value then None else quote)
    else if IsQuote(src[i]) then StackMatch(src, i + 1, stack, Some(src[i]))
    else if IsOpen(src[i]) then StackMatch(src, i + 1, stack + [Closer(src[i])], None)
    else if stack != [] && src[i] == stack[|stack| - 1] then
      if |stack| == 1 then i + 1 else StackMatch(src, i + 1, stack[..|stack| - 1], None)
    else StackMatch(src, i + 1, stack, None)
  }

  // ----- what the scanners meet -----

  /** Each closing bracket met is the one expected, until all that were open are closed. */
  predicate Nests(src: string, i: nat, stack: seq<char>)
    decreases |src| - i
  {
    if i >= |src| || stack == [] then false
    else if IsQuote(src[i]) then Nests(src, SkipString(src, i) + 1, stack)
    else if IsOpen(src[i]) then Nests(src, i + 1, stack + [Closer(src[i])])
    else if IsClose(src[i]) then
      src[i] == stack[|stack| - 1] && (|stack| == 1 || Nests(src, i + 1, stack[..|stack| - 1]))
    else Nests(src, i + 1, stack)
  }

  /** The running count of brackets, opening ones less closing ones, never returns to zero. */
  predicate StaysOpen(src: string, i: nat, depth: nat)
    decreases |src| - i
  {
    if i >= |src| then true
    else if IsQuote(src[i]) then StaysOpen(src, SkipString(src, i) + 1, depth)
    else if IsOpen(src[i]) then StaysOpen(src, i + 1, depth + 1)
    else if IsClose(src[i]) then depth > 1 && StaysOpen(src, i + 1, depth - 1)
    else StaysOpen(src, i + 1, depth)
  }

  // ----- the scanners as loops -----

  method SkipStringAt(src: string, start: nat) returns (end: nat)
    requires start < |src|
    ensures end == SkipString(src, start)
  {
    var quote := src[start];
    var i := start + 1;
    while i < |src|
      invariant start < i
      invariant StringEnd(src, i, quote) == SkipString(src, start)
    {
      if src[i] == '\\' {
        i := i + 2;
      } else if src[i] == quote {
        return i;
      } else {
        i := i + 1;
      }
    }
    end := |src| - 1;
  }

  method MatchBalancedByCounting(src: string, open: nat) returns (end: int)
    ensures end == MatchBalanced(src, open)
  {
    if open >= |src| || !IsOpen(src[open]) { return -1; }
    var depth, i := 0, open;
    while i < |src|
      invariant open <= i
      invariant CountMatch(src, i, depth) == CountMatch(src, open, 0)
    {
      if IsQuote(src[i]) {
        i := SkipStringAt(src, i);
      } else if IsOpen(src[i]) {
        depth := depth + 1;
      } else if IsClose(src[i]) {
        depth := depth - 1;
        if depth == 0 { return i + 1; }
      }
      i := i + 1;
    }
    end := -1;
  }

  method MatchBalancedByStack(src: string, open: nat) returns (end: int)
    ensures end == StackMatch(src, open, [], None)
  {
    var stack: seq<char>, quote: Option<char> := [], None;
    var i := open;
    while i < |src|
      invariant open <= i
      invariant StackMatch(src, i, stack, quote) == StackMatch(src, open, [], None)
    {
      if quote.Some? {
        if src[i] == '\\' { i := i + 1; } else if src[i] == quote.value { quote := None; }
      } else if IsQuote(src[i]) {
        quote := Some(src[i]);
      } else if IsOpen(src[i]) {
        stack := stack + [Closer(src[i])];
      } else if |stack| > 0 && src[i] == stack[|stack| - 1] {
        stack := stack[..|stack| - 1];
        if |stack| == 0 { return i + 1; }
      }
      i := i + 1;
    }
    end := -1;
  }

  // ----- properly nested text -----

  datatype Bracket = Curly | Round | Square

  function OpenOf(b: Bracket): (c: char)
    ensures IsOpen(c)
  {
    match b case Curly => '{' case Round => '(' case Square => '['
  }

  function CloseOf(b: Bracket): (c: char)
    ensures c == Closer(OpenOf(b)) && IsClose(c)
  {
    match b case Curly => '}' case Round => ')' case Square => ']'
  }

  /** Text whose brackets pair up, with quoted strings: a character, a string or a group, then the rest. */
  datatype Text =
    | Nil
    | Char(c: char, rest: Text)
    | Quoted(quote: char, body: string, rest: Text)
    | Group(bracket: Bracket, inside: Text, rest: Text)

  predicate IsPlain(c: char) { !IsQuote(c) && !IsOpen(c) && !IsClose(c) }

  /** What may stand between two quotes: backslash pairs, and anything else but the quote. */
  predicate IsQuotedBody(quote: char, body: string) {
    body == [] ||
    if body[0] == '\\' then |body| >= 2 && IsQuotedBody(quote, body[2..])
    else body[0] != quote && IsQuotedBody(quote, body[1..])
  }

  predicate IsText(t: Text) {
    match t
    case Nil => true
    case Char(c, rest) => IsPlain(c) && IsText(rest)
    case Quoted(quote, body, rest) => IsQuote(quote) && IsQuotedBody(quote, body) && IsText(rest)
    case Group(_, inside, rest) => IsText(inside) && IsText(rest)
  }

  function Render(t: Text): string {
    match t
    case Nil => ""
    case Char(c, rest) => [c] + Render(rest)
    case Quoted(quote, body, rest) => ([quote] + body + [quote]) + Render(rest)
    case Group(b, inside, rest) => ([OpenOf(b)] + Render(inside) + [CloseOf(b)]) + Render(rest)
  }

  /** `s` stands in `src` at `i`. */
  predicate At(src: string, i: nat, s: string) {
    i + |s| <= |src| && forall k | 0 <= k < |s| :: s[k] == src[i + k]
  }

  lemma AtSlice(src: string, i: nat, s: string)
    requires At(src, i, s)
    ensures src[i..i + |s|] == s
  {
  }

  lemma AtSplits(src: string, i: nat, a: string, b: string)
    requires At(src, i, a + b)
    ensures At(src, i, a) && At(src, i + |a|, b)
  {
    forall k | 0 <= k < |a| ensures a[k] == src[i + k] { assert (a + b)[k] == a[k]; }
    forall k | 0 <= k < |b| ensures b[k] == src[i + |a| + k] { assert (a + b)[|a| + k] == b[k]; }
  }

  lemma AtChar(src: string, i: nat, s: string, k: nat)
    requires At(src, i, s) && k < |s|
    ensures i + k < |src| && src[i + k] == s[k]
  {
  }

  lemma AtWrapped(src: string, i: nat, a: char, s: string, b: char)
    requires At(src, i, [a] + s + [b])
    ensures i + |s| + 2 <= |src| && src[i] == a && At(src, i + 1, s) && src[i + 1 + |s|] == b
  {
    AtSplits(src, i, [a] + s, [b]);
    AtSplits(src, i, [a], s);
    AtChar(src, i, [a] + s + [b], 0);
    AtChar(src, i, [a] + s + [b], 1 + |s|);
  }

  /** Both scanners of strings stop at the closing quote. */
  lemma {:induction false} StringEnds(src: string, i: nat, quote: char, body: string, stack: seq<char>)
    requires IsQuote(quote) && IsQuotedBody(quote, body) && At(src, i, body)
    requires i + |body| < |src| && src[i + |body|] == quote
    ensures StringEnd(src, i, quote) == i + |body|
    ensures StackMatch(src, i, stack, Some(quote)) == StackMatch(src, i + |body| + 1, stack, None)
    decreases |body|
  {
    if body != [] {
      AtChar(src, i, body, 0);
      var step := if body[0] == '\\' then 2 else 1;
      assert body == body[..step] + body[step..];
      AtSplits(src, i, body[..step], body[step..]);
      StringEnds(src, i + step, quote, body[step..], stack);
    }
  }

  /** Some bracket is open. */
  predicate Within(stack: seq<char>) {
    stack != [] && IsClose(stack[|stack| - 1])
  }

  /** Both matchers, started at `i`, find what they find started at `j`, and what lies between nests. */
  ghost predicate Passes(src: string, i: nat, j: nat, depth: int, stack: seq<char>) {
    && CountMatch(src, i, depth) == CountMatch(src, j, depth)
    && StackMatch(src, i, stack, None) == StackMatch(src, j, stack, None)
    && (Nests(src, i, stack) <==> Nests(src, j, stack))
  }

  lemma PassesOn(src: string, i: nat, j: nat, k: nat, depth: int, stack: seq<char>)
    requires Passes(src, i, j, depth, stack) && Passes(src, j, k, depth, stack)
    ensures Passes(src, i, k, depth, stack)
  {
  }

  lemma PlainIsPassed(src: string, i: nat, depth: int, stack: seq<char>)
    requires i < |src| && IsPlain(src[i]) && Within(stack)
    ensures Passes(src, i, i + 1, depth, stack)
  {
  }

  lemma QuotedIsSkipped(src: string, i: nat, quote: char, body: string)
    requires IsQuote(quote) && IsQuotedBody(quote, body) && At(src, i, [quote] + body + [quote])
    ensures i + |body| + 2 <= |src| && src[i] == quote
    ensures SkipString(src, i) == i + |body| + 1
  {
    AtWrapped(src, i, quote, body, quote);
    StringEnds(src, i + 1, quote, body, []);
  }

  lemma QuotedIsPassed(src: string, i: nat, quote: char, body: string, depth: int, stack: seq<char>)
    requires IsQuote(quote) && IsQuotedBody(quote, body) && At(src, i, [quote] + body + [quote])
    ensures i + |body| + 2 <= |src|
    ensures Passes(src, i, i + |body| + 2, depth, stack)
  {
    AtWrapped(src, i, quote, body, quote);
    StringEnds(src, i + 1, quote, body, stack);
  }

  lemma GroupIsPassed(src: string, i: nat, j: nat, b: Bracket, depth: int, stack: seq<char>)
    requires i < j < |src| && src[i] == OpenOf(b) && src[j] == CloseOf(b) && depth >= 1 && stack != []
    requires Passes(src, i + 1, j, depth + 1, stack + [CloseOf(b)])
    ensures Passes(src, i, j + 1, depth, stack)
  {
    assert (stack + [CloseOf(b)])[..|stack|] == stack;
  }

  lemma CharParts(src: string, i: nat, c: char, rest: Text)
    requires At(src, i, Render(Char(c, rest)))
    ensures |Render(Char(c, rest))| == 1 + |Render(rest)|
    ensures i < |src| && src[i] == c && At(src, i + 1, Render(rest))
  {
    AtSplits(src, i, [c], Render(rest));
    AtChar(src, i, [c], 0);
  }

  lemma QuotedParts(src: string, i: nat, quote: char, body: string, rest: Text)
    requires At(src, i, Render(Quoted(quote, body, rest)))
    ensures |Render(Quoted(quote, body, rest))| == |body| + 2 + |Render(rest)|
    ensures At(src, i, [quote] + body + [quote]) && At(src, i + |body| + 2, Render(rest))
  {
    AtSplits(src, i, [quote] + body + [quote], Render(rest));
  }

  lemma GroupParts(src: string, i: nat, b: Bracket, inside: Text, rest: Text)
    requires At(src, i, Render(Group(b, inside, rest)))
    ensures |Render(Group(b, inside, rest))| == |Render(inside)| + 2 + |Render(rest)|
    ensures i + |Render(inside)| + 2 <= |src|
    ensures src[i] == OpenOf(b) && src[i + 1 + |Render(inside)|] == CloseOf(b)
    ensures At(src, i + 1, Render(inside)) && At(src, i + |Render(inside)| + 2, Render(rest))
    ensures At(src, i, [OpenOf(b)] + Render(inside) + [CloseOf(b)])
  {
    AtSplits(src, i, [OpenOf(b)] + Render(inside) + [CloseOf(b)], Render(rest));
    AtWrapped(src, i, OpenOf(b), Render(inside), CloseOf(b));
  }

  /** Inside a bracket, both matchers run over nested text and come out where it ends, as they were. */
  lemma {:induction false} TextIsPassed(src: string, i: nat, j: nat, t: Text, depth: int, stack: seq<char>)
    requires IsText(t) && At(src, i, Render(t)) && j == i + |Render(t)| && depth >= 1 && Within(stack)
    ensures Passes(src, i, j, depth, stack)
    decreases t, 1
  {
    match t
    case Nil =>
    case Char(c, rest) =>
      CharParts(src, i, c, rest);
      PlainIsPassed(src, i, depth, stack);
      TextIsPassed(src, i + 1, j, rest, depth, stack);
      PassesOn(src, i, i + 1, j, depth, stack);
    case Quoted(quote, body, rest) =>
      QuotedParts(src, i, quote, body, rest);
      var k := i + |body| + 2;
      QuotedIsPassed(src, i, quote, body, depth, stack);
      TextIsPassed(src, k, j, rest, depth, stack);
      PassesOn(src, i, k, j, depth, stack);
    case Group(b, inside, rest) =>
      GroupIsPassedOver(src, i, j, b, inside, rest, depth, stack);
  }

  lemma {:induction false} GroupIsPassedOver(src: string, i: nat, j: nat, b: Bracket, inside: Text, rest: Text,
                                             depth: int, stack: seq<char>)
    requires IsText(inside) && IsText(rest) && At(src, i, Render(Group(b, inside, rest)))
    requires j == i + |Render(Group(b, inside, rest))| && depth >= 1 && Within(stack)
    ensures Passes(src, i, j, depth, stack)
    decreases Group(b, inside, rest), 0
  {
    GroupParts(src, i, b, inside, rest);
    var k := i + 1 + |Render(inside)|;
    assert Passes(src, i, k + 1, depth, stack) by {
      TextIsPassed(src, i + 1, k, inside, depth + 1, stack + [CloseOf(b)]);
      GroupIsPassed(src, i, k, b, depth, stack);
    }
    assert Passes(src, k + 1, j, depth, stack) by {
      TextIsPassed(src, k + 1, j, rest, depth, stack);
    }
    PassesOn(src, i, k + 1, j, depth, stack);
  }

  /** The text of a bracketed group. */
  function Bracketed(b: Bracket, inside: Text): string {
    [OpenOf(b)] + Render(inside) + [CloseOf(b)]
  }

  /** Both matchers return the place just past the partner of the opening bracket, whatever follows. */
  lemma BothMatchersAgree(src: string, open: nat, b: Bracket, inside: Text)
    requires IsText(inside) && At(src, open, Bracketed(b, inside))
    ensures MatchBalanced(src, open) == open + |Bracketed(b, inside)|
    ensures StackMatch(src, open, [], None) == open + |Bracketed(b, inside)|
  {
    AtWrapped(src, open, OpenOf(b), Render(inside), CloseOf(b));
    TextIsPassed(src, open + 1, open + 1 + |Render(inside)|, inside, 1, [CloseOf(b)]);
    assert [] + [CloseOf(b)] == [CloseOf(b)];
  }

  /** The same stated on rendered text: any prefix, any suffix. */
  lemma BothMatchersAgreeInContext(before: string, b: Bracket, inside: Text, after: string)
    requires IsText(inside)
    ensures MatchBalanced(before + Bracketed(b, inside) + after, |before|) == |before + Bracketed(b, inside)|
    ensures StackMatch(before + Bracketed(b, inside) + after, |before|, [], None) == |before + Bracketed(b, inside)|
  {
    var src, g := before + Bracketed(b, inside) + after, Bracketed(b, inside);
    assert forall k | 0 <= k < |g| :: g[k] == src[|before| + k];
    BothMatchersAgree(src, |before|, b, inside);
  }
}
