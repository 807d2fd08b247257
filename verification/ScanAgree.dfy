/** The two bracket matchers compared on any text: exactly where they agree, and what the grammar has to do with it. */
module MatcherAgreement {
  import opened Lists
  import opened Scanning

  ghost predicate AllClosers(stack: seq<char>) {
    forall c | c in stack :: IsClose(c)
  }

  /** Both read a string alike, closed or not. */
  lemma {:induction false} StringIsSkipped(src: string, i: nat, quote: char, stack: seq<char>)
    ensures StackMatch(src, i, stack, Some(quote)) == StackMatch(src, StringEnd(src, i, quote) + 1, stack, None)
    decreases |src| - i
  {
    if i < |src| && src[i] == '\\' {
      StringIsSkipped(src, i + 2, quote, stack);
    } else if i < |src| && src[i] != quote {
      StringIsSkipped(src, i + 1, quote, stack);
    }
  }

  lemma {:induction false} StackMatchIsLater(src: string, i: nat, stack: seq<char>, quote: Option<char>)
    ensures StackMatch(src, i, stack, quote) == -1 || StackMatch(src, i, stack, quote) > i
    decreases |src| - i
  {
    if i < |src| {
      if quote.Some? {
        StackMatchIsLater(src, i + 2, stack, quote);
        StackMatchIsLater(src, i + 1, stack, if src[i] == quote.value then None else quote);
      } else if IsQuote(src[i]) {
        StackMatchIsLater(src, i + 1, stack, Some(src[i]));
      } else if IsOpen(src[i]) {
        StackMatchIsLater(src, i + 1, stack + [Closer(src[i])], None);
      } else {
        StackMatchIsLater(src, i + 1, stack, None);
        if stack != [] { StackMatchIsLater(src, i + 1, stack[..|stack| - 1], None); }
      }
    }
  }

  /** The counter finds no partner exactly when the running count never returns to zero. */
  lemma {:induction false} OpenMeansUnmatched(src: string, i: nat, depth: nat)
    requires depth >= 1
    ensures StaysOpen(src, i, depth) <==> CountMatch(src, i, depth) == -1
    decreases |src| - i
  {
    if i < |src| {
      if IsQuote(src[i]) {
        OpenMeansUnmatched(src, SkipString(src, i) + 1, depth);
      } else if IsOpen(src[i]) {
        OpenMeansUnmatched(src, i + 1, depth + 1);
      } else if IsClose(src[i]) {
        if depth > 1 { OpenMeansUnmatched(src, i + 1, depth - 1); }
      } else {
        OpenMeansUnmatched(src, i + 1, depth);
      }
    }
  }

  /** Once the stack is higher than the count it stays so, and the stack never closes where the counter does. */
  lemma {:induction false} StackFallsBehind(src: string, i: nat, depth: nat, stack: seq<char>)
    requires 1 <= depth < |stack| && AllClosers(stack)
    ensures CountMatch(src, i, depth) == -1 ==> StackMatch(src, i, stack, None) == -1
    ensures CountMatch(src, i, depth) != -1 ==> StackMatch(src, i, stack, None) != CountMatch(src, i, depth)
    decreases |src| - i
  {
    if i < |src| {
      if IsQuote(src[i]) {
        StringIsSkipped(src, i + 1, src[i], stack);
        StackFallsBehind(src, SkipString(src, i) + 1, depth, stack);
      } else if IsOpen(src[i]) {
        StackFallsBehind(src, i + 1, depth + 1, stack + [Closer(src[i])]);
      } else if IsClose(src[i]) {
        var left := if src[i] == stack[|stack| - 1] then stack[..|stack| - 1] else stack;
        StackMatchIsLater(src, i + 1, left, None);
        if depth > 1 { StackFallsBehind(src, i + 1, depth - 1, left); }
      } else {
        assert stack[|stack| - 1] in stack;
        StackFallsBehind(src, i + 1, depth, stack);
      }
    }
  }

  lemma {:induction false} AgreeFrom(src: string, i: nat, stack: seq<char>)
    requires stack != [] && AllClosers(stack)
    ensures CountMatch(src, i, |stack|) == StackMatch(src, i, stack, None)
       <==> StaysOpen(src, i, |stack|) || Nests(src, i, stack)
    decreases |src| - i
  {
    if i < |src| {
      if IsQuote(src[i]) {
        StringIsSkipped(src, i + 1, src[i], stack);
        AgreeFrom(src, SkipString(src, i) + 1, stack);
      } else if IsOpen(src[i]) {
        AgreeFrom(src, i + 1, stack + [Closer(src[i])]);
      } else if IsClose(src[i]) {
        AgreeAtClose(src, i, stack);
      } else {
        assert stack[|stack| - 1] in stack;
        AgreeFrom(src, i + 1, stack);
      }
    }
  }

  lemma {:induction false} AgreeAtClose(src: string, i: nat, stack: seq<char>)
    requires stack != [] && AllClosers(stack) && i < |src| && IsClose(src[i])
    ensures CountMatch(src, i, |stack|) == StackMatch(src, i, stack, None)
       <==> StaysOpen(src, i, |stack|) || Nests(src, i, stack)
    decreases |src| - i, 0
  {
    var n := |stack| - 1;
    if src[i] != stack[n] {
      StackMatchIsLater(src, i + 1, stack, None);
      if n > 0 {
        StackFallsBehind(src, i + 1, n, stack);
        OpenMeansUnmatched(src, i + 1, n);
      }
    } else if n > 0 {
      AgreeFrom(src, i + 1, stack[..n]);
    }
  }

  /**
   On any text the two matchers give an opening bracket the same answer exactly when the running count never returns
   to zero, and both find no partner, or every closing bracket up to the partner is the expected one.
   */
  lemma MatchersAgreeIff(src: string, open: nat)
    requires open < |src| && IsOpen(src[open])
    ensures MatchBalanced(src, open) == StackMatch(src, open, [], None)
       <==> StaysOpen(src, open + 1, 1) || Nests(src, open + 1, [Closer(src[open])])
  {
    assert [] + [Closer(src[open])] == [Closer(src[open])];
    AgreeFrom(src, open + 1, [Closer(src[open])]);
  }

  // ----- nesting is the grammar -----

  /** What lies before the quote that ends a string is a string body. */
  lemma {:induction false} BodyOfString(src: string, i: nat, quote: char)
    requires IsQuote(quote) && StringEnd(src, i, quote) + 1 < |src|
    ensures var e := StringEnd(src, i, quote); i <= e && src[e] == quote && IsQuotedBody(quote, src[i..e])
    decreases |src| - i
  {
    var e := StringEnd(src, i, quote);
    if src[i] == '\\' {
      BodyOfString(src, i + 2, quote);
      assert src[i..e][2..] == src[i + 2..e];
    } else if src[i] != quote {
      BodyOfString(src, i + 1, quote);
      assert src[i..e][1..] == src[i + 1..e];
    }
  }

  /** Nested text up to the bracket that closes the innermost level, and what nests after it. */
  ghost predicate Reads(src: string, i: nat, stack: seq<char>, t: Text, j: nat) {
    && stack != [] && IsText(t) && At(src, i, Render(t)) && j == i + |Render(t)| && j < |src|
    && src[j] == stack[|stack| - 1]
    && (|stack| > 1 ==> Nests(src, j + 1, stack[..|stack| - 1]))
  }

  lemma {:induction false} NestedIsText(src: string, i: nat, stack: seq<char>) returns (t: Text, j: nat)
    requires AllClosers(stack) && Nests(src, i, stack)
    ensures Reads(src, i, stack, t, j)
    decreases |src| - i, 1
  {
    if IsQuote(src[i]) {
      t, j := StringThenText(src, i, stack);
    } else if IsOpen(src[i]) {
      t, j := GroupThenText(src, i, stack);
    } else if IsClose(src[i]) {
      t, j := Nil, i;
    } else {
      var rest;
      rest, j := NestedIsText(src, i + 1, stack);
      t := Char(src[i], rest);
      AtJoins(src, i, [src[i]], Render(rest));
    }
  }

  lemma AtJoins(src: string, i: nat, a: string, b: string)
    requires At(src, i, a) && At(src, i + |a|, b)
    ensures At(src, i, a + b)
  {
  }

  lemma {:induction false} StringThenText(src: string, i: nat, stack: seq<char>) returns (t: Text, j: nat)
    requires AllClosers(stack) && Nests(src, i, stack) && IsQuote(src[i])
    ensures Reads(src, i, stack, t, j)
    decreases |src| - i, 0
  {
    var e := SkipString(src, i);
    var rest;
    rest, j := NestedIsText(src, e + 1, stack);
    BodyOfString(src, i + 1, src[i]);
    t := Quoted(src[i], src[i + 1..e], rest);
    assert At(src, i, [src[i]] + src[i + 1..e] + [src[i]]);
    AtJoins(src, i, [src[i]] + src[i + 1..e] + [src[i]], Render(rest));
  }

  function BracketOf(c: char): (b: Bracket)
    requires IsOpen(c)
    ensures OpenOf(b) == c && CloseOf(b) == Closer(c)
  {
    if c == '{' then Curly else if c == '(' then Round else Square
  }

  lemma {:induction false} GroupThenText(src: string, i: nat, stack: seq<char>) returns (t: Text, j: nat)
    requires AllClosers(stack) && Nests(src, i, stack) && IsOpen(src[i])
    ensures Reads(src, i, stack, t, j)
    decreases |src| - i, 0
  {
    var b := BracketOf(src[i]);
    var inside, k := NestedIsText(src, i + 1, stack + [CloseOf(b)]);
    assert (stack + [CloseOf(b)])[..|stack|] == stack;
    var rest;
    rest, j := NestedIsText(src, k + 1, stack);
    t := Group(b, inside, rest);
    AtJoins(src, i, [OpenOf(b)], Render(inside));
    AtJoins(src, i, [OpenOf(b)] + Render(inside), [CloseOf(b)]);
    AtJoins(src, i, Bracketed(b, inside), Render(rest));
  }

  /** Some text of the grammar stands bracketed at `open`. */
  ghost predicate BracketsText(src: string, open: nat) {
    exists b, inside :: IsText(inside) && At(src, open, Bracketed(b, inside))
  }

  /** The brackets nest from `open` on exactly when a bracketed text of the grammar stands there. */
  lemma NestsIffText(src: string, open: nat)
    requires open < |src| && IsOpen(src[open])
    ensures Nests(src, open + 1, [Closer(src[open])]) <==> BracketsText(src, open)
  {
    var stack := [Closer(src[open])];
    if Nests(src, open + 1, stack) {
      var b := BracketOf(src[open]);
      var t, j := NestedIsText(src, open + 1, stack);
      assert At(src, open, Bracketed(b, t));
    }
    if BracketsText(src, open) {
      var b, inside :| IsText(inside) && At(src, open, Bracketed(b, inside));
      var j := open + 1 + |Render(inside)|;
      AtWrapped(src, open, OpenOf(b), Render(inside), CloseOf(b));
      TextIsPassed(src, open + 1, j, inside, 1, stack);
    }
  }

  /** The counter takes any closing bracket, the stack waits for its own. */
  lemma MatchersPartOnMismatch()
    ensures MatchBalanced("(])", 0) == 2 && StackMatch("(])", 0, [], None) == 3
  {
    assert CountMatch("(])", 1, 1) == 2;
    assert [] + [')'] == [')'];
    assert StackMatch("(])", 1, [')'], None) == StackMatch("(])", 2, [')'], None);
  }

  /** A bracket quoted in any of the three ways counts for neither matcher. */
  lemma QuotesHideBrackets(src: string, quote: char)
    requires quote in {'"', '\'', '`'} && src == ['(', quote, ')', quote, ')']
    ensures MatchBalanced(src, 0) == 5 && StackMatch(src, 0, [], None) == 5
  {
    var inside := Quoted(quote, ")", Nil);
    assert IsQuotedBody(quote, []) && IsQuotedBody(quote, ")") && IsText(inside);
    assert Render(Nil) == "" && Render(inside) == [quote, ')', quote];
    assert Bracketed(Round, inside) == src && At(src, 0, Bracketed(Round, inside));
    BothMatchersAgree(src, 0, Round, inside);
  }

  /** Each kind of bracket is closed by its own. */
  lemma EachBracketIsMatched(src: string, open: char, close: char)
    requires (open, close) in {('(', ')'), ('[', ']'), ('{', '}')} && src == [open, close]
    ensures MatchBalanced(src, 0) == 2 && StackMatch(src, 0, [], None) == 2
  {
    var b := if open == '(' then Round else if open == '[' then Square else Curly;
    assert Render(Nil) == "" && Bracketed(b, Nil) == src && At(src, 0, Bracketed(b, Nil));
    BothMatchersAgree(src, 0, b, Nil);
  }
}
