/** The `where` bodies the analysis is meant for, and what it finds in every one of them. */
module WhereGrammar {
  import opened Scanning
  import opened WhereScanning

  /** What a combinator applies to: an object, or any bracketed list around objects. */
  datatype Cond =
    | CondEnd
    | CondChar(c: char, after: Cond)
    | CondQuoted(quote: char, text: string, after: Cond)
    | CondObject(where: Body, after: Cond)
    | CondGroup(bracket: Bracket, inside: Cond, after: Cond)

  /** The properties of a `where` object, each after the space and commas that separate it from the last. */
  datatype Body =
    | End(sep: string)
    | Short(sep: string, key: string, gap: string, rest: Body)
    | Pair(sep: string, key: string, gap: string, value: Text, rest: Body)
    | Combine(sep: string, key: string, gap: string, operand: Cond, rest: Body)
    | Other(sep: string, text: Text, rest: Body)

  function RenderCond(c: Cond): string {
    match c
    case CondEnd => ""
    case CondChar(ch, after) => [ch] + RenderCond(after)
    case CondQuoted(quote, text, after) => ([quote] + text + [quote]) + RenderCond(after)
    case CondObject(w, after) => (['{'] + RenderBody(w) + ['}']) + RenderCond(after)
    case CondGroup(b, inside, after) => ([OpenOf(b)] + RenderCond(inside) + [CloseOf(b)]) + RenderCond(after)
  }

  function RenderBody(b: Body): string
    decreases b, 1
  {
    b.sep + AfterSep(b)
  }

  /** The part of a body after its separators. */
  function AfterSep(b: Body): string
    decreases b, 0
  {
    match b
    case End(_) => ""
    case Short(_, key, gap, rest) => key + (gap + RenderBody(rest))
    case Pair(_, key, gap, value, rest) => key + (gap + ([':'] + (Render(value) + RenderBody(rest))))
    case Combine(_, key, gap, operand, rest) => key + (gap + ([':'] + (RenderCond(operand) + RenderBody(rest))))
    case Other(_, text, rest) => Render(text) + RenderBody(rest)
  }

  predicate IsGap(s: string) { forall k | 0 <= k < |s| :: IsSpace(s[k]) }

  predicate IsSep(s: string) { forall k | 0 <= k < |s| :: IsSpace(s[k]) || s[k] == ',' }

  predicate IsLetter(c: char) { 'A' <= c <= 'Z' || 'a' <= c <= 'z' || c == '_' }

  predicate IsKey(s: string) {
    s != [] && IsLetter(s[0]) && forall k | 0 <= k < |s| :: IsLetter(s[k]) || '0' <= s[k] <= '9'
  }

  /** Blanks, tabs and line ends are space; what the grammar reads otherwise is not. */
  lemma SpaceIs(c: char)
    ensures c in " \t\n\r" ==> IsSpace(c)
    ensures IsSpace(c) ==> IsPlain(c) && !IsLetter(c) && c != ',' && c != ':' && !('0' <= c <= '9')
  {
  }

  /** No comma outside the brackets and strings. */
  predicate NoComma(t: Text) {
    match t
    case Nil => true
    case Char(c, rest) => c != ',' && NoComma(rest)
    case Quoted(_, _, rest) => NoComma(rest)
    case Group(_, _, rest) => NoComma(rest)
  }

  predicate NoCommaCond(c: Cond) {
    match c
    case CondEnd => true
    case CondChar(ch, after) => ch != ',' && NoCommaCond(after)
    case CondQuoted(_, _, after) => NoCommaCond(after)
    case CondObject(_, after) => NoCommaCond(after)
    case CondGroup(_, _, after) => NoCommaCond(after)
  }

  /** After a property comes a comma, or nothing. */
  predicate Separated(b: Body) {
    (b.sep != "" && b.sep[0] == ',') || b == End("")
  }

  /** Neither a key nor a separator starts here: a spread, a computed or a quoted key. */
  predicate StartsOther(t: Text) {
    !t.Nil? && (t.Char? ==> !IsSpace(t.c) && t.c != ',' && !IsLetter(t.c))
  }

  predicate IsCond(c: Cond) {
    match c
    case CondEnd => true
    case CondChar(ch, after) => IsPlain(ch) && IsCond(after)
    case CondQuoted(quote, text, after) => IsQuote(quote) && IsQuotedBody(quote, text) && IsCond(after)
    case CondObject(w, after) => IsBody(w) && IsCond(after)
    case CondGroup(b, inside, after) => b != Curly && IsCond(inside) && IsCond(after)
  }

  predicate IsBody(b: Body) {
    && IsSep(b.sep)
    && match b
       case End(_) => true
       case Short(_, key, gap, rest) => IsKey(key) && IsGap(gap) && IsBody(rest) && Separated(rest)
       case Pair(_, key, gap, value, rest) =>
         && IsKey(key) && key !in {"AND", "OR", "NOT"} && IsGap(gap)
         && IsText(value) && NoComma(value) && IsBody(rest) && Separated(rest)
       case Combine(_, key, gap, operand, rest) =>
         && key in {"AND", "OR", "NOT"} && IsGap(gap)
         && IsCond(operand) && NoCommaCond(operand) && IsBody(rest) && Separated(rest)
       case Other(_, text, rest) =>
         IsText(text) && NoComma(text) && StartsOther(text) && IsBody(rest) && Separated(rest)
  }

  /**
   The key stands at the top level, or in an object some chain of combinators applies to; relation
   filters do not count.
   */
  predicate Occurs(b: Body, key: string) {
    match b
    case End(_) => false
    case Short(_, k, _, rest) => k == key || Occurs(rest, key)
    case Pair(_, k, _, _, rest) => k == key || Occurs(rest, key)
    case Combine(_, _, _, operand, rest) => OccursIn(operand, key) || Occurs(rest, key)
    case Other(_, _, rest) => Occurs(rest, key)
  }

  predicate OccursIn(c: Cond, key: string) {
    match c
    case CondEnd => false
    case CondChar(_, after) => OccursIn(after, key)
    case CondQuoted(_, _, after) => OccursIn(after, key)
    case CondObject(w, after) => Occurs(w, key) || OccursIn(after, key)
    case CondGroup(_, inside, after) => OccursIn(inside, key) || OccursIn(after, key)
  }

  function ShapeOf(b: Body): Shape {
    Shape(Occurs(b, "id"), Occurs(b, "congregationId"), Occurs(b, "id_congregationId"))
  }

  function ShapeIn(c: Cond): Shape {
    Shape(OccursIn(c, "id"), OccursIn(c, "congregationId"), OccursIn(c, "id_congregationId"))
  }

  // ----- a body is nested text -----

  function Chars(s: string, t: Text): Text {
    if s == [] then t else Char(s[0], Chars(s[1..], t))
  }

  function Append(a: Text, b: Text): Text {
    match a
    case Nil => b
    case Char(c, rest) => Char(c, Append(rest, b))
    case Quoted(quote, body, rest) => Quoted(quote, body, Append(rest, b))
    case Group(k, inside, rest) => Group(k, inside, Append(rest, b))
  }

  function CondText(c: Cond): Text {
    match c
    case CondEnd => Nil
    case CondChar(ch, after) => Char(ch, CondText(after))
    case CondQuoted(quote, text, after) => Quoted(quote, text, CondText(after))
    case CondObject(w, after) => Group(Curly, BodyText(w), CondText(after))
    case CondGroup(b, inside, after) => Group(b, CondText(inside), CondText(after))
  }

  function BodyText(b: Body): Text {
    match b
    case End(sep) => Chars(sep, Nil)
    case Short(sep, key, gap, rest) => Chars(sep, Chars(key, Chars(gap, BodyText(rest))))
    case Pair(sep, key, gap, value, rest) =>
      Chars(sep, Chars(key, Chars(gap, Char(':', Append(value, BodyText(rest))))))
    case Combine(sep, key, gap, operand, rest) =>
      Chars(sep, Chars(key, Chars(gap, Char(':', Append(CondText(operand), BodyText(rest))))))
    case Other(sep, text, rest) => Chars(sep, Append(text, BodyText(rest)))
  }

  predicate AllPlain(s: string) { forall k | 0 <= k < |s| :: IsPlain(s[k]) }

  lemma {:induction false} CharsRender(s: string, t: Text)
    requires AllPlain(s) && IsText(t)
    ensures IsText(Chars(s, t)) && Render(Chars(s, t)) == s + Render(t)
  {
    if s == [] {
      assert s + Render(t) == Render(t);
    } else {
      CharsRender(s[1..], t);
      assert [s[0]] + (s[1..] + Render(t)) == s + Render(t);
    }
  }

  lemma {:induction false} AppendRender(a: Text, b: Text)
    requires IsText(a) && IsText(b)
    ensures IsText(Append(a, b)) && Render(Append(a, b)) == Render(a) + Render(b)
    decreases a
  {
    match a
    case Nil =>
      assert Render(a) + Render(b) == Render(b);
    case Char(c, rest) =>
      AppendRender(rest, b);
      assert [c] + (Render(rest) + Render(b)) == ([c] + Render(rest)) + Render(b);
    case Quoted(quote, body, rest) =>
      AppendRender(rest, b);
      var q := [quote] + body + [quote];
      assert q + (Render(rest) + Render(b)) == (q + Render(rest)) + Render(b);
    case Group(k, inside, rest) =>
      AppendRender(rest, b);
      var g := [OpenOf(k)] + Render(inside) + [CloseOf(k)];
      assert g + (Render(rest) + Render(b)) == (g + Render(rest)) + Render(b);
  }

  lemma {:induction false} CondIsText(c: Cond)
    requires IsCond(c)
    ensures IsText(CondText(c)) && Render(CondText(c)) == RenderCond(c)
    ensures NoCommaCond(c) ==> NoComma(CondText(c))
  {
    match c
    case CondEnd =>
    case CondChar(_, after) => CondIsText(after);
    case CondQuoted(_, _, after) => CondIsText(after);
    case CondObject(w, after) => BodyIsText(w); CondIsText(after);
    case CondGroup(_, inside, after) => CondIsText(inside); CondIsText(after);
  }

  lemma CombinatorIsKey(key: string)
    requires key in COMBINATORS
    ensures IsKey(key)
  {
  }

  lemma SeparatorsArePlain(sep: string)
    requires IsSep(sep) || IsKey(sep)
    ensures AllPlain(sep)
  {
  }

  lemma ShortRender(sep: string, key: string, gap: string, t: Text)
    requires AllPlain(sep) && AllPlain(key) && AllPlain(gap) && IsText(t)
    ensures var k := Chars(sep, Chars(key, Chars(gap, t)));
            IsText(k) && Render(k) == sep + (key + (gap + Render(t)))
  {
    CharsRender(gap, t);
    CharsRender(key, Chars(gap, t));
    CharsRender(sep, Chars(key, Chars(gap, t)));
  }

  lemma {:induction false} BodyIsText(b: Body)
    requires IsBody(b)
    ensures IsText(BodyText(b)) && Render(BodyText(b)) == RenderBody(b)
  {
    SeparatorsArePlain(b.sep);
    if !b.End? { BodyIsText(b.rest); }
    match b
    case End(sep) =>
      CharsRender(sep, Nil);
      assert sep + "" == sep;
    case Short(sep, key, gap, rest) =>
      SeparatorsArePlain(key);
      SeparatorsArePlain(gap);
      ShortRender(sep, key, gap, BodyText(rest));
    case Pair(sep, key, gap, value, rest) =>
      SeparatorsArePlain(key);
      SeparatorsArePlain(gap);
      AppendRender(value, BodyText(rest));
      KeyedRender(sep, key, gap, Append(value, BodyText(rest)));
    case Combine(sep, key, gap, operand, rest) =>
      CombinatorIsKey(key);
      SeparatorsArePlain(key);
      SeparatorsArePlain(gap);
      CondIsText(operand);
      AppendRender(CondText(operand), BodyText(rest));
      KeyedRender(sep, key, gap, Append(CondText(operand), BodyText(rest)));
    case Other(sep, text, rest) =>
      AppendRender(text, BodyText(rest));
      CharsRender(sep, Append(text, BodyText(rest)));
  }

  lemma KeyedRender(sep: string, key: string, gap: string, t: Text)
    requires AllPlain(sep) && AllPlain(key) && AllPlain(gap) && IsText(t)
    ensures var k := Chars(sep, Chars(key, Chars(gap, Char(':', t))));
            IsText(k) && Render(k) == sep + (key + (gap + ([':'] + Render(t))))
  {
    ShortRender(sep, key, gap, Char(':', t));
  }
}
