/**
 * Properties of the parser rules (src/parser.rs and the grammar its tests
 * pin down). Some hold for every lawful token source: how each rule reacts
 * to the tokens it is given. The others are about the token source of a
 * tokenizer with the twelve-rule table: type names read back, and the
 * texts of union types, indentations and declarations parse back to the
 * values they print.
 */
module ParsingFacts {
  import opened Wrappers
  import opened Decimal
  import opened Tokens
  import opened Lexer
  import opened LexerFacts
  import opened Parsing

  /**
   * `lex` is the token source of a tokenizer over `src` whose rule table has
   * the shape of the one `Tokenizer::new` installs.
   */
  ghost predicate TableSource(specs: seq<Spec>, lex: TokenSource, src: string) {
    IsTokenizerTable(specs) && Lawful(lex, |src|) && Agrees(lex, specs, src)
  }

  /** The tokenizer over any text, with such a table, is a table source. */
  lemma LexingIsTableSource(specs: seq<Spec>, src: string)
    requires IsTokenizerTable(specs)
    ensures TableSource(specs, Lexing(specs, src), src)
  {
  }

  /** A parser over a tokenizer made by `Tokenizer::new` reads a table source. */
  lemma ParserReadsTable(p: Parser)
    requires p.Valid() && p.tokenizer.specs == Specs
    ensures TableSource(Specs, p.lex, p.tokenizer.source)
  {
    SpecsTable();
  }

  // ---------------------------------------------------------------------
  // Type names

  /** Every simple type converts back from its own name. */
  lemma TypeNameRoundTrip(t: SimpleType)
    ensures SimpleTypeFrom(TypeName(t)) == Ok(t)
  {
  }

  /** Different simple types have different names. */
  lemma TypeNameInjective(a: SimpleType, b: SimpleType)
    requires TypeName(a) == TypeName(b)
    ensures a == b
  {
    TypeNameRoundTrip(a);
    TypeNameRoundTrip(b);
  }

  /** The position of a simple type's name among the alternatives of the keyword rule. */
  function KeywordIndex(t: SimpleType): (j: nat)
    ensures j < 7 && Keywords[j] == TypeName(t)
  {
    match t
    case Number => 0
    case Str => 1
    case String => 2
    case None => 3
    case Empty => 4
    case Never => 5
    case List => 6
  }

  /** A keyword that differs from a text at some position inside both is not a prefix of it. */
  lemma NotPrefixAt(w: string, s: string, k: nat)
    requires k < |w| && k < |s| && w[k] != s[k]
    ensures !(w <= s)
  {
  }

  /**
   * A text that starts with the name of a simple type is matched by the
   * keyword rule for exactly that name: no earlier alternative is a prefix
   * of it.
   */
  lemma TypeNameKeyword(t: SimpleType, s: string)
    requires TypeName(t) <= s
    ensures KeywordLength(s, 0) == |TypeName(t)|
  {
    var j := KeywordIndex(t);
    forall i | 0 <= i < j
      ensures !(Keywords[i] <= s)
    {
      var k := if (i == 0 && j == 3) || (i == 0 && j == 5) || (i == 3 && j == 5) then 1 else 0;
      assert s[k] == Keywords[j][k];
      NotPrefixAt(Keywords[i], s, k);
    }
    KeywordLengthIs(s, 0, j);
  }

  /** The name of a simple type at `c` starts like a name, and the keyword rule matches exactly it. */
  lemma TypeNameAt(src: string, c: nat, t: SimpleType)
    requires c + |TypeName(t)| <= |src| && src[c..c + |TypeName(t)|] == TypeName(t)
    ensures c < |src| && StartsLikeName(src[c]) && KeywordLength(src[c..], 0) == |TypeName(t)|
  {
    var n := |TypeName(t)|;
    assert src[c..][..n] == TypeName(t);
    TypeNameKeyword(t, src[c..]);
    assert src[c] == TypeName(t)[0];
  }

  /** The name of a simple type at the cursor is one type-name token carrying that name. */
  lemma LexTypeName(specs: seq<Spec>, src: string, c: nat, t: SimpleType, consume: bool)
    requires IsTokenizerTable(specs)
    requires c + |TypeName(t)| <= |src| && src[c..c + |TypeName(t)|] == TypeName(t)
    ensures Next(specs, src, c, consume) == Found(Token.SimpleType(TypeName(t)), c, |TypeName(t)|, consume)
  {
    TypeNameAt(src, c, t);
    LexKeyword(specs, src, c, |TypeName(t)|, consume);
  }

  /** `Array` is lexed as a type name. */
  lemma ArrayLexes(specs: seq<Spec>)
    requires IsTokenizerTable(specs)
    ensures Next(specs, "Array", 0, true) == Scan(Ok(Some(Token.SimpleType("Array"))), 5)
  {
    var src := "Array";
    assert src[0..] == src && src[0..5] == src;
    assert KeywordLength(src[0..], 0) == 5 by {
      ArrayKeywordLength();
    }
    LexKeyword(specs, src, 0, 5, true);
  }

  /** `Array` is the last alternative of the keyword rule and no earlier one is a prefix of it. */
  lemma ArrayKeywordLength()
    ensures KeywordLength("Array", 0) == 5
  {
    forall i | 0 <= i < 7
      ensures !(Keywords[i] <= "Array")
    {
      NotPrefixAt(Keywords[i], "Array", 0);
    }
    KeywordLengthIs("Array", 0, 7);
  }

  // ---------------------------------------------------------------------
  // How each rule reacts to the tokens it gets, for any lawful token source

  /**
   * A type-name token whose text is not one of the seven simple types makes
   * `parse_simple_type` and `parse_type` fail with that text.
   */
  lemma InvalidTypeOn(lex: TokenSource, n: nat, c: nat, text: string, e: nat)
    requires Lawful(lex, n) && c <= e <= n
    requires lex(c, true) == Scan(Ok(Some(Token.SimpleType(text))), e)
    requires SimpleTypeFrom(text).Err?
    ensures SimpleTypeRule(lex, n, c) == Step(Err(InvalidType(text)), e)
    ensures TypeRule(lex, n, c) == Step(Err(InvalidType(text)), e)
  {
  }

  /** A lexer error at the cursor is the result of every rule that starts there, unchanged. */
  lemma LexErrorsPassThrough(lex: TokenSource, n: nat, c: nat, e: LexError)
    requires Lawful(lex, n) && c <= n
    requires lex(c, true).result == Err(e)
    ensures LiteralRule(lex, n, c).result == Err(LexFailure(e))
    ensures SimpleTypeRule(lex, n, c).result == Err(LexFailure(e))
    ensures TypeRule(lex, n, c).result == Err(LexFailure(e))
    ensures PipeRule(lex, n, c, true).result == Err(LexFailure(e))
    ensures UnionRule(lex, n, c).result == Err(LexFailure(e))
    ensures IndentRule(lex, n, c).result == Err(LexFailure(e))
    ensures VariableRule(lex, n, c).result == Err(LexFailure(e))
    ensures EqualRule(lex, n, c).result == Err(LexFailure(e))
    ensures DeclarationRule(lex, n, c).result == Err(LexFailure(e))
  {
  }

  /** `parse_type` succeeds exactly when `parse_simple_type` does, wraps its type and keeps its error. */
  lemma TypeRuleWraps(lex: TokenSource, n: nat, c: nat)
    requires Lawful(lex, n) && c <= n
    ensures var s := SimpleTypeRule(lex, n, c);
      var r := TypeRule(lex, n, c);
      && r.cursor == s.cursor
      && (r.result.Ok? <==> s.result.Ok?)
      && (r.result.Ok? ==> r.result.value == Simple(s.result.value))
      && (r.result.Err? ==> r.result.error == s.result.error)
  {
  }

  /** `parse_simple_type` on the token of a type name. */
  lemma SimpleTypeOn(lex: TokenSource, n: nat, c: nat, t: SimpleType, e: nat)
    requires Lawful(lex, n) && c <= e <= n
    requires lex(c, true) == Scan(Ok(Some(Token.SimpleType(TypeName(t)))), e)
    ensures SimpleTypeRule(lex, n, c) == Step(Ok(t), e)
  {
    TypeNameRoundTrip(t);
  }

  /** The next token, peeked at `d`, is not a lexer error and not `tok` (the end of the text qualifies). */
  predicate NotAhead(lex: TokenSource, d: nat, tok: Token) {
    lex(d, false).result.Ok? && lex(d, false).result != Ok(Some(tok))
  }

  /** A union parse with `t` put in front of its types; errors are kept. */
  function Prepend(t: SimpleType, r: Step<UnionType>): (p: Step<UnionType>)
    ensures p.cursor == r.cursor && p.result.Ok? == r.result.Ok?
    ensures r.result.Ok? ==> p.result.value.types == [t] + r.result.value.types
  {
    match r.result
    case Ok(u) => Step(Ok(UnionType([t] + u.types)), r.cursor)
    case Err(e) => Step(Err(e), r.cursor)
  }

  /** After its first type, `parse_union_type` stops at a peeked token that is not a pipe. */
  lemma UnionEndsAt(lex: TokenSource, n: nat, c: nat, t: SimpleType, e: nat)
    requires Lawful(lex, n) && c <= e <= n
    requires SimpleTypeRule(lex, n, c) == Step(Ok(t), e)
    requires NotAhead(lex, e, Token.Pipe)
    ensures UnionRule(lex, n, c) == Step(Ok(UnionType([t])), lex(e, false).cursor)
  {
  }

  /** After its first type, `parse_union_type` consumes a peeked pipe and goes on after it. */
  lemma UnionGoesOnAt(lex: TokenSource, n: nat, c: nat, t: SimpleType, e: nat)
    requires Lawful(lex, n) && c <= e && e + 2 <= n
    requires SimpleTypeRule(lex, n, c) == Step(Ok(t), e)
    requires lex(e, false) == Scan(Ok(Some(Token.Pipe)), e + 1)
    requires lex(e + 1, true) == Scan(Ok(Some(Token.Pipe)), e + 2)
    ensures UnionRule(lex, n, c) == Prepend(t, UnionRule(lex, n, e + 2))
  {
  }

  /** A union that meets the end of the text where a type is due fails with `EOF`. */
  lemma UnionAtEnd(lex: TokenSource, n: nat, c: nat)
    requires Lawful(lex, n) && c <= n
    requires lex(c, true) == Scan(Ok(Option.None), n)
    ensures UnionRule(lex, n, c) == Step(Err(Expected(SimpleTypeName, Token.EOF)), n)
  {
  }

  /** One more indentation unit in front of a parsed indentation; errors are kept. */
  function OneMore(r: Step<Indentation>): (m: Step<Indentation>)
    ensures m.cursor == r.cursor && m.result.Ok? == r.result.Ok?
    ensures r.result.Ok? ==> m.result.value.count == r.result.value.count + 1
  {
    match r.result
    case Ok(k) => Step(Ok(Indentation(1 + k.count)), r.cursor)
    case Err(e) => Step(Err(e), r.cursor)
  }

  /** After a consumed `Tab`, `parse_identation` stops at a peeked token that is not a `Tab`. */
  lemma IndentEndsAt(lex: TokenSource, n: nat, c: nat, e: nat)
    requires Lawful(lex, n) && c <= e <= n
    requires lex(c, true) == Scan(Ok(Some(Token.Tab)), e)
    requires NotAhead(lex, e, Token.Tab)
    ensures IndentRule(lex, n, c) == Step(Ok(Indentation(1)), lex(e, false).cursor)
  {
  }

  /** After a consumed `Tab`, a peeked `Tab` is counted together with the indentation that starts there. */
  lemma IndentGoesOnAt(lex: TokenSource, n: nat, c: nat, e: nat)
    requires Lawful(lex, n) && c <= e <= n
    requires lex(c, true) == Scan(Ok(Some(Token.Tab)), e)
    requires lex(e, false) == Scan(Ok(Some(Token.Tab)), e)
    ensures IndentRule(lex, n, c) == OneMore(IndentRule(lex, n, e))
  {
  }

  /** `parse_variable` on a `Variable` token. */
  lemma VariableOn(lex: TokenSource, n: nat, c: nat, name: string, e: nat)
    requires Lawful(lex, n) && c <= e <= n
    requires lex(c, true) == Scan(Ok(Some(Token.Variable(name))), e)
    ensures VariableRule(lex, n, c) == Step(Ok(Variable.Variable(name)), e)
  {
  }

  /** The token a literal is read from. */
  function LiteralToken(l: Literal): Token {
    match l
    case StringLiteral(text) => Token.String(text)
    case NumberLiteral(value) => Token.Number(value)
  }

  /** `parse_literal` on the token of a literal. */
  lemma LiteralOn(lex: TokenSource, n: nat, c: nat, l: Literal, e: nat)
    requires Lawful(lex, n) && c <= e <= n
    requires lex(c, true) == Scan(Ok(Some(LiteralToken(l))), e)
    ensures LiteralRule(lex, n, c) == Step(Ok(l), e)
  {
  }

  /** `=` at the cursor, for the rule that expects it. */
  lemma EqualOn(lex: TokenSource, n: nat, c: nat, e: nat)
    requires Lawful(lex, n) && c <= e <= n
    requires lex(c, true) == Scan(Ok(Some(Token.Equal)), e)
    ensures EqualRule(lex, n, c) == Step(Ok(()), e)
  {
  }

  /** `parse_declaration` when the name is followed by `=`. */
  lemma UntypedDeclarationOn(lex: TokenSource, n: nat, c: nat, v: Variable, m: nat, l: Literal, f: nat)
    requires Lawful(lex, n) && c <= m && m + 2 <= f <= n
    requires VariableRule(lex, n, c) == Step(Ok(v), m)
    requires lex(m, false) == Scan(Ok(Some(Token.Equal)), m + 1)
    requires lex(m + 1, true) == Scan(Ok(Some(Token.Equal)), m + 2)
    requires LiteralRule(lex, n, m + 2) == Step(Ok(l), f)
    ensures DeclarationRule(lex, n, c) == Step(Ok(Declaration(v, Option.None, l)), f)
  {
  }

  // ---------------------------------------------------------------------
  // Reading texts piece by piece

  /** A slice that spells `a + b` is the slice that spells `a` followed by the slice that spells `b`. */
  lemma SplitJoined(src: string, p: nat, a: string, b: string)
    requires p + |a| + |b| <= |src| && src[p..p + |a| + |b|] == a + b
    ensures src[p..p + |a|] == a && src[p + |a|..p + |a| + |b|] == b
  {
    var x := src[p..p + |a| + |b|];
    assert src[p..p + |a|] == x[..|a|];
    assert src[p + |a|..p + |a| + |b|] == x[|a|..];
  }

  /** The three characters of a three-character slice. */
  lemma ThreeChars(src: string, e: nat, w: string)
    requires |w| == 3 && e + 3 <= |src| && src[e..e + 3] == w
    ensures src[e] == w[0] && src[e + 1] == w[1] && src[e + 2] == w[2]
  {
    assert src[e..e + 3][0] == src[e];
    assert src[e..e + 3][1] == src[e + 1];
    assert src[e..e + 3][2] == src[e + 2];
  }

  /** A text that has, at `c`, `lead` (at most one) space and then `body`. */
  predicate LeadsTo(src: string, c: nat, lead: nat, body: string) {
    && lead <= 1
    && c + lead + |body| <= |src|
    && (lead == 1 ==> src[c] == ' ')
    && src[c + lead..c + lead + |body|] == body
  }

  /** The space in front of a body that does not start with white space is skipped. */
  lemma SkipLead(specs: seq<Spec>, src: string, c: nat, lead: nat, body: string, consume: bool)
    requires IsTokenizerTable(specs)
    requires LeadsTo(src, c, lead, body) && |body| > 0 && !IsSpace(body[0])
    ensures Next(specs, src, c, consume) == Next(specs, src, c + lead, consume)
  {
    if lead == 1 {
      assert src[c + 1] == src[c + 1..c + 1 + |body|][0];
      SkipOneSpace(specs, src, c, consume);
    }
  }

  /** A last space in the text is skipped, and then there is nothing to read. */
  lemma SpaceThenEnd(specs: seq<Spec>, lex: TokenSource, src: string, k: nat)
    requires TableSource(specs, lex, src)
    requires k + 1 == |src| && src[k] == ' '
    ensures lex(k, true) == Scan(Ok(Option.None), |src|)
  {
    SkipOneSpace(specs, src, k, true);
    assert Next(specs, src, |src|, true) == Scan(Ok(Option.None), |src|);
  }

  /** At the end of the text there is nothing to read, peeking or consuming. */
  lemma EndOfText(specs: seq<Spec>, lex: TokenSource, src: string, consume: bool)
    requires TableSource(specs, lex, src)
    ensures lex(|src|, consume) == Scan(Ok(Option.None), |src|)
  {
    assert Next(specs, src, |src|, consume) == Scan(Ok(Option.None), |src|);
  }

  // ---------------------------------------------------------------------
  // Union types

  /** The source text of a union: the type names joined by ` | `. */
  function UnionText(ts: seq<SimpleType>): (s: string)
    requires |ts| >= 1
    ensures |s| >= |TypeName(ts[0])|
    decreases |ts|
  {
    if |ts| == 1 then TypeName(ts[0]) else TypeName(ts[0]) + " | " + UnionText(ts[1..])
  }

  /** A type name does not start with white space. */
  lemma TypeNameStart(t: SimpleType)
    ensures |TypeName(t)| > 0 && !IsSpace(TypeName(t)[0])
  {
  }

  /** The tokenizer reads a type name after at most one space as one type-name token. */
  lemma TypeNameScan(specs: seq<Spec>, src: string, c: nat, lead: nat, t: SimpleType, e: nat)
    requires IsTokenizerTable(specs)
    requires LeadsTo(src, c, lead, TypeName(t)) && e == c + lead + |TypeName(t)|
    ensures Next(specs, src, c, true) == Scan(Ok(Some(Token.SimpleType(TypeName(t)))), e)
  {
    TypeNameStart(t);
    SkipLead(specs, src, c, lead, TypeName(t), true);
    LexTypeName(specs, src, c + lead, t, true);
    assert Found(Token.SimpleType(TypeName(t)), c + lead, |TypeName(t)|, true) == Scan(Ok(Some(Token.SimpleType(TypeName(t)))), e);
  }

  /** A type name, after at most one space, ending at `e`, is one type-name token. */
  lemma TypeNameLexes(specs: seq<Spec>, lex: TokenSource, src: string, c: nat, lead: nat, t: SimpleType, e: nat)
    requires TableSource(specs, lex, src)
    requires LeadsTo(src, c, lead, TypeName(t)) && e == c + lead + |TypeName(t)|
    ensures lex(c, true) == Scan(Ok(Some(Token.SimpleType(TypeName(t)))), e)
  {
    TypeNameScan(specs, src, c, lead, t, e);
  }

  /** A type name after at most one space, ending at `e`, parses as that simple type. */
  lemma SimpleTypeAt(specs: seq<Spec>, lex: TokenSource, src: string, c: nat, lead: nat, t: SimpleType, e: nat)
    requires TableSource(specs, lex, src)
    requires LeadsTo(src, c, lead, TypeName(t)) && e == c + lead + |TypeName(t)|
    ensures SimpleTypeRule(lex, |src|, c) == Step(Ok(t), e)
  {
    TypeNameLexes(specs, lex, src, c, lead, t, e);
    SimpleTypeOn(lex, |src|, c, t, e);
  }

  /** `Array` is lexed as a type name but is not a simple type: `parse_simple_type` and `parse_type` reject it. */
  lemma ArrayIsInvalidType(specs: seq<Spec>, lex: TokenSource)
    requires TableSource(specs, lex, "Array")
    ensures SimpleTypeRule(lex, 5, 0) == Step(Err(InvalidType("Array")), 5)
    ensures TypeRule(lex, 5, 0) == Step(Err(InvalidType("Array")), 5)
  {
    ArrayLexes(specs);
    InvalidTypeOn(lex, 5, 0, "Array", 5);
  }

  /** ` | ` at `e`: peeking finds a pipe after the space, and consuming from there moves past it. */
  lemma PipeAhead(specs: seq<Spec>, lex: TokenSource, src: string, e: nat)
    requires TableSource(specs, lex, src)
    requires e + 3 <= |src| && src[e..e + 3] == " | "
    ensures src[e + 2] == ' '
    ensures lex(e, false) == Scan(Ok(Some(Token.Pipe)), e + 1)
    ensures lex(e + 1, true) == Scan(Ok(Some(Token.Pipe)), e + 2)
  {
    ThreeChars(src, e, " | ");
    SkipOneSpace(specs, src, e, false);
    LexSymbol(specs, src, e + 1, false);
    LexSymbol(specs, src, e + 1, true);
  }

  /** A type name ending at `e`, followed by ` | `: the union is that type in front of the union parsed after the pipe. */
  lemma UnionStep(specs: seq<Spec>, lex: TokenSource, src: string, c: nat, lead: nat, t: SimpleType, e: nat)
    requires TableSource(specs, lex, src)
    requires LeadsTo(src, c, lead, TypeName(t) + " | ") && e == c + lead + |TypeName(t)|
    ensures e + 3 <= |src| && src[e + 2] == ' '
    ensures UnionRule(lex, |src|, c) == Prepend(t, UnionRule(lex, |src|, e + 2))
  {
    SplitJoined(src, c + lead, TypeName(t), " | ");
    SimpleTypeAt(specs, lex, src, c, lead, t, e);
    PipeAhead(specs, lex, src, e);
    UnionGoesOnAt(lex, |src|, c, t, e);
  }

  /** A type name ending at `d`, followed by a token that is not a pipe: a union of that one type. */
  lemma UnionLast(specs: seq<Spec>, lex: TokenSource, src: string, c: nat, lead: nat, t: SimpleType, d: nat)
    requires TableSource(specs, lex, src)
    requires LeadsTo(src, c, lead, TypeName(t)) && d == c + lead + |TypeName(t)|
    requires NotAhead(lex, d, Token.Pipe)
    ensures UnionRule(lex, |src|, c) == Step(Ok(UnionType([t])), lex(d, false).cursor)
  {
    SimpleTypeAt(specs, lex, src, c, lead, t, d);
    UnionEndsAt(lex, |src|, c, t, d);
  }

  /** The first type put back in front of a union of the others gives the whole union. */
  lemma PrependFirst(ts: seq<SimpleType>, k: nat)
    requires |ts| >= 2
    ensures Prepend(ts[0], Step(Ok(UnionType(ts[1..])), k)) == Step(Ok(UnionType(ts)), k)
  {
    assert [ts[0]] + ts[1..] == ts;
  }

  /** A text `a | r` after at most one space: where `a | ` and `r` lie. */
  lemma HeadLayout(src: string, c: nat, lead: nat, a: string, r: string, e: nat)
    requires LeadsTo(src, c, lead, a + " | " + r) && e == c + lead + |a|
    ensures LeadsTo(src, c, lead, a + " | ")
    ensures LeadsTo(src, e + 2, 1, r) && c + lead + |a + " | " + r| == e + 3 + |r|
  {
    SplitJoined(src, c + lead, a + " | ", r);
    SplitJoined(src, c + lead, a, " | ");
    ThreeChars(src, e, " | ");
  }

  /** The text of a union of two or more types: where its first type and pipe and the text of the others lie. */
  lemma UnionHeadLayout(src: string, c: nat, lead: nat, ts: seq<SimpleType>, e: nat)
    requires |ts| >= 2
    requires LeadsTo(src, c, lead, UnionText(ts)) && e == c + lead + |TypeName(ts[0])|
    ensures LeadsTo(src, c, lead, TypeName(ts[0]) + " | ")
    ensures LeadsTo(src, e + 2, 1, UnionText(ts[1..])) && c + lead + |UnionText(ts)| == e + 3 + |UnionText(ts[1..])|
  {
    HeadLayout(src, c, lead, TypeName(ts[0]), UnionText(ts[1..]), e);
  }

  /** A union text of two or more types: its first type and pipe, then the text of the others. */
  lemma UnionSplit(specs: seq<Spec>, lex: TokenSource, src: string, c: nat, lead: nat, ts: seq<SimpleType>, e: nat, d: nat)
    requires TableSource(specs, lex, src) && |ts| >= 2
    requires LeadsTo(src, c, lead, UnionText(ts)) && d == c + lead + |UnionText(ts)|
    requires e == c + lead + |TypeName(ts[0])|
    ensures LeadsTo(src, e + 2, 1, UnionText(ts[1..])) && d == e + 2 + 1 + |UnionText(ts[1..])|
    ensures UnionRule(lex, |src|, c) == Prepend(ts[0], UnionRule(lex, |src|, e + 2))
  {
    UnionHeadLayout(src, c, lead, ts, e);
    UnionStep(specs, lex, src, c, lead, ts[0], e);
  }

  /**
   * The text of a union, from `c` to `d`, followed by anything whose next
   * token is not a pipe, parses back to the same types in the same order;
   * the cursor is left where peeking at `d` leaves it.
   */
  lemma {:induction false} UnionTextParses(specs: seq<Spec>, lex: TokenSource, src: string, c: nat, lead: nat, ts: seq<SimpleType>, d: nat)
    requires TableSource(specs, lex, src) && |ts| >= 1
    requires LeadsTo(src, c, lead, UnionText(ts)) && d == c + lead + |UnionText(ts)|
    requires NotAhead(lex, d, Token.Pipe)
    ensures UnionRule(lex, |src|, c) == Step(Ok(UnionType(ts)), lex(d, false).cursor)
    decreases |ts|
  {
    var t := ts[0];
    var e := c + lead + |TypeName(t)|;
    if |ts| == 1 {
      UnionLast(specs, lex, src, c, lead, t, d);
      assert ts == [t];
    } else {
      UnionSplit(specs, lex, src, c, lead, ts, e, d);
      UnionTextParses(specs, lex, src, e + 2, 1, ts[1..], d);
      PrependFirst(ts, lex(d, false).cursor);
    }
  }

  /** The text of a union with a pipe after each type, the last one included. */
  function TrailingText(ts: seq<SimpleType>): (s: string)
    requires |ts| >= 1
    ensures |s| >= |TypeName(ts[0])| + 3
    decreases |ts|
  {
    if |ts| == 1 then TypeName(ts[0]) + " | " else TypeName(ts[0]) + " | " + TrailingText(ts[1..])
  }

  /** That text is the union text followed by ` | `. */
  lemma {:induction false} TrailingTextIsUnionText(ts: seq<SimpleType>)
    requires |ts| >= 1
    ensures TrailingText(ts) == UnionText(ts) + " | "
    decreases |ts|
  {
    if |ts| >= 2 {
      TrailingTextIsUnionText(ts[1..]);
      var a := TypeName(ts[0]) + " | ";
      assert TrailingText(ts) == a + (UnionText(ts[1..]) + " | ");
      assert UnionText(ts) + " | " == (a + UnionText(ts[1..])) + " | ";
    }
  }

  /** Where the second type of a trailing-pipe union text, after `c` and `lead` spaces, starts (with its space). */
  function AfterPipe(c: nat, lead: nat, ts: seq<SimpleType>): nat
    requires |ts| >= 1
  {
    c + lead + |TypeName(ts[0])| + 2
  }

  /** The trailing-pipe text of one type is that type's name and ` | `. */
  lemma TrailingOneLayout(src: string, c: nat, lead: nat, ts: seq<SimpleType>)
    requires |ts| == 1 && LeadsTo(src, c, lead, TrailingText(ts))
    ensures LeadsTo(src, c, lead, TypeName(ts[0]) + " | ")
    ensures c + lead + |TrailingText(ts)| == c + lead + |TypeName(ts[0])| + 3
  {
  }

  /** One type name and a pipe at the end of the text: the type rule after the pipe finds `EOF`. */
  lemma TrailingLast(specs: seq<Spec>, lex: TokenSource, src: string, c: nat, lead: nat, ts: seq<SimpleType>)
    requires TableSource(specs, lex, src) && |ts| == 1
    requires LeadsTo(src, c, lead, TrailingText(ts)) && |src| == c + lead + |TrailingText(ts)|
    ensures UnionRule(lex, |src|, c) == Step(Err(Expected(SimpleTypeName, Token.EOF)), |src|)
  {
    TrailingOneLayout(src, c, lead, ts);
    var e := c + lead + |TypeName(ts[0])|;
    UnionStep(specs, lex, src, c, lead, ts[0], e);
    SpaceThenEnd(specs, lex, src, e + 2);
    UnionAtEnd(lex, |src|, e + 2);
  }

  /** A trailing-pipe union text of two or more types, its first type ending at `e`: that type and pipe, then the rest. */
  lemma TrailingSplitAt(specs: seq<Spec>, lex: TokenSource, src: string, c: nat, lead: nat, ts: seq<SimpleType>, e: nat)
    requires TableSource(specs, lex, src) && |ts| >= 2
    requires LeadsTo(src, c, lead, TrailingText(ts)) && e == c + lead + |TypeName(ts[0])|
    ensures LeadsTo(src, e + 2, 1, TrailingText(ts[1..]))
    ensures c + lead + |TrailingText(ts)| == e + 3 + |TrailingText(ts[1..])|
    ensures UnionRule(lex, |src|, c) == Prepend(ts[0], UnionRule(lex, |src|, e + 2))
  {
    HeadLayout(src, c, lead, TypeName(ts[0]), TrailingText(ts[1..]), e);
    UnionStep(specs, lex, src, c, lead, ts[0], e);
  }

  /** The same, with the rest starting at `AfterPipe`. */
  lemma TrailingSplit(specs: seq<Spec>, lex: TokenSource, src: string, c: nat, lead: nat, ts: seq<SimpleType>)
    requires TableSource(specs, lex, src) && |ts| >= 2
    requires LeadsTo(src, c, lead, TrailingText(ts))
    ensures LeadsTo(src, AfterPipe(c, lead, ts), 1, TrailingText(ts[1..]))
    ensures c + lead + |TrailingText(ts)| == AfterPipe(c, lead, ts) + 1 + |TrailingText(ts[1..])|
    ensures UnionRule(lex, |src|, c) == Prepend(ts[0], UnionRule(lex, |src|, AfterPipe(c, lead, ts)))
  {
    TrailingSplitAt(specs, lex, src, c, lead, ts, c + lead + |TypeName(ts[0])|);
  }

  /**
   * A union whose text ends in ` | ` followed by the end of the text fails:
   * after the last pipe the type rule finds `EOF`.
   */
  lemma {:induction false} UnionWithTrailingPipeFails(specs: seq<Spec>, lex: TokenSource, src: string, c: nat, lead: nat, ts: seq<SimpleType>)
    requires TableSource(specs, lex, src) && |ts| >= 1
    requires LeadsTo(src, c, lead, TrailingText(ts)) && |src| == c + lead + |TrailingText(ts)|
    ensures UnionRule(lex, |src|, c) == Step(Err(Expected(SimpleTypeName, Token.EOF)), |src|)
    decreases |ts|
  {
    if |ts| == 1 {
      TrailingLast(specs, lex, src, c, lead, ts);
    } else {
      TrailingSplit(specs, lex, src, c, lead, ts);
      UnionWithTrailingPipeFails(specs, lex, src, AfterPipe(c, lead, ts), 1, ts[1..]);
    }
  }

  lemma UnionExampleText()
    ensures UnionText([SimpleType.String, Str, SimpleType.Number]) == "String | str | Number"
    ensures TrailingText([SimpleType.String, Str]) == "String | str | "
  {
    var ts := [SimpleType.String, Str, SimpleType.Number];
    assert ts[1..] == [Str, SimpleType.Number];
    assert ts[1..][1..] == [SimpleType.Number];
    assert [SimpleType.String, Str][1..] == [Str];
  }

  /** `String | str | Number` is a union of the three types, in that order. */
  lemma UnionExample(specs: seq<Spec>, lex: TokenSource)
    requires TableSource(specs, lex, "String | str | Number")
    ensures var r := UnionRule(lex, 21, 0);
      && r == Step(Ok(UnionType([SimpleType.String, Str, SimpleType.Number])), 21)
      && r.result.value.HasType(SimpleType.String)
      && r.result.value.HasType(Str)
      && r.result.value.HasType(SimpleType.Number)
  {
    UnionExampleText();
    var src := "String | str | Number";
    assert src[0..21] == src;
    EndOfText(specs, lex, src, false);
    UnionTextParses(specs, lex, src, 0, 0, [SimpleType.String, Str, SimpleType.Number], 21);
  }

  /** `String | str | ` ends in a pipe with no type after it: the union fails at `EOF`. */
  lemma UnionTrailingPipeExample(specs: seq<Spec>, lex: TokenSource)
    requires TableSource(specs, lex, "String | str | ")
    ensures UnionRule(lex, 15, 0) == Step(Err(Expected(SimpleTypeName, Token.EOF)), 15)
  {
    UnionExampleText();
    var src := "String | str | ";
    assert src[0..15] == src;
    UnionWithTrailingPipeFails(specs, lex, src, 0, 0, [SimpleType.String, Str]);
  }

  // ---------------------------------------------------------------------
  // Indentation

  /** An indentation unit as it is written: a tab, or four spaces. */
  datatype IndentUnitText = TabChar | FourSpaces

  function UnitText(u: IndentUnitText): (s: string)
    ensures |s| >= 1
  {
    match u
    case TabChar => "\t"
    case FourSpaces => "    "
  }

  /** The text of a run of indentation units. */
  function IndentText(us: seq<IndentUnitText>): string
    decreases |us|
  {
    if |us| == 0 then "" else UnitText(us[0]) + IndentText(us[1..])
  }

  /** One indentation unit at the cursor is one `Tab` token, peeked or consumed. */
  lemma UnitLexes(specs: seq<Spec>, lex: TokenSource, src: string, c: nat, u: IndentUnitText, consume: bool)
    requires TableSource(specs, lex, src)
    requires c + |UnitText(u)| <= |src| && src[c..c + |UnitText(u)|] == UnitText(u)
    ensures lex(c, consume) == Found(Token.Tab, c, |UnitText(u)|, consume)
  {
    assert src[c] == src[c..c + |UnitText(u)|][0];
    LexIndent(specs, src, c, consume);
  }

  /** A text `a`, `b`, `r` at `p`: where `a`, `b` and `b` with `r` lie. */
  lemma ThreeParts(src: string, p: nat, a: string, b: string, r: string)
    requires p + |a| + |b| + |r| <= |src| && src[p..p + |a| + |b| + |r|] == a + (b + r)
    ensures src[p..p + |a|] == a
    ensures src[p + |a|..p + |a| + |b| + |r|] == b + r
    ensures src[p + |a|..p + |a| + |b|] == b
  {
    SplitJoined(src, p, a, b + r);
    SplitJoined(src, p + |a|, b, r);
  }

  /** The text of two or more units: where the first, the second and the text after the first lie. */
  lemma IndentLayout(src: string, c: nat, us: seq<IndentUnitText>, e: nat)
    requires |us| >= 2
    requires c + |IndentText(us)| <= |src| && src[c..c + |IndentText(us)|] == IndentText(us)
    requires e == c + |UnitText(us[0])|
    ensures e + |IndentText(us[1..])| == c + |IndentText(us)|
    ensures src[e..e + |IndentText(us[1..])|] == IndentText(us[1..])
    ensures src[c..c + |UnitText(us[0])|] == UnitText(us[0])
    ensures e + |UnitText(us[1])| <= |src| && src[e..e + |UnitText(us[1])|] == UnitText(us[1])
  {
    var a, b, r := UnitText(us[0]), UnitText(us[1]), IndentText(us[2..]);
    assert us[1..][0] == us[1] && us[1..][1..] == us[2..];
    assert IndentText(us[1..]) == b + r;
    assert IndentText(us) == a + (b + r);
    ThreeParts(src, c, a, b, r);
  }

  /** One unit followed by more: the indentation is one more than the one after the first unit. */
  lemma IndentStep(specs: seq<Spec>, lex: TokenSource, src: string, c: nat, us: seq<IndentUnitText>, e: nat)
    requires TableSource(specs, lex, src) && |us| >= 2
    requires c + |IndentText(us)| <= |src| && src[c..c + |IndentText(us)|] == IndentText(us)
    requires e == c + |UnitText(us[0])|
    ensures e + |IndentText(us[1..])| == c + |IndentText(us)|
    ensures src[e..e + |IndentText(us[1..])|] == IndentText(us[1..])
    ensures IndentRule(lex, |src|, c) == OneMore(IndentRule(lex, |src|, e))
  {
    IndentLayout(src, c, us, e);
    UnitLexes(specs, lex, src, c, us[0], true);
    UnitLexes(specs, lex, src, e, us[1], false);
    IndentGoesOnAt(lex, |src|, c, e);
  }

  /** A single unit, ending at `d`, followed by a token that is not a `Tab`: an indentation of one. */
  lemma IndentLast(specs: seq<Spec>, lex: TokenSource, src: string, c: nat, u: IndentUnitText, d: nat)
    requires TableSource(specs, lex, src)
    requires d == c + |UnitText(u)| && d <= |src| && src[c..d] == UnitText(u)
    requires NotAhead(lex, d, Token.Tab)
    ensures IndentRule(lex, |src|, c) == Step(Ok(Indentation(1)), lex(d, false).cursor)
  {
    UnitLexes(specs, lex, src, c, u, true);
    IndentEndsAt(lex, |src|, c, d);
  }

  /**
   * A run of tabs and four-space groups, from `c` to `d`, followed by
   * anything whose next token is not a `Tab`, is an indentation counting
   * the units; the cursor is left where peeking at `d` leaves it.
   */
  lemma {:induction false} IndentTextParses(specs: seq<Spec>, lex: TokenSource, src: string, c: nat, us: seq<IndentUnitText>, d: nat)
    requires TableSource(specs, lex, src) && |us| >= 1
    requires d == c + |IndentText(us)| && d <= |src| && src[c..d] == IndentText(us)
    requires NotAhead(lex, d, Token.Tab)
    ensures IndentRule(lex, |src|, c) == Step(Ok(Indentation(|us|)), lex(d, false).cursor)
    decreases |us|
  {
    var e := c + |UnitText(us[0])|;
    if |us| == 1 {
      assert IndentText(us) == UnitText(us[0]) + "";
      assert IndentText(us) == UnitText(us[0]);
      IndentLast(specs, lex, src, c, us[0], d);
    } else {
      IndentStep(specs, lex, src, c, us, e);
      IndentTextParses(specs, lex, src, e, us[1..], d);
    }
  }

  lemma IndentExampleText()
    ensures IndentText([FourSpaces, FourSpaces, FourSpaces]) == "            "
    ensures IndentText([TabChar, TabChar, TabChar]) == "\t\t\t"
  {
    var spaces := [FourSpaces, FourSpaces, FourSpaces];
    assert spaces[1..][1..][1..] == [];
    var tabs := [TabChar, TabChar, TabChar];
    assert tabs[1..][1..][1..] == [];
  }

  /** Twelve spaces are three indentation units. */
  lemma TwelveSpacesExample(specs: seq<Spec>, lex: TokenSource)
    requires TableSource(specs, lex, "            ")
    ensures IndentRule(lex, 12, 0) == Step(Ok(Indentation(3)), 12)
  {
    IndentExampleText();
    var twelve := "            ";
    assert twelve[0..12] == twelve;
    EndOfText(specs, lex, twelve, false);
    IndentTextParses(specs, lex, twelve, 0, [FourSpaces, FourSpaces, FourSpaces], 12);
  }

  /** Three tabs are three indentation units. */
  lemma ThreeTabsExample(specs: seq<Spec>, lex: TokenSource)
    requires TableSource(specs, lex, "\t\t\t")
    ensures IndentRule(lex, 3, 0) == Step(Ok(Indentation(3)), 3)
  {
    IndentExampleText();
    var three := "\t\t\t";
    assert three[0..3] == three;
    EndOfText(specs, lex, three, false);
    IndentTextParses(specs, lex, three, 0, [TabChar, TabChar, TabChar], 3);
  }

  /** A type name where indentation is due is an error naming the type token. */
  lemma IndentationRejectsType(specs: seq<Spec>, lex: TokenSource)
    requires TableSource(specs, lex, "Number")
    ensures IndentRule(lex, 6, 0) == Step(Err(Expected(IndentUnit, Token.SimpleType("Number"))), 6)
  {
    var src := "Number";
    assert src[0..6] == TypeName(SimpleType.Number);
    LexTypeName(specs, src, 0, SimpleType.Number, true);
  }

  // ---------------------------------------------------------------------
  // Variables

  /** A character that can end a name: neither a word character nor a parenthesis. */
  predicate EndsName(ch: char) {
    !IsWordChar(ch) && ch != '(' && ch != ')'
  }

  /**
   * A name the identifier rule reads as a whole: it starts like a name,
   * goes on with word characters, and does not start with a type name.
   */
  predicate IsName(name: string) {
    && |name| > 0
    && StartsLikeName(name[0]) && name[0] != '('
    && (forall i :: 1 <= i < |name| ==> IsWordChar(name[i]))
    && NoKeywordPrefix(name)
  }

  /** Apart from the parentheses of `()`, keywords are made of word characters. */
  lemma KeywordCharacters(w: string, k: nat)
    requires w in Keywords && k < |w|
    ensures IsWordChar(w[k]) || w[k] == '(' || w[k] == ')'
  {
  }

  /** A word no longer than a prefix of a text starts the text exactly when it starts that prefix. */
  lemma PrefixThrough(w: string, name: string, s: string)
    requires |w| <= |name| <= |s| && s[..|name|] == name
    ensures (w <= s) == (w <= name)
  {
    assert s[..|w|] == name[..|w|];
  }

  /** A name followed by the end of the text or a character that ends it has no keyword prefix either. */
  lemma NameBoundary(name: string, s: string)
    requires IsName(name) && |name| <= |s| && s[..|name|] == name
    requires |name| < |s| ==> EndsName(s[|name|])
    ensures NoKeywordPrefix(s)
  {
    forall w | w in Keywords
      ensures !(w <= s)
    {
      if |w| <= |name| {
        PrefixThrough(w, name, s);
      } else if |w| <= |s| {
        KeywordCharacters(w, |name|);
        NotPrefixAt(w, s, |name|);
      }
    }
  }

  /** What the identifier rule sees of a name at `c`: no keyword, and a word run as long as the name. */
  lemma NameScan(src: string, c: nat, name: string)
    requires IsName(name)
    requires c + |name| <= |src| && src[c..c + |name|] == name
    requires c + |name| < |src| ==> EndsName(src[c + |name|])
    ensures c < |src| && StartsLikeName(src[c]) && src[c] != '('
    ensures KeywordLength(src[c..], 0) == 0 && RunEnd(src[c..], WordClass, 1) == |name|
  {
    var s := src[c..];
    assert s[..|name|] == name;
    assert src[c] == name[0];
    assert |name| < |s| ==> s[|name|] == src[c + |name|];
    NameBoundary(name, s);
    KeywordLengthZero(s, 0);
    forall k | 1 <= k < |name|
      ensures InClass(s[k], WordClass)
    {
      assert s[k] == s[..|name|][k];
    }
    RunStopsAt(s, WordClass, 1, |name|);
  }

  /** A name, followed by the end of the text or a character that ends it, is one `Variable` token. */
  lemma LexName(specs: seq<Spec>, src: string, c: nat, name: string, consume: bool)
    requires IsTokenizerTable(specs) && IsName(name)
    requires c + |name| <= |src| && src[c..c + |name|] == name
    requires c + |name| < |src| ==> EndsName(src[c + |name|])
    ensures Next(specs, src, c, consume) == Found(Token.Variable(name), c, |name|, consume)
  {
    NameScan(src, c, name);
    LexWord(specs, src, c, |name|, consume);
  }

  /** A name at the start of the text, followed by the end or a character that ends it, is read as one token. */
  lemma NameLexes(specs: seq<Spec>, lex: TokenSource, src: string, name: string)
    requires TableSource(specs, lex, src) && IsName(name)
    requires |name| <= |src| && src[0..|name|] == name
    requires |name| < |src| ==> EndsName(src[|name|])
    ensures lex(0, true) == Scan(Ok(Some(Token.Variable(name))), |name|)
  {
    LexName(specs, src, 0, name, true);
  }

  /** A name at the start of the text, followed by the end or a character that ends it, is a variable. */
  lemma NameParses(specs: seq<Spec>, lex: TokenSource, src: string, name: string)
    requires TableSource(specs, lex, src) && IsName(name)
    requires |name| <= |src| && src[0..|name|] == name
    requires |name| < |src| ==> EndsName(src[|name|])
    ensures VariableRule(lex, |src|, 0) == Step(Ok(Variable.Variable(name)), |name|)
  {
    NameLexes(specs, lex, src, name);
    VariableOn(lex, |src|, 0, name, |name|);
  }

  /** `abcd1234` is a variable. */
  lemma VariableExample(specs: seq<Spec>, lex: TokenSource)
    requires TableSource(specs, lex, "abcd1234")
    ensures VariableRule(lex, 8, 0) == Step(Ok(Variable.Variable("abcd1234")), 8)
  {
    var good := "abcd1234";
    NoKeywordInitial(good);
    assert good[0..8] == good;
    NameParses(specs, lex, good, good);
  }

  /** `1234abcd` starts with a number: it is not a variable. */
  lemma NumberIsNotVariable(specs: seq<Spec>, lex: TokenSource)
    requires TableSource(specs, lex, "1234abcd")
    ensures VariableRule(lex, 8, 0) == Step(Err(Expected(VariableName, Token.Number(1234))), 4)
  {
    var bad := "1234abcd";
    assert NatText(1234) == "1234" by {
      assert NatText(1) == "1";
      assert NatText(12) == NatText(1) + "2";
      assert NatText(123) == NatText(12) + "3";
    }
    assert bad[0..4] == "1234";
    LexNatText(specs, bad, 0, 1234, true);
  }

  // ---------------------------------------------------------------------
  // Literals and pipes

  /** A literal that has a source text: a string without backquotes, or a number that is not negative. */
  predicate PrintableLiteral(l: Literal) {
    match l
    case StringLiteral(text) => '`' !in text
    case NumberLiteral(value) => value >= 0
  }

  /** The source text of a literal: a backquoted string, or decimal digits. */
  function LiteralText(l: Literal): (s: string)
    requires PrintableLiteral(l)
    ensures |s| >= 1 && !IsSpace(s[0])
  {
    match l
    case StringLiteral(text) => "`" + text + "`"
    case NumberLiteral(value) => NatText(value as int)
  }

  /** The text of a literal at `p`, running to the end of the text, is one token. */
  lemma LiteralTextLexes(specs: seq<Spec>, src: string, p: nat, l: Literal)
    requires IsTokenizerTable(specs) && PrintableLiteral(l)
    requires |src| == p + |LiteralText(l)| && src[p..p + |LiteralText(l)|] == LiteralText(l)
    ensures Next(specs, src, p, true) == Scan(Ok(Some(LiteralToken(l))), |src|)
  {
    match l
    case StringLiteral(text) =>
      assert LiteralText(l) == ['`'] + text + ['`'];
      LexQuoted(specs, src, p, '`', text, true);
    case NumberLiteral(value) =>
      LexNatText(specs, src, p, value as int, true);
  }

  /** The text of a literal after at most one space, running to the end of the text, is read as its token. */
  lemma LiteralLexes(specs: seq<Spec>, lex: TokenSource, src: string, c: nat, lead: nat, l: Literal)
    requires TableSource(specs, lex, src) && PrintableLiteral(l)
    requires LeadsTo(src, c, lead, LiteralText(l)) && |src| == c + lead + |LiteralText(l)|
    ensures lex(c, true) == Scan(Ok(Some(LiteralToken(l))), |src|)
  {
    SkipLead(specs, src, c, lead, LiteralText(l), true);
    LiteralTextLexes(specs, src, c + lead, l);
  }

  /** The text of a literal after at most one space, running to the end of the text, parses back to the literal. */
  lemma LiteralTextParses(specs: seq<Spec>, lex: TokenSource, src: string, c: nat, lead: nat, l: Literal)
    requires TableSource(specs, lex, src) && PrintableLiteral(l)
    requires LeadsTo(src, c, lead, LiteralText(l)) && |src| == c + lead + |LiteralText(l)|
    ensures LiteralRule(lex, |src|, c) == Step(Ok(l), |src|)
  {
    LiteralLexes(specs, lex, src, c, lead, l);
    LiteralOn(lex, |src|, c, l, |src|);
  }

  /** A comment running to the end of the text leaves nothing to read. */
  lemma CommentOnly(specs: seq<Spec>, consume: bool)
    requires IsTokenizerTable(specs)
    ensures Next(specs, "# Comment", 0, consume) == Scan(Ok(Option.None), 9)
  {
    var src := "# Comment";
    assert src[0..] == src;
    RunStopsAt(src, NotNewline, 1, 9);
    SkipComment(specs, src, 0, consume);
  }

  /** The text of a literal, alone, parses back to that literal. */
  lemma WholeLiteralParses(specs: seq<Spec>, lex: TokenSource, l: Literal)
    requires PrintableLiteral(l) && TableSource(specs, lex, LiteralText(l))
    ensures LiteralRule(lex, |LiteralText(l)|, 0) == Step(Ok(l), |LiteralText(l)|)
  {
    var src := LiteralText(l);
    assert src[0..|src|] == src;
    LiteralTextParses(specs, lex, src, 0, 0, l);
  }

  lemma LiteralStringText()
    ensures PrintableLiteral(StringLiteral("Literal string"))
    ensures LiteralText(StringLiteral("Literal string")) == "`Literal string`"
  {
  }

  /** A backquoted string is a literal. */
  lemma StringLiteralExample(specs: seq<Spec>, lex: TokenSource)
    requires TableSource(specs, lex, "`Literal string`")
    ensures LiteralRule(lex, 16, 0) == Step(Ok(StringLiteral("Literal string")), 16)
  {
    LiteralStringText();
    WholeLiteralParses(specs, lex, StringLiteral("Literal string"));
  }

  lemma FortyTwoText()
    ensures LiteralText(NumberLiteral(42)) == "42"
  {
    assert NatText(4) == "4";
    assert NatText(42) == NatText(4) + "2";
  }

  /** `42` is a literal. */
  lemma NumberLiteralExample(specs: seq<Spec>, lex: TokenSource)
    requires TableSource(specs, lex, "42")
    ensures LiteralRule(lex, 2, 0) == Step(Ok(NumberLiteral(42)), 2)
  {
    FortyTwoText();
    WholeLiteralParses(specs, lex, NumberLiteral(42));
  }

  /** A comment alone is neither a literal nor a pipe: both rules find `EOF`. */
  lemma CommentIsNoLiteralOrPipe(specs: seq<Spec>, lex: TokenSource)
    requires TableSource(specs, lex, "# Comment")
    ensures LiteralRule(lex, 9, 0) == Step(Err(Expected(LiteralValue, Token.EOF)), 9)
    ensures PipeRule(lex, 9, 0, true) == Step(Err(Expected(PipeSeparator, Token.EOF)), 9)
  {
    CommentOnly(specs, true);
  }

  /** `|` is a pipe. */
  lemma PipeExample(specs: seq<Spec>, lex: TokenSource)
    requires TableSource(specs, lex, "|")
    ensures PipeRule(lex, 1, 0, true) == Step(Ok(()), 1)
  {
    LexSymbol(specs, "|", 0, true);
  }

  // ---------------------------------------------------------------------
  // Declarations

  /** A declaration that has a source text: a name, a non-empty union if any, and a printable literal. */
  predicate PrintableDeclaration(d: Declaration) {
    && IsName(d.variable.name)
    && (d.unionType.Some? ==> |d.unionType.value.types| >= 1)
    && PrintableLiteral(d.literal)
  }

  /** The source text of a declaration: `name = literal` or `name: T1 | T2 = literal`. */
  function DeclarationText(d: Declaration): string
    requires PrintableDeclaration(d)
  {
    match d.unionType
    case None => d.variable.name + (" = " + LiteralText(d.literal))
    case Some(u) => d.variable.name + (": " + (UnionText(u.types) + (" = " + LiteralText(d.literal))))
  }

  /** ` = ` at `e`: peeking finds `=` after the space, and consuming from there moves past it. */
  lemma EqualsAhead(specs: seq<Spec>, lex: TokenSource, src: string, e: nat)
    requires TableSource(specs, lex, src)
    requires e + 3 <= |src| && src[e..e + 3] == " = "
    ensures src[e + 2] == ' '
    ensures lex(e, false) == Scan(Ok(Some(Token.Equal)), e + 1)
    ensures lex(e + 1, true) == Scan(Ok(Some(Token.Equal)), e + 2)
  {
    ThreeChars(src, e, " = ");
    SkipOneSpace(specs, src, e, false);
    LexSymbol(specs, src, e + 1, false);
    LexSymbol(specs, src, e + 1, true);
  }

  /** ` = ` and a literal up to the end of the text, at `e`: the tokens and rule results there. */
  lemma EqualsThenLiteral(specs: seq<Spec>, lex: TokenSource, src: string, e: nat, l: Literal)
    requires TableSource(specs, lex, src) && PrintableLiteral(l)
    requires |src| == e + 3 + |LiteralText(l)| && src[e..e + 3 + |LiteralText(l)|] == " = " + LiteralText(l)
    ensures lex(e, false) == Scan(Ok(Some(Token.Equal)), e + 1)
    ensures lex(e + 1, true) == Scan(Ok(Some(Token.Equal)), e + 2)
    ensures EqualRule(lex, |src|, e + 1) == Step(Ok(()), e + 2)
    ensures LiteralRule(lex, |src|, e + 2) == Step(Ok(l), |src|)
  {
    SplitJoined(src, e, " = ", LiteralText(l));
    EqualsAhead(specs, lex, src, e);
    EqualOn(lex, |src|, e + 1, e + 2);
    LiteralTextParses(specs, lex, src, e + 2, 1, l);
  }

  /** The text of a union, ` = ` and a literal: where each part lies. */
  lemma UnionLiteralLayout(src: string, c: nat, ts: seq<SimpleType>, l: Literal, d: nat)
    requires |ts| >= 1 && PrintableLiteral(l)
    requires LeadsTo(src, c, 1, UnionText(ts) + (" = " + LiteralText(l)))
    requires d == c + 1 + |UnionText(ts)| && |src| == d + 3 + |LiteralText(l)|
    ensures LeadsTo(src, c, 1, UnionText(ts))
    ensures src[d..d + 3 + |LiteralText(l)|] == " = " + LiteralText(l)
  {
    SplitJoined(src, c + 1, UnionText(ts), " = " + LiteralText(l));
  }

  /** A union up to `d`, then ` = ` and a literal up to the end of the text. */
  lemma UnionThenLiteral(specs: seq<Spec>, lex: TokenSource, src: string, c: nat, ts: seq<SimpleType>, l: Literal, d: nat)
    requires TableSource(specs, lex, src) && |ts| >= 1 && PrintableLiteral(l)
    requires LeadsTo(src, c, 1, UnionText(ts) + (" = " + LiteralText(l)))
    requires d == c + 1 + |UnionText(ts)| && |src| == d + 3 + |LiteralText(l)|
    ensures UnionRule(lex, |src|, c) == Step(Ok(UnionType(ts)), d + 1)
    ensures EqualRule(lex, |src|, d + 1) == Step(Ok(()), d + 2)
    ensures LiteralRule(lex, |src|, d + 2) == Step(Ok(l), |src|)
  {
    UnionLiteralLayout(src, c, ts, l, d);
    EqualsThenLiteral(specs, lex, src, d, l);
    UnionTextParses(specs, lex, src, c, 1, ts, d);
  }

  /** `name = literal` parses back to the declaration without a type. */
  lemma UntypedDeclarationRoundTrip(specs: seq<Spec>, lex: TokenSource, d: Declaration)
    requires PrintableDeclaration(d) && d.unionType.None?
    requires TableSource(specs, lex, DeclarationText(d))
    ensures DeclarationRule(lex, |DeclarationText(d)|, 0) == Step(Ok(d), |DeclarationText(d)|)
  {
    var src := DeclarationText(d);
    var name := d.variable.name;
    var m := |name|;
    var tail := " = " + LiteralText(d.literal);
    SplitJoined(src, 0, name, tail);
    assert src[m] == tail[0];
    NameParses(specs, lex, src, name);
    EqualsThenLiteral(specs, lex, src, m, d.literal);
    UntypedDeclarationOn(lex, |src|, 0, d.variable, m, d.literal, |src|);
  }

  /** `: ` at `m`: the colon is the next token, peeked in place or consumed. */
  lemma ColonAhead(specs: seq<Spec>, lex: TokenSource, src: string, m: nat)
    requires TableSource(specs, lex, src)
    requires m + 2 <= |src| && src[m..m + 2] == ": "
    ensures src[m] == ':' && src[m + 1] == ' '
    ensures lex(m, false) == Scan(Ok(Some(Token.Colon)), m)
    ensures lex(m, true) == Scan(Ok(Some(Token.Colon)), m + 1)
  {
    assert src[m..m + 2][0] == src[m] && src[m..m + 2][1] == src[m + 1];
    LexSymbol(specs, src, m, false);
    LexSymbol(specs, src, m, true);
  }

  /** Where the pieces of `: T1 | T2 ... = literal` lie, when it runs from `m` to the end of the text. */
  lemma TypedTailLayout(src: string, m: nat, ts: seq<SimpleType>, l: Literal, e: nat)
    requires |ts| >= 1 && PrintableLiteral(l)
    requires |src| == m + 2 + |UnionText(ts) + (" = " + LiteralText(l))|
    requires src[m..|src|] == ": " + (UnionText(ts) + (" = " + LiteralText(l)))
    requires e == m + 2 + |UnionText(ts)|
    ensures m + 1 <= e + 1 <= e + 2 <= |src| && |src| == e + 3 + |LiteralText(l)|
    ensures src[m..m + 2] == ": "
    ensures LeadsTo(src, m + 1, 1, UnionText(ts) + (" = " + LiteralText(l)))
  {
    var body := UnionText(ts) + (" = " + LiteralText(l));
    SplitJoined(src, m, ": ", body);
    assert src[m + 1] == src[m..m + 2][1];
  }

  /** `: `, a union up to `e`, then ` = ` and a literal up to the end of the text, from `m` on. */
  lemma ColonThenUnion(specs: seq<Spec>, lex: TokenSource, src: string, m: nat, u: UnionType, l: Literal, e: nat)
    requires TableSource(specs, lex, src) && |u.types| >= 1 && PrintableLiteral(l)
    requires e == m + 2 + |UnionText(u.types)| && |src| == e + 3 + |LiteralText(l)|
    requires m + 2 <= |src| && src[m..m + 2] == ": "
    requires LeadsTo(src, m + 1, 1, UnionText(u.types) + (" = " + LiteralText(l)))
    ensures lex(m, false) == Scan(Ok(Some(Token.Colon)), m)
    ensures lex(m, true) == Scan(Ok(Some(Token.Colon)), m + 1)
    ensures UnionRule(lex, |src|, m + 1) == Step(Ok(u), e + 1)
    ensures EqualRule(lex, |src|, e + 1) == Step(Ok(()), e + 2)
    ensures LiteralRule(lex, |src|, e + 2) == Step(Ok(l), |src|)
  {
    ColonAhead(specs, lex, src, m);
    UnionThenLiteral(specs, lex, src, m + 1, u.types, l, e);
    assert UnionType(u.types) == u;
  }

  /** The tokens and rule results that the text of a typed declaration produces, piece by piece. */
  lemma TypedPieces(specs: seq<Spec>, lex: TokenSource, src: string, d: Declaration, m: nat, e: nat)
    requires PrintableDeclaration(d) && d.unionType.Some?
    requires src == DeclarationText(d) && TableSource(specs, lex, src)
    requires m == |d.variable.name| && e == m + 2 + |UnionText(d.unionType.value.types)|
    ensures m + 1 <= e + 1 <= e + 2 <= |src|
    ensures VariableRule(lex, |src|, 0) == Step(Ok(d.variable), m)
    ensures lex(m, false) == Scan(Ok(Some(Token.Colon)), m)
    ensures lex(m, true) == Scan(Ok(Some(Token.Colon)), m + 1)
    ensures UnionRule(lex, |src|, m + 1) == Step(Ok(d.unionType.value), e + 1)
    ensures EqualRule(lex, |src|, e + 1) == Step(Ok(()), e + 2)
    ensures LiteralRule(lex, |src|, e + 2) == Step(Ok(d.literal), |src|)
  {
    var name := d.variable.name;
    var u := d.unionType.value;
    var tail := ": " + (UnionText(u.types) + (" = " + LiteralText(d.literal)));
    SplitJoined(src, 0, name, tail);
    NameParses(specs, lex, src, name);
    assert d.variable == Variable.Variable(name);
    TypedTailLayout(src, m, u.types, d.literal, e);
    ColonThenUnion(specs, lex, src, m, u, d.literal, e);
  }

  /** `parse_declaration` over a variable, a colon, a union, `=` and a literal, each where the previous one ends. */
  lemma TypedDeclarationFrom(lex: TokenSource, n: nat, v: Variable, m: nat, u: UnionType, e: nat, l: Literal)
    requires Lawful(lex, n) && m + 1 <= e + 1 <= e + 2 <= n
    requires VariableRule(lex, n, 0) == Step(Ok(v), m)
    requires lex(m, false) == Scan(Ok(Some(Token.Colon)), m)
    requires lex(m, true) == Scan(Ok(Some(Token.Colon)), m + 1)
    requires UnionRule(lex, n, m + 1) == Step(Ok(u), e + 1)
    requires EqualRule(lex, n, e + 1) == Step(Ok(()), e + 2)
    requires LiteralRule(lex, n, e + 2) == Step(Ok(l), n)
    ensures DeclarationRule(lex, n, 0) == Step(Ok(Declaration(v, Some(u), l)), n)
  {
  }

  /** `name: T1 | T2 ... = literal` parses back to the declaration with its union type. */
  lemma TypedDeclarationRoundTrip(specs: seq<Spec>, lex: TokenSource, d: Declaration)
    requires PrintableDeclaration(d) && d.unionType.Some?
    requires TableSource(specs, lex, DeclarationText(d))
    ensures DeclarationRule(lex, |DeclarationText(d)|, 0) == Step(Ok(d), |DeclarationText(d)|)
  {
    var src := DeclarationText(d);
    var m := |d.variable.name|;
    var e := m + 2 + |UnionText(d.unionType.value.types)|;
    TypedPieces(specs, lex, src, d, m, e);
    TypedDeclarationFrom(lex, |src|, d.variable, m, d.unionType.value, e, d.literal);
  }

  /**
   * The text of a declaration parses back to the same declaration: the
   * variable, the union type (absent exactly when there is no colon) and
   * the literal, with the whole text consumed.
   */
  lemma DeclarationRoundTrip(specs: seq<Spec>, lex: TokenSource, src: string, d: Declaration)
    requires PrintableDeclaration(d) && src == DeclarationText(d) && TableSource(specs, lex, src)
    ensures DeclarationRule(lex, |src|, 0) == Step(Ok(d), |src|)
  {
    if d.unionType.None? {
      UntypedDeclarationRoundTrip(specs, lex, d);
    } else {
      TypedDeclarationRoundTrip(specs, lex, d);
    }
  }

  /** `test` is a name the identifier rule reads as a whole. */
  lemma TestIsName()
    ensures IsName("test")
  {
    NoKeywordInitial("test");
  }

  /** `test = 42` declares `test` with no type and the number 42. */
  lemma UntypedDeclarationExample(specs: seq<Spec>, lex: TokenSource)
    requires TableSource(specs, lex, "test = 42")
    ensures DeclarationRule(lex, 9, 0) ==
      Step(Ok(Declaration(Variable.Variable("test"), Option.None, NumberLiteral(42))), 9)
  {
    var d := Declaration(Variable.Variable("test"), Option.None, NumberLiteral(42));
    TestIsName();
    FortyTwoText();
    assert DeclarationText(d) == "test = 42";
    DeclarationRoundTrip(specs, lex, "test = 42", d);
  }

  /** The text of the declaration in the typed example, piece by piece. */
  lemma TypedExampleText(d: Declaration)
    requires d == Declaration(Variable.Variable("test"), Some(UnionType([SimpleType.String, Str])), StringLiteral("Testing declaration"))
    ensures PrintableDeclaration(d)
    ensures DeclarationText(d) == "test" + (": " + ("String | str" + (" = " + "`Testing declaration`")))
  {
    TestIsName();
    assert UnionText([SimpleType.String, Str]) == "String | str" by {
      assert [SimpleType.String, Str][1..] == [Str];
    }
    TestingLiteralText();
  }

  /** The text of the string literal in the typed example. */
  lemma TestingLiteralText()
    ensures PrintableLiteral(StringLiteral("Testing declaration"))
    ensures LiteralText(StringLiteral("Testing declaration")) == "`Testing declaration`"
  {
    TestingHasNoBackquote();
    assert "`" + "Testing declaration" + "`" == "`Testing declaration`";
  }

  lemma TestingHasNoBackquote()
    ensures '`' !in "Testing declaration"
  {
  }

  /**
   * `test: String | str = `Testing declaration`` (written below as the
   * pieces it is made of) declares `test` with a two-type union and a string.
   */
  lemma TypedDeclarationExample(specs: seq<Spec>, lex: TokenSource)
    requires TableSource(specs, lex, "test" + (": " + ("String | str" + (" = " + "`Testing declaration`"))))
    ensures var r := DeclarationRule(lex, 42, 0);
      && r == Step(Ok(Declaration(Variable.Variable("test"),
                                  Some(UnionType([SimpleType.String, Str])),
                                  StringLiteral("Testing declaration"))), 42)
      && r.result.value.unionType.value.HasType(SimpleType.String)
      && r.result.value.unionType.value.HasType(Str)
  {
    var d := Declaration(Variable.Variable("test"), Some(UnionType([SimpleType.String, Str])), StringLiteral("Testing declaration"));
    TypedExampleText(d);
    DeclarationRoundTrip(specs, lex, DeclarationText(d), d);
  }
}
