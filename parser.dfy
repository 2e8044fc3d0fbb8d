/**
 * The recursive-descent parser (src/parser.rs) over the tokenizer. Each
 * grammar rule is a specification function of a token source (the
 * tokenizer's `get_next_token`, seen as a function of the cursor), the
 * length of the text and the cursor it starts from, giving the rule's
 * result and the cursor it leaves behind; the class `Parser` runs the same
 * rules against a shared `Tokenizer` object and is proved to agree with
 * them on that tokenizer's token source.
 *
 * Every rule asks for a token as `get_next_token(true)` does, and an
 * exhausted text (`Ok(None)`) is read as the token `EOF`. The rules for
 * pipes, union types, indentation, variables and declarations follow the
 * grammar their tests exercise: parse one item, peek at the next token
 * without consuming it, and go on only when it is the separator.
 */
module Parsing {
  import opened Wrappers
  import opened Decimal
  import opened Tokens
  import opened Lexer

  datatype Literal = StringLiteral(text: string) | NumberLiteral(value: i64)

  datatype SimpleType = Number | Str | String | None | Empty | Never | List

  /** `Type::SimpleType`, the only kind of type. */
  datatype Type = Simple(simple: SimpleType)

  /** The types of a union, in source order, duplicates kept. */
  datatype UnionType = UnionType(types: seq<SimpleType>) {
    predicate HasType(t: SimpleType) {
      t in types
    }
  }

  /** The number of indentation units (tabs or runs of four spaces) of a line. */
  datatype Indentation = Indentation(count: nat)

  datatype Variable = Variable(name: string)

  /** `name [: T1 | T2 ...] = literal`. */
  datatype Declaration = Declaration(variable: Variable, unionType: Option<UnionType>, literal: Literal)

  /** What a rule expected when it got the wrong token. */
  datatype Construct = LiteralValue | SimpleTypeName | PipeSeparator | IndentUnit | VariableName | ColonOrEqual | EqualSign

  /**
   * The error messages of the parser: a lexer error passed through, a token
   * that is not what the rule expects ("Expected ... (got <token>)"), and a
   * type name that the lexer accepts but the type enumeration does not
   * ("The type <text> is not valid").
   */
  datatype ParseError =
    | LexFailure(lex: LexError)
    | Expected(what: Construct, got: Token)
    | InvalidType(text: string)

  /** The outcome of a rule: its result and the cursor after it. */
  datatype Step<T> = Step(result: Result<T, ParseError>, cursor: nat)

  /** The source text of each simple type, as the keyword rule of the tokenizer matches it. */
  function TypeName(t: SimpleType): string {
    match t
    case Number => "Number"
    case Str => "str"
    case String => "String"
    case None => "None"
    case Empty => "()"
    case Never => "Never"
    case List => "List"
  }

  /**
   * `SimpleType::try_from`: exactly the seven type names convert, each to
   * its own variant; any other text is rejected, and the error carries it.
   */
  function SimpleTypeFrom(text: string): (r: Result<SimpleType, string>)
    ensures r.Ok? ==> TypeName(r.value) == text
    ensures r.Err? ==> r.error == text && forall t :: TypeName(t) != text
  {
    match text
    case "Number" => Ok(SimpleType.Number)
    case "str" => Ok(SimpleType.Str)
    case "String" => Ok(SimpleType.String)
    case "None" => Ok(SimpleType.None)
    case "()" => Ok(SimpleType.Empty)
    case "Never" => Ok(SimpleType.Never)
    case "List" => Ok(SimpleType.List)
    case _ => Err(text)
  }

  /**
   * The tokenizer as the rules see it: `get_next_token(consume)` called
   * with the cursor at `c`, giving the scan result and the new cursor.
   */
  type TokenSource = (nat, bool) -> Scan

  /** A scan from cursor `c` stays in a text of length `n`, never goes back, and goes forward when it consumes a token. */
  predicate Moves(s: Scan, c: nat, n: nat, consume: bool) {
    c <= s.cursor <= n && (consume && s.result.Ok? && s.result.value.Some? ==> c < s.cursor)
  }

  /** What the rules rely on from the tokenizer: every scan from inside the text moves as `Moves` says. */
  predicate Lawful(lex: TokenSource, n: nat) {
    forall c: nat, consume: bool :: c <= n ==> Moves(lex(c, consume), c, n, consume)
  }

  /** The tokenizer over `src` with the rule table `specs`, as a token source that keeps the laws. */
  function Lexing(specs: seq<Spec>, src: string): (lex: TokenSource)
    requires WellFormed(specs)
    ensures Lawful(lex, |src|)
  {
    (c: nat, consume: bool) => if c <= |src| then Next(specs, src, c, consume) else Scan(Ok(Option.None), c)
  }

  /**
   * One call of `get_next_token(consume)` as the parser sees it: the end of
   * the text is the token `EOF` and a lexer error becomes a parser error.
   */
  function Fetch(lex: TokenSource, n: nat, c: nat, consume: bool): (f: Step<Token>)
    requires Lawful(lex, n) && c <= n
    ensures c <= f.cursor <= n
    ensures consume && f.result.Ok? && f.result.value != Token.EOF ==> c < f.cursor
  {
    var s := lex(c, consume);
    match s.result
    case Ok(Some(t)) => Step(Ok(t), s.cursor)
    case Ok(None) => Step(Ok(Token.EOF), s.cursor)
    case Err(e) => Step(Err(LexFailure(e)), s.cursor)
  }

  /** `parse_literal`: one token, a string or a number. */
  function LiteralRule(lex: TokenSource, n: nat, c: nat): (r: Step<Literal>)
    requires Lawful(lex, n) && c <= n
    ensures c <= r.cursor <= n
    ensures r.result.Ok? ==> c < r.cursor
  {
    var f := Fetch(lex, n, c, true);
    match f.result
    case Ok(String(s)) => Step(Ok(StringLiteral(s)), f.cursor)
    case Ok(Number(n)) => Step(Ok(NumberLiteral(n)), f.cursor)
    case Ok(t) => Step(Err(Expected(LiteralValue, t)), f.cursor)
    case Err(e) => Step(Err(e), f.cursor)
  }

  /** `parse_simple_type`: one type-name token whose text is one of the seven types. */
  function SimpleTypeRule(lex: TokenSource, n: nat, c: nat): (r: Step<SimpleType>)
    requires Lawful(lex, n) && c <= n
    ensures c <= r.cursor <= n
    ensures r.result.Ok? ==> c < r.cursor
  {
    var f := Fetch(lex, n, c, true);
    match f.result
    case Ok(SimpleType(v)) =>
      (match SimpleTypeFrom(v)
       case Ok(t) => Step(Ok(t), f.cursor)
       case Err(text) => Step(Err(InvalidType(text)), f.cursor))
    case Ok(t) => Step(Err(Expected(SimpleTypeName, t)), f.cursor)
    case Err(e) => Step(Err(e), f.cursor)
  }

  /** `parse_type`: a simple type, wrapped. */
  function TypeRule(lex: TokenSource, n: nat, c: nat): (r: Step<Type>)
    requires Lawful(lex, n) && c <= n
    ensures c <= r.cursor <= n
    ensures r.result.Ok? ==> c < r.cursor
  {
    var s := SimpleTypeRule(lex, n, c);
    match s.result
    case Ok(t) => Step(Ok(Simple(t)), s.cursor)
    case Err(e) => Step(Err(e), s.cursor)
  }

  /** `parse_pipe(consume)`: the next token must be a pipe. */
  function PipeRule(lex: TokenSource, n: nat, c: nat, consume: bool): (r: Step<()>)
    requires Lawful(lex, n) && c <= n
    ensures c <= r.cursor <= n
    ensures consume && r.result.Ok? ==> c < r.cursor
  {
    var f := Fetch(lex, n, c, consume);
    match f.result
    case Ok(Pipe) => Step(Ok(()), f.cursor)
    case Ok(t) => Step(Err(Expected(PipeSeparator, t)), f.cursor)
    case Err(e) => Step(Err(e), f.cursor)
  }

  /**
   * `parse_union_type`: a simple type, then a peek; on a pipe, the pipe is
   * consumed and the rest of the union is parsed and appended.
   */
  function UnionRule(lex: TokenSource, n: nat, c: nat): (r: Step<UnionType>)
    requires Lawful(lex, n) && c <= n
    ensures c <= r.cursor <= n
    ensures r.result.Ok? ==> c < r.cursor && |r.result.value.types| >= 1
    decreases n - c
  {
    var first := SimpleTypeRule(lex, n, c);
    match first.result
    case Err(e) => Step(Err(e), first.cursor)
    case Ok(t) =>
      var peek := Fetch(lex, n, first.cursor, false);
      match peek.result
      case Err(e) => Step(Err(e), peek.cursor)
      case Ok(Pipe) =>
        var pipe := PipeRule(lex, n, peek.cursor, true);
        if pipe.result.Err? then Step(Err(pipe.result.error), pipe.cursor)
        else
          var rest := UnionRule(lex, n, pipe.cursor);
          (match rest.result
           case Ok(u) => Step(Ok(UnionType([t] + u.types)), rest.cursor)
           case Err(e) => Step(Err(e), rest.cursor))
      case Ok(_) => Step(Ok(UnionType([t])), peek.cursor)
  }

  /**
   * `parse_identation`: a `Tab` token, then a peek; while the next token is
   * a `Tab` too it is consumed and counted.
   */
  function IndentRule(lex: TokenSource, n: nat, c: nat): (r: Step<Indentation>)
    requires Lawful(lex, n) && c <= n
    ensures c <= r.cursor <= n
    ensures r.result.Ok? ==> c < r.cursor && 1 <= r.result.value.count <= r.cursor - c
    decreases n - c
  {
    var f := Fetch(lex, n, c, true);
    match f.result
    case Err(e) => Step(Err(e), f.cursor)
    case Ok(Tab) =>
      var peek := Fetch(lex, n, f.cursor, false);
      (match peek.result
       case Err(e) => Step(Err(e), peek.cursor)
       case Ok(Tab) =>
         var rest := IndentRule(lex, n, peek.cursor);
         (match rest.result
          case Ok(n) => Step(Ok(Indentation(1 + n.count)), rest.cursor)
          case Err(e) => Step(Err(e), rest.cursor))
       case Ok(_) => Step(Ok(Indentation(1)), peek.cursor))
    case Ok(t) => Step(Err(Expected(IndentUnit, t)), f.cursor)
  }

  /** `parse_variable`: one identifier token. */
  function VariableRule(lex: TokenSource, n: nat, c: nat): (r: Step<Variable>)
    requires Lawful(lex, n) && c <= n
    ensures c <= r.cursor <= n
    ensures r.result.Ok? ==> c < r.cursor
  {
    var f := Fetch(lex, n, c, true);
    match f.result
    case Ok(Variable(name)) => Step(Ok(Variable.Variable(name)), f.cursor)
    case Ok(t) => Step(Err(Expected(VariableName, t)), f.cursor)
    case Err(e) => Step(Err(e), f.cursor)
  }

  /** The `=` of a declaration. */
  function EqualRule(lex: TokenSource, n: nat, c: nat): (r: Step<()>)
    requires Lawful(lex, n) && c <= n
    ensures c <= r.cursor <= n
    ensures r.result.Ok? ==> c < r.cursor
  {
    var f := Fetch(lex, n, c, true);
    match f.result
    case Ok(Equal) => Step(Ok(()), f.cursor)
    case Ok(t) => Step(Err(Expected(EqualSign, t)), f.cursor)
    case Err(e) => Step(Err(e), f.cursor)
  }

  /**
   * What `parse_declaration` reads after `name:`: a union type, `=` and the
   * literal; the first error met is the result.
   */
  function TypedRule(lex: TokenSource, n: nat, name: Variable, c: nat): (r: Step<Declaration>)
    requires Lawful(lex, n) && c <= n
    ensures c <= r.cursor <= n
    ensures r.result.Ok? ==> c < r.cursor && r.result.value.variable == name && r.result.value.unionType.Some?
  {
    var u := UnionRule(lex, n, c);
    match u.result
    case Err(e) => Step(Err(e), u.cursor)
    case Ok(union) =>
      var eq := EqualRule(lex, n, u.cursor);
      if eq.result.Err? then Step(Err(eq.result.error), eq.cursor)
      else
        var lit := LiteralRule(lex, n, eq.cursor);
        (match lit.result
         case Ok(l) => Step(Ok(Declaration(name, Some(union), l)), lit.cursor)
         case Err(e) => Step(Err(e), lit.cursor))
  }

  /**
   * `parse_declaration`: a variable, then a peek. A colon is consumed and
   * followed by a union type and `=`; an `=` is consumed directly; anything
   * else is an error. The literal comes last.
   */
  function DeclarationRule(lex: TokenSource, n: nat, c: nat): (r: Step<Declaration>)
    requires Lawful(lex, n) && c <= n
    ensures c <= r.cursor <= n
    ensures r.result.Ok? ==> c < r.cursor
  {
    var v := VariableRule(lex, n, c);
    match v.result
    case Err(e) => Step(Err(e), v.cursor)
    case Ok(name) =>
      var peek := Fetch(lex, n, v.cursor, false);
      match peek.result
      case Err(e) => Step(Err(e), peek.cursor)
      case Ok(Colon) =>
        var colon := Fetch(lex, n, peek.cursor, true);
        TypedRule(lex, n, name, colon.cursor)
      case Ok(Equal) =>
        var eq := Fetch(lex, n, peek.cursor, true);
        var lit := LiteralRule(lex, n, eq.cursor);
        (match lit.result
         case Ok(l) => Step(Ok(Declaration(name, Option.None, l)), lit.cursor)
         case Err(e) => Step(Err(e), lit.cursor))
      case Ok(t) => Step(Err(Expected(ColonOrEqual, t)), peek.cursor)
  }

  /**
   * `lex` is the tokenizer over `src` with the rule table `specs`. The
   * quantifier fires only on scans of the tokenizer itself, so a proof that
   * does not look at the tokenizer sees `lex` as any lawful token source.
   */
  ghost predicate Agrees(lex: TokenSource, specs: seq<Spec>, src: string)
    requires WellFormed(specs)
  {
    forall c: nat, consume: bool {:trigger Next(specs, src, c, consume)} ::
      c <= |src| ==> lex(c, consume) == Next(specs, src, c, consume)
  }

  /** The parser object: it borrows a tokenizer and moves its cursor. */
  class Parser {
    const tokenizer: Tokenizer
    /** The tokens the parser reads: its tokenizer's text under its rule table. */
    ghost const lex: TokenSource

    ghost predicate Valid()
      reads this, tokenizer
    {
      && tokenizer.Valid()
      && Lawful(lex, |tokenizer.source|)
      && Agrees(lex, tokenizer.specs, tokenizer.source)
    }

    /** `Parser::new`. */
    constructor (tokenizer: Tokenizer)
      requires tokenizer.Valid()
      ensures this.tokenizer == tokenizer && Valid()
    {
      this.tokenizer := tokenizer;
      lex := Lexing(tokenizer.specs, tokenizer.source);
    }

    /** A token from the tokenizer, the end of the text read as `EOF`. */
    method NextToken(consume: bool) returns (r: Result<Token, ParseError>)
      requires Valid()
      modifies tokenizer`cursor
      ensures Valid()
      ensures Step(r, tokenizer.cursor) == Fetch(lex, |tokenizer.source|, old(tokenizer.cursor), consume)
    {
      var next := tokenizer.GetNextToken(consume);
      match next
      case Ok(Some(t)) => r := Ok(t);
      case Ok(None) => r := Ok(Token.EOF);
      case Err(e) => r := Err(LexFailure(e));
    }

    method ParseLiteral() returns (r: Result<Literal, ParseError>)
      requires Valid()
      modifies tokenizer`cursor
      ensures Valid()
      ensures Step(r, tokenizer.cursor) == LiteralRule(lex, |tokenizer.source|, old(tokenizer.cursor))
    {
      var token := NextToken(true);
      match token
      case Ok(String(s)) => r := Ok(StringLiteral(s));
      case Ok(Number(n)) => r := Ok(NumberLiteral(n));
      case Ok(t) => r := Err(Expected(LiteralValue, t));
      case Err(e) => r := Err(e);
    }

    method ParseSimpleType() returns (r: Result<SimpleType, ParseError>)
      requires Valid()
      modifies tokenizer`cursor
      ensures Valid()
      ensures Step(r, tokenizer.cursor) == SimpleTypeRule(lex, |tokenizer.source|, old(tokenizer.cursor))
    {
      var token := NextToken(true);
      match token
      case Ok(SimpleType(v)) =>
        var converted := SimpleTypeFrom(v);
        match converted {
          case Ok(t) => r := Ok(t);
          case Err(text) => r := Err(InvalidType(text));
        }
      case Ok(t) => r := Err(Expected(SimpleTypeName, t));
      case Err(e) => r := Err(e);
    }

    method ParseType() returns (r: Result<Type, ParseError>)
      requires Valid()
      modifies tokenizer`cursor
      ensures Valid()
      ensures Step(r, tokenizer.cursor) == TypeRule(lex, |tokenizer.source|, old(tokenizer.cursor))
    {
      var simple := ParseSimpleType();
      match simple
      case Ok(t) => r := Ok(Simple(t));
      case Err(e) => r := Err(e);
    }

    method ParsePipe(consume: bool) returns (r: Result<(), ParseError>)
      requires Valid()
      modifies tokenizer`cursor
      ensures Valid()
      ensures Step(r, tokenizer.cursor) == PipeRule(lex, |tokenizer.source|, old(tokenizer.cursor), consume)
    {
      var token := NextToken(consume);
      match token
      case Ok(Pipe) => r := Ok(());
      case Ok(t) => r := Err(Expected(PipeSeparator, t));
      case Err(e) => r := Err(e);
    }

    method ParseUnionType() returns (r: Result<UnionType, ParseError>)
      requires Valid()
      modifies tokenizer`cursor
      ensures Valid()
      ensures Step(r, tokenizer.cursor) == UnionRule(lex, |tokenizer.source|, old(tokenizer.cursor))
      decreases |tokenizer.source| - tokenizer.cursor
    {
      var first := ParseSimpleType();
      if first.Err? {
        return Err(first.error);
      }
      var peek := NextToken(false);
      match peek
      case Err(e) => r := Err(e);
      case Ok(Pipe) =>
        var pipe := ParsePipe(true);
        if pipe.Err? {
          return Err(pipe.error);
        }
        var rest := ParseUnionType();
        match rest {
          case Ok(u) => r := Ok(UnionType([first.value] + u.types));
          case Err(e) => r := Err(e);
        }
      case Ok(_) => r := Ok(UnionType([first.value]));
    }

    method ParseIndentation() returns (r: Result<Indentation, ParseError>)
      requires Valid()
      modifies tokenizer`cursor
      ensures Valid()
      ensures Step(r, tokenizer.cursor) == IndentRule(lex, |tokenizer.source|, old(tokenizer.cursor))
      decreases |tokenizer.source| - tokenizer.cursor
    {
      var token := NextToken(true);
      if token.Err? {
        return Err(token.error);
      } else if !token.value.Tab? {
        return Err(Expected(IndentUnit, token.value));
      }
      var peek := NextToken(false);
      if peek.Err? {
        return Err(peek.error);
      } else if !peek.value.Tab? {
        return Ok(Indentation(1));
      }
      var rest := ParseIndentation();
      match rest {
        case Ok(n) => r := Ok(Indentation(1 + n.count));
        case Err(e) => r := Err(e);
      }
    }

    method ParseVariable() returns (r: Result<Variable, ParseError>)
      requires Valid()
      modifies tokenizer`cursor
      ensures Valid()
      ensures Step(r, tokenizer.cursor) == VariableRule(lex, |tokenizer.source|, old(tokenizer.cursor))
    {
      var token := NextToken(true);
      match token
      case Ok(Variable(name)) => r := Ok(Variable.Variable(name));
      case Ok(t) => r := Err(Expected(VariableName, t));
      case Err(e) => r := Err(e);
    }

    method ParseEqual() returns (r: Result<(), ParseError>)
      requires Valid()
      modifies tokenizer`cursor
      ensures Valid()
      ensures Step(r, tokenizer.cursor) == EqualRule(lex, |tokenizer.source|, old(tokenizer.cursor))
    {
      var token := NextToken(true);
      match token
      case Ok(Equal) => r := Ok(());
      case Ok(t) => r := Err(Expected(EqualSign, t));
      case Err(e) => r := Err(e);
    }

    method ParseDeclaration() returns (r: Result<Declaration, ParseError>)
      requires Valid()
      modifies tokenizer`cursor
      ensures Valid()
      ensures Step(r, tokenizer.cursor) == DeclarationRule(lex, |tokenizer.source|, old(tokenizer.cursor))
    {
      var name := ParseVariable();
      if name.Err? {
        return Err(name.error);
      }
      var peek := NextToken(false);
      match peek
      case Err(e) => r := Err(e);
      case Ok(Colon) =>
        var _ := NextToken(true);
        var union := ParseUnionType();
        if union.Err? {
          return Err(union.error);
        }
        var eq := ParseEqual();
        if eq.Err? {
          return Err(eq.error);
        }
        var lit := ParseLiteral();
        match lit {
          case Ok(l) => r := Ok(Declaration(name.value, Some(union.value), l));
          case Err(e) => r := Err(e);
        }
      case Ok(Equal) =>
        var _ := NextToken(true);
        var lit := ParseLiteral();
        match lit {
          case Ok(l) => r := Ok(Declaration(name.value, Option.None, l));
          case Err(e) => r := Err(e);
        }
      case Ok(t) => r := Err(Expected(ColonOrEqual, t));
    }
  }
}
