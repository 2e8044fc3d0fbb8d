# Glare front end: tokenizer, parser and literal code generation

Glare is a small declaration language: `name: T1 | T2 = literal`. Its front
end turns source text into tokens, then into a syntax tree of declarations
with an optional union-typed annotation and a literal initializer, and then
turns literals into target code. This project models that front end in
Dafny and proves what the implementation promises about it.

- **Tokens** (`token.dfy`, module `Tokens`). The closed token type and its
  display text, which the parser puts into every error message. The
  tokenizer also builds `Variable`, `Colon` and `Equal` tokens, which
  `src/token.rs` does not declare; they are part of the datatype here.
- **Tokenizer** (`tokenizer.dfy`, module `Lexer`; lemmas in
  `tokenizer_facts.dfy`, module `LexerFacts`).
  - The tokenizer holds a cursor into a source text and a rule table of
    twelve lexical rules, in a fixed order.
  - Each regular expression becomes a prefix matcher (`MatchLength`) that
    returns the length of its match at the cursor, or 0.
  - `Next(specs, src, c, consume)` is the specification function of
    `get_next_token`.
  - The class `Tokenizer` holds the `cursor` field. Its `GetNextToken`
    method walks the table with a loop (`FindRule`), steps over skip
    matches with a second loop, and is proved equal to `Next`.
  - Lemmas prove what `Next` promises for the real table: rule order,
    exact number values, the i64 range error, quoted strings, skipping,
    peek and consume, and the dead "unexpected symbol" branch.
- **Parser** (`parser.dfy`, module `Parsing`; lemmas in `parser_facts.dfy`,
  module `ParsingFacts`).
  - Each grammar rule is a specification function over a *token source*,
    which is the tokenizer's scan seen as a function of the cursor. It
    returns the rule's result and the cursor it leaves behind.
  - The class `Parser` shares one `Tokenizer` object. Its `Parse*`
    methods run the rules against that object and are proved equal to the
    specification functions.
  - `SimpleTypeFrom` is `SimpleType::try_from`.
  - The rules for pipes, union types, indentation, variables and
    declarations follow the grammar their tests exercise: parse one item,
    peek at the next token, and consume it and go on only when it is the
    separator.
  - Round-trip lemmas show that the text of every union, indentation,
    literal and declaration parses back to the value it came from. The
    tests' inputs are instances of these lemmas.
- **Code generation** (`codegen.dfy`, module `Codegen`). `Compilable::compile`
  for literals and the free function `compile`.
- `decimal.dfy` (module `Decimal`) holds the decimal digits of numbers: the
  value of a digit run, the text of a number, and the bound of `i64`.
- `wrappers.dfy` (module `Wrappers`) holds the `Option` and `Result`
  datatypes.

Lexer errors are the datatype `LexError`:

- `TooLarge(digits)` is "<digits> is too large for type 'Number'".
- `UnexpectedSymbol(ch, index)` is "Unexpected symbol <ch> (at index <index>)".

Parser errors are the datatype `ParseError`:

- `LexFailure(e)` is a lexer error passed through unchanged.
- `Expected(construct, token)` is "Expected valid <construct> (got <token>)".
- `InvalidType(text)` is "The type <text> is not valid".

Three facts about the code shape the model:

- The only skip rules are the whitespace run and the `#` line comment
  (`src/tokenizer.rs:58-65`). There is no block-comment rule.
- A peek (`consume == false`) still moves the cursor past skipped
  whitespace and comments (`src/tokenizer.rs:119-122`). Only the content
  token is left unconsumed, so a second peek from there is stable
  (`LexerFacts.PeekIsStable`, `LexerFacts.PeekStepsOverTrivia`).
- `LineBreak` is declared (`src/token.rs:10`) but no rule produces it. The
  model keeps it in the datatype and never builds it.

## Model

| member | source | states |
|---|---|---|
| Tokens.Quoted | src/token.rs:17-19 | `<kind> '<payload>'` is the kind, a space, and the payload between single quotes, with nothing escaped |
| Tokens.DisplayQuotesPayload | src/token.rs:17-19 | a string, number or type token displays its payload verbatim between single quotes at the end of the text |
| Tokens.DisplayNumberIsDecimal | src/token.rs:18 | `Number(n)` displays as `number '` followed by a signed decimal text that reads back as `n`, and a closing quote |
| Tokens.PayloadInitials | src/token.rs:17-19 | the display text of a token with a payload starts with the first two letters of its kind |
| Tokens.DisplayStartsWithInitials | src/token.rs:16-24 | every kind of token has display text starting with its own two initials (`pipe`, `tab`, `new line`, `EOF` ...) |
| Tokens.DisplayInjective | src/token.rs:15-25 | two tokens with the same display text are equal, so a parser error names its token unambiguously |
| Decimal.DigitValue | src/tokenizer.rs:106 | a digit's value is below ten |
| Decimal.DigitChar | src/token.rs:18 | the digit character for a value below ten reads back as that value |
| Decimal.NatText | src/token.rs:18 | the decimal text of a natural number is a non-empty digit run without leading zero that reads back as the number |
| Decimal.IntText | src/codegen.rs:16 | the text `format!("{}", n)` of an integer is a signed decimal |
| Decimal.IntTextRoundTrip | src/codegen.rs:16 | reading the decimal text of an integer gives that integer back |
| Decimal.IntTextInjective | src/token.rs:18 | different integers have different decimal texts |
| Decimal.LongRunTooLarge | src/tokenizer.rs:106-110 | a run of twenty or more digits without leading zero exceeds `i64::MAX`, so it is the "too large" error |
| Decimal.Power10Bound | src/tokenizer.rs:106-110 | ten to the 19th and above exceed `i64::MAX` |
| Decimal.LeadingDigitBound | src/tokenizer.rs:106-110 | a digit run without leading zero is at least ten to the power of its length minus one |
| Lexer.RunEnd | src/tokenizer.rs:34 | the end of a character-class run lies between its start and the end of the text |
| Lexer.RunIsLongest | src/tokenizer.rs:60 | a greedy run (`\d+`, `\s+`, `\w*`, `.*`) covers only class characters and stops at the first other character |
| Lexer.KeywordLength | src/tokenizer.rs:69 | the keyword alternation's match fits in the text |
| Lexer.MatchLength | src/tokenizer.rs:31-85 | every regex of the table matches a prefix of the remaining text |
| Lexer.FirstMatch | src/tokenizer.rs:98-99 | the rule picked is in the table, at or after the start index, and its match is non-empty and fits in the text |
| Lexer.TokenFor | src/tokenizer.rs:105-130 | the token built for a content match is never `EOF` or `LineBreak`, and the result is an error exactly when a digit run exceeds `i64::MAX`, the "too large" error carrying the digits |
| Lexer.Next | src/tokenizer.rs:96-155 | the cursor never moves back and never passes the end of the text, and a consumed token always advances it |
| Lexer.Tokenizer.constructor | src/tokenizer.rs:30-94 | a new tokenizer has its cursor at 0 and the twelve rules of the table in order |
| Lexer.Tokenizer.HasMoreTokens | src/tokenizer.rs:157-159 | when the cursor is at the end, `get_next_token` gives `Ok(None)` for either `consume` and leaves the cursor where it is |
| Lexer.Tokenizer.GetNextToken | src/tokenizer.rs:96-155 | the result and the new cursor are those of `Next` from the old cursor: skip matches move the cursor and scanning starts again, and a content match moves it only when consuming |
| Lexer.Tokenizer.FindRule | src/tokenizer.rs:98-99 | the loop over the table returns the first rule that matches, in table order, with its match length |
| Lexer.FirstMatchWins | src/tokenizer.rs:98-99 | the rule chosen matches with the given length, every earlier rule fails, and when none is chosen no rule matches |
| Lexer.NextWithoutRule | src/tokenizer.rs:143-148 | where no rule matches, the result is the unexpected-symbol error at the cursor's character and index, and the cursor stays |
| Lexer.NextSkip | src/tokenizer.rs:119-123 | a skip match is non-empty, and scanning goes on from past it with the same `consume` flag |
| Lexer.NextContent | src/tokenizer.rs:132-136 | a content match gives the token built from exactly the matched text, and the cursor moves by the match length if and only if consuming, also when the number is too large |
| Lexer.MatchedText | src/tokenizer.rs:99-103 | a matched string rule covers at least its two delimiters, and a matched number rule covers only digits |
| LexerFacts.RunStopsAt | src/tokenizer.rs:34 | a run that covers class characters up to a non-class character or the end stops there |
| LexerFacts.PeekIsStable | src/tokenizer.rs:119-134 | a second peek at the cursor left by a first peek gives the same result and leaves the cursor unchanged |
| LexerFacts.ContentPeekThenConsume | src/tokenizer.rs:132-136 | where a content rule matches first, consuming returns what peeking returns and moves by the match |
| LexerFacts.SkipPeekThenConsume | src/tokenizer.rs:119-123 | peeking and consuming agree across a skip match when they agree after it |
| LexerFacts.ConsumeAgreesWithPeek | src/tokenizer.rs:119-136 | consuming returns what peeking returns from the same cursor, and moves further than the peek exactly when it yields a token or a too-large number |
| LexerFacts.CursorStaysInText | src/tokenizer.rs:121-133 | the cursor after a scan never decreases and never passes the end of the text |
| LexerFacts.Miss | src/tokenizer.rs:98-99 | a rule that does not match hands the search to the next rule |
| LexerFacts.Hit | src/tokenizer.rs:98-99 | a rule that matches is chosen with its own match length |
| LexerFacts.SpecsTable | src/tokenizer.rs:31-85 | the table `Tokenizer::new` builds is the twelve-rule table the lemmas are about |
| LexerFacts.SomeRuleMatches | src/tokenizer.rs:34 | on non-empty text, some rule of the table always matches |
| LexerFacts.DigitOrWord | src/tokenizer.rs:82 | every non-empty text starts with a digit run or with a non-digit character that the identifier rule takes |
| LexerFacts.SkipNumberAndStrings | src/tokenizer.rs:34-48 | text not starting with a digit or a quote misses the first four rules |
| LexerFacts.SkipIndentAndPipe | src/tokenizer.rs:50-57 | text not starting with a tab, a space or `\|` misses the Tab and Pipe rules |
| LexerFacts.SkipTrivia | src/tokenizer.rs:58-65 | text not starting with whitespace or `#` misses both skip rules |
| LexerFacts.SkipKeywords | src/tokenizer.rs:69 | text that starts with no keyword misses the keyword rule |
| LexerFacts.SkipOnlyTooLarge | src/tokenizer.rs:119-123 | a skip match is non-empty, and when the scan after it gives only too-large errors, so does the scan before it |
| LexerFacts.ContentOnlyTooLarge | src/tokenizer.rs:105-111 | the only error a content match can give is the too-large error |
| LexerFacts.NeverUnexpected | src/tokenizer.rs:143-150 | with the real table, the only possible lexer error is "too large": the unexpected-symbol errors cannot happen |
| LexerFacts.KeywordLengthZero | src/tokenizer.rs:69 | text that starts with no keyword does not match the keyword rule |
| LexerFacts.KeywordLengthIs | src/tokenizer.rs:69 | the keyword rule matches the first alternative, in written order, that is a prefix of the text |
| LexerFacts.NoKeywordInitial | src/tokenizer.rs:69 | text whose first character begins no keyword starts with no keyword |
| LexerFacts.ShortTextHasNoKeyword | src/tokenizer.rs:69 | text shorter than two characters starts with no keyword |
| LexerFacts.FoundContent | src/tokenizer.rs:115-136 | a symbol, keyword, tab or name match yields its token, moving the cursor past it only when consuming |
| LexerFacts.LexDigits | src/tokenizer.rs:106-110 | a digit run gives `Number` with its exact value when it fits in `i64` and the "too large" error carrying the digits otherwise, and the cursor moves past the run only when consuming |
| LexerFacts.NatTextRun | src/tokenizer.rs:34 | the decimal text of a number, not followed by a digit, is exactly the run the digit rule matches |
| LexerFacts.LexNatText | src/tokenizer.rs:106-107 | the decimal text of any non-negative `i64` value lexes back to `Number` of that value; the table has no minus rule, so a negative number's text does not lex to a single `Number` token |
| LexerFacts.LexQuoted | src/tokenizer.rs:112-113 | a text without the chosen quote character, between two of them, lexes to `String` of exactly that text, with no escape processing |
| LexerFacts.LexIndent | src/tokenizer.rs:124 | a tab or four spaces is one `Tab` token of length 1 or 4, even though the whitespace skip comes later in the table |
| LexerFacts.SymbolMatch | src/tokenizer.rs:54-78 | `\|`, `:` and `=` are matched by their own one-character rules, ahead of the identifier rule |
| LexerFacts.LexSymbol | src/tokenizer.rs:118 | `\|`, `:` and `=` lex as `Pipe`, `Colon` and `Equal` rather than as names |
| LexerFacts.MissBeforeKeywords | src/tokenizer.rs:31-65 | a character that can start a name misses every rule before the keyword rule |
| LexerFacts.LexKeyword | src/tokenizer.rs:115-116 | a keyword prefix lexes as `SimpleType` of exactly the keyword, ahead of the identifier rule |
| LexerFacts.LexWord | src/tokenizer.rs:125-127 | a name that starts with no keyword lexes as `Variable` of its whole word-character run |
| LexerFacts.WordRuleWins | src/tokenizer.rs:80-83 | the identifier rule is chosen for a name that starts with no keyword |
| LexerFacts.SkipBlank | src/tokenizer.rs:119-122 | a whitespace run that is not a tab or four spaces is skipped whole, peeking or not |
| LexerFacts.BlankRuleWins | src/tokenizer.rs:58-61 | the whitespace rule is chosen for such a run, with the run's whole length |
| LexerFacts.SkipOneSpace | src/tokenizer.rs:119-122 | a single space is skipped |
| LexerFacts.SkipComment | src/tokenizer.rs:62-65 | a `#` comment up to, but not including, the next newline is skipped |
| LexerFacts.KeywordsHaveNoWordBoundary | src/tokenizer.rs:69 | `Numbers` lexes as `SimpleType("Number")` and then `Variable("s")` |
| LexerFacts.NumbersStartsWithKeyword | src/tokenizer.rs:69 | the first token of `Numbers` is `SimpleType("Number")` |
| LexerFacts.NumbersKeywordLength | src/tokenizer.rs:69 | the keyword rule matches 6 characters of `Numbers` |
| LexerFacts.NumbersEndsWithName | src/tokenizer.rs:82 | the `s` left over from `Numbers` is a `Variable` |
| LexerFacts.TabRuleBeforeSkip | src/tokenizer.rs:50-61 | a tab and four spaces give `Tab`, while two spaces and a tab are skipped whole |
| LexerFacts.PeekStepsOverTrivia | src/tokenizer.rs:119-122 | a peek at ` \|` gives `Pipe` but moves the cursor past the blank |
| Parsing.SimpleTypeFrom | src/parser.rs:36-46 | the conversion succeeds exactly on the seven type names, each mapped to its own variant, and otherwise fails carrying the text |
| Parsing.Lexing | src/tokenizer.rs:96-155 | the tokenizer's scan, as a function of the cursor, stays in the text and advances when it consumes a token |
| Parsing.Fetch | src/parser.rs:62 | a token fetch, with `Ok(None)` read as `EOF`, stays in the text and advances past every real token |
| Parsing.LiteralRule | src/parser.rs:61-70 | `parse_literal` stays in the text and advances when it succeeds |
| Parsing.SimpleTypeRule | src/parser.rs:83-94 | `parse_simple_type` stays in the text and advances when it succeeds |
| Parsing.TypeRule | src/parser.rs:101-106 | `parse_type` stays in the text and advances when it succeeds |
| Parsing.PipeRule | src/tests/pipe.rs:4-17 | the pipe rule stays in the text and advances when it consumes a pipe |
| Parsing.UnionRule | src/tests/union_types.rs:7-26 | the union rule stays in the text, and on success it advances and yields at least one type |
| Parsing.IndentRule | src/tests/identation.rs:4-21 | the indentation rule stays in the text, and on success it counts at least one unit and no more units than characters consumed |
| Parsing.VariableRule | src/tests/parser/variable.rs:4-21 | the variable rule stays in the text and advances when it succeeds |
| Parsing.EqualRule | src/tests/parser/declaration.rs:8-25 | the `=` rule stays in the text and advances when it succeeds |
| Parsing.TypedRule | src/tests/parser/declaration.rs:27-48 | the rest of a typed declaration keeps the variable and yields a union type |
| Parsing.DeclarationRule | src/tests/parser/declaration.rs:8-48 | the declaration rule stays in the text and advances when it succeeds |
| Parsing.Parser.constructor | src/parser.rs:51-53 | a parser holds the tokenizer it is given |
| Parsing.Parser.NextToken | src/parser.rs:62 | one token fetch from the shared tokenizer: the result and new cursor of `Fetch` |
| Parsing.Parser.ParseLiteral | src/parser.rs:61-70 | the result and new cursor of the tokenizer are those of `LiteralRule` |
| Parsing.Parser.ParseSimpleType | src/parser.rs:83-94 | the result and new cursor are those of `SimpleTypeRule` |
| Parsing.Parser.ParseType | src/parser.rs:101-106 | the result and new cursor are those of `TypeRule` |
| Parsing.Parser.ParsePipe | src/tests/pipe.rs:4-17 | the result and new cursor are those of `PipeRule` |
| Parsing.Parser.ParseUnionType | src/tests/union_types.rs:7-26 | parse one type, peek, and on a pipe consume it and recurse: the result and cursor are those of `UnionRule` |
| Parsing.Parser.ParseIndentation | src/tests/identation.rs:4-21 | consume a tab, peek, and on another tab recurse and count one more: the result and cursor are those of `IndentRule` |
| Parsing.Parser.ParseVariable | src/tests/parser/variable.rs:4-21 | the result and new cursor are those of `VariableRule` |
| Parsing.Parser.ParseEqual | src/tests/parser/declaration.rs:8-25 | the result and new cursor are those of `EqualRule` |
| Parsing.Parser.ParseDeclaration | src/tests/parser/declaration.rs:8-48 | the result and new cursor are those of `DeclarationRule` |
| ParsingFacts.LexingIsTableSource | src/tokenizer.rs:96-155 | the scan of the real table over a text is a lawful token source for the rules |
| ParsingFacts.ParserReadsTable | src/parser.rs:51-53 | a parser over a tokenizer made by `Tokenizer::new` reads the real table's tokens |
| ParsingFacts.TypeNameRoundTrip | src/parser.rs:36-46 | converting the name of a type gives that type back |
| ParsingFacts.TypeNameInjective | src/parser.rs:36-46 | different types have different names |
| ParsingFacts.KeywordIndex | src/tokenizer.rs:69 | every type name is one of the first seven keyword alternatives |
| ParsingFacts.TypeNameKeyword | src/tokenizer.rs:69 | text starting with a type name matches the keyword rule for exactly that name |
| ParsingFacts.TypeNameAt | src/tokenizer.rs:69 | a type name at the cursor starts like a name and is matched whole by the keyword rule |
| ParsingFacts.LexTypeName | src/tokenizer.rs:115-116 | every type name lexes as `SimpleType` of that name |
| ParsingFacts.ArrayLexes | src/tokenizer.rs:69 | `Array` lexes as a type token although no type has that name |
| ParsingFacts.ArrayKeywordLength | src/tokenizer.rs:69 | the keyword rule matches all of `Array` |
| ParsingFacts.InvalidTypeOn | src/parser.rs:86-88 | a type token with an unknown name makes `parse_simple_type` and `parse_type` fail with the conversion's error |
| ParsingFacts.LexErrorsPassThrough | src/parser.rs:68 | a lexer error at the cursor is the error of every rule, unchanged |
| ParsingFacts.TypeRuleWraps | src/parser.rs:101-106 | `parse_type` succeeds exactly when `parse_simple_type` does, wraps its type, and otherwise gives the same error and cursor |
| ParsingFacts.SimpleTypeOn | src/parser.rs:86-87 | a type token with a valid name parses to that type |
| ParsingFacts.UnionEndsAt | src/tests/union_types.rs:7-18 | a type not followed by a pipe is a one-type union, and the cursor is left at the peeked position |
| ParsingFacts.UnionGoesOnAt | src/tests/union_types.rs:7-18 | a type followed by a pipe is that type prepended to the union after the pipe |
| ParsingFacts.UnionAtEnd | src/tests/union_types.rs:20-26 | a union with nothing left to read fails expecting a type and getting `EOF` |
| ParsingFacts.IndentEndsAt | src/tests/identation.rs:4-13 | a unit not followed by another is an indentation of one |
| ParsingFacts.IndentGoesOnAt | src/tests/identation.rs:4-13 | a unit followed by another counts one more than the rest |
| ParsingFacts.VariableOn | src/tests/parser/variable.rs:4-13 | a variable token parses to a variable of that name |
| ParsingFacts.LiteralOn | src/parser.rs:63-65 | a string or number token parses to the matching literal |
| ParsingFacts.EqualOn | src/tests/parser/declaration.rs:8-25 | an `=` token is accepted by the `=` rule |
| ParsingFacts.UntypedDeclarationOn | src/tests/parser/declaration.rs:8-25 | a variable, then `=` and a literal, parse to a declaration without a type |
| ParsingFacts.SkipLead | src/tokenizer.rs:119-122 | blanks before a text are skipped by the scan |
| ParsingFacts.SpaceThenEnd | src/tokenizer.rs:119-122 | a final single space scans to the end of the text |
| ParsingFacts.EndOfText | src/tokenizer.rs:153-154 | at the end of the text the scan gives no token |
| ParsingFacts.UnionText | src/tests/union_types.rs:8 | the text `T1 \| T2 \| ...` of a union is at least as long as its first type name |
| ParsingFacts.TypeNameStart | src/parser.rs:38-44 | a type name is non-empty and does not start with a blank |
| ParsingFacts.TypeNameScan | src/tokenizer.rs:115-116 | a type name after blanks scans as its type token |
| ParsingFacts.TypeNameLexes | src/tokenizer.rs:115-116 | the token source gives a type name's type token |
| ParsingFacts.SimpleTypeAt | src/parser.rs:83-94 | a type name after blanks parses to its type |
| ParsingFacts.ArrayIsInvalidType | src/parser.rs:83-94 | `Array` lexes as a type token but parsing a type fails with "The type Array is not valid", not with "Expected valid simple type" |
| ParsingFacts.PipeAhead | src/tokenizer.rs:118 | ` \| ` is a pipe under a peek and under a consume |
| ParsingFacts.UnionStep | src/tests/union_types.rs:7-18 | a type name followed by ` \| ` is that type prepended to the union after it |
| ParsingFacts.UnionLast | src/tests/union_types.rs:7-18 | a last type name ends the union |
| ParsingFacts.PrependFirst | src/tests/union_types.rs:7-18 | the head prepended to the rest of a type list is the whole list |
| ParsingFacts.UnionHeadLayout | src/tests/union_types.rs:8 | a union text is its first name, ` \| `, and the text of the rest |
| ParsingFacts.UnionSplit | src/tests/union_types.rs:7-18 | a union text of two or more types parses as its first type prepended to the rest |
| ParsingFacts.UnionTextParses | src/tests/union_types.rs:7-18 | the text `T1 \| T2 \| ... \| Tn` of any non-empty list of types parses to the union of exactly those types, in that order, with duplicates kept |
| ParsingFacts.TrailingText | src/tests/union_types.rs:22 | the text `T1 \| ... \| Tn \| ` of a union with a trailing pipe |
| ParsingFacts.TrailingTextIsUnionText | src/tests/union_types.rs:22 | a trailing-pipe text is a union text followed by ` \| ` |
| ParsingFacts.TrailingOneLayout | src/tests/union_types.rs:22 | a one-type trailing-pipe text is the name and ` \| ` |
| ParsingFacts.TrailingLast | src/tests/union_types.rs:20-26 | one type and a trailing pipe make the union fail at `EOF` |
| ParsingFacts.TrailingSplitAt | src/tests/union_types.rs:20-26 | a trailing-pipe text parses as its first type prepended to the rest |
| ParsingFacts.TrailingSplit | src/tests/union_types.rs:20-26 | the same, with the position after the first pipe |
| ParsingFacts.UnionWithTrailingPipeFails | src/tests/union_types.rs:20-26 | any union text that ends in a pipe and then nothing fails, expecting a type and getting `EOF` |
| ParsingFacts.UnionExampleText | src/tests/union_types.rs:8 | the test inputs are union texts |
| ParsingFacts.UnionExample | src/tests/union_types.rs:7-18 | `String \| str \| Number` parses to the union of String, Str and Number, in that order, and it has each of them |
| ParsingFacts.UnionTrailingPipeExample | src/tests/union_types.rs:20-26 | `String \| str \| ` fails expecting a type and getting `EOF` |
| ParsingFacts.UnitText | src/tests/identation.rs:6 | an indentation unit is a tab or four spaces |
| ParsingFacts.UnitLexes | src/tokenizer.rs:124 | an indentation unit lexes as one `Tab` |
| ParsingFacts.IndentLayout | src/tests/identation.rs:6 | an indentation text is its first unit and the text of the rest |
| ParsingFacts.IndentStep | src/tests/identation.rs:4-13 | a unit followed by more units counts one more than the rest |
| ParsingFacts.IndentLast | src/tests/identation.rs:4-13 | a last unit ends the indentation |
| ParsingFacts.IndentTextParses | src/tests/identation.rs:4-13 | any non-empty run of tabs and four-space groups parses to an indentation counting its units |
| ParsingFacts.IndentExampleText | src/tests/identation.rs:6 | twelve spaces are three four-space units |
| ParsingFacts.TwelveSpacesExample | src/tests/identation.rs:4-13 | twelve spaces parse to indentation count 3 |
| ParsingFacts.ThreeTabsExample | src/tokenizer.rs:52 | three tabs parse to indentation count 3 |
| ParsingFacts.IndentationRejectsType | src/tests/identation.rs:15-21 | `Number` is not indentation: the rule fails expecting a unit and getting the type token |
| ParsingFacts.KeywordCharacters | src/tokenizer.rs:69 | keyword characters are word characters or parentheses |
| ParsingFacts.NameBoundary | src/tokenizer.rs:69 | a name that starts with no keyword, followed by a boundary, starts with no keyword in the longer text |
| ParsingFacts.NameScan | src/tokenizer.rs:82 | a name at the cursor is matched whole by the identifier rule and by no keyword |
| ParsingFacts.LexName | src/tokenizer.rs:125-127 | a name lexes as `Variable` of exactly that name |
| ParsingFacts.NameLexes | src/tokenizer.rs:125-127 | the token source gives a name's variable token |
| ParsingFacts.NameParses | src/tests/parser/variable.rs:4-13 | any name that starts with no type keyword parses to the variable of that name |
| ParsingFacts.VariableExample | src/tests/parser/variable.rs:4-13 | `abcd1234` parses to the variable `abcd1234` |
| ParsingFacts.NumberIsNotVariable | src/tests/parser/variable.rs:15-21 | `1234abcd` fails because its first token is the number 1234 |
| ParsingFacts.LiteralText | src/tests/literal.rs:7 | a literal's text (a backquoted string or a number's digits) is non-empty and does not start with a blank |
| ParsingFacts.LiteralTextLexes | src/tokenizer.rs:106-113 | a literal's text lexes as its token, up to the end of the text |
| ParsingFacts.LiteralLexes | src/tokenizer.rs:106-113 | the token source gives a literal's token |
| ParsingFacts.LiteralTextParses | src/parser.rs:61-70 | a literal's text after blanks parses back to the literal |
| ParsingFacts.CommentOnly | src/tokenizer.rs:64 | `# Comment` is skipped whole and leaves no token |
| ParsingFacts.WholeLiteralParses | src/parser.rs:61-70 | every printable literal's text parses back to that literal, consuming it all |
| ParsingFacts.LiteralStringText | src/tests/literal.rs:7 | the test input is the text of a string literal |
| ParsingFacts.StringLiteralExample | src/tests/literal.rs:6-11 | `` `Literal string` `` parses to the string literal `Literal string` |
| ParsingFacts.FortyTwoText | src/tests/literal.rs:15 | `42` is the text of the number literal 42 |
| ParsingFacts.NumberLiteralExample | src/tests/literal.rs:13-19 | `42` parses to the number literal 42 |
| ParsingFacts.CommentIsNoLiteralOrPipe | src/tests/literal.rs:21-27 | `# Comment` fails both as a literal and as a pipe, with `EOF` as the token got |
| ParsingFacts.PipeExample | src/tests/pipe.rs:4-9 | `\|` is accepted by the pipe rule |
| ParsingFacts.EqualsAhead | src/tokenizer.rs:128-129 | ` = ` is an `=` token under a peek and under a consume |
| ParsingFacts.EqualsThenLiteral | src/tests/parser/declaration.rs:8-25 | ` = literal` is accepted by the `=` rule and then parses to the literal |
| ParsingFacts.UnionLiteralLayout | src/tests/parser/declaration.rs:29 | the text after the colon is the union text, ` = ` and the literal's text |
| ParsingFacts.UnionThenLiteral | src/tests/parser/declaration.rs:27-48 | a union text, ` = ` and a literal parse to the union, `=` and the literal in turn |
| ParsingFacts.UntypedDeclarationRoundTrip | src/tests/parser/declaration.rs:8-25 | `name = literal` parses back to its declaration without a type, consuming the whole text |
| ParsingFacts.ColonAhead | src/tokenizer.rs:128 | `:` is a `Colon` token under a peek and under a consume |
| ParsingFacts.TypedTailLayout | src/tests/parser/declaration.rs:29 | a typed declaration's text is the name, `: `, the union text, ` = ` and the literal |
| ParsingFacts.ColonThenUnion | src/tests/parser/declaration.rs:27-48 | after the name, the colon, the union, the `=` and the literal parse in turn |
| ParsingFacts.TypedPieces | src/tests/parser/declaration.rs:27-48 | each piece of a typed declaration's text parses to the matching part of the declaration |
| ParsingFacts.TypedDeclarationFrom | src/tests/parser/declaration.rs:27-48 | a variable, a colon, a union, `=` and a literal parse to the typed declaration |
| ParsingFacts.TypedDeclarationRoundTrip | src/tests/parser/declaration.rs:27-48 | `name: T1 \| ... = literal` parses back to its declaration with that union type, consuming the whole text |
| ParsingFacts.DeclarationRoundTrip | src/tests/parser/declaration.rs:8-48 | the text of every printable declaration parses back to it: the variable, the union type (present exactly when there is a colon) and the literal |
| ParsingFacts.TestIsName | src/tests/parser/declaration.rs:9 | `test` is a name the identifier rule takes whole |
| ParsingFacts.UntypedDeclarationExample | src/tests/parser/declaration.rs:8-25 | `test = 42` is the declaration of `test` with no type and the number 42 |
| ParsingFacts.TypedExampleText | src/tests/parser/declaration.rs:29 | the typed test input is the text of a printable declaration |
| ParsingFacts.TestingLiteralText | src/tests/parser/declaration.rs:29 | `` `Testing declaration` `` is the text of a string literal |
| ParsingFacts.TestingHasNoBackquote | src/tests/parser/declaration.rs:29 | the string has no backquote in it |
| ParsingFacts.TypedDeclarationExample | src/tests/parser/declaration.rs:27-48 | ``test: String \| str = `Testing declaration` `` declares `test` with the union of String and Str and the string literal `Testing declaration` |
| Codegen.Compile | src/codegen.rs:13-18 | a literal always compiles to some text: a string to its text verbatim, without quotes, and a number to a signed decimal that reads back as the number |
| Codegen.CompileNode | src/codegen.rs:21-23 | the free function gives what the node's own `compile` gives |
| Codegen.CompileIgnoresTarget | src/codegen.rs:13 | Python and Javascript get the same output |
| Codegen.CompiledNumbersDiffer | src/codegen.rs:16 | different numbers compile to different texts |
| Codegen.CompileExamples | src/tests/codegen/literal.rs:7-33 | `String Literal` compiles to itself and 42 to `42`, for both targets |

## Left out

- `src/translation.rs` is not part of this model. It reads an environment
  variable, writes a process-wide setting and panics for two languages, and
  the parser never calls it.
- `src/languages/*.rs` are not part of this model. They hold message tables
  and nothing else.
- `src/main.rs` is not part of this model. It wires the program together
  and prints, and it calls a parser method that does not exist.
- Block comments are not modelled. The tokenizer's table has no rule for
  them.
- The line-break rule is not modelled. The tokenizer never produces
  `LineBreak`, because the whitespace skip consumes `\r\n`.
- Declaration code generation is not modelled. `Declaration` has no
  `compile` in `src/codegen.rs`.
- The trait `Compilable` has only one implementation (`Literal`), so it is
  modelled as the function `Compile`, and `compile(node, target)` as
  `CompileNode`.
- The regex engine is left out. Each regex is a hand-written prefix
  matcher.
- `\d`, `\w` and `\s` are modelled with ASCII classes. The Rust ones are
  Unicode-aware, so non-ASCII digits, letters and spaces fall into
  different rules here.
- Characters versus bytes: the cursor counts characters, while the source
  counts bytes and uses `chars().nth` for the error message. The two agree
  only on ASCII text.
- Error messages are datatype variants that carry the offending text or
  token, not byte-exact strings.
- The "Unexpected symbol at index" variant for a cursor past the last
  character (`src/tokenizer.rs:150`) is not modelled. It is dead, because
  the cursor is below the length there, so some character exists on ASCII
  text.
- `Tokens.Display`: the display texts of `Variable`, `Colon` and `Equal`
  (`variable '<name>'`, `colon`, `equal`) are this model's own. The source
  has no display arm for them.
- The parser's `get_next_token()` is modelled as `get_next_token(true)`,
  with `Ok(None)` read as `Token::EOF`. The parser in `src/parser.rs`
  predates the tokenizer in `src/tokenizer.rs`.
- `Parsing.LiteralRule` and `Parsing.Parser.ParseLiteral` take no
  `consume` flag and always consume, as `parse_literal` in
  `src/parser.rs:61-70` does. The tests call `parse_literal(true)` with a
  flag (`src/tests/literal.rs:10`); that call form is not modelled.
- The pipe, union, indentation, variable, `=` and declaration rules are not
  in `src/parser.rs`. They are modelled from their tests and are stated
  only as far as those tests pin them down.
- `Parsing.Parser.constructor`: the tokenizer must be `Valid`, i.e. its
  cursor is within the text and its table is well formed. The source's
  borrow does not ask for this, but every tokenizer `Tokenizer::new` makes
  meets it.
- `Lexer.Tokenizer.GetNextToken` keeps the cursor in a local variable
  while it steps over skip matches and stores it when the scan stops. The
  source writes the field before each recursive call. No caller can see the
  difference.
- The skip recursion of `get_next_token` is a loop. It is the same
  computation, and `Next` keeps the recursive form.
- The rule functions (`Parsing.LiteralRule` and the others) state in their
  own contracts only the cursor bounds. What they compute is stated by the
  `ParsingFacts` lemmas and by the `Parser` methods' equality with them.
- `Parsing.Lexing`: the parser's token source is the tokenizer's scan from
  a cursor. Rules are stated over any source with the same cursor laws,
  and tied to the real table by `ParsingFacts.LexingIsTableSource`.
