/**
 * The tokenizer (src/tokenizer.rs): an ordered table of lexical rules and a
 * cursor into the source text. Each regular expression of the table is
 * modelled by a prefix matcher that returns the length of the match at the
 * start of the remaining text, 0 meaning no match (no rule can match the
 * empty text, so a match is never empty).
 */
module Lexer {
  import opened Wrappers
  import opened Decimal
  import opened Tokens

  /** ASCII word character, the model of `\w`. */
  predicate IsWordChar(c: char) {
    'a' <= c <= 'z' || 'A' <= c <= 'Z' || IsDigit(c) || c == '_'
  }

  /** ASCII white space, the model of `\s`: space, tab, line feed, vertical tab, form feed, carriage return. */
  predicate IsSpace(c: char) {
    c == ' ' || '\t' <= c <= '\r'
  }

  /** The repeated character classes of the rule table. */
  datatype CharClass = DigitClass | WordClass | SpaceClass | NotNewline | NotChar(excluded: char)

  predicate InClass(c: char, cls: CharClass) {
    match cls
    case DigitClass => IsDigit(c)
    case WordClass => IsWordChar(c)
    case SpaceClass => IsSpace(c)
    case NotNewline => c != '\n'
    case NotChar(x) => c != x
  }

  /** Where the longest run of characters of `cls` starting at index `i` of `s` ends (a greedy `[cls]*`). */
  function RunEnd(s: string, cls: CharClass, i: nat): (j: nat)
    requires i <= |s|
    ensures i <= j <= |s|
    decreases |s| - i
  {
    if i == |s| || !InClass(s[i], cls) then i else RunEnd(s, cls, i + 1)
  }

  /** `RunEnd` ends the longest run: every character before it is in the class, the one at it is not. */
  lemma {:induction false} RunIsLongest(s: string, cls: CharClass, i: nat)
    requires i <= |s|
    ensures forall k :: i <= k < RunEnd(s, cls, i) ==> InClass(s[k], cls)
    ensures RunEnd(s, cls, i) < |s| ==> !InClass(s[RunEnd(s, cls, i)], cls)
    decreases |s| - i
  {
    if i < |s| && InClass(s[i], cls) {
      RunIsLongest(s, cls, i + 1);
    }
  }

  /** The regular expressions of the rule table, each anchored at the cursor. */
  datatype Pattern =
    | Digits              // ^\d+
    | Delimited(quote: char)  // ^'[^']*'  ^"[^"]*"  ^`[^`]*`
    | Indent              // ^(?:\t|(?:[ ]{4})){1}
    | Exactly(symbol: char)   // ^\|  ^:  ^=
    | Blank               // ^\s+
    | Comment             // ^\#.*
    | TypeNames           // ^(?:Number|str|String|None|\(\)|Never|List|Array)
    | Word                // ^[^0-9]{1}\w*

  /** The alternatives of the keyword rule, in the written order. */
  const Keywords: seq<string> := ["Number", "str", "String", "None", "()", "Never", "List", "Array"]

  /**
   * The keyword alternation from alternative `k` on: the first alternative,
   * in the written order, that is a prefix of `s` wins. There is no word
   * boundary after it.
   */
  function KeywordLength(s: string, k: nat): (n: nat)
    requires k <= |Keywords|
    ensures n <= |s|
    decreases |Keywords| - k
  {
    if k == |Keywords| then 0
    else if Keywords[k] <= s then |Keywords[k]|
    else KeywordLength(s, k + 1)
  }

  /** Length of the match of `p` at the start of `s`; 0 when `p` does not match. */
  function MatchLength(p: Pattern, s: string): (n: nat)
    ensures n <= |s|
  {
    match p
    case Digits => RunEnd(s, DigitClass, 0)
    case Delimited(q) =>
      if |s| > 0 && s[0] == q then
        var j := RunEnd(s, NotChar(q), 1);
        if j < |s| then j + 1 else 0
      else 0
    case Indent =>
      if |s| > 0 && s[0] == '\t' then 1
      else if |s| >= 4 && s[..4] == "    " then 4
      else 0
    case Exactly(c) => if |s| > 0 && s[0] == c then 1 else 0
    case Blank => RunEnd(s, SpaceClass, 0)
    case Comment => if |s| > 0 && s[0] == '#' then RunEnd(s, NotNewline, 1) else 0
    case TypeNames => KeywordLength(s, 0)
    case Word => if |s| > 0 && !IsDigit(s[0]) then RunEnd(s, WordClass, 1) else 0
  }

  /** What a rule produces (`TokenizerSpecType`). */
  datatype SpecType = Number | String | SimpleType | Pipe | Skip | Tab | Variable | Colon | Equal

  /** One lexical rule (`TokenizerSpec`). */
  datatype Spec = Spec(pattern: Pattern, kind: SpecType)

  /** The rule table that `Tokenizer::new` builds, in its order. */
  const Specs: seq<Spec> := [
    Spec(Digits, SpecType.Number),
    Spec(Delimited('\''), SpecType.String),
    Spec(Delimited('"'), SpecType.String),
    Spec(Delimited('`'), SpecType.String),
    Spec(Indent, SpecType.Tab),
    Spec(Exactly('|'), SpecType.Pipe),
    Spec(Blank, SpecType.Skip),
    Spec(Comment, SpecType.Skip),
    Spec(TypeNames, SpecType.SimpleType),
    Spec(Exactly(':'), SpecType.Colon),
    Spec(Exactly('='), SpecType.Equal),
    Spec(Word, SpecType.Variable)
  ]

  /** The twelve rules of `Tokenizer::new`, by index. */
  predicate TableRows(specs: seq<Spec>) {
    && WellFormed(specs)
    && |specs| == 12
    && specs[0] == Spec(Digits, SpecType.Number)
    && specs[1] == Spec(Delimited('\''), SpecType.String)
    && specs[2] == Spec(Delimited('"'), SpecType.String)
    && specs[3] == Spec(Delimited('`'), SpecType.String)
    && specs[4] == Spec(Indent, SpecType.Tab)
    && specs[5] == Spec(Exactly('|'), SpecType.Pipe)
    && specs[6] == Spec(Blank, SpecType.Skip)
    && specs[7] == Spec(Comment, SpecType.Skip)
    && specs[8] == Spec(TypeNames, SpecType.SimpleType)
    && specs[9] == Spec(Exactly(':'), SpecType.Colon)
    && specs[10] == Spec(Exactly('='), SpecType.Equal)
    && specs[11] == Spec(Word, SpecType.Variable)
  }

  /**
   * What `get_next_token` relies on of a table: a string rule matches a
   * quoted text (it strips the first and last character) and a number rule
   * matches digits (it parses them).
   */
  predicate WellFormed(specs: seq<Spec>) {
    forall i :: 0 <= i < |specs| ==>
      (specs[i].kind.String? ==> specs[i].pattern.Delimited?) &&
      (specs[i].kind.Number? ==> specs[i].pattern.Digits?)
  }

  datatype LexError =
    | TooLarge(digits: string)                 // "<digits> is too large for type 'Number'"
    | UnexpectedSymbol(symbol: char, index: nat)  // "Unexpected symbol <c> (at index <i>)"

  /** The first rule, from index `from` on, whose pattern matches at the start of `s`, with its match length. */
  function FirstMatch(specs: seq<Spec>, s: string, from: nat): (m: Option<(nat, nat)>)
    requires from <= |specs|
    ensures m.Some? ==> from <= m.value.0 < |specs| && 0 < m.value.1 <= |s|
    decreases |specs| - from
  {
    if from == |specs| then None
    else
      var n := MatchLength(specs[from].pattern, s);
      if n > 0 then Some((from, n)) else FirstMatch(specs, s, from + 1)
  }

  /** The token a content rule builds from its matched text (the `match spec.kind` of `get_next_token`). */
  function TokenFor(kind: SpecType, text: string): (r: Result<Option<Token>, LexError>)
    requires !kind.Skip?
    requires kind.String? ==> |text| >= 2
    requires kind.Number? ==> AllDigits(text)
    ensures r.Ok? ==> r.value.Some? && !r.value.value.EOF? && !r.value.value.LineBreak?
    ensures r.Err? <==> kind.Number? && DigitsValue(text) > I64Max
    ensures r.Err? ==> r.error == TooLarge(text)
  {
    match kind
    case Number =>
      var v := DigitsValue(text);
      if v <= I64Max then Ok(Some(Token.Number(v as i64))) else Err(TooLarge(text))
    case String => Ok(Some(Token.String(text[1..|text| - 1])))
    case SimpleType => Ok(Some(Token.SimpleType(text)))
    case Pipe => Ok(Some(Token.Pipe))
    case Tab => Ok(Some(Token.Tab))
    case Variable => Ok(Some(Token.Variable(text)))
    case Colon => Ok(Some(Token.Colon))
    case Equal => Ok(Some(Token.Equal))
  }

  /** The outcome of one `get_next_token` call: its result and the cursor after it. */
  datatype Scan = Scan(result: Result<Option<Token>, LexError>, cursor: nat)

  /**
   * `get_next_token(consume)` on `src` with the cursor at `c`. At the end of
   * the text there is no token. Otherwise the first rule of the table that
   * matches wins; a skip rule moves the cursor past its match, whatever
   * `consume` says, and scanning starts again; a content rule yields its
   * token, and the cursor moves past the match only when `consume` holds.
   */
  function Next(specs: seq<Spec>, src: string, c: nat, consume: bool): (s: Scan)
    requires WellFormed(specs) && c <= |src|
    ensures c <= s.cursor <= |src|
    ensures consume && s.result.Ok? && s.result.value.Some? ==> c < s.cursor
    decreases |src| - c
  {
    if c == |src| then Scan(Ok(None), c)
    else
      var rest := src[c..];
      match FirstMatch(specs, rest, 0)
      case None => Scan(Err(UnexpectedSymbol(src[c], c)), c)
      case Some((i, n)) =>
        if specs[i].kind.Skip? then Next(specs, src, c + n, consume)
        else
          MatchedText(specs, rest, i, n);
          Scan(TokenFor(specs[i].kind, rest[..n]), if consume then c + n else c)
  }

  /** The tokenizer object: the source it borrows, its rule table and its cursor. */
  class Tokenizer {
    var cursor: nat
    const source: string
    const specs: seq<Spec>

    ghost predicate Valid()
      reads this
    {
      cursor <= |source| && WellFormed(specs)
    }

    /** `Tokenizer::new`: the cursor at the start and the twelve rules in order. */
    constructor (source: string)
      ensures Valid()
      ensures this.source == source && cursor == 0 && specs == Specs
    {
      this.source := source;
      cursor := 0;
      specs := Specs;
    }

    /** Whether the cursor is before the end of the text; when it is not, there is no token. */
    function HasMoreTokens(): (more: bool)
      reads this
      requires Valid()
      ensures !more ==> forall consume: bool :: Next(specs, source, cursor, consume) == Scan(Ok(None), cursor)
    {
      cursor < |source|
    }

    /**
     * `get_next_token`: tries the rules in order at the cursor. A skip rule
     * moves the cursor and the search starts again at the new position.
     */
    method GetNextToken(consume: bool) returns (r: Result<Option<Token>, LexError>)
      requires Valid()
      modifies this`cursor
      ensures Valid()
      ensures Scan(r, cursor) == Next(specs, source, old(cursor), consume)
    {
      var c := cursor;
      while c < |source|
        invariant c <= |source|
        invariant Next(specs, source, c, consume) == Next(specs, source, old(cursor), consume)
        decreases |source| - c
      {
        var rest := source[c..];
        var found := FindRule(rest);
        match found
        case None =>
          NextWithoutRule(specs, source, c, consume);
          cursor := c;
          return Err(UnexpectedSymbol(source[c], c));
        case Some((i, length)) =>
          var kind := specs[i].kind;
          if kind.Skip? {
            NextSkip(specs, source, c, consume, i, length);
            c := c + length;
          } else {
            NextContent(specs, source, c, consume, i, length);
            r := TokenFor(kind, rest[..length]);
            cursor := if consume then c + length else c;
            return;
          }
      }
      cursor := c;
      return Ok(None);
    }

    /** The `for spec in &self.specs` loop: the first rule that matches `rest`, in table order. */
    method FindRule(rest: string) returns (found: Option<(nat, nat)>)
      ensures found == FirstMatch(specs, rest, 0)
    {
      for i := 0 to |specs|
        invariant FirstMatch(specs, rest, i) == FirstMatch(specs, rest, 0)
      {
        var length := MatchLength(specs[i].pattern, rest);
        if length > 0 {
          return Some((i, length));
        }
      }
      return None;
    }
  }

  /**
   * Rules are tried in table order and the first match wins: the rule
   * `FirstMatch` picks matches, every rule before it fails, and when it
   * picks none, no rule matches.
   */
  lemma {:induction false} FirstMatchWins(specs: seq<Spec>, s: string, from: nat)
    requires from <= |specs|
    ensures var m := FirstMatch(specs, s, from);
      && (m.Some? ==> m.value.1 == MatchLength(specs[m.value.0].pattern, s))
      && (m.Some? ==> forall j :: from <= j < m.value.0 ==> MatchLength(specs[j].pattern, s) == 0)
      && (m.None? ==> forall j :: from <= j < |specs| ==> MatchLength(specs[j].pattern, s) == 0)
    decreases |specs| - from
  {
    if from < |specs| && MatchLength(specs[from].pattern, s) == 0 {
      FirstMatchWins(specs, s, from + 1);
    }
  }

  /** Where no rule matches, the scan stops at the offending character. */
  lemma NextWithoutRule(specs: seq<Spec>, src: string, c: nat, consume: bool)
    requires WellFormed(specs) && c < |src| && FirstMatch(specs, src[c..], 0).None?
    ensures Next(specs, src, c, consume) == Scan(Err(UnexpectedSymbol(src[c], c)), c)
  {
  }

  /** Where a skip rule matches first, the scan goes on after its match. */
  lemma NextSkip(specs: seq<Spec>, src: string, c: nat, consume: bool, i: nat, n: nat)
    requires WellFormed(specs) && c < |src|
    requires FirstMatch(specs, src[c..], 0) == Some((i, n)) && specs[i].kind.Skip?
    ensures 0 < n && c + n <= |src|
    ensures Next(specs, src, c, consume) == Next(specs, src, c + n, consume)
  {
  }

  /** Where a content rule matches first, the token built from its match is the result. */
  lemma NextContent(specs: seq<Spec>, src: string, c: nat, consume: bool, i: nat, n: nat)
    requires WellFormed(specs) && c < |src|
    requires FirstMatch(specs, src[c..], 0) == Some((i, n)) && !specs[i].kind.Skip?
    ensures c + n <= |src|
    ensures specs[i].kind.String? ==> n >= 2
    ensures src[c..][..n] == src[c..c + n]
    ensures specs[i].kind.Number? ==> AllDigits(src[c..c + n])
    ensures Next(specs, src, c, consume) ==
      Scan(TokenFor(specs[i].kind, src[c..][..n]), if consume then c + n else c)
  {
    MatchedText(specs, src[c..], i, n);
    assert src[c..][..n] == src[c..c + n];
  }

  /** The text a rule of a well-formed table matches is what `TokenFor` expects of that rule. */
  lemma MatchedText(specs: seq<Spec>, s: string, i: nat, n: nat)
    requires WellFormed(specs) && FirstMatch(specs, s, 0) == Some((i, n))
    ensures i < |specs| && n <= |s|
    ensures specs[i].kind.String? ==> n >= 2
    ensures specs[i].kind.Number? ==> AllDigits(s[..n])
  {
    FirstMatchWins(specs, s, 0);
    if specs[i].kind.Number? {
      RunIsLongest(s, DigitClass, 0);
    }
  }
}
