/**
 * Properties of `get_next_token` (src/tokenizer.rs), stated about its
 * specification `Lexer.Next`: peek stability, what consuming changes, rule
 * order, the token each rule yields on the twelve-rule table, and the
 * unreachability of the "Unexpected symbol" errors.
 */
module LexerFacts {
  import opened Wrappers
  import opened Decimal
  import opened Tokens
  import opened Lexer

  /** A result after which consuming moves the cursor: a token, or a number that is too large. */
  predicate Advances(r: Result<Option<Token>, LexError>) {
    (r.Ok? && r.value.Some?) || (r.Err? && r.error.TooLarge?)
  }

  /** A run of class characters from `i` to `j`, followed by a non-class one (or the end), ends at `j`. */
  lemma RunStopsAt(s: string, cls: CharClass, i: nat, j: nat)
    requires i <= j <= |s|
    requires forall k :: i <= k < j ==> InClass(s[k], cls)
    requires j < |s| ==> !InClass(s[j], cls)
    ensures RunEnd(s, cls, i) == j
  {
    RunIsLongest(s, cls, i);
  }

  // ---------------------------------------------------------------------
  // Peek and consume

  /**
   * Peeking twice in a row gives the same result, and the second peek does
   * not move the cursor: the first one already stepped over the trivia.
   */
  lemma {:induction false} PeekIsStable(specs: seq<Spec>, src: string, c: nat)
    requires WellFormed(specs) && c <= |src|
    ensures var p := Next(specs, src, c, false);
      Next(specs, src, p.cursor, false) == p
    decreases |src| - c
  {
    if c < |src| {
      match FirstMatch(specs, src[c..], 0)
      case None =>
      case Some((i, n)) =>
        if specs[i].kind.Skip? {
          PeekIsStable(specs, src, c + n);
        }
    }
  }

  /**
   * Consuming returns what peeking returns. It moves the cursor further than
   * the peek exactly when the result is a token or an oversized number, and
   * then by the length of the match of the first rule at the peeked
   * position; consuming from the peeked position is the same as consuming
   * from the start.
   */
  predicate PeekThenConsume(specs: seq<Spec>, src: string, c: nat)
    requires WellFormed(specs) && c <= |src|
  {
    var p := Next(specs, src, c, false);
    var q := Next(specs, src, c, true);
    && p.result == q.result
    && Next(specs, src, p.cursor, true) == q
    && (q.cursor > p.cursor <==> Advances(p.result))
    && (Advances(p.result) ==>
          p.cursor < |src| &&
          FirstMatch(specs, src[p.cursor..], 0).Some? &&
          q.cursor == p.cursor + FirstMatch(specs, src[p.cursor..], 0).value.1)
  }

  /** Peeking and consuming agree where a content rule matches first. */
  lemma ContentPeekThenConsume(specs: seq<Spec>, src: string, c: nat, i: nat, n: nat)
    requires WellFormed(specs) && c < |src|
    requires FirstMatch(specs, src[c..], 0) == Some((i, n)) && !specs[i].kind.Skip?
    ensures PeekThenConsume(specs, src, c)
  {
    NextContent(specs, src, c, false, i, n);
    NextContent(specs, src, c, true, i, n);
  }

  /** Peeking and consuming agree where a skip rule matches first when they agree after its match. */
  lemma SkipPeekThenConsume(specs: seq<Spec>, src: string, c: nat, i: nat, n: nat)
    requires WellFormed(specs) && c < |src|
    requires FirstMatch(specs, src[c..], 0) == Some((i, n)) && specs[i].kind.Skip?
    requires c + n <= |src| && PeekThenConsume(specs, src, c + n)
    ensures PeekThenConsume(specs, src, c)
  {
    NextSkip(specs, src, c, false, i, n);
    NextSkip(specs, src, c, true, i, n);
  }

  /** Peeking and consuming agree everywhere in the text. */
  lemma {:induction false} ConsumeAgreesWithPeek(specs: seq<Spec>, src: string, c: nat)
    requires WellFormed(specs) && c <= |src|
    ensures PeekThenConsume(specs, src, c)
    decreases |src| - c
  {
    if c < |src| {
      match FirstMatch(specs, src[c..], 0)
      case None =>
        NextWithoutRule(specs, src, c, false);
        NextWithoutRule(specs, src, c, true);
      case Some((i, n)) =>
        if specs[i].kind.Skip? {
          ConsumeAgreesWithPeek(specs, src, c + n);
          SkipPeekThenConsume(specs, src, c, i, n);
        } else {
          ContentPeekThenConsume(specs, src, c, i, n);
        }
    }
  }

  /** Consuming never moves the cursor backwards, and never past the end of the text. */
  lemma CursorStaysInText(specs: seq<Spec>, src: string, c: nat, consume: bool)
    requires WellFormed(specs) && c <= |src|
    ensures c <= Next(specs, src, c, consume).cursor <= |src|
  {
  }

  // ---------------------------------------------------------------------
  // Stepping through a table

  /** A rule that does not match passes the search on to the next rule. */
  lemma Miss(specs: seq<Spec>, s: string, k: nat)
    requires k < |specs| && MatchLength(specs[k].pattern, s) == 0
    ensures FirstMatch(specs, s, k) == FirstMatch(specs, s, k + 1)
  {
  }

  /** A rule that matches ends the search. */
  lemma Hit(specs: seq<Spec>, s: string, k: nat)
    requires k < |specs| && MatchLength(specs[k].pattern, s) > 0
    ensures FirstMatch(specs, s, k) == Some((k, MatchLength(specs[k].pattern, s)))
  {
  }

  // ---------------------------------------------------------------------
  // The rule table of `Tokenizer::new`

  /**
   * `specs` is the rule table of `Tokenizer::new`. Lemmas pass this on as a
   * single fact; its rows are read from `TableRows`.
   */
  predicate IsTokenizerTable(specs: seq<Spec>) {
    TableRows(specs)
  }

  /** `Specs` is that table. */
  lemma SpecsTable()
    ensures IsTokenizerTable(Specs)
  {
  }

  /** Either the digit rule or the final identifier rule matches any non-empty text. */
  lemma SomeRuleMatches(specs: seq<Spec>, s: string)
    requires IsTokenizerTable(specs) && |s| > 0
    ensures FirstMatch(specs, s, 0).Some?
  {
    FirstMatchWins(specs, s, 0);
    DigitOrWord(s);
  }

  lemma DigitOrWord(s: string)
    requires |s| > 0
    ensures MatchLength(Digits, s) > 0 || MatchLength(Word, s) > 0
  {
  }

  /** Neither the number rule nor the three string rules match a text that starts with none of their characters. */
  lemma SkipNumberAndStrings(specs: seq<Spec>, s: string)
    requires IsTokenizerTable(specs)
    requires |s| > 0 && !IsDigit(s[0]) && s[0] != '\'' && s[0] != '"' && s[0] != '`'
    ensures FirstMatch(specs, s, 0) == FirstMatch(specs, s, 4)
  {
    Miss(specs, s, 0);
    Miss(specs, s, 1);
    Miss(specs, s, 2);
    Miss(specs, s, 3);
  }

  /** Nor do the indentation and pipe rules, when the text starts with neither a tab, a space nor `|`. */
  lemma SkipIndentAndPipe(specs: seq<Spec>, s: string)
    requires IsTokenizerTable(specs)
    requires |s| > 0 && s[0] != '\t' && s[0] != ' ' && s[0] != '|'
    ensures FirstMatch(specs, s, 4) == FirstMatch(specs, s, 6)
  {
    assert MatchLength(Indent, s) == 0 by {
      if |s| >= 4 {
        assert s[..4][0] == s[0];
      }
    }
    Miss(specs, s, 4);
    Miss(specs, s, 5);
  }

  /** Nor do the two skip rules, when the text starts with neither white space nor `#`. */
  lemma SkipTrivia(specs: seq<Spec>, s: string)
    requires IsTokenizerTable(specs)
    requires |s| > 0 && !IsSpace(s[0]) && s[0] != '#'
    ensures FirstMatch(specs, s, 6) == FirstMatch(specs, s, 8)
  {
    Miss(specs, s, 6);
    Miss(specs, s, 7);
  }

  /** Nor does the keyword rule, when the text starts with no keyword. */
  lemma SkipKeywords(specs: seq<Spec>, s: string)
    requires IsTokenizerTable(specs) && NoKeywordPrefix(s)
    ensures FirstMatch(specs, s, 8) == FirstMatch(specs, s, 9)
  {
    KeywordLengthZero(s, 0);
    Miss(specs, s, 8);
  }

  /** The scan at `c` fails, if at all, on a number too large for an `i64`. */
  predicate OnlyTooLarge(specs: seq<Spec>, src: string, c: nat, consume: bool)
    requires WellFormed(specs) && c <= |src|
  {
    var r := Next(specs, src, c, consume).result;
    r.Err? ==> r.error.TooLarge?
  }

  /** A skip rule matched at `c`: the scan fails as the scan after the skipped text does. */
  lemma SkipOnlyTooLarge(specs: seq<Spec>, src: string, c: nat, consume: bool, i: nat, n: nat)
    requires WellFormed(specs) && c < |src|
    requires FirstMatch(specs, src[c..], 0) == Some((i, n)) && specs[i].kind.Skip?
    ensures 0 < n && c + n <= |src|
    ensures OnlyTooLarge(specs, src, c + n, consume) ==> OnlyTooLarge(specs, src, c, consume)
  {
    NextSkip(specs, src, c, consume, i, n);
  }

  /** Any other rule matched at `c`: only the number rule can fail, on a number too large. */
  lemma ContentOnlyTooLarge(specs: seq<Spec>, src: string, c: nat, consume: bool, i: nat, n: nat)
    requires WellFormed(specs) && c < |src|
    requires FirstMatch(specs, src[c..], 0) == Some((i, n)) && !specs[i].kind.Skip?
    ensures OnlyTooLarge(specs, src, c, consume)
  {
    NextContent(specs, src, c, consume, i, n);
  }

  /** With the table of `Tokenizer::new`, "Unexpected symbol" is never reported. */
  lemma {:induction false} NeverUnexpected(specs: seq<Spec>, src: string, c: nat, consume: bool)
    requires IsTokenizerTable(specs)
    requires c <= |src|
    ensures OnlyTooLarge(specs, src, c, consume)
    decreases |src| - c
  {
    if c < |src| {
      SomeRuleMatches(specs, src[c..]);
      var m := FirstMatch(specs, src[c..], 0).value;
      if specs[m.0].kind.Skip? {
        SkipOnlyTooLarge(specs, src, c, consume, m.0, m.1);
        NeverUnexpected(specs, src, c + m.1, consume);
      } else {
        ContentOnlyTooLarge(specs, src, c, consume, m.0, m.1);
      }
    }
  }

  /** No alternative of the keyword rule is a prefix of `s`. */
  predicate NoKeywordPrefix(s: string) {
    forall w :: w in Keywords ==> !(w <= s)
  }

  lemma {:induction false} KeywordLengthZero(s: string, k: nat)
    requires k <= |Keywords| && NoKeywordPrefix(s)
    ensures KeywordLength(s, k) == 0
    decreases |Keywords| - k
  {
    if k < |Keywords| {
      assert Keywords[k] in Keywords;
      KeywordLengthZero(s, k + 1);
    }
  }

  /** The keyword rule picks alternative `j` when it is the first alternative that is a prefix of `s`. */
  lemma {:induction false} KeywordLengthIs(s: string, k: nat, j: nat)
    requires k <= j < |Keywords| && Keywords[j] <= s
    requires forall i :: k <= i < j ==> !(Keywords[i] <= s)
    ensures KeywordLength(s, k) == |Keywords[j]|
    decreases j - k
  {
    if k < j {
      KeywordLengthIs(s, k + 1, j);
    }
  }

  /** A text that starts with none of the keywords' first characters starts with no keyword. */
  lemma NoKeywordInitial(s: string)
    requires |s| > 0 && s[0] !in "NsS(LA"
    ensures NoKeywordPrefix(s)
  {
    forall w | w in Keywords ensures !(w <= s) {
      assert w[0] in "NsS(LA";
    }
  }

  /** Every keyword is at least two characters long, so no shorter text starts with one. */
  lemma ShortTextHasNoKeyword(s: string)
    requires |s| < 2
    ensures NoKeywordPrefix(s)
  {
    forall w | w in Keywords ensures !(w <= s) {
      assert |w| >= 2;
    }
  }

  /** `Scan` of a token found at `c` whose match is `n` characters long. */
  function Found(t: Token, c: nat, n: nat, consume: bool): Scan {
    Scan(Ok(Some(t)), if consume then c + n else c)
  }

  /** Where a rule that builds a plain token matches first, that token is found over the match. */
  lemma FoundContent(specs: seq<Spec>, src: string, c: nat, consume: bool, i: nat, n: nat, t: Token)
    requires WellFormed(specs) && c < |src| && FirstMatch(specs, src[c..], 0) == Some((i, n))
    requires !specs[i].kind.Skip? && !specs[i].kind.Number? && !specs[i].kind.String?
    requires TokenFor(specs[i].kind, src[c..c + n]) == Ok(Some(t))
    ensures c + n <= |src| && Next(specs, src, c, consume) == Found(t, c, n, consume)
  {
    NextContent(specs, src, c, consume, i, n);
  }

  /**
   * A digit run yields its exact value when it fits an `i64`, and the
   * "too large" error carrying the digits otherwise; in both cases consuming
   * moves the cursor past the whole run.
   */
  lemma LexDigits(specs: seq<Spec>, src: string, c: nat, n: nat, consume: bool)
    requires IsTokenizerTable(specs)
    requires c < |src| && IsDigit(src[c]) && n == RunEnd(src[c..], DigitClass, 0)
    ensures
      && 0 < n && c + n <= |src| && AllDigits(src[c..c + n])
      && (c + n < |src| ==> !IsDigit(src[c + n]))
      && Next(specs, src, c, consume) ==
         Scan(if DigitsValue(src[c..c + n]) <= I64Max
              then Ok(Some(Token.Number(DigitsValue(src[c..c + n]) as i64)))
              else Err(TooLarge(src[c..c + n])),
              if consume then c + n else c)
  {
    var s := src[c..];
    RunIsLongest(s, DigitClass, 0);
    Hit(specs, s, 0);
    NextContent(specs, src, c, consume, 0, n);
  }

  /** The decimal text of a number, followed by a non-digit or the end, is the whole digit run at `c`. */
  lemma NatTextRun(src: string, c: nat, v: nat)
    requires c + |NatText(v)| <= |src| && src[c..c + |NatText(v)|] == NatText(v)
    requires c + |NatText(v)| < |src| ==> !IsDigit(src[c + |NatText(v)|])
    ensures c < |src| && IsDigit(src[c]) && RunEnd(src[c..], DigitClass, 0) == |NatText(v)|
  {
    var k := |NatText(v)|;
    var s := src[c..];
    assert s[..k] == NatText(v);
    assert src[c] == NatText(v)[0];
    RunStopsAt(s, DigitClass, 0, k);
  }

  /** The decimal text of a number in range, followed by a non-digit or the end, lexes back to that number. */
  lemma LexNatText(specs: seq<Spec>, src: string, c: nat, v: nat, consume: bool)
    requires IsTokenizerTable(specs)
    requires v <= I64Max
    requires c + |NatText(v)| <= |src| && src[c..c + |NatText(v)|] == NatText(v)
    requires c + |NatText(v)| < |src| ==> !IsDigit(src[c + |NatText(v)|])
    ensures Next(specs, src, c, consume) == Found(Token.Number(v as i64), c, |NatText(v)|, consume)
  {
    var n := |NatText(v)|;
    NatTextRun(src, c, v);
    assert DigitsValue(src[c..c + n]) == v;
    LexDigits(specs, src, c, n, consume);
    assert Next(specs, src, c, consume) == Scan(Ok(Some(Token.Number(v as i64))), if consume then c + n else c);
  }

  /** The index in the table of the string rule for a quote character. */
  function QuoteRule(q: char): nat
    requires q == '\'' || q == '"' || q == '`'
  {
    if q == '\'' then 1 else if q == '"' then 2 else 3
  }

  /**
   * A text without the quote character `q`, between two `q`, yields a
   * string token carrying exactly that text, with no escape processing.
   */
  lemma LexQuoted(specs: seq<Spec>, src: string, c: nat, q: char, v: string, consume: bool)
    requires IsTokenizerTable(specs)
    requires q == '\'' || q == '"' || q == '`'
    requires q !in v
    requires c + |v| + 2 <= |src| && src[c..c + |v| + 2] == [q] + v + [q]
    ensures Next(specs, src, c, consume) == Found(Token.String(v), c, |v| + 2, consume)
  {
    var s := src[c..];
    assert s[..|v| + 2] == [q] + v + [q];
    assert s[0] == q && s[1 + |v|] == q;
    assert forall k :: 1 <= k < |v| + 1 ==> s[k] == v[k - 1];
    RunStopsAt(s, NotChar(q), 1, |v| + 1);
    assert MatchLength(Delimited(q), s) == |v| + 2;
    Miss(specs, s, 0);
    if q != '\'' {
      Miss(specs, s, 1);
      if q != '"' {
        Miss(specs, s, 2);
      }
    }
    Hit(specs, s, QuoteRule(q));
    NextContent(specs, src, c, consume, QuoteRule(q), |v| + 2);
    assert src[c..c + |v| + 2][1..|v| + 1] == v;
  }

  /** A tab, or four spaces, is one `Tab` token: the indentation rule comes before the white-space skip. */
  lemma LexIndent(specs: seq<Spec>, src: string, c: nat, consume: bool)
    requires IsTokenizerTable(specs)
    requires c < |src|
    requires src[c] == '\t' || (c + 4 <= |src| && src[c..c + 4] == "    ")
    ensures Next(specs, src, c, consume) == Found(Token.Tab, c, if src[c] == '\t' then 1 else 4, consume)
  {
    var s := src[c..];
    assert s[0] == src[c];
    if src[c] != '\t' {
      assert s[..4] == src[c..c + 4];
    }
    SkipNumberAndStrings(specs, s);
    Hit(specs, s, 4);
    NextContent(specs, src, c, consume, 4, MatchLength(Indent, s));
  }

  /** The single-character tokens `|`, `:` and `=`. */
  function SymbolToken(ch: char): Token
    requires ch == '|' || ch == ':' || ch == '='
  {
    if ch == '|' then Token.Pipe else if ch == ':' then Token.Colon else Token.Equal
  }

  /** The row of the rule table that builds the token of `|`, `:` or `=`. */
  function SymbolRow(ch: char): (i: nat)
    requires ch == '|' || ch == ':' || ch == '='
    ensures 5 <= i <= 10
  {
    if ch == '|' then 5 else if ch == ':' then 9 else 10
  }

  /** `|`, `:` and `=` are matched first by their own rules, never by the identifier rule that also matches them. */
  lemma SymbolMatch(specs: seq<Spec>, s: string)
    requires IsTokenizerTable(specs)
    requires |s| > 0 && (s[0] == '|' || s[0] == ':' || s[0] == '=')
    ensures FirstMatch(specs, s, 0) == Some((SymbolRow(s[0]), 1))
  {
    SkipNumberAndStrings(specs, s);
    if s[0] == '|' {
      assert specs[4].pattern == Indent;
      assert specs[5] == Spec(Exactly('|'), SpecType.Pipe);
      Miss(specs, s, 4);
      Hit(specs, s, 5);
    } else {
      SkipIndentAndPipe(specs, s);
      SkipTrivia(specs, s);
      NoKeywordInitial(s);
      SkipKeywords(specs, s);
      assert specs[9] == Spec(Exactly(':'), SpecType.Colon);
      assert specs[10] == Spec(Exactly('='), SpecType.Equal);
      if s[0] == ':' {
        Hit(specs, s, 9);
      } else {
        Miss(specs, s, 9);
        Hit(specs, s, 10);
      }
    }
  }

  /** `|`, `:` and `=` are each one token of their own. */
  lemma LexSymbol(specs: seq<Spec>, src: string, c: nat, consume: bool)
    requires IsTokenizerTable(specs)
    requires c < |src| && (src[c] == '|' || src[c] == ':' || src[c] == '=')
    ensures Next(specs, src, c, consume) == Found(SymbolToken(src[c]), c, 1, consume)
  {
    var s := src[c..];
    assert s[0] == src[c];
    SymbolMatch(specs, s);
    NextContent(specs, src, c, consume, SymbolRow(src[c]), 1);
  }

  /** Characters no rule before the keyword rule can start with. */
  predicate StartsLikeName(ch: char) {
    'a' <= ch <= 'z' || 'A' <= ch <= 'Z' || ch == '_' || ch == '('
  }

  /** The rules before the keyword rule do not match a text that starts like a name. */
  lemma MissBeforeKeywords(specs: seq<Spec>, s: string)
    requires IsTokenizerTable(specs)
    requires |s| > 0 && StartsLikeName(s[0])
    ensures FirstMatch(specs, s, 0) == FirstMatch(specs, s, 8)
  {
    SkipNumberAndStrings(specs, s);
    SkipIndentAndPipe(specs, s);
    SkipTrivia(specs, s);
  }

  /**
   * A keyword at the cursor is a type-name token, whatever follows it: the
   * keyword rule precedes the identifier rule and has no word boundary.
   */
  lemma LexKeyword(specs: seq<Spec>, src: string, c: nat, n: nat, consume: bool)
    requires IsTokenizerTable(specs)
    requires c < |src| && StartsLikeName(src[c]) && n == KeywordLength(src[c..], 0) > 0
    ensures c + n <= |src| && Next(specs, src, c, consume) == Found(Token.SimpleType(src[c..c + n]), c, n, consume)
  {
    var s := src[c..];
    assert s[0] == src[c];
    MissBeforeKeywords(specs, s);
    Hit(specs, s, 8);
    FoundContent(specs, src, c, consume, 8, n, Token.SimpleType(src[c..c + n]));
  }

  /**
   * A name that does not begin with a keyword is a `Variable` token running
   * over the word characters that follow its first character.
   */
  lemma LexWord(specs: seq<Spec>, src: string, c: nat, n: nat, consume: bool)
    requires IsTokenizerTable(specs)
    requires c < |src| && StartsLikeName(src[c]) && src[c] != '(' && KeywordLength(src[c..], 0) == 0
    requires n == RunEnd(src[c..], WordClass, 1)
    ensures c + n <= |src| && Next(specs, src, c, consume) == Found(Token.Variable(src[c..c + n]), c, n, consume)
  {
    var s := src[c..];
    assert s[0] == src[c];
    WordRuleWins(specs, s);
    FoundContent(specs, src, c, consume, 11, n, Token.Variable(src[c..c + n]));
  }

  lemma WordRuleWins(specs: seq<Spec>, s: string)
    requires IsTokenizerTable(specs)
    requires |s| > 0 && StartsLikeName(s[0]) && s[0] != '(' && KeywordLength(s, 0) == 0
    ensures FirstMatch(specs, s, 0) == Some((11, MatchLength(Word, s)))
  {
    MissBeforeKeywords(specs, s);
    Miss(specs, s, 8);
    Miss(specs, s, 9);
    Miss(specs, s, 10);
    Hit(specs, s, 11);
  }

  /**
   * White space that does not start an indentation unit is skipped as one
   * whole run, even when only peeking.
   */
  lemma SkipBlank(specs: seq<Spec>, src: string, c: nat, consume: bool)
    requires IsTokenizerTable(specs)
    requires c < |src| && IsSpace(src[c]) && MatchLength(Indent, src[c..]) == 0
    ensures var n := RunEnd(src[c..], SpaceClass, 0);
      0 < n && c + n <= |src| && Next(specs, src, c, consume) == Next(specs, src, c + n, consume)
  {
    var s := src[c..];
    assert s[0] == src[c];
    BlankRuleWins(specs, s);
    NextSkip(specs, src, c, consume, 6, RunEnd(s, SpaceClass, 0));
  }

  lemma BlankRuleWins(specs: seq<Spec>, s: string)
    requires IsTokenizerTable(specs)
    requires |s| > 0 && IsSpace(s[0]) && MatchLength(Indent, s) == 0
    ensures FirstMatch(specs, s, 0) == Some((6, RunEnd(s, SpaceClass, 0)))
  {
    SkipNumberAndStrings(specs, s);
    Miss(specs, s, 4);
    Miss(specs, s, 5);
    Hit(specs, s, 6);
  }

  /** A single space before a character that is not white space is skipped. */
  lemma SkipOneSpace(specs: seq<Spec>, src: string, c: nat, consume: bool)
    requires IsTokenizerTable(specs)
    requires c < |src| && src[c] == ' '
    requires c + 1 < |src| ==> !IsSpace(src[c + 1])
    ensures Next(specs, src, c, consume) == Next(specs, src, c + 1, consume)
  {
    var s := src[c..];
    assert s[0] == ' ';
    assert 1 < |s| ==> s[1] == src[c + 1];
    RunStopsAt(s, SpaceClass, 0, 1);
    assert MatchLength(Indent, s) == 0 by {
      if |s| >= 4 {
        assert s[1] == src[c + 1];
        assert s[..4] != "    ";
      }
    }
    SkipBlank(specs, src, c, consume);
  }

  /** A `#` comment is skipped up to, not including, the next line feed. */
  lemma SkipComment(specs: seq<Spec>, src: string, c: nat, consume: bool)
    requires IsTokenizerTable(specs)
    requires c < |src| && src[c] == '#'
    ensures var n := RunEnd(src[c..], NotNewline, 1);
      c + n <= |src| && Next(specs, src, c, consume) == Next(specs, src, c + n, consume)
  {
    var s := src[c..];
    assert s[0] == '#';
    SkipNumberAndStrings(specs, s);
    SkipIndentAndPipe(specs, s);
    Miss(specs, s, 6);
    Hit(specs, s, 7);
    NextSkip(specs, src, c, consume, 7, MatchLength(Comment, s));
  }

  // ---------------------------------------------------------------------
  // Consequences of the rule order on small inputs

  /** `Numbers` is the type name `Number` followed by the identifier `s`. */
  lemma KeywordsHaveNoWordBoundary(specs: seq<Spec>)
    requires IsTokenizerTable(specs)
    ensures Next(specs, "Numbers", 0, true) == Scan(Ok(Some(Token.SimpleType("Number"))), 6)
    ensures Next(specs, "Numbers", 6, true) == Scan(Ok(Some(Token.Variable("s"))), 7)
  {
    NumbersStartsWithKeyword(specs);
    NumbersEndsWithName(specs);
  }

  lemma NumbersStartsWithKeyword(specs: seq<Spec>)
    requires IsTokenizerTable(specs)
    ensures Next(specs, "Numbers", 0, true) == Scan(Ok(Some(Token.SimpleType("Number"))), 6)
  {
    var src := "Numbers";
    assert src[0..] == src && src[0..6] == "Number";
    assert KeywordLength(src[0..], 0) == 6 by {
      NumbersKeywordLength();
    }
    LexKeyword(specs, src, 0, 6, true);
  }

  lemma NumbersKeywordLength()
    ensures KeywordLength("Numbers", 0) == 6
  {
    assert Keywords[0] == "Numbers"[..6];
    KeywordLengthIs("Numbers", 0, 0);
  }

  lemma NumbersEndsWithName(specs: seq<Spec>)
    requires IsTokenizerTable(specs)
    ensures Next(specs, "Numbers", 6, true) == Scan(Ok(Some(Token.Variable("s"))), 7)
  {
    var src := "Numbers";
    assert src[6..] == "s";
    ShortTextHasNoKeyword(src[6..]);
    KeywordLengthZero(src[6..], 0);
    assert RunEnd(src[6..], WordClass, 1) == 1;
    LexWord(specs, src, 6, 1, true);
    assert src[6..7] == "s";
  }

  /** A tab or four spaces is a `Tab`; two spaces and a tab are one skipped run. */
  lemma TabRuleBeforeSkip(specs: seq<Spec>)
    requires IsTokenizerTable(specs)
    ensures Next(specs, "\t", 0, true) == Scan(Ok(Some(Token.Tab)), 1)
    ensures Next(specs, "    ", 0, true) == Scan(Ok(Some(Token.Tab)), 4)
    ensures Next(specs, "  \t", 0, true) == Scan(Ok(None), 3)
  {
    LexIndent(specs, "\t", 0, true);
    var four := "    ";
    assert four[0..4] == "    ";
    LexIndent(specs, four, 0, true);
    var mixed := "  \t";
    assert mixed[0..] == mixed;
    RunStopsAt(mixed[0..], SpaceClass, 0, 3);
    SkipBlank(specs, mixed, 0, true);
  }

  /** Peeking at ` |` steps over the blank: the cursor moves although nothing is consumed. */
  lemma PeekStepsOverTrivia(specs: seq<Spec>)
    requires IsTokenizerTable(specs)
    ensures Next(specs, " |", 0, false) == Scan(Ok(Some(Token.Pipe)), 1)
  {
    SkipOneSpace(specs, " |", 0, false);
    LexSymbol(specs, " |", 1, false);
  }
}
