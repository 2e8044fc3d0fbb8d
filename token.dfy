/**
 * The token type of the front end and its display text (src/token.rs).
 * `Variable`, `Colon` and `Equal` are built by the tokenizer although
 * token.rs does not declare them; they are part of the type here.
 */
module Tokens {
  import opened Decimal

  datatype Token =
    | String(text: string)
    | Number(value: i64)
    | SimpleType(typeName: string)
    | Pipe
    | Tab
    | LineBreak
    | EOF
    | Variable(name: string)
    | Colon
    | Equal

  /** `prefix` followed by `payload` in single quotes, as `write!(f, "... '{}'", v)` prints it. */
  function Quoted(prefix: string, payload: string): (r: string)
    ensures |r| == |prefix| + |payload| + 2
    ensures r[..|prefix|] == prefix && r[|prefix|] == '\'' && r[|r| - 1] == '\''
    ensures r[|prefix| + 1..|r| - 1] == payload
  {
    var r := prefix + "'" + payload + "'";
    assert r[|prefix| + 1..|r| - 1] == payload;
    r
  }

  /** The `Display` text of a token, used in every parser error message. */
  function Display(t: Token): (r: string)
    ensures |r| >= 3
  {
    match t
    case String(v) => Quoted("string ", v)
    case Number(n) => Quoted("number ", IntText(n as int))
    case SimpleType(v) => Quoted("type ", v)
    case Pipe => "pipe"
    case Tab => "tab"
    case LineBreak => "new line"
    case EOF => "EOF"
    case Variable(v) => Quoted("variable ", v)
    case Colon => "colon"
    case Equal => "equal"
  }

  /**
   * What a token carries between the quotes of its display text, the
   * decimal digits for a number; empty for a token without payload.
   */
  function PayloadText(t: Token): string {
    match t
    case String(v) => v
    case Number(n) => IntText(n as int)
    case SimpleType(v) => v
    case Variable(v) => v
    case _ => ""
  }

  /** The display text of a token with a payload quotes that payload verbatim. */
  lemma DisplayQuotesPayload(t: Token)
    requires t.String? || t.Number? || t.SimpleType? || t.Variable?
    ensures var d := Display(t);
      d[|d| - 1] == '\'' && d[|d| - |PayloadText(t)| - 2] == '\'' &&
      d[|d| - |PayloadText(t)| - 1..|d| - 1] == PayloadText(t)
  {
  }

  /** A number displays its value in decimal: reading the quoted digits back gives the value. */
  lemma DisplayNumberIsDecimal(n: i64)
    ensures var d := Display(Number(n));
      |d| > 9 && d[..8] == "number '" && IsSignedDecimal(d[8..|d| - 1]) &&
      SignedValue(d[8..|d| - 1]) == n as int
  {
    IntTextRoundTrip(n as int);
  }

  /** The first two characters of the display text of each kind of token. */
  function Initials(t: Token): (char, char) {
    match t
    case String(_) => ('s', 't')
    case Number(_) => ('n', 'u')
    case SimpleType(_) => ('t', 'y')
    case Pipe => ('p', 'i')
    case Tab => ('t', 'a')
    case LineBreak => ('n', 'e')
    case EOF => ('E', 'O')
    case Variable(_) => ('v', 'a')
    case Colon => ('c', 'o')
    case Equal => ('e', 'q')
  }

  /** A quoted text starts with its prefix. */
  lemma QuotedStart(prefix: string, payload: string)
    requires |prefix| >= 2
    ensures Quoted(prefix, payload)[0] == prefix[0] && Quoted(prefix, payload)[1] == prefix[1]
  {
    var r := Quoted(prefix, payload);
    assert r[0] == r[..|prefix|][0] && r[1] == r[..|prefix|][1];
  }

  /** A token with a payload: its display text starts with the initials of its kind. */
  lemma PayloadInitials(t: Token)
    requires t.String? || t.Number? || t.SimpleType? || t.Variable?
    ensures Display(t)[0] == Initials(t).0 && Display(t)[1] == Initials(t).1
  {
    match t
    case String(v) => QuotedStart("string ", v);
    case Number(n) => QuotedStart("number ", IntText(n as int));
    case SimpleType(v) => QuotedStart("type ", v);
    case Variable(v) => QuotedStart("variable ", v);
  }

  /** Each kind of token has its own initials: the display text starts with them. */
  lemma DisplayStartsWithInitials(t: Token)
    ensures Display(t)[0] == Initials(t).0 && Display(t)[1] == Initials(t).1
  {
    if t.String? || t.Number? || t.SimpleType? || t.Variable? {
      PayloadInitials(t);
    }
  }

  /** Two tokens with the same display text are the same token: error messages are unambiguous. */
  lemma DisplayInjective(a: Token, b: Token)
    requires Display(a) == Display(b)
    ensures a == b
  {
    DisplayStartsWithInitials(a);
    DisplayStartsWithInitials(b);
    if a.Number? {
      IntTextInjective(a.value as int, b.value as int);
    }
  }
}
