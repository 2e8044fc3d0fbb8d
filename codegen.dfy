/**
 * Code generation for literals (src/codegen.rs): the text a literal
 * compiles to. The target language is accepted and ignored.
 */
module Codegen {
  import opened Wrappers
  import opened Decimal
  import opened Parsing

  datatype Target = Python | Javascript

  /**
   * `Compilable::compile` for `Literal`: a string literal compiles to its
   * text as it is, without quotes; a number compiles to its decimal text,
   * which reads back as the number. There is always some output.
   */
  function Compile(l: Literal, target: Target): (r: Option<string>)
    ensures r.Some?
    ensures l.StringLiteral? ==> r.value == l.text
    ensures l.NumberLiteral? ==> IsSignedDecimal(r.value) && SignedValue(r.value) == l.value as int
  {
    match l
    case StringLiteral(v) => Some(v)
    case NumberLiteral(n) =>
      IntTextRoundTrip(n as int);
      Some(IntText(n as int))
  }

  /** The free function `compile`: hands the node to its own `compile`. */
  function CompileNode(node: Literal, target: Target): (r: Option<string>)
    ensures r == Compile(node, target)
  {
    Compile(node, target)
  }

  /** The output does not depend on the target. */
  lemma CompileIgnoresTarget(l: Literal)
    ensures Compile(l, Python) == Compile(l, Javascript)
  {
  }

  /** Two number literals compile to the same text only when they are equal. */
  lemma CompiledNumbersDiffer(m: i64, n: i64)
    requires Compile(NumberLiteral(m), Python) == Compile(NumberLiteral(n), Python)
    ensures m == n
  {
    IntTextInjective(m as int, n as int);
  }

  /** The examples `"String Literal"` and `42`, for both targets. */
  lemma CompileExamples()
    ensures Compile(StringLiteral("String Literal"), Python) == Some("String Literal")
    ensures Compile(StringLiteral("String Literal"), Javascript) == Some("String Literal")
    ensures Compile(NumberLiteral(42), Python) == Some("42")
    ensures Compile(NumberLiteral(42), Javascript) == Some("42")
  {
    assert NatText(4) == "4";
    assert NatText(42) == NatText(4) + "2" == "42";
    assert IntText((42 as i64) as int) == NatText(42);
  }
}
