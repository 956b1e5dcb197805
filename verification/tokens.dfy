/**
  * Formula tokens (the component's `Variable` record) and the one rule by
  * which typed text becomes a token.
  */
module Tokens {
  import opened Optional

  /** The labels the component itself writes. */
  const Labels: seq<string> := ["number", "custom", "operator"]

  /** A label that is not one of the component's own. */
  type ForeignLabel = l: string | l !in Labels witness "variable"

  /** The category label of a token. The component itself only produces the
      first three; a suggestion fetched from the catalogue may carry any other
      label, kept verbatim in `Other`. `Other` cannot carry one of the three
      known labels, so every label has exactly one encoding. */
  datatype Category = Number | Custom | Operator | Other(text: ForeignLabel)

  /** A token's payload, the source's `number | string`. */
  datatype Value = Num(n: real) | Text(s: string)

  /** One element of a formula. `id` is opaque: it comes from the clock and
      nothing here relies on it being unique. */
  datatype Token = Token(id: string, name: string, category: Category, value: Value)

  /** `parseFloat` followed by the `isNaN` test: `None` is NaN. */
  type Parser = string -> Option<real>

  /** The keys that become operator tokens, in the source's order. */
  const Operators: seq<string> := ["+", "-", "*", "/", "^", "(", ")"]

  /** The token built from text at every flush site: a number when the text
      parses, otherwise a custom token worth 0; the name is the raw text. */
  function Derive(id: string, text: string, parse: Parser): (t: Token)
    ensures t.id == id && t.name == text
    ensures t.category == Number <==> parse(text).Some?
    ensures t.category == Custom <==> parse(text).None?
    ensures t.value == Num(parse(text).GetOr(0.0))
  {
    match parse(text)
    case Some(n) => Token(id, text, Number, Num(n))
    case None => Token(id, text, Custom, Num(0.0))
  }

  /** The token an operator key adds: its name and value are the key itself. */
  function OperatorToken(id: string, key: string): (t: Token)
    requires key in Operators
    ensures t.category == Operator && WellShaped(t)
    ensures t.id == id && t.name == key
  {
    Token(id, key, Operator, Text(key))
  }

  /** The category as the source's string. */
  function Label(c: Category): (l: string)
    ensures c.Other? ==> l == c.text
    ensures l in Labels <==> !c.Other?
    ensures l == "operator" <==> c == Operator
  {
    match c
    case Number => "number"
    case Custom => "custom"
    case Operator => "operator"
    case Other(text) => text
  }

  /** Distinct categories have distinct labels: comparing the source's
      strings and comparing categories agree. */
  lemma LabelInjective(c: Category, d: Category)
    ensures Label(c) == Label(d) <==> c == d
  {
  }

  /** An operator-category token is one of the operator keys and carries it as
      its value. */
  predicate WellShaped(t: Token) {
    t.category == Operator ==> t.name in Operators && t.value == Text(t.name)
  }

  /** A token that re-deriving from its own name would reproduce. */
  predicate Consistent(t: Token, parse: Parser) {
    t == Derive(t.id, t.name, parse)
  }

  /** Derived tokens are never operators, so they are always well shaped,
      and they are consistent with the parser that built them. */
  lemma DerivedTokenShape(id: string, text: string, parse: Parser)
    ensures WellShaped(Derive(id, text, parse))
    ensures Derive(id, text, parse).category != Operator
    ensures Consistent(Derive(id, text, parse), parse)
  {
  }
}
