/** The raw, externally produced token model: every token carries the grammar-token
    kind it was tagged with, its source text and its location. */
module RawTokens {

  /** The raw grammar-token kinds the normalizer inspects by name; every other kind
      is `Other`, which the normalizer never singles out. */
  datatype Kind =
    | Comment
    | Semicolon
    | Expression
    | ExprOfAssignOrHelp
    | LegacyEqualAssign
    | BraceLeft
    | BraceRight
    | ParenLeft
    | ParenRight
    | While
    | Other(name: string)

  /** Start line, start column, end line, end column; opaque to the normalizer. */
  datatype SourceRange = SourceRange(startLine: int, startColumn: int, endLine: int, endColumn: int)

  /** A named token: its kind, and the lexeme and location its content yields. */
  datatype Token = Token(name: Kind, lexeme: string, location: SourceRange)

  /** The three kinds that mark a syntactically complete expression. */
  predicate IsBoundary(k: Kind) {
    k == Expression || k == ExprOfAssignOrHelp || k == LegacyEqualAssign
  }

  predicate IsComment(t: Token) {
    t.name == Comment
  }
}
