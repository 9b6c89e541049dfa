/** The normalized tree, the normalization context and the error outcome. */
module Ast {
  import opened Wrappers
  import opened RawTokens

  /** Metadata every node carries. `additionalTokens` holds the comments hoisted onto
      a node without being one of its children; `None` stands for `undefined`. */
  datatype Info = Info(additionalTokens: Option<seq<Node>>, fullRange: Option<SourceRange>, fullLexeme: Option<string>)

  /** The node kinds built by constructors that are not part of this model. */
  datatype OtherType = UnaryOp | BinaryOp | Symbol | ForLoop | RepeatLoop | IfThen | IfThenElse | FunctionCall | Access

  datatype Node =
      /** An R comment: its text without the leading `#`, the full lexeme and location. */
    | Comment(content: string, lexeme: string, location: SourceRange, info: Info)
    | WhileLoop(condition: Node, body: Node, lexeme: string, location: SourceRange, info: Info)
      /** A statement list, optionally bound to the two symbols of its brace or paren pair;
          its lexeme and location may be undefined. */
    | ExpressionList(children: seq<Node>, grouping: Option<(Node, Node)>,
                     listLexeme: Option<string>, listLocation: Option<SourceRange>, info: Info)
      /** Consumed punctuation, which must not survive into an expression list. */
    | Delimiter(subtype: Kind, lexeme: string, location: SourceRange, info: Info)
    | Construct(rtype: OtherType, lexeme: string, location: SourceRange, info: Info)

  /** What a comment normalizer produces: a comment leaf with nothing attached to it. */
  type CommentNode = n: Node | n.Comment? && n.info.additionalTokens.GetOr([]) == []
    witness Node.Comment("", "#", SourceRange(0, 0, 0, 0), Info(Some([]), None, None))

  /** The per-parse-unit context: the range and lexeme of the construct being built. */
  datatype NormalizerData = NormalizerData(currentRange: Option<SourceRange>, currentLexeme: Option<string>)

  /** Why a structural check failed; each case carries the tokens or nodes the
      source names in its message. */
  datatype Reason =
    | UnclosedBrace(found: Token)
    | UnclosedParen(found: Token)
    | GroupingNotSymbols(opening: Token, closing: Token)
      /** The segment results, among which a delimiter was found. */
    | DelimiterInList(processed: seq<Node>)
    | WhileWithoutLeftParen(found: Token)
    | WhileWithoutRightParen(found: Token)
      /** The normalized condition and body, and the `while`, condition and body tokens. */
    | UnderSidedWhile(condition: Node, body: Node, tokens: seq<Token>)

  /** `guard` failures and `XmlParseError`s are kept apart. */
  datatype Failure = Guard(reason: Reason) | XmlParse(reason: Reason)

  type Outcome<T> = Result<T, Failure>

  /** Stand-in for the meta helper that gives every loop body the list shape: an
      expression list is kept, any other node becomes the only child of a fresh
      ungrouped list that takes over its location and info. */
  function EnsureExpressionList(n: Node): (r: Node)
    ensures r.ExpressionList?
    ensures n.ExpressionList? ==> r == n
    ensures !n.ExpressionList? ==> r.children == [n] && r.grouping == None && r.info == n.info
  {
    if n.ExpressionList? then n
    else ExpressionList([n], None, None, Some(n.location), n.info)
  }
}
