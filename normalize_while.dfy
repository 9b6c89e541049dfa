/** normalize-while.ts: the five-token while-loop recogniser and constructor. */
module WhileLoops {
  import opened Wrappers
  import opened RawTokens
  import opened Ast

  /** Single-token normalization, a collaborator outside this model. */
  type SingleNormalizer = (NormalizerData, Token) -> Outcome<Node>

  /** The five tokens have the committed shape `while ( _ ) _`. */
  predicate WhileShape(whileToken: Token, leftParen: Token, rightParen: Token) {
    whileToken.name == While && leftParen.name == ParenLeft && rightParen.name == ParenRight
  }

  /** The while loop the source builds from a condition and a body it accepted. */
  predicate IsWhileOf(loop: Node, data: NormalizerData, whileToken: Token, condition: Node, body: Node) {
    && loop.WhileLoop?
    && loop.condition == condition
    && loop.body == EnsureExpressionList(body)
    && loop.lexeme == whileToken.lexeme
    && loop.location == whileToken.location
    && loop.info == Info(Some([]), data.currentRange, data.currentLexeme)
  }

  /** tryNormalizeWhile. `Ok(None)` is "no match" (`undefined`); `Err` is a thrown
      XmlParseError, or an error raised by normalizing the condition or the body. The
      context is a value: the recogniser reads it and cannot change it. */
  function TryNormalizeWhile(single: SingleNormalizer, data: NormalizerData,
                             whileToken: Token, leftParen: Token, condition: Token,
                             rightParen: Token, body: Token): (r: Outcome<Option<Node>>)
    // no match exactly when the first token is not `while`, whatever the other four are
    ensures r == Ok(None) <==> whileToken.name != While
    // once committed, the left paren is checked before the right one
    ensures whileToken.name == While && leftParen.name != ParenLeft ==>
              r == Err(XmlParse(WhileWithoutLeftParen(leftParen)))
    ensures whileToken.name == While && leftParen.name == ParenLeft && rightParen.name != ParenRight ==>
              r == Err(XmlParse(WhileWithoutRightParen(rightParen)))
    // a well-shaped loop fails exactly when a part fails to normalize (the condition's
    // error first) or normalizes to a bare delimiter
    ensures WhileShape(whileToken, leftParen, rightParen) && single(data, condition).Err? ==>
              r == Err(single(data, condition).error)
    ensures WhileShape(whileToken, leftParen, rightParen) && single(data, condition).Ok? && single(data, body).Err? ==>
              r == Err(single(data, body).error)
    ensures WhileShape(whileToken, leftParen, rightParen) && single(data, condition).Ok? && single(data, body).Ok? &&
            (single(data, condition).value.Delimiter? || single(data, body).value.Delimiter?) ==>
              r == Err(XmlParse(UnderSidedWhile(single(data, condition).value, single(data, body).value,
                                                [whileToken, condition, body])))
    // a match is a while loop over the independently normalized condition and body
    ensures r.Ok? && r.value.Some? <==>
              && WhileShape(whileToken, leftParen, rightParen)
              && single(data, condition).Ok? && !single(data, condition).value.Delimiter?
              && single(data, body).Ok? && !single(data, body).value.Delimiter?
    ensures r.Ok? && r.value.Some? ==>
              IsWhileOf(r.value.value, data, whileToken, single(data, condition).value, single(data, body).value)
  {
    if whileToken.name != While then
      Ok(None)
    else if leftParen.name != ParenLeft then
      Err(XmlParse(WhileWithoutLeftParen(leftParen)))
    else if rightParen.name != ParenRight then
      Err(XmlParse(WhileWithoutRightParen(rightParen)))
    else
      var parsedCondition :- single(data, condition);
      var parsedBody :- single(data, body);
      if parsedCondition.Delimiter? || parsedBody.Delimiter? then
        Err(XmlParse(UnderSidedWhile(parsedCondition, parsedBody, [whileToken, condition, body])))
      else
        Ok(Some(WhileLoop(parsedCondition, EnsureExpressionList(parsedBody), whileToken.lexeme,
                          whileToken.location, Info(Some([]), data.currentRange, data.currentLexeme))))
  }
}
