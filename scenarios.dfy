/** Concrete runs through the classifier, the while recogniser and the assembler,
    with a small set of collaborators: every token normalizes to a symbol, a comment
    token to a comment leaf, and only the one-token symbol recogniser ever matches. */
module Scenarios {
  import opened Wrappers
  import opened RawTokens
  import opened Ast
  import opened Classifier
  import opened WhileLoops
  import opened Expressions

  const At := SourceRange(1, 1, 1, 1)
  const NoInfo := Info(None, None, None)
  const Data := NormalizerData(None, None)

  function Tok(k: Kind, lexeme: string): Token {
    Token(k, lexeme, At)
  }

  /** The node the demo collaborators make of a single token. */
  function SymbolOf(t: Token): Node {
    Construct(Symbol, t.lexeme, t.location, NoInfo)
  }

  /** A symbol that received the (empty) hoisted comments of its run. */
  function Hoisted(t: Token): Node {
    Construct(Symbol, t.lexeme, t.location, Info(Some([]), None, None))
  }

  /** A symbol that received the hoisted comments `cs` of its run. */
  function Carrying(t: Token, cs: seq<Node>): Node {
    Construct(Symbol, t.lexeme, t.location, Info(Some(cs), None, None))
  }

  function CommentOf(t: Token): CommentNode {
    Node.Comment(t.lexeme, t.lexeme, t.location, Info(Some([]), None, None))
  }

  function Demo(): Collaborators {
    Collaborators(
      (d: NormalizerData, t: Token) => Ok(SymbolOf(t)),
      (d: NormalizerData, t: Token) => Ok(CommentOf(t)),
      (d: NormalizerData, ts: seq<Token>) => Ok(None),
      (d: NormalizerData, ts: seq<Token>) => Ok(None),
      (d: NormalizerData, ts: seq<Token>) => Ok(None),
      (d: NormalizerData, ts: seq<Token>) => Ok(None),
      (d: NormalizerData, ts: seq<Token>) => if |ts| == 1 then Ok(Some(SymbolOf(ts[0]))) else Ok(None),
      (d: NormalizerData, ts: seq<Token>) => Ok(None),
      (d: NormalizerData, ts: seq<Token>) => Ok(None))
  }

  /** What the demo collaborators do with one token or one short run. */
  lemma DemoFacts(t: Token, ts: seq<Token>)
    ensures Demo().single(Data, t) == Ok(SymbolOf(t))
    ensures Demo().comment(Data, t) == Ok(CommentOf(t))
    ensures Demo().symbol(Data, [t]) == Ok(Some(SymbolOf(t)))
    ensures Demo().ifThen(Data, ts) == Ok(None)
  {
  }

  /** A lone token normalizes to its symbol. */
  lemma SingleStatement(t: Token)
    ensures Normalize(Demo(), Data, [t]) == Ok([SymbolOf(t)])
  {
    DemoFacts(t, []);
  }

  /** Two adjacent expressions with no semicolon between them are two statements. */
  lemma AdjacentExpressionsSplit(x: Token, y: Token)
    requires x.name == Expression && y.name == Expression
    ensures Segments([x, y]) == [[x], [y]]
  {
    assert Run([x]) == SplitState([], [x], true) by { assert [x][..0] == []; }
    assert Run([x, y]) == SplitState([[x], [y]], [], true) by { assert [x, y][..1] == [x]; }
  }

  /** The classifier's result from the split of a run that opens with no brace or paren. */
  lemma SplitBy(ts: seq<Token>, others: seq<Token>, comments: seq<Token>, segs: seq<seq<Token>>)
    requires Others(ts) == others && Comments(ts) == comments && Segments(others) == segs
    requires others != [] && others[0].name != BraceLeft && others[0].name != ParenLeft
    ensures HandleExpressionList(ts) == Ok(Handled(segs, comments, None))
  {
    HandleSplit(ts);
  }

  /** The classifier's result from the split of a run bracketed by a brace pair. */
  lemma GroupBy(ts: seq<Token>, others: seq<Token>, comments: seq<Token>)
    requires Others(ts) == others && Comments(ts) == comments && |others| >= 2
    requires others[0].name == BraceLeft && others[|others| - 1].name == BraceRight
    ensures HandleExpressionList(ts)
              == Ok(Handled([others[1..|others| - 1]], comments, Some((others[0], others[|others| - 1]))))
  {
    HandleGrouping(ts);
  }

  /** splitExprs cuts `a ; b ; c` at both semicolons. */
  lemma ThreeSegments(a: Token, b: Token, c: Token)
    requires a.name == Expression && b.name == Expression && c.name == Expression
    ensures var semi := Tok(Semicolon, ";"); Segments([a, semi, b, semi, c]) == [[a], [b], [c]]
  {
    var semi := Tok(Semicolon, ";");
    var ts := [a, semi, b, semi, c];
    assert Run([a]) == SplitState([], [a], true) by { assert [a][..0] == []; }
    assert Run([a, semi]) == SplitState([[a]], [], false) by { assert [a, semi][..1] == [a]; }
    assert Run([a, semi, b]) == SplitState([[a]], [b], true) by { assert [a, semi, b][..2] == [a, semi]; }
    assert Run([a, semi, b, semi]) == SplitState([[a], [b]], [], false) by {
      assert [a, semi, b, semi][..3] == [a, semi, b];
    }
    assert Run(ts) == SplitState([[a], [b]], [c], true) by { assert ts[..4] == [a, semi, b, semi]; }
  }

  /** Three one-token statements normalize to their three symbols, in order. */
  lemma ThreeSymbols(a: Token, b: Token, c: Token, bound: nat)
    requires bound > 1
    ensures NormalizeSegments(Demo(), Data, [[a], [b], [c]], bound) == Ok([SymbolOf(a), SymbolOf(b), SymbolOf(c)])
  {
    var segs := [[a], [b], [c]];
    SingleStatement(a);
    SingleStatement(b);
    SingleStatement(c);
    assert NormalizeSegments(Demo(), Data, [[a]], bound) == Ok([SymbolOf(a)]) by {
      assert [[a]][..0] == [];
      assert [] + [SymbolOf(a)] == [SymbolOf(a)];
    }
    assert NormalizeSegments(Demo(), Data, [[a], [b]], bound) == Ok([SymbolOf(a), SymbolOf(b)]) by {
      assert [[a], [b]][..1] == [[a]];
      assert [SymbolOf(a)] + [SymbolOf(b)] == [SymbolOf(a), SymbolOf(b)];
    }
    assert segs[..2] == [[a], [b]];
    assert [SymbolOf(a), SymbolOf(b)] + [SymbolOf(c)] == [SymbolOf(a), SymbolOf(b), SymbolOf(c)];
  }

  /** The classifier splits `a ; b ; c` into its three statements. */
  lemma ThreeHandled(a: Token, b: Token, c: Token)
    requires a.name == Expression && b.name == Expression && c.name == Expression
    ensures var semi := Tok(Semicolon, ";");
            HandleExpressionList([a, semi, b, semi, c]) == Ok(Handled([[a], [b], [c]], [], None))
  {
    var semi := Tok(Semicolon, ";");
    var ts := [a, semi, b, semi, c];
    assert NoComment(ts);
    CommentFreeHasNoComments(ts);
    ThreeSegments(a, b, c);
    SplitBy(ts, ts, [], [[a], [b], [c]]);
  }

  /** Without a pair, the (empty) comments are hoisted onto the first statement. */
  lemma ThreeAssemble(a: Token, b: Token, c: Token)
    ensures Assemble(Demo(), Data, None, [SymbolOf(a), SymbolOf(b), SymbolOf(c)], [])
              == Ok([Hoisted(a), SymbolOf(b), SymbolOf(c)])
  {
    var processed := [SymbolOf(a), SymbolOf(b), SymbolOf(c)];
    assert !HasDelimiter(processed);
    assert AttachComments(SymbolOf(a), []) == Hoisted(a) by {
      var r := AttachComments(SymbolOf(a), []);
      assert SymbolOf(a).info.additionalTokens.GetOr([]) == [];
      var none: seq<Node> := [];
      assert none + none == none;
      assert r.info == Info(Some([]), None, None);
    }
    assert Hoist(processed, []) == [Hoisted(a), SymbolOf(b), SymbolOf(c)];
  }

  /** `a ; b ; c` with three expressions: three statements, the first carrying the
      (here empty) hoisted comments. */
  lemma ThreeStatements(a: Token, b: Token, c: Token)
    requires a.name == Expression && b.name == Expression && c.name == Expression
    ensures var semi := Tok(Semicolon, ";");
            Normalize(Demo(), Data, [a, semi, b, semi, c])
              == Ok([Hoisted(a), SymbolOf(b), SymbolOf(c)])
  {
    var semi := Tok(Semicolon, ";");
    var ts := [a, semi, b, semi, c];
    var processed := [SymbolOf(a), SymbolOf(b), SymbolOf(c)];
    ThreeHandled(a, b, c);
    ThreeSymbols(a, b, c, |ts|);
    assert NormalizeComments(Demo(), Data, []) == Ok([]);
    ThreeAssemble(a, b, c);
  }

  /** A comment-free run between a brace pair is kept whole as the one segment. */
  lemma BracePairKept(lb: Token, inner: seq<Token>, rb: Token)
    requires lb.name == BraceLeft && rb.name == BraceRight && NoComment(inner)
    ensures HandleExpressionList([lb] + inner + [rb]) == Ok(Handled([inner], [], Some((lb, rb))))
  {
    var ts := [lb] + inner + [rb];
    assert NoComment(ts) by {
      forall t | t in ts
        ensures !IsComment(t)
      {
        assert t == lb || t in inner || t == rb;
      }
    }
    CommentFreeHasNoComments(ts);
    assert OpensWith(ts, BraceLeft) && ClosesWith(ts, BraceRight);
    HandleGrouping(ts);
    assert ts[1..|ts| - 1] == inner;
  }

  /** The classifier finds the pair around `a ; b ; c` and keeps the interior whole. */
  lemma BracedHandled(a: Token, b: Token, c: Token)
    requires a.name == Expression && b.name == Expression && c.name == Expression
    ensures var lb, rb, semi := Tok(BraceLeft, "{"), Tok(BraceRight, "}"), Tok(Semicolon, ";");
            HandleExpressionList([lb, a, semi, b, semi, c, rb])
              == Ok(Handled([[a, semi, b, semi, c]], [], Some((lb, rb))))
  {
    var lb, rb, semi := Tok(BraceLeft, "{"), Tok(BraceRight, "}"), Tok(Semicolon, ";");
    var inner := [a, semi, b, semi, c];
    assert NoComment(inner);
    BracePairKept(lb, inner, rb);
    assert [lb] + inner + [rb] == [lb, a, semi, b, semi, c, rb];
  }

  /** The grouped list the demo collaborators build around the three statements. */
  lemma BracedAssemble(a: Token, b: Token, c: Token)
    ensures var lb, rb := Tok(BraceLeft, "{"), Tok(BraceRight, "}");
            var statements := [Hoisted(a), SymbolOf(b), SymbolOf(c)];
            Assemble(Demo(), Data, Some((lb, rb)), statements, [])
              == Ok([ExpressionList(statements, Some((SymbolOf(lb), SymbolOf(rb))), None, None, Info(Some([]), None, None))])
  {
    var lb, rb := Tok(BraceLeft, "{"), Tok(BraceRight, "}");
    var statements := [Hoisted(a), SymbolOf(b), SymbolOf(c)];
    assert !HasDelimiter(statements);
    DemoFacts(lb, []);
    DemoFacts(rb, []);
  }

  /** `{ a ; b ; c }`: the interior is one segment, normalized on its own, and the pair
      binds the resulting statements into one grouped list. */
  lemma BracedBlock(a: Token, b: Token, c: Token)
    requires a.name == Expression && b.name == Expression && c.name == Expression
    ensures var lb, rb, semi := Tok(BraceLeft, "{"), Tok(BraceRight, "}"), Tok(Semicolon, ";");
            Normalize(Demo(), Data, [lb, a, semi, b, semi, c, rb])
              == Ok([ExpressionList([Hoisted(a), SymbolOf(b), SymbolOf(c)],
                                    Some((SymbolOf(lb), SymbolOf(rb))), None, None, Info(Some([]), None, None))])
  {
    var lb, rb, semi := Tok(BraceLeft, "{"), Tok(BraceRight, "}"), Tok(Semicolon, ";");
    var ts := [lb, a, semi, b, semi, c, rb];
    var inner := [a, semi, b, semi, c];
    var statements := [Hoisted(a), SymbolOf(b), SymbolOf(c)];
    BracedHandled(a, b, c);
    ThreeStatements(a, b, c);
    assert NormalizeSegments(Demo(), Data, [inner], |ts|) == Ok(statements) by {
      assert [inner][..0] == [];
      assert NormalizeSegments(Demo(), Data, [], |ts|) == Ok([]);
      assert [] + statements == statements;
    }
    assert NormalizeComments(Demo(), Data, []) == Ok([]);
    BracedAssemble(a, b, c);
  }

  /** `{ a ; b )`: a brace opened and not closed is rejected, naming the last token. */
  lemma UnclosedBraceRejected(a: Token, b: Token)
    requires a.name == Expression && b.name == Expression
    ensures var lb, rp, semi := Tok(BraceLeft, "{"), Tok(ParenRight, ")"), Tok(Semicolon, ";");
            Normalize(Demo(), Data, [lb, a, semi, b, rp]) == Err(Guard(UnclosedBrace(rp)))
  {
    var lb, rp, semi := Tok(BraceLeft, "{"), Tok(ParenRight, ")"), Tok(Semicolon, ";");
    var ts := [lb, a, semi, b, rp];
    CommentFreeHasNoComments(ts);
    HandleGrouping(ts);
  }

  /** The while loop the demo collaborators make of `while ( c ) b`. */
  function DemoLoop(c: Token, b: Token): Node {
    WhileLoop(SymbolOf(c), ExpressionList([SymbolOf(b)], None, None, Some(b.location), NoInfo),
              "while", At, Info(Some([]), None, None))
  }

  /** With `if` missing, the five-token run is recognised as a while loop. */
  lemma WhileDispatch(c: Token, b: Token)
    ensures var w, lp, rp := Tok(While, "while"), Tok(ParenLeft, "("), Tok(ParenRight, ")");
            NormalizeBasedOnType(Demo(), Data, [w, lp, c, rp, b]) == Ok([DemoLoop(c, b)])
  {
    var w, lp, rp := Tok(While, "while"), Tok(ParenLeft, "("), Tok(ParenRight, ")");
    var ts := [w, lp, c, rp, b];
    DemoFacts(c, ts);
    DemoFacts(b, ts);
    var r := TryNormalizeWhile(Demo().single, Data, w, lp, c, rp, b);
    assert r.Ok? && r.value.Some?;
    assert r.value.value == DemoLoop(c, b);
  }

  /** splitExprs keeps `while ( c ) b` whole: no semicolon, and no two boundary tokens meet. */
  lemma WhileSegments(c: Token, b: Token)
    requires c.name != Semicolon && b.name != Semicolon
    ensures var w, lp, rp := Tok(While, "while"), Tok(ParenLeft, "("), Tok(ParenRight, ")");
            var ts := [w, lp, c, rp, b];
            Segments(ts) == [ts]
  {
    var w, lp, rp := Tok(While, "while"), Tok(ParenLeft, "("), Tok(ParenRight, ")");
    var ts := [w, lp, c, rp, b];
    assert !HasSemicolon(ts) by {
      forall i | 0 <= i < |ts|
        ensures ts[i].name != Semicolon
      {
      }
    }
    assert NoAdjacentBoundaries(ts);
    RunStaysWhole(ts);
  }

  /** The classifier leaves `while ( c ) b` as the one segment of its run. */
  lemma WhileHandled(c: Token, b: Token)
    requires !IsComment(c) && !IsComment(b) && c.name != Semicolon && b.name != Semicolon
    ensures var w, lp, rp := Tok(While, "while"), Tok(ParenLeft, "("), Tok(ParenRight, ")");
            var ts := [w, lp, c, rp, b];
            HandleExpressionList(ts) == Ok(Handled([ts], [], None))
  {
    var w, lp, rp := Tok(While, "while"), Tok(ParenLeft, "("), Tok(ParenRight, ")");
    var ts := [w, lp, c, rp, b];
    CommentFreeHasNoComments(ts);
    WhileSegments(c, b);
  }

  /** `while ( c ) b` on its own: a while loop over the two normalized parts, with the
      body wrapped in a list. */
  lemma WhileRun(c: Token, b: Token)
    requires !IsComment(c) && !IsComment(b) && c.name != Semicolon && b.name != Semicolon
    ensures var w, lp, rp := Tok(While, "while"), Tok(ParenLeft, "("), Tok(ParenRight, ")");
            Normalize(Demo(), Data, [w, lp, c, rp, b]) == Ok([DemoLoop(c, b)])
  {
    var w, lp, rp := Tok(While, "while"), Tok(ParenLeft, "("), Tok(ParenRight, ")");
    var ts := [w, lp, c, rp, b];
    WhileHandled(c, b);
    WhileDispatch(c, b);
    assert NormalizeComments(Demo(), Data, []) == Ok([]);
    assert [] + [DemoLoop(c, b)] == [DemoLoop(c, b)];
  }

  /** A run of two comments: no statements, so the normalized comments are the result. */
  lemma OnlyComments(x: Token, y: Token)
    requires IsComment(x) && IsComment(y)
    ensures Normalize(Demo(), Data, [x, y]) == Ok([CommentOf(x), CommentOf(y)])
  {
    var ts := [x, y];
    assert ts[..1] == [x] && [x][..0] == [];
    assert Others([x]) == [] && Comments([x]) == [x];
    assert Others(ts) == [] && Comments(ts) == ts;
    HandleSplit(ts);
    assert Segments([]) == [];
    DemoFacts(x, []);
    DemoFacts(y, []);
    var parsed := NormalizeComments(Demo(), Data, ts);
    assert parsed.Ok? && parsed.value[0] == CommentOf(x) && parsed.value[1] == CommentOf(y);
    assert parsed.value == [CommentOf(x), CommentOf(y)];
    assert NormalizeBasedOnType(Demo(), Data, []) == Ok([]);
    assert parsed.value + [] == parsed.value;
  }
  /** A comment token on its own is all comment. */
  lemma CommentSplitOff(c: Token)
    requires IsComment(c)
    ensures Comments([c]) == [c] && Others([c]) == []
  {
    assert [c][..0] == [];
    assert Comments([]) == [] && Others([]) == [];
    assert [] + [c] == [c];
  }

  /** The demo comment normalizer turns one comment token into its comment leaf. */
  lemma CommentNormalized(c: Token)
    ensures NormalizeComments(Demo(), Data, [c]) == Ok([CommentOf(c)])
  {
    assert [c][..0] == [];
    assert NormalizeComments(Demo(), Data, []) == Ok([]);
    DemoFacts(c, []);
    assert [] + [CommentOf(c)] == [CommentOf(c)];
  }

  /** One one-token statement normalizes to its symbol. */
  lemma OneSymbol(x: Token, bound: nat)
    requires bound > 1
    ensures NormalizeSegments(Demo(), Data, [[x]], bound) == Ok([SymbolOf(x)])
  {
    SingleStatement(x);
    assert [[x]][..0] == [];
    assert [] + [SymbolOf(x)] == [SymbolOf(x)];
  }

  /** One comment between comment-free tokens is split off, the others keep their order. */
  lemma OneCommentSplit(a: seq<Token>, c: Token, b: seq<Token>)
    requires NoComment(a) && IsComment(c) && NoComment(b)
    ensures Others(a + [c] + b) == a + b && Comments(a + [c] + b) == [c]
  {
    CommentFreeHasNoComments(a);
    CommentFreeHasNoComments(b);
    CommentSplitOff(c);
    CommentsSplitAt(a, [c]);
    assert Others(a + [c]) == a && Comments(a + [c]) == [c] by {
      assert a + [] == a;
      assert [] + [c] == [c];
    }
    CommentsSplitAt(a + [c], b);
    assert [c] + [] == [c];
  }

  /** splitExprs cuts `x ; y` at the semicolon. */
  lemma TwoSegments(x: Token, y: Token)
    requires x.name == Expression && y.name == Expression
    ensures var semi := Tok(Semicolon, ";"); Segments([x, semi, y]) == [[x], [y]]
  {
    var semi := Tok(Semicolon, ";");
    assert Run([x]) == SplitState([], [x], true) by { assert [x][..0] == []; }
    assert Run([x, semi]) == SplitState([[x]], [], false) by { assert [x, semi][..1] == [x]; }
    assert Run([x, semi, y]) == SplitState([[x]], [y], true) by { assert [x, semi, y][..2] == [x, semi]; }
  }

  /** The classifier takes the comment out of `x ; y #c` and splits the rest in two. */
  lemma CommentHandled(x: Token, y: Token, c: Token)
    requires x.name == Expression && y.name == Expression && IsComment(c)
    ensures var semi := Tok(Semicolon, ";");
            HandleExpressionList([x, semi, y, c]) == Ok(Handled([[x], [y]], [c], None))
  {
    var semi := Tok(Semicolon, ";");
    var stmts := [x, semi, y];
    var ts := stmts + [c] + [];
    assert ts == [x, semi, y, c] && stmts + [] == stmts;
    assert NoComment(stmts) && NoComment([]);
    OneCommentSplit(stmts, c, []);
    TwoSegments(x, y);
    SplitBy(ts, stmts, [c], [[x], [y]]);
  }

  /** Two one-token statements normalize to their two symbols, in order. */
  lemma TwoSymbols(x: Token, y: Token, bound: nat)
    requires bound > 1
    ensures NormalizeSegments(Demo(), Data, [[x], [y]], bound) == Ok([SymbolOf(x), SymbolOf(y)])
  {
    OneSymbol(x, bound);
    SingleStatement(y);
    assert [[x], [y]][..1] == [[x]];
    assert [SymbolOf(x)] + [SymbolOf(y)] == [SymbolOf(x), SymbolOf(y)];
  }

  /** Hoisting a comment onto the first of two statements. */
  lemma CommentAssemble(x: Token, y: Token, c: Token)
    ensures Assemble(Demo(), Data, None, [SymbolOf(x), SymbolOf(y)], [CommentOf(c)])
              == Ok([Carrying(x, [CommentOf(c)]), SymbolOf(y)])
  {
    var processed := [SymbolOf(x), SymbolOf(y)];
    assert !HasDelimiter(processed);
    assert AttachComments(SymbolOf(x), [CommentOf(c)]) == Carrying(x, [CommentOf(c)]) by {
      var none: seq<Node> := [];
      assert SymbolOf(x).info.additionalTokens.GetOr([]) == none;
      assert none + [CommentOf(c)] == [CommentOf(c)];
    }
    assert Hoist(processed, [CommentOf(c)]) == [Carrying(x, [CommentOf(c)]), SymbolOf(y)];
  }

  /** `x ; y #c`: the comment is taken out of the run, the two statements are normalized,
      and the comment is hoisted onto the first of them. */
  lemma CommentHoisted(x: Token, y: Token, c: Token)
    requires x.name == Expression && y.name == Expression && IsComment(c)
    ensures var semi := Tok(Semicolon, ";");
            Normalize(Demo(), Data, [x, semi, y, c]) == Ok([Carrying(x, [CommentOf(c)]), SymbolOf(y)])
  {
    var semi := Tok(Semicolon, ";");
    var ts := [x, semi, y, c];
    CommentHandled(x, y, c);
    CommentNormalized(c);
    TwoSymbols(x, y, |ts|);
    NormalizePaths(Demo(), Data, ts);
    CommentAssemble(x, y, c);
  }

  /** The classifier takes the comment out of `{ x #c }` and binds `x` to the pair. */
  lemma CommentGroupHandled(x: Token, c: Token)
    requires x.name == Expression && IsComment(c)
    ensures var lb, rb := Tok(BraceLeft, "{"), Tok(BraceRight, "}");
            HandleExpressionList([lb, x, c, rb]) == Ok(Handled([[x]], [c], Some((lb, rb))))
  {
    var lb, rb := Tok(BraceLeft, "{"), Tok(BraceRight, "}");
    var ts := [lb, x] + [c] + [rb];
    assert ts == [lb, x, c, rb] && [lb, x] + [rb] == [lb, x, rb];
    assert NoComment([lb, x]) && NoComment([rb]);
    OneCommentSplit([lb, x], c, [rb]);
    assert [lb, x, rb][1..2] == [x];
    GroupBy(ts, [lb, x, rb], [c]);
  }

  /** The pair's symbols group the statement, and the list carries the comment. */
  lemma CommentGroupAssemble(x: Token, c: Token)
    ensures var lb, rb := Tok(BraceLeft, "{"), Tok(BraceRight, "}");
            Assemble(Demo(), Data, Some((lb, rb)), [SymbolOf(x)], [CommentOf(c)])
              == Ok([ExpressionList([SymbolOf(x)], Some((SymbolOf(lb), SymbolOf(rb))), None, None,
                                    Info(Some([CommentOf(c)]), None, None))])
  {
    var lb, rb := Tok(BraceLeft, "{"), Tok(BraceRight, "}");
    assert !HasDelimiter([SymbolOf(x)]);
    DemoFacts(lb, []);
    DemoFacts(rb, []);
  }

  /** `{ x #c }`: the comment goes onto the grouped list the pair builds. */
  lemma CommentOnGroupedList(x: Token, c: Token)
    requires x.name == Expression && IsComment(c)
    ensures var lb, rb := Tok(BraceLeft, "{"), Tok(BraceRight, "}");
            Normalize(Demo(), Data, [lb, x, c, rb])
              == Ok([ExpressionList([SymbolOf(x)], Some((SymbolOf(lb), SymbolOf(rb))), None, None,
                                    Info(Some([CommentOf(c)]), None, None))])
  {
    var lb, rb := Tok(BraceLeft, "{"), Tok(BraceRight, "}");
    var ts := [lb, x, c, rb];
    CommentGroupHandled(x, c);
    CommentNormalized(c);
    OneSymbol(x, |ts|);
    NormalizePaths(Demo(), Data, ts);
    CommentGroupAssemble(x, c);
  }
}
