/** normalize-expressions.ts: the shape dispatcher and the recursive expression-list
    assembler. The construct recognisers, single-token normalization and comment
    normalization are collaborators outside this model: they are passed in as
    functions. Every property below holds for any of them, except that the comment
    normalizer returns a `CommentNode` and that the comment accounting assumes
    `AttachesNoComments`. */
module Expressions {
  import opened Wrappers
  import opened RawTokens
  import opened Ast
  import opened Classifier
  import opened WhileLoops

  /** A fixed-arity construct recogniser: `Ok(None)` is "no match" (`undefined`). */
  type Constructor = (NormalizerData, seq<Token>) -> Outcome<Option<Node>>

  /** The collaborators the assembler and the dispatcher call. */
  datatype Collaborators = Collaborators(
    single: SingleNormalizer,
    comment: (NormalizerData, Token) -> Outcome<CommentNode>,
    unary: Constructor,
    repeat: Constructor,
    binary: Constructor,
    forLoop: Constructor,
    symbol: Constructor,
    ifThen: Constructor,
    ifThenElse: Constructor)

  // ---------------------------------------------------------------------------
  // The shape dispatcher
  // ---------------------------------------------------------------------------

  /** `first ?? second`: the second recogniser is consulted only on a miss of the first. */
  function OrElse(first: Outcome<Option<Node>>, second: Outcome<Option<Node>>): Outcome<Option<Node>> {
    if first.Err? || first.value.Some? then first else second
  }

  /** The arity switch: which recognisers are tried, in which order. */
  function TryConstructors(o: Collaborators, data: NormalizerData, ts: seq<Token>): Outcome<Option<Node>> {
    if |ts| == 1 then
      (var n :- o.single(data, ts[0]); Ok(Some(n)))
    else if |ts| == 2 then
      OrElse(o.unary(data, ts), o.repeat(data, ts))
    else if |ts| == 3 then
      OrElse(o.binary(data, ts), OrElse(o.forLoop(data, ts), o.symbol(data, ts)))
    else if |ts| == 5 then
      OrElse(o.ifThen(data, ts), TryNormalizeWhile(o.single, data, ts[0], ts[1], ts[2], ts[3], ts[4]))
    else if |ts| == 7 then
      o.ifThenElse(data, ts)
    else
      Ok(None)
  }

  /** parseNodesWithUnknownType as a function: every token normalized on its own. */
  function NormalizeEach(o: Collaborators, data: NormalizerData, ts: seq<Token>): (r: Outcome<seq<Node>>)
    ensures r.Ok? <==> forall i :: 0 <= i < |ts| ==> o.single(data, ts[i]).Ok?
    ensures r.Ok? ==> |r.value| == |ts| && forall i :: 0 <= i < |ts| ==> o.single(data, ts[i]) == Ok(r.value[i])
    ensures r.Err? ==> exists i :: 0 <= i < |ts| && o.single(data, ts[i]) == Err(r.error) &&
                                  forall j :: 0 <= j < i ==> o.single(data, ts[j]).Ok?
    decreases |ts|
  {
    if ts == [] then Ok([])
    else
      var init :- NormalizeEach(o, data, ts[..|ts| - 1]);
      var last :- o.single(data, ts[|ts| - 1]);
      Ok(init + [last])
  }

  /** The loop of parseNodesWithUnknownType: one output per token, in order. */
  method ParseNodesWithUnknownType(o: Collaborators, data: NormalizerData, mappedWithName: seq<Token>)
    returns (r: Outcome<seq<Node>>)
    ensures r == NormalizeEach(o, data, mappedWithName)
  {
    var parsedNodes: seq<Node> := [];
    for i := 0 to |mappedWithName|
      invariant NormalizeEach(o, data, mappedWithName[..i]) == Ok(parsedNodes)
    {
      var retrieved := o.single(data, mappedWithName[i]);
      assert mappedWithName[..i + 1][..i] == mappedWithName[..i];
      if retrieved.Err? {
        EachStopsAtError(o, data, mappedWithName, i + 1);
        return Err(retrieved.error);
      }
      parsedNodes := parsedNodes + [retrieved.value];
    }
    assert mappedWithName[..|mappedWithName|] == mappedWithName;
    return Ok(parsedNodes);
  }

  /** An error in a prefix is the error of the whole run. */
  lemma {:induction false} EachStopsAtError(o: Collaborators, data: NormalizerData, ts: seq<Token>, k: nat)
    requires k <= |ts| && NormalizeEach(o, data, ts[..k]).Err?
    ensures NormalizeEach(o, data, ts) == NormalizeEach(o, data, ts[..k])
    decreases |ts| - k
  {
    if k < |ts| {
      var p := ts[..|ts| - 1];
      assert p[..k] == ts[..k];
      EachStopsAtError(o, data, p, k);
    } else {
      assert ts[..k] == ts;
    }
  }

  /** The result of trying recogniser `c` and, on a miss, going on with `otherwise`. */
  function First(c: Outcome<Option<Node>>, otherwise: Outcome<seq<Node>>): Outcome<seq<Node>> {
    match c
    case Err(e) => Err(e)
    case Ok(Some(n)) => Ok([n])
    case Ok(None) => otherwise
  }

  /** normalizeMappedWithoutSemicolonBasedOnType: by arity, the recognisers are tried in
      their fixed order, the first match is the one result, an error stops the search,
      and when all miss (or the arity has none) every token is normalized on its own. */
  function NormalizeBasedOnType(o: Collaborators, data: NormalizerData, ts: seq<Token>): (r: Outcome<seq<Node>>)
    ensures |ts| == 1 ==> (r.Ok? <==> o.single(data, ts[0]).Ok?) &&
                          (r.Ok? ==> r.value == [o.single(data, ts[0]).value]) &&
                          (r.Err? ==> o.single(data, ts[0]) == Err(r.error))
    ensures |ts| == 2 ==> r == First(o.unary(data, ts), First(o.repeat(data, ts), NormalizeEach(o, data, ts)))
    ensures |ts| == 3 ==> r == First(o.binary(data, ts), First(o.forLoop(data, ts),
                                First(o.symbol(data, ts), NormalizeEach(o, data, ts))))
    ensures |ts| == 5 ==> r == First(o.ifThen(data, ts),
                                First(TryNormalizeWhile(o.single, data, ts[0], ts[1], ts[2], ts[3], ts[4]),
                                      NormalizeEach(o, data, ts)))
    ensures |ts| == 7 ==> r == First(o.ifThenElse(data, ts), NormalizeEach(o, data, ts))
    ensures |ts| !in {1, 2, 3, 5, 7} ==> r == NormalizeEach(o, data, ts)
  {
    var result :- TryConstructors(o, data, ts);
    if result.Some? then Ok([result.value]) else NormalizeEach(o, data, ts)
  }

  // ---------------------------------------------------------------------------
  // The assembler
  // ---------------------------------------------------------------------------

  /** `comments.map(c => normalizeComment(data, c.content))`. */
  function NormalizeComments(o: Collaborators, data: NormalizerData, cs: seq<Token>): (r: Outcome<seq<CommentNode>>)
    ensures r.Ok? <==> forall i :: 0 <= i < |cs| ==> o.comment(data, cs[i]).Ok?
    ensures r.Ok? ==> |r.value| == |cs| && forall i :: 0 <= i < |cs| ==> o.comment(data, cs[i]) == Ok(r.value[i])
    ensures r.Err? ==> exists i :: 0 <= i < |cs| && o.comment(data, cs[i]) == Err(r.error) &&
                                  forall j :: 0 <= j < i ==> o.comment(data, cs[j]).Ok?
    decreases |cs|
  {
    if cs == [] then Ok([])
    else
      var init :- NormalizeComments(o, data, cs[..|cs| - 1]);
      var last :- o.comment(data, cs[|cs| - 1]);
      Ok(init + [last])
  }

  predicate HasDelimiter(ns: seq<Node>) {
    exists i :: 0 <= i < |ns| && ns[i].Delimiter?
  }

  /** processBraces: both grouping tokens must normalize as symbols; the list binds
      them, holds the segment results as children and the comments as metadata. */
  function ProcessBraces(o: Collaborators, data: NormalizerData, braces: (Token, Token),
                         processed: seq<Node>, comments: seq<CommentNode>): (r: Outcome<Node>)
    ensures r.Ok? <==> && o.symbol(data, [braces.0]).Ok? && o.symbol(data, [braces.0]).value.Some?
                       && o.symbol(data, [braces.1]).Ok? && o.symbol(data, [braces.1]).value.Some?
    ensures o.symbol(data, [braces.0]).Err? ==> r == Err(o.symbol(data, [braces.0]).error)
    ensures o.symbol(data, [braces.0]).Ok? && o.symbol(data, [braces.1]).Err? ==>
              r == Err(o.symbol(data, [braces.1]).error)
    ensures o.symbol(data, [braces.0]).Ok? && o.symbol(data, [braces.1]).Ok? &&
            (o.symbol(data, [braces.0]).value.None? || o.symbol(data, [braces.1]).value.None?) ==>
              r == Err(Guard(GroupingNotSymbols(braces.0, braces.1)))
    ensures r.Ok? ==> && r.value.ExpressionList?
                      && r.value.children == processed
                      && r.value.grouping == Some((o.symbol(data, [braces.0]).value.value,
                                                   o.symbol(data, [braces.1]).value.value))
                      && r.value.listLexeme == None && r.value.listLocation == None
                      && r.value.info == Info(Some(comments), None, None)
  {
    var newStart :- o.symbol(data, [braces.0]);
    var newEnd :- o.symbol(data, [braces.1]);
    if newStart.None? || newEnd.None? then
      Err(Guard(GroupingNotSymbols(braces.0, braces.1)))
    else
      Ok(ExpressionList(processed, Some((newStart.value, newEnd.value)), None, None, Info(Some(comments), None, None)))
  }

  /** `n.info.additionalTokens ??= []; n.info.additionalTokens.push(...comments)`:
      only the node's `additionalTokens` change, which now end with the comments. */
  function AttachComments(n: Node, comments: seq<Node>): (r: Node)
    ensures r.(info := n.info) == n
    ensures r.info.(additionalTokens := n.info.additionalTokens) == n.info
    ensures r.info.additionalTokens == Some(n.info.additionalTokens.GetOr([]) + comments)
  {
    n.(info := n.info.(additionalTokens := Some(n.info.additionalTokens.GetOr([]) + comments)))
  }

  /** Hoisting the comments onto the first result; the other results stay as they are. */
  function Hoist(processed: seq<Node>, comments: seq<Node>): (r: seq<Node>)
    requires |processed| > 0
    ensures |r| == |processed| && r[1..] == processed[1..]
    ensures r[0] == AttachComments(processed[0], comments)
  {
    [AttachComments(processed[0], comments)] + processed[1..]
  }

  /** What the assembler does with the segment results: no delimiter may leak; a pair
      wraps everything in one grouped list carrying the comments; otherwise the comments
      go onto the first result, or are the result when there is nothing else. */
  function Assemble(o: Collaborators, data: NormalizerData, braces: Option<(Token, Token)>,
                    processed: seq<Node>, comments: seq<CommentNode>): (r: Outcome<seq<Node>>)
    ensures HasDelimiter(processed) ==> r == Err(Guard(DelimiterInList(processed)))
    ensures r.Ok? ==> !HasDelimiter(r.value)
    ensures !HasDelimiter(processed) && braces.Some? ==>
              && (r.Ok? <==> ProcessBraces(o, data, braces.value, processed, comments).Ok?)
              && (r.Err? ==> r.error == ProcessBraces(o, data, braces.value, processed, comments).error)
    ensures r.Ok? && braces.Some? ==>
              && |r.value| == 1
              && r.value[0].ExpressionList?
              && r.value[0].children == processed
              && r.value[0].grouping == Some((o.symbol(data, [braces.value.0]).value.value,
                                              o.symbol(data, [braces.value.1]).value.value))
              && r.value[0].info.additionalTokens == Some(comments)
    ensures !HasDelimiter(processed) && braces.None? && |processed| > 0 ==> r == Ok(Hoist(processed, comments))
    ensures !HasDelimiter(processed) && braces.None? && processed == [] ==> r == Ok(comments)
  {
    if HasDelimiter(processed) then
      Err(Guard(DelimiterInList(processed)))
    else if braces.Some? then
      var list :- ProcessBraces(o, data, braces.value, processed, comments);
      Ok([list])
    else if |processed| > 0 then
      var r := Hoist(processed, comments);
      assert forall i :: 1 <= i < |r| ==> r[i] == processed[i];
      Ok(r)
    else
      Ok(comments)
  }

  /** `segments[0]`, where an absent first segment behaves as the empty run. */
  function FirstSegment(segments: seq<seq<Token>>): seq<Token> {
    if segments == [] then [] else segments[0]
  }

  /** normalizeExpressions. */
  function Normalize(o: Collaborators, data: NormalizerData, tokens: seq<Token>): (r: Outcome<seq<Node>>)
    ensures tokens == [] ==> r == Ok([])
    ensures |tokens| == 1 ==> r == NormalizeBasedOnType(o, data, tokens)
    ensures |tokens| > 1 && HandleExpressionList(tokens).Err? ==> r == Err(HandleExpressionList(tokens).error)
    decreases |tokens|, 1, 0
  {
    if |tokens| == 0 then
      Ok([])
    else if |tokens| == 1 then
      NormalizeBasedOnType(o, data, tokens)
    else
      var h :- HandleExpressionList(tokens);
      var parsedComments :- NormalizeComments(o, data, h.comments);
      if |h.segments| > 1 || h.braces.Some? then
        HandleSegments(tokens);
        var processed :- NormalizeSegments(o, data, h.segments, |tokens|);
        Assemble(o, data, h.braces, processed, parsedComments)
      else
        var rest :- NormalizeBasedOnType(o, data, FirstSegment(h.segments));
        Ok(parsedComments + rest)
  }

  /** `segments.flatMap(s => normalizeExpressions(data, s))`, failing at the first
      segment that fails. */
  function NormalizeSegments(o: Collaborators, data: NormalizerData, segments: seq<seq<Token>>, bound: nat)
    : (r: Outcome<seq<Node>>)
    requires forall s :: s in segments ==> |s| < bound
    ensures segments == [] ==> r == Ok([])
    decreases bound, 0, |segments|
  {
    if segments == [] then
      Ok([])
    else
      var init :- NormalizeSegments(o, data, segments[..|segments| - 1], bound);
      var last :- Normalize(o, data, segments[|segments| - 1]);
      Ok(init + last)
  }

  /** An error in a prefix of the segments is the error of all of them. */
  lemma {:induction false} SegmentsStopAtError(o: Collaborators, data: NormalizerData,
                                               segments: seq<seq<Token>>, bound: nat, k: nat)
    requires forall s :: s in segments ==> |s| < bound
    requires k <= |segments| && NormalizeSegments(o, data, segments[..k], bound).Err?
    ensures NormalizeSegments(o, data, segments, bound) == NormalizeSegments(o, data, segments[..k], bound)
    decreases |segments| - k
  {
    if k < |segments| {
      var p := segments[..|segments| - 1];
      assert p[..k] == segments[..k];
      SegmentsStopAtError(o, data, p, bound, k);
    } else {
      assert segments[..k] == segments;
    }
  }

  /** Concatenating the results of a sequence of outcomes, stopping at the first error. */
  function Collect(outs: seq<Outcome<seq<Node>>>): Outcome<seq<Node>>
    decreases |outs|
  {
    if outs == [] then Ok([])
    else
      var init :- Collect(outs[..|outs| - 1]);
      var last :- outs[|outs| - 1];
      Ok(init + last)
  }

  /** The results of every outcome, `[]` standing in for an error. */
  function Values(outs: seq<Outcome<seq<Node>>>): seq<seq<Node>>
    ensures |Values(outs)| == |outs|
  {
    seq(|outs|, i requires 0 <= i < |outs| => if outs[i].Ok? then outs[i].value else [])
  }

  /** Collecting succeeds exactly when every outcome does, and otherwise fails with the
      first error. */
  lemma {:induction false} CollectSucceeds(outs: seq<Outcome<seq<Node>>>)
    ensures Collect(outs).Ok? <==> forall i :: 0 <= i < |outs| ==> outs[i].Ok?
    ensures Collect(outs).Err? ==> exists i :: && 0 <= i < |outs| && outs[i] == Err(Collect(outs).error)
                                               && forall j :: 0 <= j < i ==> outs[j].Ok?
    decreases |outs|
  {
    if outs != [] {
      var n := |outs|;
      var init := outs[..n - 1];
      CollectSucceeds(init);
      assert forall i :: 0 <= i < n - 1 ==> init[i] == outs[i];
    }
  }

  /** A successful collection is the outcomes' results concatenated in order. */
  lemma {:induction false} CollectValues(outs: seq<Outcome<seq<Node>>>)
    ensures Collect(outs).Ok? ==> Collect(outs).value == Flatten(Values(outs))
    decreases |outs|
  {
    if outs != [] && Collect(outs).Ok? {
      var n := |outs|;
      var init := outs[..n - 1];
      CollectValues(init);
      assert Values(outs) == Values(init) + [outs[n - 1].value];
      FlattenAppend(Values(init), outs[n - 1].value);
    }
  }

  /** The outcome of normalizing each segment on its own. */
  function Outcomes(o: Collaborators, data: NormalizerData, segments: seq<seq<Token>>): (r: seq<Outcome<seq<Node>>>)
    ensures |r| == |segments|
  {
    seq(|segments|, i requires 0 <= i < |segments| => Normalize(o, data, segments[i]))
  }

  /** One more segment: the `flatMap` of the others, then that segment's results. */
  lemma SegmentsStep(o: Collaborators, data: NormalizerData, segments: seq<seq<Token>>, bound: nat)
    requires segments != [] && forall s :: s in segments ==> |s| < bound
    ensures var n := |segments|;
            var init := segments[..n - 1];
            (forall s :: s in init ==> |s| < bound) &&
            var ri, rl := NormalizeSegments(o, data, init, bound), Normalize(o, data, segments[n - 1]);
            NormalizeSegments(o, data, segments, bound)
              == if ri.Err? then Err(ri.error) else if rl.Err? then Err(rl.error) else Ok(ri.value + rl.value)
  {
    var init := segments[..|segments| - 1];
    assert forall s :: s in init ==> s in segments;
  }

  /** The `flatMap` is the collection of the segments' own outcomes, in order. */
  lemma {:induction false} SegmentsCollect(o: Collaborators, data: NormalizerData, segments: seq<seq<Token>>, bound: nat)
    requires forall s :: s in segments ==> |s| < bound
    ensures NormalizeSegments(o, data, segments, bound) == Collect(Outcomes(o, data, segments))
    decreases |segments|
  {
    if segments != [] {
      var n := |segments|;
      var init := segments[..n - 1];
      SegmentsStep(o, data, segments, bound);
      SegmentsCollect(o, data, init, bound);
      var outs := Outcomes(o, data, segments);
      assert outs[..n - 1] == Outcomes(o, data, init);
      assert outs[n - 1] == Normalize(o, data, segments[n - 1]);
    }
  }

  /** `segments.flatMap(..)` element by element: it succeeds exactly when every segment
      does, then yields each segment's results in segment order; otherwise it fails with
      the error of the first segment that fails. */
  lemma SegmentsEach(o: Collaborators, data: NormalizerData, segments: seq<seq<Token>>, bound: nat)
    requires forall s :: s in segments ==> |s| < bound
    ensures var r, outs := NormalizeSegments(o, data, segments, bound), Outcomes(o, data, segments);
            && (forall i :: 0 <= i < |segments| ==> outs[i] == Normalize(o, data, segments[i]))
            && (r.Ok? <==> forall i :: 0 <= i < |segments| ==> outs[i].Ok?)
            && (r.Ok? ==> r.value == Flatten(Values(outs)))
            && (r.Err? ==> exists i :: && 0 <= i < |segments| && outs[i] == Err(r.error)
                                       && forall j :: 0 <= j < i ==> outs[j].Ok?)
  {
    SegmentsCollect(o, data, segments, bound);
    CollectSucceeds(Outcomes(o, data, segments));
    CollectValues(Outcomes(o, data, segments));
  }

  /** A run of more than one token that the classifier accepts: its comments are
      normalized first and their failure is the result; then a split or grouped run
      is the assembly of its segments' `flatMap` (whose segments are strictly shorter),
      and a run of one segment is the comments followed by the dispatch of that segment. */
  lemma NormalizePaths(o: Collaborators, data: NormalizerData, tokens: seq<Token>)
    requires |tokens| > 1 && HandleExpressionList(tokens).Ok?
    ensures var h := HandleExpressionList(tokens).value;
            NormalizeComments(o, data, h.comments).Err? ==>
              Normalize(o, data, tokens) == Err(NormalizeComments(o, data, h.comments).error)
    ensures var h := HandleExpressionList(tokens).value;
            |h.segments| > 1 || h.braces.Some? ==> forall s :: s in h.segments ==> |s| < |tokens|
    ensures var h := HandleExpressionList(tokens).value;
            var cs := NormalizeComments(o, data, h.comments);
            cs.Ok? && (|h.segments| > 1 || h.braces.Some?) ==>
              var ps := NormalizeSegments(o, data, h.segments, |tokens|);
              && (ps.Err? ==> Normalize(o, data, tokens) == Err(ps.error))
              && (ps.Ok? ==> Normalize(o, data, tokens) == Assemble(o, data, h.braces, ps.value, cs.value))
    ensures var h := HandleExpressionList(tokens).value;
            var cs := NormalizeComments(o, data, h.comments);
            cs.Ok? && |h.segments| <= 1 && h.braces.None? ==>
              var rest := NormalizeBasedOnType(o, data, FirstSegment(h.segments));
              && (rest.Err? ==> Normalize(o, data, tokens) == Err(rest.error))
              && (rest.Ok? ==> Normalize(o, data, tokens) == Ok(cs.value + rest.value))
  {
    HandleSegments(tokens);
  }

  /** normalizeExpressions as the source runs it: the working run is reassigned to the
      only segment, and the first result's metadata is updated in place. */
  method NormalizeExpressions(o: Collaborators, data: NormalizerData, tokens: seq<Token>)
    returns (r: Outcome<seq<Node>>)
    ensures r == Normalize(o, data, tokens)
    decreases |tokens|, 1
  {
    if |tokens| == 0 {
      return Ok([]);
    }
    var mappedWithName := tokens;
    var parsedComments: seq<CommentNode> := [];
    if |mappedWithName| > 1 {
      var handled := HandleExpressionList(mappedWithName);
      if handled.Err? {
        return Err(handled.error);
      }
      var segments, braces := handled.value.segments, handled.value.braces;
      var normalized := NormalizeComments(o, data, handled.value.comments);
      if normalized.Err? {
        return Err(normalized.error);
      }
      parsedComments := normalized.value;
      if |segments| > 1 || braces.Some? {
        HandleSegments(tokens);
        var flat := FlatMapSegments(o, data, segments, |tokens|);
        if flat.Err? {
          return Err(flat.error);
        }
        var processed := flat.value;
        assert Normalize(o, data, tokens) == Assemble(o, data, braces, processed, parsedComments);
        if exists i :: 0 <= i < |processed| && processed[i].Delimiter? {
          return Err(Guard(DelimiterInList(processed)));
        }
        if braces.Some? {
          var list := ProcessBraces(o, data, braces.value, processed, parsedComments);
          if list.Err? {
            return Err(list.error);
          }
          return Ok([list.value]);
        } else if |processed| > 0 {
          ghost var before := processed;
          processed := processed[0 := AttachComments(processed[0], parsedComments)];
          assert processed == Hoist(before, parsedComments);
          return Ok(processed);
        } else {
          return Ok(parsedComments);
        }
      }
      mappedWithName := FirstSegment(segments);
    }
    var rest := NormalizeBasedOnType(o, data, mappedWithName);
    if rest.Err? {
      return Err(rest.error);
    }
    assert |tokens| == 1 ==> parsedComments + rest.value == rest.value;
    return Ok(parsedComments + rest.value);
  }

  /** The `flatMap` over the segments, re-entering normalizeExpressions on each. */
  method FlatMapSegments(o: Collaborators, data: NormalizerData, segments: seq<seq<Token>>, bound: nat)
    returns (r: Outcome<seq<Node>>)
    requires forall s :: s in segments ==> |s| < bound
    ensures r == NormalizeSegments(o, data, segments, bound)
    decreases bound, 0
  {
    var processed: seq<Node> := [];
    for j := 0 to |segments|
      invariant NormalizeSegments(o, data, segments[..j], bound) == Ok(processed)
    {
      assert segments[..j + 1][..j] == segments[..j];
      assert segments[j] in segments;
      var sub := NormalizeExpressions(o, data, segments[j]);
      if sub.Err? {
        SegmentsStopAtError(o, data, segments, bound, j + 1);
        return Err(sub.error);
      }
      processed := processed + sub.value;
    }
    assert segments[..|segments|] == segments;
    return Ok(processed);
  }

  // ---------------------------------------------------------------------------
  // Comment accounting
  // ---------------------------------------------------------------------------

  /** The comment nodes reachable from `ns`: nodes that are comments, the comments
      attached to each node, and those inside expression lists. */
  function CommentCount(ns: seq<Node>): nat
    decreases ns
  {
    if ns == [] then 0
    else
      var n := ns[0];
      (if n.Comment? then 1 else 0)
      + |n.info.additionalTokens.GetOr([])|
      + (if n.ExpressionList? then CommentCount(n.children) else 0)
      + CommentCount(ns[1..])
  }

  lemma {:induction false} CommentCountAppend(a: seq<Node>, b: seq<Node>)
    ensures CommentCount(a + b) == CommentCount(a) + CommentCount(b)
    decreases |a|
  {
    if a == [] {
      assert a + b == b;
    } else {
      assert (a + b)[0] == a[0] && (a + b)[1..] == a[1..] + b;
      CommentCountAppend(a[1..], b);
    }
  }

  /** Normalized comments count once each. */
  lemma {:induction false} CommentNodesCount(cs: seq<CommentNode>)
    ensures CommentCount(cs) == |cs|
    decreases |cs|
  {
    if cs != [] {
      CommentNodesCount(cs[1..]);
    }
  }

  /** Hoisting, wrapping or returning the comments neither drops nor duplicates one:
      the comments reachable from the result are those of the segment results plus
      the hoisted ones. */
  lemma AssembleCountsComments(o: Collaborators, data: NormalizerData, braces: Option<(Token, Token)>,
                               processed: seq<Node>, comments: seq<CommentNode>)
    requires Assemble(o, data, braces, processed, comments).Ok?
    ensures CommentCount(Assemble(o, data, braces, processed, comments).value)
              == CommentCount(processed) + |comments|
  {
    var r := Assemble(o, data, braces, processed, comments).value;
    if braces.Some? {
      var list := r[0];
      assert r == [list] && list.info.additionalTokens == Some(comments);
      assert CommentCount(r) == |comments| + CommentCount(processed) + CommentCount([]);
    } else if |processed| > 0 {
      var first := processed[0];
      assert processed == [first] + processed[1..];
      CommentCountAppend([first], processed[1..]);
      CommentCountAppend([r[0]], r[1..]);
      assert r == [r[0]] + r[1..];
    } else {
      CommentNodesCount(comments);
    }
  }

  /** A recogniser that never attaches comments to what it builds. */
  ghost predicate Silent(c: Constructor) {
    forall d, ts :: c(d, ts).Ok? && c(d, ts).value.Some? ==> CommentCount([c(d, ts).value.value]) == 0
  }

  /** Collaborators that leave comments alone: single-token normalization turns a
      comment token into one comment and any other token into a node without one, and
      the recognisers never attach comments themselves. */
  ghost predicate AttachesNoComments(o: Collaborators) {
    && (forall d, t :: o.single(d, t).Ok? ==> CommentCount([o.single(d, t).value]) == if IsComment(t) then 1 else 0)
    && Silent(o.unary) && Silent(o.repeat) && Silent(o.binary) && Silent(o.forLoop)
    && Silent(o.symbol) && Silent(o.ifThen) && Silent(o.ifThenElse)
  }

  lemma {:induction false} EachSilent(o: Collaborators, data: NormalizerData, ts: seq<Token>)
    requires AttachesNoComments(o) && NoComment(ts)
    requires NormalizeEach(o, data, ts).Ok?
    ensures CommentCount(NormalizeEach(o, data, ts).value) == 0
    decreases |ts|
  {
    if ts != [] {
      var p := ts[..|ts| - 1];
      assert forall t :: t in p ==> t in ts;
      assert ts[|ts| - 1] in ts;
      EachSilent(o, data, p);
      var last := o.single(data, ts[|ts| - 1]).value;
      CommentCountAppend(NormalizeEach(o, data, p).value, [last]);
    }
  }

  /** The dispatcher adds no comments to a comment-free run when its collaborators
      attach none. */
  lemma DispatchSilent(o: Collaborators, data: NormalizerData, ts: seq<Token>)
    requires AttachesNoComments(o) && NoComment(ts)
    requires NormalizeBasedOnType(o, data, ts).Ok?
    ensures CommentCount(NormalizeBasedOnType(o, data, ts).value) == 0
  {
    var attempt := TryConstructors(o, data, ts);
    if attempt.value.None? {
      EachSilent(o, data, ts);
    } else if |ts| == 5 && o.ifThen(data, ts) == Ok(None) {
      var loop := attempt.value.value;
      assert loop.WhileLoop? && loop.info.additionalTokens == Some([]);
      assert CommentCount([loop]) == 0 + CommentCount([]);
    }
  }

  /** No comment is dropped or duplicated: with collaborators that attach none
      themselves, the comment nodes reachable from the result are exactly the input's
      comment tokens. */
  lemma {:induction false} NormalizeCountsComments(o: Collaborators, data: NormalizerData, tokens: seq<Token>)
    requires AttachesNoComments(o)
    requires Normalize(o, data, tokens).Ok?
    ensures CommentCount(Normalize(o, data, tokens).value) == |Comments(tokens)|
    decreases |tokens|, 1, 0
  {
    if |tokens| == 1 {
      var t := tokens[0];
      assert tokens[..0] == [];
      if IsComment(t) {
        assert Normalize(o, data, tokens).value == [o.single(data, t).value];
      } else {
        assert NoComment(tokens) by { assert forall u :: u in tokens ==> u == t; }
        DispatchSilent(o, data, tokens);
      }
    } else if |tokens| > 1 {
      var h := HandleExpressionList(tokens).value;
      HandleSegments(tokens);
      var parsed := NormalizeComments(o, data, h.comments).value;
      CommentNodesCount(parsed);
      if |h.segments| > 1 || h.braces.Some? {
        SegmentsSilent(o, data, h.segments, |tokens|);
        AssembleCountsComments(o, data, h.braces, NormalizeSegments(o, data, h.segments, |tokens|).value, parsed);
      } else {
        var rest := NormalizeBasedOnType(o, data, FirstSegment(h.segments)).value;
        assert NoComment(FirstSegment(h.segments)) by {
          if h.segments != [] { assert h.segments[0] in h.segments; }
        }
        DispatchSilent(o, data, FirstSegment(h.segments));
        CommentCountAppend(parsed, rest);
      }
    }
  }

  /** Comment-free segments yield no comments of their own. */
  lemma {:induction false} SegmentsSilent(o: Collaborators, data: NormalizerData, segments: seq<seq<Token>>, bound: nat)
    requires AttachesNoComments(o)
    requires forall s :: s in segments ==> |s| < bound && NoComment(s)
    requires NormalizeSegments(o, data, segments, bound).Ok?
    ensures CommentCount(NormalizeSegments(o, data, segments, bound).value) == 0
    decreases bound, 0, |segments|
  {
    if segments != [] {
      var init, last := segments[..|segments| - 1], segments[|segments| - 1];
      assert forall s :: s in init ==> s in segments;
      assert last in segments;
      SegmentsSilent(o, data, init, bound);
      NormalizeCountsComments(o, data, last);
      CommentFreeHasNoComments(last);
      CommentCountAppend(NormalizeSegments(o, data, init, bound).value, Normalize(o, data, last).value);
    }
  }
}
