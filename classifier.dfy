/** Token classification of normalize-expressions.ts: a token run is partitioned into
    comments, statement segments and an optional enclosing brace or paren pair. */
module Classifier {
  import opened Wrappers
  import opened RawTokens
  import opened Ast

  // ---------------------------------------------------------------------------
  // splitComments
  // ---------------------------------------------------------------------------

  /** The comment tokens of `ts`, in their original order. */
  function Comments(ts: seq<Token>): seq<Token>
    decreases |ts|
  {
    if ts == [] then []
    else Comments(ts[..|ts| - 1]) + (if IsComment(ts[|ts| - 1]) then [ts[|ts| - 1]] else [])
  }

  /** The remaining tokens of `ts`, in their original order. */
  function Others(ts: seq<Token>): seq<Token>
    decreases |ts|
  {
    if ts == [] then []
    else Others(ts[..|ts| - 1]) + (if IsComment(ts[|ts| - 1]) then [] else [ts[|ts| - 1]])
  }

  predicate NoComment(s: seq<Token>) {
    forall t :: t in s ==> !IsComment(t)
  }

  /** The loop of splitComments: each token goes to exactly one of the two lists. */
  method SplitComments(tokens: seq<Token>) returns (comments: seq<Token>, others: seq<Token>)
    ensures comments == Comments(tokens) && others == Others(tokens)
  {
    comments, others := [], [];
    for i := 0 to |tokens|
      invariant comments == Comments(tokens[..i]) && others == Others(tokens[..i])
    {
      var elem := tokens[i];
      assert tokens[..i + 1][..i] == tokens[..i];
      if elem.name == Kind.Comment {
        comments := comments + [elem];
      } else {
        others := others + [elem];
      }
    }
    assert tokens[..|tokens|] == tokens;
  }

  /** Both lists keep relative order: splitting a concatenation splits each half. */
  lemma {:induction false} CommentsSplitAt(a: seq<Token>, b: seq<Token>)
    ensures Comments(a + b) == Comments(a) + Comments(b)
    ensures Others(a + b) == Others(a) + Others(b)
    decreases |b|
  {
    if b == [] {
      assert a + b == a;
    } else {
      var b' := b[..|b| - 1];
      assert (a + b)[..|a + b| - 1] == a + b';
      CommentsSplitAt(a, b');
    }
  }

  /** Each token lands in the list that matches its kind. */
  lemma {:induction false} SplitKinds(ts: seq<Token>)
    ensures forall t :: t in Comments(ts) ==> IsComment(t)
    ensures NoComment(Others(ts))
    decreases |ts|
  {
    if ts != [] {
      var p, last := ts[..|ts| - 1], ts[|ts| - 1];
      SplitKinds(p);
      if IsComment(last) {
        assert Comments(ts) == Comments(p) + [last] && Others(ts) == Others(p);
        assert forall t :: t in Comments(ts) ==> t in Comments(p) || t == last;
      } else {
        assert Comments(ts) == Comments(p) && Others(ts) == Others(p) + [last];
        assert forall t :: t in Others(ts) ==> t in Others(p) || t == last;
      }
    }
  }

  /** Each token lands in exactly one list. */
  lemma {:induction false} SplitCounts(ts: seq<Token>)
    ensures |Comments(ts)| + |Others(ts)| == |ts|
    ensures multiset(Comments(ts)) + multiset(Others(ts)) == multiset(ts)
    decreases |ts|
  {
    if ts != [] {
      var p, last := ts[..|ts| - 1], ts[|ts| - 1];
      SplitCounts(p);
      assert ts == p + [last];
      assert multiset(ts) == multiset(p) + multiset{last};
    }
  }

  /** splitComments is a partition: comments are exactly the Comment-kind tokens,
      others exactly the rest, and together they are the input. */
  lemma SplitCommentsPartition(ts: seq<Token>)
    ensures forall t :: t in Comments(ts) ==> IsComment(t)
    ensures NoComment(Others(ts))
    ensures |Comments(ts)| + |Others(ts)| == |ts|
    ensures multiset(Comments(ts)) + multiset(Others(ts)) == multiset(ts)
  {
    SplitKinds(ts);
    SplitCounts(ts);
  }

  /** A run without comment tokens has no comments to split off. */
  lemma {:induction false} CommentFreeHasNoComments(ts: seq<Token>)
    requires NoComment(ts)
    ensures Comments(ts) == [] && Others(ts) == ts
    decreases |ts|
  {
    if ts != [] {
      var p, last := ts[..|ts| - 1], ts[|ts| - 1];
      assert !IsComment(last) by { assert last in ts; }
      assert NoComment(p) by {
        forall t | t in p
          ensures !IsComment(t)
        {
          assert t in ts;
        }
      }
      CommentFreeHasNoComments(p);
      assert Others(ts) == p + [last];
      assert ts == p + [last];
    }
  }

  // ---------------------------------------------------------------------------
  // splitExprs
  // ---------------------------------------------------------------------------

  /** The state of splitExprs' loop: the segments pushed so far, the tokens since the
      last cut (`tokens.slice(last, i)`), and whether the previous token was of a
      boundary kind (`lastExpr`). */
  datatype SplitState = SplitState(closed: seq<seq<Token>>, open: seq<Token>, lastExpr: bool)

  /** The segments once the loop ends: the tokens after the last cut form a final
      segment only when there are any. */
  function Flush(st: SplitState): seq<seq<Token>> {
    st.closed + (if st.open == [] then [] else [st.open])
  }

  /** One iteration of splitExprs' loop. */
  function Step(st: SplitState, t: Token): SplitState {
    if t.name == Semicolon then
      SplitState(st.closed + [st.open], [], false)
    else if IsBoundary(t.name) && st.lastExpr then
      SplitState(Flush(st) + [[t]], [], true)
    else
      SplitState(st.closed, st.open + [t], IsBoundary(t.name))
  }

  /** The loop state after the first |ts| iterations. */
  function Run(ts: seq<Token>): SplitState
    decreases |ts|
  {
    if ts == [] then SplitState([], [], false)
    else Step(Run(ts[..|ts| - 1]), ts[|ts| - 1])
  }

  /** One more token is one more step of the loop. */
  lemma RunExtends(ts: seq<Token>, i: nat)
    requires i < |ts|
    ensures Run(ts[..i + 1]) == Step(Run(ts[..i]), ts[i])
  {
    assert ts[..i + 1][..i] == ts[..i];
  }

  /** One step of the loop in terms of the cut position `last` and the cursor `i`. */
  lemma StepOnSlices(ts: seq<Token>, closed: seq<seq<Token>>, last: nat, i: nat, lastExpr: bool)
    requires last <= i < |ts|
    ensures var t := ts[i];
            Step(SplitState(closed, ts[last..i], lastExpr), t)
              == if t.name == Semicolon then SplitState(closed + [ts[last..i]], ts[i + 1..i + 1], false)
                 else if IsBoundary(t.name) && lastExpr then
                   SplitState((if i > last then closed + [ts[last..i]] else closed) + [[t]], ts[i + 1..i + 1], true)
                 else SplitState(closed, ts[last..i + 1], IsBoundary(t.name))
  {
    assert ts[last..i + 1] == ts[last..i] + [ts[i]];
    assert ts[i + 1..i + 1] == [];
    if i == last {
      assert ts[last..i] == [];
    }
  }

  /** What splitExprs returns for `ts`. */
  function Segments(ts: seq<Token>): seq<seq<Token>> {
    Flush(Run(ts))
  }

  /** The loop of splitExprs, with the cut position `last`, the cursor `i` and the flag. */
  method SplitExprs(tokens: seq<Token>) returns (segments: seq<seq<Token>>)
    ensures segments == Segments(tokens)
  {
    var last, i := 0, 0;
    var lastExpr := false;
    segments := [];
    while i < |tokens|
      invariant 0 <= last <= i <= |tokens|
      invariant Run(tokens[..i]) == SplitState(segments, tokens[last..i], lastExpr)
    {
      var token := tokens[i];
      RunExtends(tokens, i);
      StepOnSlices(tokens, segments, last, i, lastExpr);
      if token.name == Semicolon {
        segments := segments + [tokens[last..i]];
        lastExpr := false;
        last := i + 1;
      } else {
        var thisExpr := IsBoundary(token.name);
        if thisExpr && lastExpr {
          if i > last {
            segments := segments + [tokens[last..i]];
          }
          segments := segments + [[tokens[i]]];
          last := i + 1;
        }
        lastExpr := thisExpr;
      }
      i := i + 1;
    }
    assert tokens[..i] == tokens;
    if last < |tokens| {
      segments := segments + [tokens[last..|tokens|]];
    }
  }

  /** All segments glued back together. */
  function Flatten<T>(segs: seq<seq<T>>): seq<T>
    decreases |segs|
  {
    if segs == [] then [] else Flatten(segs[..|segs| - 1]) + segs[|segs| - 1]
  }

  /** `ts` with every Semicolon token removed, in order. */
  function WithoutSemicolons(ts: seq<Token>): seq<Token>
    decreases |ts|
  {
    if ts == [] then []
    else WithoutSemicolons(ts[..|ts| - 1]) + (if ts[|ts| - 1].name == Semicolon then [] else [ts[|ts| - 1]])
  }

  predicate NoSemicolon(s: seq<Token>) {
    forall t :: t in s ==> t.name != Semicolon
  }

  predicate HasSemicolon(ts: seq<Token>) {
    exists i :: 0 <= i < |ts| && ts[i].name == Semicolon
  }

  function CountSemicolons(ts: seq<Token>): nat
    decreases |ts|
  {
    if ts == [] then 0
    else CountSemicolons(ts[..|ts| - 1]) + (if ts[|ts| - 1].name == Semicolon then 1 else 0)
  }

  lemma FlattenAppend<T>(segs: seq<seq<T>>, s: seq<T>)
    ensures Flatten(segs + [s]) == Flatten(segs) + s
  {
    assert (segs + [s])[..|segs|] == segs;
  }

  /** Every token in a segment is one of the input's tokens. */
  predicate Within(s: seq<Token>, ts: seq<Token>) {
    forall t :: t in s ==> t in ts
  }

  /** What the loop keeps true: no cut-off segment nor the open run holds a Semicolon,
      and every token in them is one of the input's tokens. */
  lemma {:induction false} RunClean(ts: seq<Token>)
    ensures forall s :: s in Run(ts).closed ==> NoSemicolon(s) && Within(s, ts)
    ensures NoSemicolon(Run(ts).open) && Within(Run(ts).open, ts)
    decreases |ts|
  {
    if ts != [] {
      var p, t := ts[..|ts| - 1], ts[|ts| - 1];
      RunClean(p);
      assert forall x :: x in p ==> x in ts;
      assert t in ts;
    }
  }

  /** The cut-off segments followed by the open run are the input without its Semicolons. */
  lemma {:induction false} RunCovers(ts: seq<Token>)
    ensures Flatten(Run(ts).closed) + Run(ts).open == WithoutSemicolons(ts)
    decreases |ts|
  {
    if ts != [] {
      var p, t := ts[..|ts| - 1], ts[|ts| - 1];
      RunCovers(p);
      var st := Run(p);
      if t.name == Semicolon {
        FlattenAppend(st.closed, st.open);
      } else if IsBoundary(t.name) && st.lastExpr {
        if st.open != [] {
          FlattenAppend(st.closed, st.open);
        } else {
          assert Flush(st) == st.closed;
        }
        FlattenAppend(Flush(st), [t]);
        assert Run(ts) == SplitState(Flush(st) + [[t]], [], true);
        assert WithoutSemicolons(ts) == WithoutSemicolons(p) + [t];
      }
    }
  }

  /** Only a Semicolon ever closes an empty segment, and each one closes a segment. */
  lemma {:induction false} RunCuts(ts: seq<Token>)
    ensures [] in Run(ts).closed ==> HasSemicolon(ts)
    ensures |Run(ts).closed| >= CountSemicolons(ts)
    decreases |ts|
  {
    if ts != [] {
      var p, t := ts[..|ts| - 1], ts[|ts| - 1];
      RunCuts(p);
      if HasSemicolon(p) {
        var i :| 0 <= i < |p| && p[i].name == Semicolon;
        assert ts[i] == p[i];
      }
      if t.name == Semicolon {
        assert ts[|ts| - 1].name == Semicolon;
      }
    }
  }

  /** splitExprs never puts a Semicolon into a segment, and concatenating its segments
      gives the input with every Semicolon removed, in order. */
  lemma SegmentsFree(ts: seq<Token>)
    ensures forall s :: s in Segments(ts) ==> NoSemicolon(s) && Within(s, ts)
    ensures Flatten(Segments(ts)) == WithoutSemicolons(ts)
  {
    RunClean(ts);
    RunCovers(ts);
    var st := Run(ts);
    if st.open != [] {
      FlattenAppend(st.closed, st.open);
    } else {
      assert Segments(ts) == st.closed;
    }
  }

  /** The trailing segment is emitted only when non-empty and an adjacency cut never
      emits an empty one: an empty segment always comes from a Semicolon. */
  lemma EmptySegmentNeedsSemicolon(ts: seq<Token>)
    ensures [] in Segments(ts) ==> HasSemicolon(ts)
    ensures ts != [] && ts[|ts| - 1].name != Semicolon ==>
              Segments(ts) != [] && Segments(ts)[|Segments(ts)| - 1] != []
  {
    RunCuts(ts);
  }

  /** Every Semicolon closes a segment of its own, even an empty one. */
  lemma SegmentCount(ts: seq<Token>)
    ensures |Segments(ts)| >= CountSemicolons(ts)
  {
    RunCuts(ts);
  }

  /** The segments of a prefix are never taken back. */
  lemma {:induction false} ClosedGrows(ts: seq<Token>, k: nat)
    requires k <= |ts|
    ensures Run(ts[..k]).closed <= Run(ts).closed
    decreases |ts| - k
  {
    if k < |ts| {
      var p := ts[..|ts| - 1];
      assert p[..k] == ts[..k];
      ClosedGrows(p, k);
    } else {
      assert ts[..k] == ts;
    }
  }

  /** The flag after a prefix that does not end in a Semicolon tells whether its last
      token is of a boundary kind. */
  lemma LastExprFlag(ts: seq<Token>)
    requires ts != [] && ts[|ts| - 1].name != Semicolon
    ensures Run(ts).lastExpr == IsBoundary(ts[|ts| - 1].name)
  {
  }

  /** The boundary-adjacency rule: a boundary-kind token right after another one
      closes whatever precedes it and is emitted as a one-token segment of its own. */
  lemma ExprAdjacency(ts: seq<Token>, i: nat)
    requires 1 <= i < |ts|
    requires IsBoundary(ts[i - 1].name) && IsBoundary(ts[i].name)
    ensures Segments(ts[..i]) + [[ts[i]]] <= Segments(ts)
  {
    var p := ts[..i];
    assert p[..|p| - 1] == ts[..i - 1] && p[|p| - 1] == ts[i - 1];
    LastExprFlag(p);
    assert ts[..i + 1][..i] == p;
    assert Run(ts[..i + 1]) == Step(Run(p), ts[i]);
    ClosedGrows(ts, i + 1);
  }

  /** No boundary-kind token directly follows another one. */
  predicate NoAdjacentBoundaries(ts: seq<Token>) {
    forall i :: 0 < i < |ts| ==> !(IsBoundary(ts[i - 1].name) && IsBoundary(ts[i].name))
  }

  lemma DropLastKeepsUncut(ts: seq<Token>)
    requires ts != [] && !HasSemicolon(ts) && NoAdjacentBoundaries(ts)
    ensures !HasSemicolon(ts[..|ts| - 1]) && NoAdjacentBoundaries(ts[..|ts| - 1])
    ensures ts[|ts| - 1].name != Semicolon
    ensures |ts| > 1 ==> !(IsBoundary(ts[|ts| - 2].name) && IsBoundary(ts[|ts| - 1].name))
  {
    var p := ts[..|ts| - 1];
    forall i | 0 <= i < |p|
      ensures p[i].name != Semicolon
    {
      assert p[i] == ts[i];
    }
    forall i | 0 < i < |p|
      ensures !(IsBoundary(p[i - 1].name) && IsBoundary(p[i].name))
    {
      assert p[i - 1] == ts[i - 1] && p[i] == ts[i];
    }
  }

  /** A token that is neither a semicolon nor a second boundary extends an uncut run. */
  lemma StepKeepsWhole(ts: seq<Token>)
    requires ts != []
    requires var p := ts[..|ts| - 1];
             Run(p) == SplitState([], p, p != [] && IsBoundary(p[|p| - 1].name))
    requires ts[|ts| - 1].name != Semicolon
    requires |ts| > 1 ==> !(IsBoundary(ts[|ts| - 2].name) && IsBoundary(ts[|ts| - 1].name))
    ensures Run(ts) == SplitState([], ts, IsBoundary(ts[|ts| - 1].name))
  {
    var p, t := ts[..|ts| - 1], ts[|ts| - 1];
    if p != [] {
      assert p[|p| - 1] == ts[|ts| - 2];
    }
    assert p + [t] == ts;
  }

  /** Conversely, only those two rules cut: a run with no semicolon and no two adjacent
      boundary-kind tokens comes back whole, as its one segment. */
  lemma {:induction false} RunStaysWhole(ts: seq<Token>)
    requires !HasSemicolon(ts) && NoAdjacentBoundaries(ts)
    ensures Run(ts) == SplitState([], ts, ts != [] && IsBoundary(ts[|ts| - 1].name))
    ensures Segments(ts) == if ts == [] then [] else [ts]
    decreases |ts|
  {
    if ts != [] {
      DropLastKeepsUncut(ts);
      RunStaysWhole(ts[..|ts| - 1]);
      StepKeepsWhole(ts);
    }
  }

  /** After a Semicolon the loop starts afresh: the state over `a + b` is the state over
      `b` behind the segments already closed by `a`. */
  lemma {:induction false} RunAfterReset(a: seq<Token>, b: seq<Token>)
    requires Run(a).open == [] && !Run(a).lastExpr
    ensures Run(a + b) == SplitState(Run(a).closed + Run(b).closed, Run(b).open, Run(b).lastExpr)
    decreases |b|
  {
    if b == [] {
      assert a + b == a;
    } else {
      var b', t := b[..|b| - 1], b[|b| - 1];
      assert (a + b)[..|a + b| - 1] == a + b';
      RunAfterReset(a, b');
      StepPrefix(Run(a).closed, Run(b'), t);
    }
  }

  /** One step only appends to the pushed segments, whatever was pushed before. */
  lemma StepPrefix(pushed: seq<seq<Token>>, st: SplitState, t: Token)
    ensures Step(SplitState(pushed + st.closed, st.open, st.lastExpr), t)
              == SplitState(pushed + Step(st, t).closed, Step(st, t).open, Step(st, t).lastExpr)
  {
    var extra := if st.open == [] then [] else [st.open];
    assert (pushed + st.closed) + [st.open] == pushed + (st.closed + [st.open]);
    assert (pushed + st.closed) + extra + [[t]] == pushed + (st.closed + extra + [[t]]);
  }

  /** A Semicolon cuts the run into two independently split halves. */
  lemma SemicolonCut(ts: seq<Token>, i: nat)
    requires i < |ts| && ts[i].name == Semicolon
    ensures Segments(ts) == Segments(ts[..i + 1]) + Segments(ts[i + 1..])
  {
    var a := ts[..i + 1];
    assert a[..|a| - 1] == ts[..i];
    RunAfterReset(a, ts[i + 1..]);
    assert a + ts[i + 1..] == ts;
  }

  /** A Semicolon at the start, or right after another Semicolon, closes an empty segment. */
  lemma SemicolonAfterCut(ts: seq<Token>, s: Token)
    requires s.name == Semicolon
    requires ts == [] || ts[|ts| - 1].name == Semicolon
    ensures Segments(ts + [s]) == Segments(ts) + [[]]
  {
    assert (ts + [s])[..|ts|] == ts;
    if ts != [] {
      assert Run(ts).open == [];
    }
  }

  lemma FlattenBound(segs: seq<seq<Token>>, i: nat)
    requires i < |segs|
    ensures |segs[i]| <= |Flatten(segs)|
    decreases |segs|
  {
    var p := segs[..|segs| - 1];
    if i < |segs| - 1 {
      FlattenBound(p, i);
    }
  }

  lemma {:induction false} FlattenPair(segs: seq<seq<Token>>, i: nat, j: nat)
    requires i < j < |segs|
    ensures |segs[i]| + |segs[j]| <= |Flatten(segs)|
    decreases |segs|
  {
    var p := segs[..|segs| - 1];
    if j < |segs| - 1 {
      FlattenPair(p, i, j);
    } else {
      FlattenBound(p, i);
    }
  }

  lemma {:induction false} WithoutSemicolonsLength(ts: seq<Token>)
    ensures |WithoutSemicolons(ts)| + CountSemicolons(ts) == |ts|
    ensures CountSemicolons(ts) == 0 <==> !HasSemicolon(ts)
    decreases |ts|
  {
    if ts != [] {
      var p := ts[..|ts| - 1];
      WithoutSemicolonsLength(p);
      if HasSemicolon(p) {
        var i :| 0 <= i < |p| && p[i].name == Semicolon;
        assert ts[i] == p[i];
      }
      if HasSemicolon(ts) && ts[|ts| - 1].name != Semicolon {
        var i :| 0 <= i < |ts| && ts[i].name == Semicolon;
        assert p[i] == ts[i];
      }
    }
  }

  /** When splitExprs cuts a run into several segments, each is strictly shorter than
      the run (what makes the assembler's recursion terminate). */
  lemma SegmentsShorter(ts: seq<Token>)
    ensures |Segments(ts)| > 1 ==> forall s :: s in Segments(ts) ==> |s| < |ts|
  {
    var segs := Segments(ts);
    if |segs| <= 1 { return; }
    SegmentsFree(ts);
    EmptySegmentNeedsSemicolon(ts);
    WithoutSemicolonsLength(ts);
    forall s | s in segs
      ensures |s| < |ts|
    {
      var i :| 0 <= i < |segs| && segs[i] == s;
      var j := if i == 0 then 1 else 0;
      if i < j { FlattenPair(segs, i, j); } else { FlattenPair(segs, j, i); }
      if !HasSemicolon(ts) {
        assert segs[j] in segs;
      }
    }
  }

  // ---------------------------------------------------------------------------
  // handleExpressionList
  // ---------------------------------------------------------------------------

  /** The classifier's verdict on a token run. */
  datatype Handled = Handled(segments: seq<seq<Token>>, comments: seq<Token>, braces: Option<(Token, Token)>)

  /** The first non-comment token of `raw` is of kind `k`. */
  predicate OpensWith(raw: seq<Token>, k: Kind) {
    var ts := Others(raw); |ts| > 0 && ts[0].name == k
  }

  /** The last non-comment token of `raw` is of kind `k`. */
  predicate ClosesWith(raw: seq<Token>, k: Kind) {
    var ts := Others(raw); |ts| > 0 && ts[|ts| - 1].name == k
  }

  function LastOther(raw: seq<Token>): Token
    requires |Others(raw)| > 0
  {
    Others(raw)[|Others(raw)| - 1]
  }

  /** handleExpressionList: strip the comments; a leading brace (paren) must be matched
      by a closing brace (paren) at the end, and then the interior is the one segment;
      otherwise the non-comment tokens are split by splitExprs. */
  function HandleExpressionList(raw: seq<Token>): (r: Outcome<Handled>)
    ensures r.Ok? ==> r.value.comments == Comments(raw)
    ensures r.Ok? && r.value.braces.Some? ==> |r.value.segments| == 1
  {
    if |raw| == 0 then Ok(Handled([], [], None))
    else
      var comments, tokens := Comments(raw), Others(raw);
      if |tokens| > 0 && tokens[0].name == BraceLeft then
        if tokens[|tokens| - 1].name == BraceRight then
          Ok(Handled([tokens[1..|tokens| - 1]], comments, Some((tokens[0], tokens[|tokens| - 1]))))
        else Err(Guard(UnclosedBrace(tokens[|tokens| - 1])))
      else if |tokens| > 0 && tokens[0].name == ParenLeft then
        if tokens[|tokens| - 1].name == ParenRight then
          Ok(Handled([tokens[1..|tokens| - 1]], comments, Some((tokens[0], tokens[|tokens| - 1]))))
        else Err(Guard(UnclosedParen(tokens[|tokens| - 1])))
      else
        Ok(Handled(Segments(tokens), comments, None))
  }

  /** The grouping check: a leading brace (paren) is accepted exactly when the last
      non-comment token closes it, and then the pair is returned as the braces and the
      tokens strictly between them as the only segment; otherwise the guard fails
      naming the last token. */
  lemma HandleGrouping(raw: seq<Token>)
    ensures OpensWith(raw, BraceLeft) ==> (HandleExpressionList(raw).Ok? <==> ClosesWith(raw, BraceRight))
    ensures OpensWith(raw, BraceLeft) && !ClosesWith(raw, BraceRight) ==>
              HandleExpressionList(raw) == Err(Guard(UnclosedBrace(LastOther(raw))))
    ensures OpensWith(raw, ParenLeft) ==> (HandleExpressionList(raw).Ok? <==> ClosesWith(raw, ParenRight))
    ensures OpensWith(raw, ParenLeft) && !ClosesWith(raw, ParenRight) ==>
              HandleExpressionList(raw) == Err(Guard(UnclosedParen(LastOther(raw))))
    ensures HandleExpressionList(raw).Ok? && HandleExpressionList(raw).value.braces.Some? ==>
              var ts := Others(raw);
              && |ts| >= 2
              && (OpensWith(raw, BraceLeft) || OpensWith(raw, ParenLeft))
              && HandleExpressionList(raw).value.braces == Some((ts[0], ts[|ts| - 1]))
              && HandleExpressionList(raw).value.segments == [ts[1..|ts| - 1]]
  {
    SplitCommentsPartition(raw);
  }

  /** Without a leading brace or paren the classifier never fails, finds no pair, and
      the segments are splitExprs of the non-comment tokens. */
  lemma HandleSplit(raw: seq<Token>)
    requires !OpensWith(raw, BraceLeft) && !OpensWith(raw, ParenLeft)
    ensures HandleExpressionList(raw) == Ok(Handled(Segments(Others(raw)), Comments(raw), None))
  {
    if |raw| == 0 {
      assert raw == [];
      assert Others(raw) == [] && Comments(raw) == [];
      assert Run([]) == SplitState([], [], false);
      assert Segments([]) == [];
      assert HandleExpressionList(raw) == Ok(Handled([], [], None));
    }
  }

  /** Every segment is comment-free, and when the run is really split or grouped each
      segment is strictly shorter than the run. */
  lemma HandleSegments(raw: seq<Token>)
    requires HandleExpressionList(raw).Ok?
    ensures forall s :: s in HandleExpressionList(raw).value.segments ==> NoComment(s)
    ensures var h := HandleExpressionList(raw).value;
            |h.segments| > 1 || h.braces.Some? ==> forall s :: s in h.segments ==> |s| < |raw|
  {
    var h := HandleExpressionList(raw).value;
    var tokens := Others(raw);
    SplitKinds(raw);
    SplitCounts(raw);
    if OpensWith(raw, BraceLeft) || OpensWith(raw, ParenLeft) {
      HandleGrouping(raw);
      assert h.segments == [tokens[1..|tokens| - 1]];
      assert forall t :: t in tokens[1..|tokens| - 1] ==> t in tokens;
    } else {
      HandleSplit(raw);
      assert h.segments == Segments(tokens);
      SegmentsFree(tokens);
      SegmentsShorter(tokens);
    }
  }
}
