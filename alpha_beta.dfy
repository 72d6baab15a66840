/**
 * The alpha-beta search of the AI player, as functions over positions.
 * The search works on one board that it changes in place: each move is
 * played with `makeMoveAI`, searched below, taken back with `undoMoveAI`,
 * and the block list is put back from a snapshot.  Because the take-back
 * does not restore every cell, the position is threaded from one move to
 * the next, exactly as the board is.
 */
module AlphaBeta {
  import opened Wrappers
  import opened PieceColor
  import opened Squares
  import opened Tables
  import opened BoardRules
  import opened RulesFacts

  /** `MAX_DEPTH`: the search depth of the root call. */
  const MAX_DEPTH: nat := 5

  /** `INFTY`: `Integer.MAX_VALUE`, beyond every static score. */
  const INFTY: int := 0x7fff_ffff

  /**
   * What one call of `findMove` leaves behind: its value, the board as it
   * is left, the move it would record, the values of the replies it
   * searched in order, and whether it stopped early on a cutoff.
   */
  datatype Outcome = Outcome(score: int, after: Position, best: Option<Move>, replies: seq<int>, cutoff: bool)

  function Max(a: int, b: int): int { if a >= b then a else b }

  function Min(a: int, b: int): int { if a <= b then a else b }

  /**
   * `findMove(board, depth, saveMove, sense, alpha, beta)`: at depth 0
   * the static score; otherwise the side to move is set to White (sense 1)
   * or Black (any other sense) and the moves generated then are searched.
   */
  function Search(p: Position, depth: nat, sense: int, alpha: int, beta: int): Outcome
    decreases depth, 3, 0
  {
    if depth == 0 then Outcome(StaticScore(p.cells), p, None, [], false)
    else SearchMoves(p, depth, sense, alpha, beta)
  }

  /** The search below the leaves: the side to move is set by SENSE and its moves are searched. */
  function SearchMoves(p: Position, depth: nat, sense: int, alpha: int, beta: int): Outcome
    requires depth > 0
    decreases depth, 2, 0
  {
    if sense == 1 then
      var q := p.(whoseMove := White);
      MaxLoop(q, Moves(q), 0, depth, alpha, beta, -INFTY, None)
    else
      var q := p.(whoseMove := Black);
      MinLoop(q, Moves(q), 0, depth, alpha, beta, INFTY, None)
  }

  /**
   * The loop of the maximizing branch from the I-th move on, with S and
   * BEST so far: play the move, search the reply with sense -1, keep a
   * strictly better value, raise alpha, take the move back, restore the
   * blocks, and stop once beta <= alpha.
   */
  function MaxLoop(p: Position, moves: seq<Move>, i: nat, depth: nat, alpha: int, beta: int,
                   s: int, best: Option<Move>): Outcome
    requires i <= |moves| && depth > 0
    decreases depth, 1, |moves| - i
  {
    if i == |moves| then Outcome(s, p, best, [], false)
    else
      var m := moves[i];
      var child := Reply(p, m, depth, alpha, beta);
      var s1 := if child.score > s then child.score else s;
      var best1 := if child.score > s then Some(m) else best;
      var alpha1 := Max(alpha, s1);
      var p1 := UndoMoveAI(child.after, m).(blocks := p.blocks);
      if beta <= alpha1 then Outcome(s1, p1, best1, [child.score], true)
      else
        var rest := MaxLoop(p1, moves, i + 1, depth, alpha1, beta, s1, best1);
        rest.(replies := [child.score] + rest.replies)
  }

  /** The search of the reply to M: play it with `makeMoveAI` and search one level down with sense -1. */
  function Reply(p: Position, m: Move, depth: nat, alpha: int, beta: int): Outcome
    requires depth > 0
    decreases depth, 0, 0
  {
    Search(MakeMoveAI(p, m), depth - 1, -1, alpha, beta)
  }

  /** The loop of the minimizing branch: the mirror image of `MaxLoop`. */
  function MinLoop(p: Position, moves: seq<Move>, i: nat, depth: nat, alpha: int, beta: int,
                   s: int, best: Option<Move>): Outcome
    requires i <= |moves| && depth > 0
    decreases depth, 1, |moves| - i
  {
    if i == |moves| then Outcome(s, p, best, [], false)
    else
      var m := moves[i];
      var child := Reply(p, m, depth, alpha, beta);
      var s1 := if child.score < s then child.score else s;
      var best1 := if child.score < s then Some(m) else best;
      var beta1 := Min(beta, s1);
      var p1 := UndoMoveAI(child.after, m).(blocks := p.blocks);
      if beta1 <= alpha then Outcome(s1, p1, best1, [child.score], true)
      else
        var rest := MinLoop(p1, moves, i + 1, depth, alpha, beta1, s1, best1);
        rest.(replies := [child.score] + rest.replies)
  }

  // ---------------------------------------------------------------------
  // The loops: value, recorded move, cutoff

  /**
   * BEST is the move paired with the first of REPLIES equal to V, and the
   * replies before it fall short of V (below it when MAXIMIZING, above it
   * otherwise).
   */
  predicate FirstToReach(replies: seq<int>, ms: seq<Move>, v: int, best: Option<Move>, maximizing: bool)
  {
    exists j :: 0 <= j < |replies| && j < |ms| && replies[j] == v && best == Some(ms[j])
      && forall k :: 0 <= k < j ==> (if maximizing then replies[k] < v else replies[k] > v)
  }

  lemma FirstToReachHead(v: int, rest: seq<int>, ms: seq<Move>, maximizing: bool)
    requires |ms| > 0
    ensures FirstToReach([v] + rest, ms, v, Some(ms[0]), maximizing)
  {
    assert ([v] + rest)[0] == v;
  }

  lemma FirstToReachCons(c: int, rest: seq<int>, ms: seq<Move>, v: int, best: Option<Move>, maximizing: bool)
    requires |ms| > 0 && FirstToReach(rest, ms[1..], v, best, maximizing)
    requires if maximizing then c < v else c > v
    ensures FirstToReach([c] + rest, ms, v, best, maximizing)
  {
    var j :| 0 <= j < |rest| && j < |ms| - 1 && rest[j] == v && best == Some(ms[1..][j])
      && forall k :: 0 <= k < j ==> (if maximizing then rest[k] < v else rest[k] > v);
    var r := [c] + rest;
    assert r[j + 1] == v && best == Some(ms[j + 1]);
    forall k | 0 <= k < j + 1
      ensures if maximizing then r[k] < v else r[k] > v
    {
      if k > 0 {
        assert r[k] == rest[k - 1];
      }
    }
  }

  /**
   * The maximizing loop searches at least one reply when a move remains,
   * and every remaining move unless it cuts off.
   */
  lemma {:induction false} MaxLoopCoverage(p: Position, moves: seq<Move>, i: nat, depth: nat,
                                           alpha: int, beta: int, s: int, best: Option<Move>)
    requires i <= |moves| && depth > 0
    ensures var r := MaxLoop(p, moves, i, depth, alpha, beta, s, best);
      && |r.replies| <= |moves| - i
      && (r.cutoff || |r.replies| == |moves| - i)
      && (i < |moves| ==> |r.replies| > 0)
    decreases |moves| - i
  {
    if i < |moves| {
      var m := moves[i];
      var child := Reply(p, m, depth, alpha, beta);
      var s1 := if child.score > s then child.score else s;
      var best1 := if child.score > s then Some(m) else best;
      var alpha1 := Max(alpha, s1);
      var p1 := UndoMoveAI(child.after, m).(blocks := p.blocks);
      if beta > alpha1 {
        MaxLoopCoverage(p1, moves, i + 1, depth, alpha1, beta, s1, best1);
      }
    }
  }

  /** The maximizing loop returns the larger of S and every reply it searched. */
  lemma {:induction false} MaxLoopValue(p: Position, moves: seq<Move>, i: nat, depth: nat,
                                        alpha: int, beta: int, s: int, best: Option<Move>)
    requires i <= |moves| && depth > 0
    ensures var r := MaxLoop(p, moves, i, depth, alpha, beta, s, best);
      && s <= r.score
      && (forall j :: 0 <= j < |r.replies| ==> r.replies[j] <= r.score)
      && (r.score == s || r.score in r.replies)
    decreases |moves| - i
  {
    if i < |moves| {
      var m := moves[i];
      var child := Reply(p, m, depth, alpha, beta);
      var s1 := if child.score > s then child.score else s;
      var best1 := if child.score > s then Some(m) else best;
      var alpha1 := Max(alpha, s1);
      var p1 := UndoMoveAI(child.after, m).(blocks := p.blocks);
      if beta > alpha1 {
        MaxLoopValue(p1, moves, i + 1, depth, alpha1, beta, s1, best1);
      }
    }
  }

  /**
   * The maximizing loop keeps BEST unless a reply beats S, and then
   * records the move of the first reply reaching the final value: ties
   * keep the earlier move.
   */
  lemma {:induction false} MaxLoopBest(p: Position, moves: seq<Move>, i: nat, depth: nat,
                                       alpha: int, beta: int, s: int, best: Option<Move>)
    requires i <= |moves| && depth > 0
    ensures var r := MaxLoop(p, moves, i, depth, alpha, beta, s, best);
      && (r.score == s ==> r.best == best)
      && (r.score > s ==> FirstToReach(r.replies, moves[i..], r.score, r.best, true))
    decreases |moves| - i
  {
    if i < |moves| {
      var m := moves[i];
      var child := Reply(p, m, depth, alpha, beta);
      var s1 := if child.score > s then child.score else s;
      var best1 := if child.score > s then Some(m) else best;
      var alpha1 := Max(alpha, s1);
      var p1 := UndoMoveAI(child.after, m).(blocks := p.blocks);
      var r := MaxLoop(p, moves, i, depth, alpha, beta, s, best);
      if beta > alpha1 {
        MaxLoopValue(p1, moves, i + 1, depth, alpha1, beta, s1, best1);
        MaxLoopBest(p1, moves, i + 1, depth, alpha1, beta, s1, best1);
        assert moves[i + 1..] == moves[i..][1..];
        if r.score > s {
          if child.score > s && child.score == r.score {
            FirstToReachHead(child.score, r.replies[1..], moves[i..], true);
          } else {
            FirstToReachCons(child.score, r.replies[1..], moves[i..], r.score, r.best, true);
          }
        }
      } else if r.score > s {
        FirstToReachHead(child.score, [], moves[i..], true);
      }
    }
  }

  /** With alpha < beta, the maximizing loop cuts off only at a value >= beta. */
  lemma {:induction false} MaxLoopCutoff(p: Position, moves: seq<Move>, i: nat, depth: nat,
                                         alpha: int, beta: int, s: int, best: Option<Move>)
    requires i <= |moves| && depth > 0 && alpha < beta
    ensures var r := MaxLoop(p, moves, i, depth, alpha, beta, s, best);
      r.cutoff ==> r.score >= beta
    decreases |moves| - i
  {
    if i < |moves| {
      var m := moves[i];
      var child := Reply(p, m, depth, alpha, beta);
      var s1 := if child.score > s then child.score else s;
      var best1 := if child.score > s then Some(m) else best;
      var alpha1 := Max(alpha, s1);
      var p1 := UndoMoveAI(child.after, m).(blocks := p.blocks);
      if beta > alpha1 {
        MaxLoopCutoff(p1, moves, i + 1, depth, alpha1, beta, s1, best1);
      }
    }
  }

  /**
   * The minimizing loop searches at least one reply when a move remains,
   * and every remaining move unless it cuts off.
   */
  lemma {:induction false} MinLoopCoverage(p: Position, moves: seq<Move>, i: nat, depth: nat,
                                           alpha: int, beta: int, s: int, best: Option<Move>)
    requires i <= |moves| && depth > 0
    ensures var r := MinLoop(p, moves, i, depth, alpha, beta, s, best);
      && |r.replies| <= |moves| - i
      && (r.cutoff || |r.replies| == |moves| - i)
      && (i < |moves| ==> |r.replies| > 0)
    decreases |moves| - i
  {
    if i < |moves| {
      var m := moves[i];
      var child := Reply(p, m, depth, alpha, beta);
      var s1 := if child.score < s then child.score else s;
      var best1 := if child.score < s then Some(m) else best;
      var beta1 := Min(beta, s1);
      var p1 := UndoMoveAI(child.after, m).(blocks := p.blocks);
      if beta1 > alpha {
        MinLoopCoverage(p1, moves, i + 1, depth, alpha, beta1, s1, best1);
      }
    }
  }

  /** The minimizing loop returns the smaller of S and every reply it searched. */
  lemma {:induction false} MinLoopValue(p: Position, moves: seq<Move>, i: nat, depth: nat,
                                        alpha: int, beta: int, s: int, best: Option<Move>)
    requires i <= |moves| && depth > 0
    ensures var r := MinLoop(p, moves, i, depth, alpha, beta, s, best);
      && r.score <= s
      && (forall j :: 0 <= j < |r.replies| ==> r.score <= r.replies[j])
      && (r.score == s || r.score in r.replies)
    decreases |moves| - i
  {
    if i < |moves| {
      var m := moves[i];
      var child := Reply(p, m, depth, alpha, beta);
      var s1 := if child.score < s then child.score else s;
      var best1 := if child.score < s then Some(m) else best;
      var beta1 := Min(beta, s1);
      var p1 := UndoMoveAI(child.after, m).(blocks := p.blocks);
      if beta1 > alpha {
        MinLoopValue(p1, moves, i + 1, depth, alpha, beta1, s1, best1);
      }
    }
  }

  /**
   * The minimizing loop keeps BEST unless a reply is below S, and then
   * records the move of the first reply reaching the final value.
   */
  lemma {:induction false} MinLoopBest(p: Position, moves: seq<Move>, i: nat, depth: nat,
                                       alpha: int, beta: int, s: int, best: Option<Move>)
    requires i <= |moves| && depth > 0
    ensures var r := MinLoop(p, moves, i, depth, alpha, beta, s, best);
      && (r.score == s ==> r.best == best)
      && (r.score < s ==> FirstToReach(r.replies, moves[i..], r.score, r.best, false))
    decreases |moves| - i
  {
    if i < |moves| {
      var m := moves[i];
      var child := Reply(p, m, depth, alpha, beta);
      var s1 := if child.score < s then child.score else s;
      var best1 := if child.score < s then Some(m) else best;
      var beta1 := Min(beta, s1);
      var p1 := UndoMoveAI(child.after, m).(blocks := p.blocks);
      var r := MinLoop(p, moves, i, depth, alpha, beta, s, best);
      if beta1 > alpha {
        MinLoopValue(p1, moves, i + 1, depth, alpha, beta1, s1, best1);
        MinLoopBest(p1, moves, i + 1, depth, alpha, beta1, s1, best1);
        assert moves[i + 1..] == moves[i..][1..];
        if r.score < s {
          if child.score < s && child.score == r.score {
            FirstToReachHead(child.score, r.replies[1..], moves[i..], false);
          } else {
            FirstToReachCons(child.score, r.replies[1..], moves[i..], r.score, r.best, false);
          }
        }
      } else if r.score < s {
        FirstToReachHead(child.score, [], moves[i..], false);
      }
    }
  }

  /** With alpha < beta, the minimizing loop cuts off only at a value <= alpha. */
  lemma {:induction false} MinLoopCutoff(p: Position, moves: seq<Move>, i: nat, depth: nat,
                                         alpha: int, beta: int, s: int, best: Option<Move>)
    requires i <= |moves| && depth > 0 && alpha < beta
    ensures var r := MinLoop(p, moves, i, depth, alpha, beta, s, best);
      r.cutoff ==> r.score <= alpha
    decreases |moves| - i
  {
    if i < |moves| {
      var m := moves[i];
      var child := Reply(p, m, depth, alpha, beta);
      var s1 := if child.score < s then child.score else s;
      var best1 := if child.score < s then Some(m) else best;
      var beta1 := Min(beta, s1);
      var p1 := UndoMoveAI(child.after, m).(blocks := p.blocks);
      if beta1 > alpha {
        MinLoopCutoff(p1, moves, i + 1, depth, alpha, beta1, s1, best1);
      }
    }
  }

  // ---------------------------------------------------------------------
  // Values, recorded moves and the restored blocks of a whole search

  /** A value a reply can take: a static score, or `INFTY` when it has no move. */
  predicate ReplyScore(x: int)
  {
    x == INFTY || -25 <= x <= 25
  }

  /** Every value in XS is a reply value. */
  predicate ReplyScores(xs: seq<int>)
  {
    forall j :: 0 <= j < |xs| ==> ReplyScore(xs[j])
  }

  /**
   * At depth 0, `findMove` returns the static score, between -25 and 25,
   * leaves the board as it is and records nothing.
   */
  lemma SearchLeaf(p: Position, sense: int, alpha: int, beta: int)
    ensures var r := Search(p, 0, sense, alpha, beta);
      r.score == StaticScore(p.cells) && -25 <= r.score <= 25 && r.best == None && r.after == p
  {
    StaticScoreBounds(p.cells);
  }

  /**
   * Every call of `findMove` returns a static score, `INFTY`, or, from a
   * maximizing call with no move, `-INFTY`.
   */
  lemma {:induction false} SearchRange(p: Position, depth: nat, sense: int, alpha: int, beta: int)
    ensures var r := Search(p, depth, sense, alpha, beta);
      ReplyScore(r.score) || (sense == 1 && r.score == -INFTY)
    decreases depth, 2, 0
  {
    if depth == 0 {
      StaticScoreBounds(p.cells);
    } else if sense == 1 {
      var q := p.(whoseMove := White);
      MaxLoopReplies(q, Moves(q), 0, depth, alpha, beta, -INFTY, None);
      MaxLoopValue(q, Moves(q), 0, depth, alpha, beta, -INFTY, None);
    } else {
      var q := p.(whoseMove := Black);
      MinLoopReplies(q, Moves(q), 0, depth, alpha, beta, INFTY, None);
      MinLoopValue(q, Moves(q), 0, depth, alpha, beta, INFTY, None);
    }
  }

  lemma ReplyUnfold(p: Position, m: Move, depth: nat, alpha: int, beta: int)
    requires depth > 0
    ensures Reply(p, m, depth, alpha, beta) == Search(MakeMoveAI(p, m), depth - 1, -1, alpha, beta)
  {
  }

  /** The search of a reply returns a reply value. */
  lemma {:induction false} ReplyRange(p: Position, m: Move, depth: nat, alpha: int, beta: int)
    requires depth > 0
    ensures ReplyScore(Reply(p, m, depth, alpha, beta).score)
    decreases depth, 0, 0
  {
    SearchRange(MakeMoveAI(p, m), depth - 1, -1, alpha, beta);
    ReplyUnfold(p, m, depth, alpha, beta);
  }

  /** Every reply searched by the maximizing loop has a reply value. */
  lemma {:induction false} MaxLoopReplies(p: Position, moves: seq<Move>, i: nat, depth: nat,
                                          alpha: int, beta: int, s: int, best: Option<Move>)
    requires i <= |moves| && depth > 0
    ensures ReplyScores(MaxLoop(p, moves, i, depth, alpha, beta, s, best).replies)
    decreases depth, 1, |moves| - i
  {
    if i < |moves| {
      var m := moves[i];
      var child := Reply(p, m, depth, alpha, beta);
      ReplyRange(p, m, depth, alpha, beta);
      var s1 := if child.score > s then child.score else s;
      var best1 := if child.score > s then Some(m) else best;
      var alpha1 := Max(alpha, s1);
      var p1 := UndoMoveAI(child.after, m).(blocks := p.blocks);
      if beta > alpha1 {
        MaxLoopReplies(p1, moves, i + 1, depth, alpha1, beta, s1, best1);
        var r := MaxLoop(p, moves, i, depth, alpha, beta, s, best);
        var rest := MaxLoop(p1, moves, i + 1, depth, alpha1, beta, s1, best1);
        assert r.replies == [child.score] + rest.replies;
        forall j | 0 <= j < |r.replies|
          ensures ReplyScore(r.replies[j])
        {
          if j > 0 {
            assert r.replies[j] == rest.replies[j - 1];
          }
        }
      }
    }
  }

  /** Every reply searched by the minimizing loop has a reply value. */
  lemma {:induction false} MinLoopReplies(p: Position, moves: seq<Move>, i: nat, depth: nat,
                                          alpha: int, beta: int, s: int, best: Option<Move>)
    requires i <= |moves| && depth > 0
    ensures ReplyScores(MinLoop(p, moves, i, depth, alpha, beta, s, best).replies)
    decreases depth, 1, |moves| - i
  {
    if i < |moves| {
      var m := moves[i];
      var child := Reply(p, m, depth, alpha, beta);
      ReplyRange(p, m, depth, alpha, beta);
      var s1 := if child.score < s then child.score else s;
      var best1 := if child.score < s then Some(m) else best;
      var beta1 := Min(beta, s1);
      var p1 := UndoMoveAI(child.after, m).(blocks := p.blocks);
      if beta1 > alpha {
        MinLoopReplies(p1, moves, i + 1, depth, alpha, beta1, s1, best1);
        var r := MinLoop(p, moves, i, depth, alpha, beta, s, best);
        var rest := MinLoop(p1, moves, i + 1, depth, alpha, beta1, s1, best1);
        assert r.replies == [child.score] + rest.replies;
        forall j | 0 <= j < |r.replies|
          ensures ReplyScore(r.replies[j])
        {
          if j > 0 {
            assert r.replies[j] == rest.replies[j - 1];
          }
        }
      }
    }
  }

  /**
   * A search below depth 0 records a move exactly when its value is not the
   * initial one (`-INFTY` when maximizing, `INFTY` otherwise); the move it
   * records is one generated for the side it set to move, the first to
   * reach that value.
   */
  lemma SearchBest(p: Position, depth: nat, sense: int, alpha: int, beta: int)
    requires depth > 0
    ensures var r := Search(p, depth, sense, alpha, beta);
      var q := p.(whoseMove := if sense == 1 then White else Black);
      && (r.best == None <==> r.score == (if sense == 1 then -INFTY else INFTY))
      && (r.best.Some? ==> r.best.value in Moves(q))
      && (r.best.Some? ==> FirstToReach(r.replies, Moves(q), r.score, r.best, sense == 1))
  {
    var r := Search(p, depth, sense, alpha, beta);
    if sense == 1 {
      var q := p.(whoseMove := White);
      MaxLoopValue(q, Moves(q), 0, depth, alpha, beta, -INFTY, None);
      MaxLoopBest(q, Moves(q), 0, depth, alpha, beta, -INFTY, None);
      assert Moves(q)[0..] == Moves(q);
    } else {
      var q := p.(whoseMove := Black);
      MinLoopValue(q, Moves(q), 0, depth, alpha, beta, INFTY, None);
      MinLoopBest(q, Moves(q), 0, depth, alpha, beta, INFTY, None);
      assert Moves(q)[0..] == Moves(q);
    }
  }

  /**
   * A maximizing search with a move to make always records one: every
   * reply value is above `-INFTY`.
   */
  lemma MaximizingRecordsMove(p: Position, depth: nat, alpha: int, beta: int)
    requires depth > 0 && Moves(p.(whoseMove := White)) != []
    ensures Search(p, depth, 1, alpha, beta).best.Some?
  {
    var q := p.(whoseMove := White);
    MaxLoopCoverage(q, Moves(q), 0, depth, alpha, beta, -INFTY, None);
    MaxLoopValue(q, Moves(q), 0, depth, alpha, beta, -INFTY, None);
    MaxLoopReplies(q, Moves(q), 0, depth, alpha, beta, -INFTY, None);
    SearchBest(p, depth, 1, alpha, beta);
    var r := Search(p, depth, 1, alpha, beta);
    assert ReplyScore(r.replies[0]) && r.replies[0] <= r.score;
  }

  /** `makeMoveAI` never changes `gameOver` or the side to move. */
  lemma {:induction false} MakeMoveAIKeepsGameOver(p: Position, m: Move)
    ensures MakeMoveAI(p, m).gameOver == p.gameOver
    ensures MakeMoveAI(p, m).whoseMove == p.whoseMove
    decreases |m|
  {
    if IsJump(m) && |m| > 2 {
      var from, to := From(m), To(m);
      var c1 := p.cells[from := Empty][to := p.whoseMove];
      var bs1 := if IsLateral(m) then p.blocks + [Block(to, from)] else p.blocks;
      var p2 := p.(cells := c1[JumpedIndex(from, to) := Opposite(p.whoseMove)], blocks := bs1);
      MakeMoveAIKeepsGameOver(p2, m[1..]);
    }
  }

  /** `undoMoveAI` changes nothing but cells. */
  lemma {:induction false} UndoMoveAIKeepsRest(p: Position, m: Move)
    ensures var u := UndoMoveAI(p, m);
      u.gameOver == p.gameOver && u.blocks == p.blocks && u.whoseMove == p.whoseMove
    decreases |m|
  {
    if IsJump(m) && |m| > 2 {
      var from, to := From(m), To(m);
      var c1 := p.cells[from := Opposite(p.whoseMove)][to := Empty];
      var p2 := p.(cells := c1[JumpedIndex(from, to) := p.whoseMove]);
      UndoMoveAIKeepsRest(p2, m[1..]);
    }
  }

  /**
   * A search leaves the blocks as it found them, since each move's block
   * snapshot is put back, and never changes `gameOver`.
   */
  lemma {:induction false} SearchKeeps(p: Position, depth: nat, sense: int, alpha: int, beta: int)
    ensures var r := Search(p, depth, sense, alpha, beta);
      r.after.blocks == p.blocks && r.after.gameOver == p.gameOver
    decreases depth, 2, 0
  {
    if depth > 0 {
      if sense == 1 {
        var q := p.(whoseMove := White);
        MaxLoopKeeps(q, Moves(q), 0, depth, alpha, beta, -INFTY, None);
      } else {
        var q := p.(whoseMove := Black);
        MinLoopKeeps(q, Moves(q), 0, depth, alpha, beta, INFTY, None);
      }
    }
  }

  /** The search of a reply leaves `gameOver` as it was. */
  lemma {:induction false} ReplyKeeps(p: Position, m: Move, depth: nat, alpha: int, beta: int)
    requires depth > 0
    ensures Reply(p, m, depth, alpha, beta).after.gameOver == p.gameOver
    decreases depth, 0, 0
  {
    var q := MakeMoveAI(p, m);
    MakeMoveAIKeepsGameOver(p, m);
    SearchKeeps(q, depth - 1, -1, alpha, beta);
    ReplyUnfold(p, m, depth, alpha, beta);
  }

  lemma {:induction false} MaxLoopKeeps(p: Position, moves: seq<Move>, i: nat, depth: nat,
                                        alpha: int, beta: int, s: int, best: Option<Move>)
    requires i <= |moves| && depth > 0
    ensures var r := MaxLoop(p, moves, i, depth, alpha, beta, s, best);
      r.after.blocks == p.blocks && r.after.gameOver == p.gameOver
    decreases depth, 1, |moves| - i
  {
    if i < |moves| {
      var m := moves[i];
      var child := Reply(p, m, depth, alpha, beta);
      ReplyKeeps(p, m, depth, alpha, beta);
      UndoMoveAIKeepsRest(child.after, m);
      var s1 := if child.score > s then child.score else s;
      var best1 := if child.score > s then Some(m) else best;
      var alpha1 := Max(alpha, s1);
      var p1 := UndoMoveAI(child.after, m).(blocks := p.blocks);
      assert p1.gameOver == p.gameOver;
      if beta > alpha1 {
        MaxLoopKeeps(p1, moves, i + 1, depth, alpha1, beta, s1, best1);
        assert MaxLoop(p, moves, i, depth, alpha, beta, s, best).after
          == MaxLoop(p1, moves, i + 1, depth, alpha1, beta, s1, best1).after;
      }
    }
  }

  lemma {:induction false} MinLoopKeeps(p: Position, moves: seq<Move>, i: nat, depth: nat,
                                        alpha: int, beta: int, s: int, best: Option<Move>)
    requires i <= |moves| && depth > 0
    ensures var r := MinLoop(p, moves, i, depth, alpha, beta, s, best);
      r.after.blocks == p.blocks && r.after.gameOver == p.gameOver
    decreases depth, 1, |moves| - i
  {
    if i < |moves| {
      var m := moves[i];
      var child := Reply(p, m, depth, alpha, beta);
      ReplyKeeps(p, m, depth, alpha, beta);
      UndoMoveAIKeepsRest(child.after, m);
      var s1 := if child.score < s then child.score else s;
      var best1 := if child.score < s then Some(m) else best;
      var beta1 := Min(beta, s1);
      var p1 := UndoMoveAI(child.after, m).(blocks := p.blocks);
      assert p1.gameOver == p.gameOver;
      if beta1 > alpha {
        MinLoopKeeps(p1, moves, i + 1, depth, alpha, beta1, s1, best1);
        assert MinLoop(p, moves, i, depth, alpha, beta, s, best).after
          == MinLoop(p1, moves, i + 1, depth, alpha, beta1, s1, best1).after;
      }
    }
  }

  // ---------------------------------------------------------------------
  // The side to move the search leaves behind

  /**
   * A minimizing search above the leaves sets Black to move, and nothing
   * below it sets White back, so it leaves Black to move.
   */
  lemma {:induction false} SearchLeavesBlack(p: Position, depth: nat, alpha: int, beta: int)
    requires depth > 0
    ensures Search(p, depth, -1, alpha, beta).after.whoseMove == Black
    decreases depth, 2, 0
  {
    var q := p.(whoseMove := Black);
    MinLoopLeavesBlack(q, Moves(q), 0, depth, alpha, beta, INFTY, None);
  }

  /**
   * The search of a reply leaves the side to move as the move found it one
   * level above the leaves, and Black higher up.
   */
  lemma {:induction false} ReplyLeavesTurn(p: Position, m: Move, depth: nat, alpha: int, beta: int)
    requires depth > 0
    ensures Reply(p, m, depth, alpha, beta).after.whoseMove == if depth == 1 then p.whoseMove else Black
    decreases depth, 0, 0
  {
    MakeMoveAIKeepsGameOver(p, m);
    if depth > 1 {
      SearchLeavesBlack(MakeMoveAI(p, m), depth - 1, alpha, beta);
    }
  }

  lemma {:induction false} MinLoopLeavesBlack(p: Position, moves: seq<Move>, i: nat, depth: nat,
                                              alpha: int, beta: int, s: int, best: Option<Move>)
    requires i <= |moves| && depth > 0 && p.whoseMove == Black
    ensures MinLoop(p, moves, i, depth, alpha, beta, s, best).after.whoseMove == Black
    decreases depth, 1, |moves| - i
  {
    if i < |moves| {
      var m := moves[i];
      var child := Reply(p, m, depth, alpha, beta);
      ReplyLeavesTurn(p, m, depth, alpha, beta);
      UndoMoveAIKeepsRest(child.after, m);
      var s1 := if child.score < s then child.score else s;
      var best1 := if child.score < s then Some(m) else best;
      var beta1 := Min(beta, s1);
      var p1 := UndoMoveAI(child.after, m).(blocks := p.blocks);
      if beta1 > alpha {
        MinLoopLeavesBlack(p1, moves, i + 1, depth, alpha, beta1, s1, best1);
        assert MinLoop(p, moves, i, depth, alpha, beta, s, best).after
          == MinLoop(p1, moves, i + 1, depth, alpha, beta1, s1, best1).after;
      }
    }
  }

  /**
   * In a maximizing node more than one level above the leaves, the board
   * left once a move is taken back has Black to move, and so has the board
   * the node leaves: `findMove` sets White only before its loop, so every
   * later move of the node is played by `makeMoveAI` for Black.
   */
  lemma {:induction false} MaxLoopHandsTurnToBlack(p: Position, moves: seq<Move>, i: nat, depth: nat,
                                                   alpha: int, beta: int, s: int, best: Option<Move>)
    requires i < |moves| && depth > 1
    ensures UndoMoveAI(Reply(p, moves[i], depth, alpha, beta).after, moves[i]).whoseMove == Black
    ensures MaxLoop(p, moves, i, depth, alpha, beta, s, best).after.whoseMove == Black
    decreases |moves| - i
  {
    var m := moves[i];
    var child := Reply(p, m, depth, alpha, beta);
    ReplyLeavesTurn(p, m, depth, alpha, beta);
    UndoMoveAIKeepsRest(child.after, m);
    var s1 := if child.score > s then child.score else s;
    var best1 := if child.score > s then Some(m) else best;
    var alpha1 := Max(alpha, s1);
    var p1 := UndoMoveAI(child.after, m).(blocks := p.blocks);
    if beta > alpha1 && i + 1 < |moves| {
      MaxLoopHandsTurnToBlack(p1, moves, i + 1, depth, alpha1, beta, s1, best1);
      assert MaxLoop(p, moves, i, depth, alpha, beta, s, best).after
        == MaxLoop(p1, moves, i + 1, depth, alpha1, beta, s1, best1).after;
    }
  }
}
