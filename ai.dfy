/**
 * The AI player.  `findMove` searches a copy of the game's board in
 * place; each method here is proved against the search of AlphaBeta,
 * so the value it returns, the board it leaves and the move it records
 * are those of `AlphaBeta.Search`.
 */
module AIPlayer {
  import opened Wrappers
  import opened PieceColor
  import opened Squares
  import opened BoardRules
  import opened AlphaBeta
  import opened Boards

  /** O and G agree on the value, the board left behind and the recorded move. */
  predicate SameResult(o: Outcome, g: Outcome)
  {
    o.score == g.score && o.after == g.after && o.best == g.best
  }

  /** The search direction of a player of colour C: 1 for White, -1 for Black. */
  function SenseOf(c: Color): (sense: int)
    ensures sense == 1 <==> c == White
    ensures sense == -1 <==> c == Black
  {
    if c == White then 1 else -1
  }

  /**
   * One turn of the maximizing loop, given the value V and the board AFTER
   * that the search of the reply to the I-th move leaves.
   */
  lemma MaxLoopTurn(p: Position, moves: seq<Move>, i: nat, depth: nat, alpha: int, beta: int,
                    s: int, best: Option<Move>, v: int, after: Position)
    requires i < |moves| && depth > 0
    requires v == Search(MakeMoveAI(p, moves[i]), depth - 1, -1, alpha, beta).score
    requires after == Search(MakeMoveAI(p, moves[i]), depth - 1, -1, alpha, beta).after
    ensures var s1 := if v > s then v else s;
            var best1 := if v > s then Some(moves[i]) else best;
            var alpha1 := Max(alpha, s1);
            var p1 := UndoMoveAI(after, moves[i]).(blocks := p.blocks);
            var r := MaxLoop(p, moves, i, depth, alpha, beta, s, best);
            if beta <= alpha1 then SameResult(r, Outcome(s1, p1, best1, [], false))
            else SameResult(r, MaxLoop(p1, moves, i + 1, depth, alpha1, beta, s1, best1))
  {
    ReplyUnfold(p, moves[i], depth, alpha, beta);
  }

  /**
   * One turn of the minimizing loop, given the value V and the board AFTER
   * that the search of the reply to the I-th move leaves.
   */
  lemma MinLoopTurn(p: Position, moves: seq<Move>, i: nat, depth: nat, alpha: int, beta: int,
                    s: int, best: Option<Move>, v: int, after: Position)
    requires i < |moves| && depth > 0
    requires v == Search(MakeMoveAI(p, moves[i]), depth - 1, -1, alpha, beta).score
    requires after == Search(MakeMoveAI(p, moves[i]), depth - 1, -1, alpha, beta).after
    ensures var s1 := if v < s then v else s;
            var best1 := if v < s then Some(moves[i]) else best;
            var beta1 := Min(beta, s1);
            var p1 := UndoMoveAI(after, moves[i]).(blocks := p.blocks);
            var r := MinLoop(p, moves, i, depth, alpha, beta, s, best);
            if beta1 <= alpha then SameResult(r, Outcome(s1, p1, best1, [], false))
            else SameResult(r, MinLoop(p1, moves, i + 1, depth, alpha, beta1, s1, best1))
  {
    ReplyUnfold(p, moves[i], depth, alpha, beta);
  }

  class AI {
    /** The colour this player plays. */
    const myColor: Color
    /** `_lastFoundMove`: the move recorded by the last root search. */
    var lastFoundMove: Option<Move>

    /** `AI(game, myColor)`: a player of colour C that has found no move yet. */
    constructor (c: Color)
      ensures myColor == c && lastFoundMove == None
    {
      myColor := c;
      lastFoundMove := None;
    }

    /**
     * `findMove()`: search a copy of the game's board to `MAX_DEPTH` in the
     * direction of this player's colour and return the recorded move.  The
     * game's board is left as it was.
     */
    method FindMove(game: Board) returns (m: Option<Move>)
      requires game.Valid()
      modifies this
      ensures m == Search(game.Pos(), MAX_DEPTH, SenseOf(myColor), -INFTY, INFTY).best
      ensures lastFoundMove == m
      ensures m.Some? ==> m.value in Moves(game.Pos().(whoseMove := myColor))
      ensures myColor == White && Moves(game.Pos().(whoseMove := White)) != [] ==> m.Some?
    {
      var b := new Board.Copy(game);
      var sense := SenseOf(myColor);
      var _, _ := FindMoveAt(b, MAX_DEPTH, true, sense, -INFTY, INFTY);
      m := lastFoundMove;
      SearchBest(game.Pos(), MAX_DEPTH, sense, -INFTY, INFTY);
      if myColor == White && Moves(game.Pos().(whoseMove := White)) != [] {
        MaximizingRecordsMove(game.Pos(), MAX_DEPTH, -INFTY, INFTY);
      }
    }

    /**
     * `findMove(board, depth, saveMove, sense, alpha, beta)`: the value of
     * BOARD searched DEPTH levels down, recording the move found when
     * SAVEMOVE and DEPTH > 0.  BOARD is changed in place and left as the
     * search leaves it.
     */
    method FindMoveAt(board: Board, depth: nat, saveMove: bool, sense: int, alpha: int, beta: int)
      returns (score: int, ghost r: Outcome)
      requires board.Valid()
      modifies this, board, board.cells
      ensures board.Valid() && board.cells == old(board.cells) && board.winner == old(board.winner)
      ensures r == Search(old(board.Pos()), depth, sense, alpha, beta)
      ensures score == r.score && board.Pos() == r.after
      ensures lastFoundMove == if saveMove && depth > 0 then r.best else old(lastFoundMove)
      decreases depth, 2
    {
      r := Search(board.Pos(), depth, sense, alpha, beta);
      if depth == 0 {
        score := board.StaticScore();
        return;
      }
      var best: Option<Move>;
      if sense == 1 {
        board.SetWhoseMove(White);
        score, best := MaximizeOver(board, depth, alpha, beta);
      } else {
        board.SetWhoseMove(Black);
        score, best := MinimizeOver(board, depth, alpha, beta);
      }
      if saveMove {
        lastFoundMove := best;
      }
    }

    /**
     * The start of each turn of either loop of `findMove`: snapshot the
     * blocks, play M with `makeMoveAI`, search the reply one level down
     * with sense -1, take M back with `undoMoveAI` and restore the blocks.
     * V is the reply's value; the board is left as the take-back leaves it.
     */
    method SearchReply(board: Board, m: Move, depth: nat, alpha: int, beta: int) returns (v: int)
      requires board.Valid() && depth > 0
      modifies this, board, board.cells
      ensures board.Valid() && board.cells == old(board.cells) && board.winner == old(board.winner)
      ensures lastFoundMove == old(lastFoundMove)
      ensures var child := Search(MakeMoveAI(old(board.Pos()), m), depth - 1, -1, alpha, beta);
              v == child.score && board.Pos() == UndoMoveAI(child.after, m).(blocks := old(board.Pos()).blocks)
      decreases depth, 0
    {
      ghost var p := board.Pos();
      var oldBlocks := board.CopyBlocks();
      board.MakeMoveAI(m);
      ghost var mid := board.Pos();
      assert mid == MakeMoveAI(p, m);
      ghost var child;
      v, child := FindMoveAt(board, depth - 1, false, -1, alpha, beta);
      board.UndoMoveAI(m);
      board.SetBlocks(oldBlocks);
      assert board.Pos() == UndoMoveAI(child.after, m).(blocks := p.blocks);
    }

    /** The maximizing branch of `findMove`: the loop over the moves of White. */
    method MaximizeOver(board: Board, depth: nat, alpha: int, beta: int)
      returns (score: int, best: Option<Move>)
      requires board.Valid() && depth > 0
      modifies this, board, board.cells
      ensures board.Valid() && board.cells == old(board.cells) && board.winner == old(board.winner)
      ensures lastFoundMove == old(lastFoundMove)
      ensures var q := old(board.Pos());
              SameResult(Outcome(score, board.Pos(), best, [], false),
                         MaxLoop(q, Moves(q), 0, depth, alpha, beta, -INFTY, None))
      decreases depth, 1
    {
      ghost var q := board.Pos();
      var moves := board.GetMoves();
      ghost var goal := MaxLoop(q, moves, 0, depth, alpha, beta, -INFTY, None);
      var s, a := -INFTY, alpha;
      best := None;
      var i := 0;
      while i < |moves|
        invariant 0 <= i <= |moves|
        invariant board.Valid() && board.cells == old(board.cells) && board.winner == old(board.winner)
        invariant lastFoundMove == old(lastFoundMove)
        invariant SameResult(MaxLoop(board.Pos(), moves, i, depth, a, beta, s, best), goal)
      {
        ghost var p, s0, best0, a0 := board.Pos(), s, best, a;
        ghost var child := Search(MakeMoveAI(p, moves[i]), depth - 1, -1, a, beta);
        var m := moves[i];
        var v := SearchReply(board, m, depth, a, beta);
        MaxLoopTurn(p, moves, i, depth, a0, beta, s0, best0, v, child.after);
        if v > s {
          s := v;
          best := Some(m);
        }
        a := Max(a, s);
        if beta <= a {
          break;
        }
        i := i + 1;
      }
      score := s;
    }

    /** The minimizing branch of `findMove`: the loop over the moves of Black. */
    method MinimizeOver(board: Board, depth: nat, alpha: int, beta: int)
      returns (score: int, best: Option<Move>)
      requires board.Valid() && depth > 0
      modifies this, board, board.cells
      ensures board.Valid() && board.cells == old(board.cells) && board.winner == old(board.winner)
      ensures lastFoundMove == old(lastFoundMove)
      ensures var q := old(board.Pos());
              SameResult(Outcome(score, board.Pos(), best, [], false),
                         MinLoop(q, Moves(q), 0, depth, alpha, beta, INFTY, None))
      decreases depth, 1
    {
      ghost var q := board.Pos();
      var moves := board.GetMoves();
      ghost var goal := MinLoop(q, moves, 0, depth, alpha, beta, INFTY, None);
      var s, b := INFTY, beta;
      best := None;
      var i := 0;
      while i < |moves|
        invariant 0 <= i <= |moves|
        invariant board.Valid() && board.cells == old(board.cells) && board.winner == old(board.winner)
        invariant lastFoundMove == old(lastFoundMove)
        invariant SameResult(MinLoop(board.Pos(), moves, i, depth, alpha, b, s, best), goal)
      {
        ghost var p, s0, best0, b0 := board.Pos(), s, best, b;
        ghost var child := Search(MakeMoveAI(p, moves[i]), depth - 1, -1, alpha, b);
        var m := moves[i];
        var v := SearchReply(board, m, depth, alpha, b);
        MinLoopTurn(p, moves, i, depth, alpha, b0, s0, best0, v, child.after);
        if v < s {
          s := v;
          best := Some(m);
        }
        b := Min(b, s);
        if b <= alpha {
          break;
        }
        i := i + 1;
      }
      score := s;
    }
  }
}
