/**
 * The mutable Qirkat board: a 25-cell array, the side to move, the
 * game-over flag, the winner and the list of horizontal blocks.  Each
 * method is proved against the function of BoardRules that specifies it,
 * through the ghost view `Pos()`.
 */
module Boards {
  import opened Wrappers
  import opened PieceColor
  import opened Squares
  import opened Tables
  import BoardRules
  import opened RulesFacts
  import opened JumpChains

  type Cells = BoardRules.Cells
  type Block = BoardRules.Block
  type Position = BoardRules.Position

  /** Why `setPieces` refuses its arguments (its IllegalArgumentException). */
  datatype SetupError = BadPlayerColor | BadBoardDescription

  class Board {
    var cells: array<Piece>
    var whoseMove: Color
    var gameOver: bool
    var winner: Option<Color>
    var horizontalBlocks: seq<Block>

    ghost predicate Valid()
      reads this
    {
      cells.Length == 25
    }

    /** The contents of the 25 squares. */
    ghost function Cells(): Cells
      reads this, cells
      requires Valid()
    {
      cells[..]
    }

    /** The position this board holds. */
    ghost function Pos(): Position
      reads this, cells
      requires Valid()
    {
      BoardRules.Position(cells[..], whoseMove, gameOver, horizontalBlocks)
    }

    /** `Board()`: a new board cleared to the starting position. */
    constructor ()
      ensures Valid() && fresh(cells)
      ensures Pos() == BoardRules.Position(BoardRules.LayoutCells(BoardRules.INIT_LAYOUT), White, false, [])
      ensures winner == None
    {
      cells := new Piece[25](_ => Empty);
      whoseMove := White;
      gameOver := false;
      winner := None;
      horizontalBlocks := [];
      new;
      Clear();
    }

    /** `Board(Board b)`: a copy of B's position, with no winner recorded. */
    constructor Copy(b: Board)
      requires b.Valid()
      ensures Valid() && fresh(cells)
      ensures Pos() == b.Pos() && winner == None
    {
      whoseMove := b.whoseMove;
      gameOver := b.gameOver;
      winner := None;
      horizontalBlocks := [] + b.horizontalBlocks;
      var a := new Piece[25](_ => Empty);
      var k := 0;
      while k < 25
        invariant 0 <= k <= 25
        invariant forall j :: 0 <= j < k ==> a[j] == b.cells[j]
      {
        a[k] := b.cells[k];
        k := k + 1;
      }
      cells := a;
    }

    /**
     * `clear`: White to move, game not over, no blocks, pieces in their
     * starting layout; the recorded winner is left as it was.
     */
    method Clear()
      requires Valid()
      modifies this, cells
      ensures Valid() && cells == old(cells)
      ensures Pos() == BoardRules.Position(BoardRules.LayoutCells(BoardRules.INIT_LAYOUT), White, false, [])
      ensures winner == old(winner)
    {
      whoseMove := White;
      gameOver := false;
      horizontalBlocks := [];
      InitLayoutValid();
      var err := SetPieces(BoardRules.INIT_LAYOUT, whoseMove);
      match err {
        case None =>
        case Some(e) =>
          match e {
            case BadPlayerColor => assert false;
            case BadBoardDescription => assert false;
          }
      }
    }

    /**
     * `setPieces(str, nextMove)`: refuses an empty side to move, then a
     * description that is not 25 of `b`, `w`, `-` once whitespace is
     * removed, changing nothing in either case; otherwise installs the
     * layout and the side to move and empties the block list.  The
     * game-over flag and the winner are left as they were.
     */
    method SetPieces(str: string, nextMove: Piece) returns (err: Option<SetupError>)
      requires Valid()
      modifies this, cells
      ensures Valid() && cells == old(cells) && winner == old(winner)
      ensures err == Some(BadPlayerColor) <==> nextMove == Empty
      ensures err == Some(BadBoardDescription)
          <==> nextMove != Empty && !BoardRules.IsLayout(BoardRules.StripWhitespace(str))
      ensures err.Some? ==> Pos() == old(Pos())
      ensures err.None? ==>
        BoardRules.IsLayout(BoardRules.StripWhitespace(str)) && nextMove != Empty
        && Pos() == BoardRules.Position(BoardRules.LayoutCells(BoardRules.StripWhitespace(str)), nextMove, old(gameOver), [])
    {
      if nextMove == Empty {
        return Some(BadPlayerColor);
      }
      var s := BoardRules.StripWhitespace(str);
      if !(|s| == 25 && forall i :: 0 <= i < 25 ==> s[i] in "bw-") {
        return Some(BadBoardDescription);
      }
      whoseMove := nextMove;
      var k := 0;
      while k < |s|
        invariant 0 <= k <= 25
        invariant Valid() && cells == old(cells) && winner == old(winner) && gameOver == old(gameOver)
        invariant whoseMove == nextMove
        invariant forall j :: 0 <= j < k ==> cells[j] == BoardRules.PieceOf(s[j])
      {
        match s[k] {
          case '-' => cells[k] := Empty;
          case 'b' => cells[k] := Black;
          case 'B' => cells[k] := Black;
          case 'w' => cells[k] := White;
          case 'W' => cells[k] := White;
          case _ =>
        }
        k := k + 1;
      }
      horizontalBlocks := [];
      err := None;
      assert Cells() == BoardRules.LayoutCells(s);
    }

    /** `get(k)`: the contents of square K. */
    function Get(k: Square): (p: Piece)
      reads this, cells
      requires Valid()
    {
      cells[k]
    }

    /** `set(k, v)`: square K now holds V and no other square changes. */
    method Set(k: Square, v: Piece)
      requires Valid()
      modifies cells
      ensures Cells() == old(Cells())[k := v]
      ensures Get(k) == v
    {
      cells[k] := v;
    }

    // -------------------------------------------------------------------
    // Blocks

    /** `blocks(k)`: the destinations square K may not step to laterally. */
    method Blocks(k: Square) returns (result: seq<Square>)
      ensures result == BoardRules.BlocksOf(horizontalBlocks, k)
    {
      result := [];
      var i := 0;
      while i < |horizontalBlocks|
        invariant 0 <= i <= |horizontalBlocks|
        invariant result == BoardRules.BlocksOf(horizontalBlocks[..i], k)
      {
        assert horizontalBlocks[..i + 1][..i] == horizontalBlocks[..i];
        if horizontalBlocks[i].key == k {
          result := result + [horizontalBlocks[i].dest];
        }
        i := i + 1;
      }
      assert horizontalBlocks[..i] == horizontalBlocks;
    }

    /** `updateBlocks(old, curr)`: rekey the blocks of PREV to CURR in place. */
    method UpdateBlocks(prev: Square, curr: Square)
      modifies this
      ensures horizontalBlocks == BoardRules.Rekey(old(horizontalBlocks), prev, curr)
      ensures cells == old(cells) && whoseMove == old(whoseMove)
      ensures gameOver == old(gameOver) && winner == old(winner)
    {
      var i := 0;
      while i < |horizontalBlocks|
        invariant 0 <= i <= |horizontalBlocks| == |old(horizontalBlocks)|
        invariant forall j :: 0 <= j < |horizontalBlocks| ==>
          horizontalBlocks[j] == if j < i then BoardRules.Rekey(old(horizontalBlocks), prev, curr)[j] else old(horizontalBlocks)[j]
        invariant cells == old(cells) && whoseMove == old(whoseMove)
        invariant gameOver == old(gameOver) && winner == old(winner)
      {
        if horizontalBlocks[i].key == prev {
          horizontalBlocks := horizontalBlocks[i := BoardRules.Block(curr, horizontalBlocks[i].dest)];
        }
        i := i + 1;
      }
    }

    /** `clearHorizontalBlocks(k)`: drop every block keyed K. */
    method ClearHorizontalBlocks(k: Square)
      modifies this
      ensures horizontalBlocks == BoardRules.WithoutKey(old(horizontalBlocks), k)
      ensures cells == old(cells) && whoseMove == old(whoseMove)
      ensures gameOver == old(gameOver) && winner == old(winner)
    {
      var kept := [];
      var i := 0;
      while i < |horizontalBlocks|
        invariant 0 <= i <= |horizontalBlocks|
        invariant kept == BoardRules.WithoutKey(horizontalBlocks[..i], k)
      {
        assert horizontalBlocks[..i + 1][..i] == horizontalBlocks[..i];
        if horizontalBlocks[i].key != k {
          kept := kept + [horizontalBlocks[i]];
        }
        i := i + 1;
      }
      assert horizontalBlocks[..i] == horizontalBlocks;
      horizontalBlocks := kept;
    }

    /** `copyBlocks()`: a copy of the block list. */
    method CopyBlocks() returns (copy: seq<Block>)
      ensures copy == horizontalBlocks
    {
      copy := [];
      var i := 0;
      while i < |horizontalBlocks|
        invariant 0 <= i <= |horizontalBlocks|
        invariant copy == horizontalBlocks[..i]
      {
        copy := copy + [horizontalBlocks[i]];
        i := i + 1;
      }
    }

    /** `setBlocks(blocks)`: install BS as the block list. */
    method SetBlocks(bs: seq<Block>)
      modifies this
      ensures horizontalBlocks == bs
      ensures cells == old(cells) && whoseMove == old(whoseMove)
      ensures gameOver == old(gameOver) && winner == old(winner)
    {
      horizontalBlocks := bs;
    }

    /** `setWhoseMove(c)`. */
    method SetWhoseMove(c: Color)
      modifies this
      ensures whoseMove == c
      ensures cells == old(cells) && horizontalBlocks == old(horizontalBlocks)
      ensures gameOver == old(gameOver) && winner == old(winner)
    {
      whoseMove := c;
    }

    // -------------------------------------------------------------------
    // Jumps

    /** `jumpPossible(k)`: some jump from K is available to the side to move. */
    method JumpPossibleAt(k: Square) returns (b: bool)
      requires Valid()
      ensures b == BoardRules.JumpPossibleAt(Cells(), whoseMove, k)
    {
      var ts := JumpTo[k];
      var i := 0;
      while i < |ts|
        invariant 0 <= i <= |ts|
        invariant forall j :: 0 <= j < i ==> !BoardRules.JumpSegment(Cells(), whoseMove, k, ts[j])
      {
        if cells[ts[i]] == Empty && cells[JumpedIndex(k, ts[i])] == Opposite(whoseMove) {
          assert BoardRules.JumpSegment(Cells(), whoseMove, k, ts[i]);
          return true;
        }
        i := i + 1;
      }
      forall t: Square
        ensures !BoardRules.JumpSegment(Cells(), whoseMove, k, t)
      {
        if t in ts {
          var j :| 0 <= j < |ts| && ts[j] == t;
        }
      }
      return false;
    }

    /** `jumpPossible()`: some piece of the side to move has a jump. */
    method JumpPossible() returns (b: bool)
      requires Valid()
      ensures b == BoardRules.JumpPossible(Cells(), whoseMove)
    {
      var k := 0;
      while k <= 24
        invariant 0 <= k <= 25
        invariant forall j: Square :: j < k ==> !(cells[j] == whoseMove && BoardRules.JumpPossibleAt(Cells(), whoseMove, j))
      {
        if cells[k] == whoseMove {
          var here := JumpPossibleAt(k);
          if here {
            return true;
          }
        }
        k := k + 1;
      }
      return false;
    }

    /** `partialJump(mov)`: make the first segment of MOV as a capture. */
    method PartialJump(mov: Move)
      requires Valid()
      modifies cells
      ensures Cells() == BoardRules.PartialJump(old(Cells()), whoseMove, From(mov), To(mov))
    {
      cells[From(mov)] := Empty;
      cells[JumpedIndex(From(mov), To(mov))] := Empty;
      cells[To(mov)] := whoseMove;
    }

    /** `undoPartialJump(mov)`: take back the first segment of MOV. */
    method UndoPartialJump(mov: Move)
      requires Valid()
      modifies cells
      ensures Cells() == BoardRules.UndoPartialJump(old(Cells()), whoseMove, From(mov), To(mov))
    {
      cells[From(mov)] := whoseMove;
      cells[JumpedIndex(From(mov), To(mov))] := Opposite(whoseMove);
      cells[To(mov)] := Empty;
    }

    /**
     * `getJumps(moves, from)`: the jump sequences from FROM, found by
     * making each available jump, searching on, and taking it back; the
     * cells are as they were on return.
     */
    method GetJumps(from: Square) returns (moves: seq<Move>)
      requires Valid() && cells[from] == whoseMove
      modifies cells
      ensures Cells() == old(Cells())
      ensures moves == BoardRules.Jumps(old(Cells()), whoseMove, from)
      decreases BoardRules.Count(Cells(), Opposite(whoseMove)), 1
    {
      ghost var c := Cells();
      var ts := JumpTo[from];
      moves := [];
      var i := 0;
      while i < |ts|
        invariant 0 <= i <= |ts|
        invariant Cells() == c
        invariant moves == BoardRules.JumpsUpTo(c, whoseMove, from, i)
      {
        var found := JumpsThrough(from, ts[i]);
        moves := moves + found;
        i := i + 1;
      }
    }

    /**
     * One iteration of `getJumps(moves, from)` for the landing TO: when the
     * jump is available, make it, search on from TO, and take it back.
     */
    method JumpsThrough(from: Square, to: Square) returns (found: seq<Move>)
      requires Valid() && cells[from] == whoseMove && to in JumpTo[from]
      modifies cells
      ensures Cells() == old(Cells())
      ensures found == BoardRules.JumpsVia(old(Cells()), whoseMove, from, to)
      decreases BoardRules.Count(Cells(), Opposite(whoseMove)), 0
    {
      ghost var c := Cells();
      found := [];
      if cells[to] == Empty && cells[JumpedIndex(from, to)] == Opposite(whoseMove) {
        assert BoardRules.JumpSegment(c, whoseMove, from, to);
        var partial: Move := [from, to];
        PartialJump(partial);
        BoardRules.PartialJumpCaptures(c, whoseMove, from, to);
        var tails := GetJumps(to);
        UndoPartialJump(partial);
        UndoPartialJumpInverts(c, whoseMove, from, to);
        found := AddJumps(found, partial, tails);
      }
    }

    /**
     * The tail of one iteration of `getJumps`: the single jump PARTIAL when
     * there are no continuations, else PARTIAL followed by each of TAILS.
     */
    static method AddJumps(moves: seq<Move>, partial: Move, tails: seq<Move>) returns (r: seq<Move>)
      requires forall t :: t in tails ==> From(t) == Last(partial)
      ensures r == moves + (if tails == [] then [partial] else BoardRules.Extend(partial, tails))
    {
      r := moves;
      if tails == [] {
        r := r + [partial];
      }
      var j := 0;
      while j < |tails|
        invariant 0 <= j <= |tails|
        invariant r == moves + (if tails == [] then [partial] else BoardRules.Extend(partial, tails[..j]))
      {
        assert BoardRules.Extend(partial, tails[..j + 1])
            == BoardRules.Extend(partial, tails[..j]) + [Concat(partial, tails[j])];
        r := r + [Concat(partial, tails[j])];
        j := j + 1;
      }
      assert tails[..j] == tails;
    }

    /** `getNonMoves()`: the jump sequences of all pieces of the side to move. */
    method GetNonMoves() returns (moves: seq<Move>)
      requires Valid()
      modifies cells
      ensures Cells() == old(Cells())
      ensures moves == BoardRules.NonMoves(old(Cells()), whoseMove)
    {
      moves := [];
      var k := 0;
      while k < 25
        invariant 0 <= k <= 25
        invariant Cells() == old(Cells())
        invariant moves == BoardRules.NonMovesUpTo(Cells(), whoseMove, k)
      {
        if cells[k] == whoseMove {
          var js := GetJumps(k);
          moves := moves + js;
        }
        k := k + 1;
      }
    }

    /** `getMoves(moves, k)`: the simple moves of the piece on K. */
    method GetSimpleMoves(k: Square) returns (moves: seq<Move>)
      requires Valid()
      ensures moves == BoardRules.SimpleMovesFrom(Cells(), whoseMove, horizontalBlocks, k)
    {
      var ts: seq<Square>;
      if cells[k] == White {
        ts := WhiteMoveTo[k];
      } else if cells[k] == Black {
        ts := BlackMoveTo[k];
      } else {
        return [];
      }
      moves := StepsAlong(k, ts);
    }

    /** The loop of `getMoves(moves, k)` over the table row TS of the piece on K. */
    method StepsAlong(k: Square, ts: seq<Square>) returns (moves: seq<Move>)
      requires Valid()
      ensures moves == BoardRules.StepsFrom(Cells(), whoseMove, horizontalBlocks, k, ts)
    {
      moves := [];
      var j := 0;
      while j < |ts|
        invariant 0 <= j <= |ts|
        invariant moves == BoardRules.StepsFrom(Cells(), whoseMove, horizontalBlocks, k, ts[..j])
      {
        var i := ts[j];
        assert ts[..j + 1][..j] == ts[..j];
        ghost var prev := moves;
        var blocked := Blocks(k);
        if i !in blocked {
          if whoseMove == White && k / 5 != 4 {
            if cells[i] == Empty && i / 5 >= k / 5 {
              moves := moves + [[k, i]];
            }
          } else if whoseMove == Black && k / 5 != 0 {
            if cells[i] == Empty && i / 5 <= k / 5 {
              moves := moves + [[k, i]];
            }
          }
        }
        assert moves == prev + (if BoardRules.StepAllowed(Cells(), whoseMove, horizontalBlocks, k, i) then [[k, i]] else []);
        j := j + 1;
      }
      assert ts[..j] == ts;
    }

    /** `getNonJumps()`: the simple moves of all pieces of the side to move. */
    method GetNonJumps() returns (moves: seq<Move>)
      requires Valid()
      ensures moves == BoardRules.NonJumps(Cells(), whoseMove, horizontalBlocks)
    {
      moves := [];
      var k := 0;
      while k < 25
        invariant 0 <= k <= 25
        invariant moves == BoardRules.NonJumpsUpTo(Cells(), whoseMove, horizontalBlocks, k)
      {
        if cells[k] == whoseMove {
          var ms := GetSimpleMoves(k);
          moves := moves + ms;
        }
        k := k + 1;
      }
    }

    /** `getMoves()`: the moves available in this position. */
    method GetMoves() returns (moves: seq<Move>)
      requires Valid()
      modifies cells
      ensures Cells() == old(Cells())
      ensures moves == BoardRules.Moves(old(Pos()))
    {
      if gameOver {
        return [];
      }
      var jp := JumpPossible();
      if jp {
        moves := GetNonMoves();
      } else {
        moves := GetNonJumps();
      }
    }

    // -------------------------------------------------------------------
    // Legality

    /** `checkJumpRecursive(mov)`: every segment of MOV is available on these cells. */
    method CheckJumpRecursive(mov: Option<Move>) returns (ok: bool)
      requires Valid()
      ensures ok == BoardRules.CheckJumpRecursive(Cells(), whoseMove, mov)
      decreases if mov.Some? then |mov.value| else 0
    {
      if mov.None? {
        return true;
      }
      var m := mov.value;
      var from, to := From(m), To(m);
      ok := to in JumpTo[from] && cells[JumpedIndex(from, to)] == Opposite(whoseMove) && cells[to] == Empty;
      if ok {
        ok := CheckJumpRecursive(JumpTail(m));
      }
    }

    /**
     * `checkJump(mov, allowPartial)`: the first segment is available and,
     * when ALLOWPARTIAL, so is each later one, checked on a copy of the
     * board.
     */
    method CheckJump(mov: Move, allowPartial: bool) returns (ok: bool)
      requires Valid()
      ensures ok == BoardRules.CheckJump(Cells(), whoseMove, mov, allowPartial)
    {
      var from, to := From(mov), To(mov);
      if to in JumpTo[from] && cells[JumpedIndex(from, to)] == Opposite(whoseMove) && cells[to] == Empty {
        if !allowPartial {
          return true;
        }
        var copy := new Board.Copy(this);
        ok := copy.CheckJumpRecursive(JumpTail(mov));
        return ok;
      }
      return false;
    }

    /** `legalMove(mov)`. */
    method LegalMove(mov: Move) returns (ok: bool)
      requires Valid()
      ensures ok == BoardRules.LegalMove(Pos(), mov)
    {
      var from, to := From(mov), To(mov);
      var jp := JumpPossible();
      if jp && !IsJump(mov) {
        return false;
      }
      var blocked := Blocks(from);
      if IsLateral(mov) && to in blocked {
        return false;
      }
      if cells[to] == Empty && cells[from] == whoseMove {
        if !IsJump(mov) {
          if whoseMove == White {
            return to in WhiteMoveTo[from];
          } else {
            return to in BlackMoveTo[from];
          }
        } else {
          ok := CheckJump(mov, JumpTail(mov).Some?);
          return ok;
        }
      }
      return false;
    }

    /** `legalSetupMove(mov)`. */
    method LegalSetupMove(mov: Move) returns (ok: bool)
      requires Valid()
      ensures ok == BoardRules.LegalSetupMove(Pos(), mov)
    {
      var from, to := From(mov), To(mov);
      if cells[to] == Empty && cells[from] == whoseMove {
        if !IsJump(mov) {
          if whoseMove == White {
            return to in WhiteMoveTo[from];
          } else {
            return to in BlackMoveTo[from];
          }
        } else {
          ok := CheckJump(mov, JumpTail(mov).Some?);
          return ok;
        }
      }
      return false;
    }

    // -------------------------------------------------------------------
    // Making moves

    /** `makeJumpTail(mov)`: play the remaining jumps of a multi-jump. */
    method MakeJumpTail(mov: Move)
      requires Valid()
      modifies cells
      ensures Cells() == BoardRules.MakeJumpTail(old(Cells()), whoseMove, mov)
      decreases |mov|
    {
      cells[To(mov)] := whoseMove;
      cells[From(mov)] := Empty;
      cells[JumpedIndex(From(mov), To(mov))] := Empty;
      match JumpTail(mov)
      case None =>
      case Some(t) => MakeJumpTail(t);
    }

    /** `makeMove(mov)`: play MOV, assumed legal, and pass the turn. */
    method MakeMove(mov: Move)
      requires Valid()
      modifies this, cells
      ensures Valid() && cells == old(cells) && winner == old(winner)
      ensures Pos() == BoardRules.MakeMove(old(Pos()), mov)
    {
      var from, to := From(mov), To(mov);
      cells[from] := Empty;
      cells[to] := whoseMove;
      if IsLateral(mov) {
        horizontalBlocks := horizontalBlocks + [BoardRules.Block(to, from)];
      }
      if IsJump(mov) {
        ClearHorizontalBlocks(from);
        cells[JumpedIndex(from, to)] := Empty;
      } else {
        UpdateBlocks(from, to);
      }
      ghost var c2 := Cells();
      match JumpTail(mov) {
        case None =>
        case Some(t) =>
          MakeJumpTail(t);
          assert Cells() == BoardRules.MakeJumpTail(c2, whoseMove, t);
      }
      whoseMove := Opposite(whoseMove);
    }

    /**
     * `makeMoveAI(mov)`: play MOV for the search, leaving the opponent's
     * colour on each jumped square and the turn unchanged.
     */
    method MakeMoveAI(mov: Move)
      requires Valid()
      modifies this, cells
      ensures Valid() && cells == old(cells) && winner == old(winner)
      ensures Pos() == BoardRules.MakeMoveAI(old(Pos()), mov)
      decreases |mov|
    {
      var from, to := From(mov), To(mov);
      cells[from] := Empty;
      cells[to] := whoseMove;
      if IsLateral(mov) {
        horizontalBlocks := horizontalBlocks + [BoardRules.Block(to, from)];
      }
      if !IsJump(mov) {
        UpdateBlocks(from, to);
      } else {
        cells[JumpedIndex(from, to)] := Opposite(whoseMove);
        match JumpTail(mov)
        case None =>
        case Some(t) => MakeMoveAI(t);
      }
    }

    /** `undoMoveAI(mov)`: the search's take-back of MOV. */
    method UndoMoveAI(mov: Move)
      requires Valid()
      modifies cells
      ensures Pos() == BoardRules.UndoMoveAI(old(Pos()), mov)
      decreases |mov|
    {
      var from, to := From(mov), To(mov);
      cells[from] := Opposite(whoseMove);
      cells[to] := Empty;
      if IsJump(mov) {
        cells[JumpedIndex(from, to)] := whoseMove;
        match JumpTail(mov)
        case None =>
        case Some(t) => UndoMoveAI(t);
      }
    }

    // -------------------------------------------------------------------
    // Evaluation and end of game

    /** `staticScore()`: white pieces minus black pieces. */
    method StaticScore() returns (score: int)
      requires Valid()
      ensures score == BoardRules.StaticScore(Cells())
    {
      var numWhite, numBlack := 0, 0;
      var i := 0;
      while i < 25
        invariant 0 <= i <= 25
        invariant numWhite == BoardRules.Count(cells[..i], White)
        invariant numBlack == BoardRules.Count(cells[..i], Black)
      {
        assert cells[..i + 1][..i] == cells[..i];
        if cells[i] == White {
          numWhite := numWhite + 1;
        } else if cells[i] == Black {
          numBlack := numBlack + 1;
        }
        i := i + 1;
      }
      assert cells[..i] == cells[..];
      score := numWhite - numBlack;
    }

    /** `killed()`: the side to move has no piece left. */
    method Killed() returns (k: bool)
      requires Valid()
      ensures k == BoardRules.Killed(Pos())
    {
      var i := 0;
      while i < 25
        invariant 0 <= i <= 25
        invariant forall j :: 0 <= j < i ==> cells[j] != whoseMove
      {
        if cells[i] == whoseMove {
          return false;
        }
        i := i + 1;
      }
      return true;
    }

    /** `cantMove()`: no move is generated and no jump is possible. */
    method CantMove() returns (b: bool)
      requires Valid()
      modifies cells
      ensures Cells() == old(Cells())
      ensures b == BoardRules.CantMove(old(Pos()))
    {
      var moves := GetMoves();
      if moves == [] {
        var jp := JumpPossible();
        return !jp;
      }
      return false;
    }

    /**
     * `checkEndGame()`: when the side to move has no pieces or cannot
     * move, the game is over and its opponent is the winner.
     */
    method CheckEndGame() returns (ended: bool)
      requires Valid()
      modifies this, cells
      ensures Valid() && cells == old(cells) && Cells() == old(Cells())
      ensures ended == (BoardRules.Killed(old(Pos())) || BoardRules.CantMove(old(Pos())))
      ensures whoseMove == old(whoseMove) && horizontalBlocks == old(horizontalBlocks)
      ensures ended ==> gameOver && winner == Some(Opposite(whoseMove))
      ensures !ended ==> gameOver == old(gameOver) && winner == old(winner)
    {
      var k := Killed();
      var over := k;
      if !over {
        over := CantMove();
      }
      if over {
        winner := Some(Opposite(whoseMove));
        gameOver := true;
        return true;
      }
      return false;
    }

    // -------------------------------------------------------------------
    // Rendering

    /** `toString()`: the rows from top to bottom, two characters per square. */
    method ToString() returns (out: string)
      requires Valid()
      ensures out == BoardRules.Render(Cells())
    {
      out := "";
      var r := 4;
      while r >= 0
        invariant -1 <= r <= 4
        invariant out == BoardRules.RowsAbove(Cells(), r)
      {
        var row := " ";
        var c := 0;
        while c < 5
          invariant 0 <= c <= 5
          invariant row == BoardRules.RowText(Cells(), r, c)
        {
          row := row + [' ', BoardRules.Glyph(cells[r * 5 + c])];
          c := c + 1;
        }
        out := out + row + (if r > 0 then "\n" else "");
        r := r - 1;
      }
    }
  }

  /** The starting layout is a valid description with no whitespace to strip. */
  lemma InitLayoutValid()
    ensures BoardRules.StripWhitespace(BoardRules.INIT_LAYOUT) == BoardRules.INIT_LAYOUT
    ensures BoardRules.IsLayout(BoardRules.INIT_LAYOUT)
  {
    NoWhitespaceUnchanged(BoardRules.INIT_LAYOUT);
  }

  /** Stripping whitespace from a string without any leaves it unchanged. */
  lemma {:induction false} NoWhitespaceUnchanged(s: string)
    requires forall i :: 0 <= i < |s| ==> s[i] in "bw-"
    ensures BoardRules.StripWhitespace(s) == s
  {
    if s != [] {
      NoWhitespaceUnchanged(s[..|s| - 1]);
      assert s == s[..|s| - 1] + [s[|s| - 1]];
    }
  }
}
