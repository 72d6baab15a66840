/**
 * The rules of Qirkat as pure functions over a position value: what the
 * `Board` class computes, stated without its mutable array.  The class in
 * board.dfy is proved against these functions, and the lemmas in
 * rules_facts.dfy and jump_chains.dfy state what they promise.
 */
module BoardRules {
  import opened Wrappers
  import opened PieceColor
  import opened Squares
  import opened Tables

  /** The 25 squares' contents, indexed by linearized square. */
  type Cells = s: seq<Piece> | |s| == 25 witness seq(25, _ => Empty)

  /**
   * One entry of `horizontalBlocks`: the piece now on KEY may not step
   * laterally to DEST.
   */
  datatype Block = Block(key: Square, dest: Square)

  /** The state a `Board` holds, apart from the recorded winner. */
  datatype Position = Position(cells: Cells, whoseMove: Color, gameOver: bool, blocks: seq<Block>)

  // ---------------------------------------------------------------------
  // Counting and static evaluation

  /** The number of squares of S holding P. */
  function Count(s: seq<Piece>, p: Piece): (n: nat)
    ensures n <= |s|
  {
    if s == [] then 0 else Count(s[..|s| - 1], p) + (if s[|s| - 1] == p then 1 else 0)
  }

  /** `staticScore`: the number of White pieces minus the number of Black pieces. */
  function StaticScore(c: Cells): int
  {
    Count(c, White) - Count(c, Black)
  }

  // ---------------------------------------------------------------------
  // Horizontal blocks

  /** `blocks(k)`: the forbidden destinations recorded for square K, in list order. */
  function BlocksOf(bs: seq<Block>, k: Square): (r: seq<Square>)
    ensures |r| <= |bs|
  {
    if bs == [] then []
    else BlocksOf(bs[..|bs| - 1], k) + (if bs[|bs| - 1].key == k then [bs[|bs| - 1].dest] else [])
  }

  /** `updateBlocks(old, curr)`: every entry keyed PREV is rekeyed to CURR. */
  function Rekey(bs: seq<Block>, prev: Square, curr: Square): (r: seq<Block>)
  {
    seq(|bs|, i requires 0 <= i < |bs| => if bs[i].key == prev then Block(curr, bs[i].dest) else bs[i])
  }

  /** `clearHorizontalBlocks(k)`: the list without the entries keyed K. */
  function WithoutKey(bs: seq<Block>, k: Square): (r: seq<Block>)
    ensures |r| <= |bs|
  {
    if bs == [] then []
    else WithoutKey(bs[..|bs| - 1], k) + (if bs[|bs| - 1].key == k then [] else [bs[|bs| - 1]])
  }

  // ---------------------------------------------------------------------
  // Jumps

  /**
   * A single jump FROM-TO is available to MOVER: TO is a jump landing of
   * FROM, TO is empty and the square between holds an opponent.
   */
  predicate JumpSegment(c: Cells, mover: Color, from: Square, to: Square)
  {
    to in JumpTo[from] && c[to] == Empty && c[JumpedIndex(from, to)] == Opposite(mover)
  }

  /** `jumpPossible(k)`: some single jump from K is available. */
  predicate JumpPossibleAt(c: Cells, mover: Color, k: Square)
  {
    exists t: Square :: JumpSegment(c, mover, k, t)
  }

  /** `jumpPossible()`: some piece of MOVER has a jump available. */
  predicate JumpPossible(c: Cells, mover: Color)
  {
    exists k: Square :: c[k] == mover && JumpPossibleAt(c, mover, k)
  }

  /** `partialJump`: empty the origin and the jumped square, put MOVER on TO. */
  function PartialJump(c: Cells, mover: Color, from: Square, to: Square): Cells
  {
    c[from := Empty][JumpedIndex(from, to) := Empty][to := mover]
  }

  /**
   * `undoPartialJump`: MOVER back on the origin, an opponent back on the
   * jumped square, TO emptied.
   */
  function UndoPartialJump(c: Cells, mover: Color, from: Square, to: Square): Cells
  {
    c[from := mover][JumpedIndex(from, to) := Opposite(mover)][to := Empty]
  }

  /** `Move.move(partial, tail)` for each tail, in order. */
  function Extend(partial: Move, tails: seq<Move>): (r: seq<Move>)
    requires forall m :: m in tails ==> From(m) == Last(partial)
    ensures |r| == |tails|
    ensures forall j :: 0 <= j < |tails| ==> r[j] == Concat(partial, tails[j])
  {
    seq(|tails|, j requires 0 <= j < |tails| => Concat(partial, tails[j]))
  }

  /**
   * `getJumps(moves, from)`: the jump sequences from FROM, trying the
   * landings of `jumpTo[from]` in table order.
   */
  function Jumps(c: Cells, mover: Color, from: Square): (r: seq<Move>)
    ensures forall m :: m in r ==> From(m) == from
    decreases Count(c, Opposite(mover)), 2, 0
  {
    JumpsUpTo(c, mover, from, |JumpTo[from]|)
  }

  /** The jump sequences through the first N landings of `jumpTo[from]`. */
  function JumpsUpTo(c: Cells, mover: Color, from: Square, n: nat): (r: seq<Move>)
    requires n <= |JumpTo[from]|
    ensures forall m :: m in r ==> From(m) == from
    decreases Count(c, Opposite(mover)), 1, n
  {
    if n == 0 then []
    else JumpsUpTo(c, mover, from, n - 1) + JumpsVia(c, mover, from, JumpTo[from][n - 1])
  }

  /**
   * One iteration of `getJumps`: if the jump FROM-TO is available, jump,
   * collect the continuations from TO, and record the single jump when
   * there are none, or else the single jump followed by each continuation.
   */
  function JumpsVia(c: Cells, mover: Color, from: Square, to: Square): (r: seq<Move>)
    ensures forall m :: m in r ==> From(m) == from
    decreases Count(c, Opposite(mover)), 0, 0
  {
    if JumpSegment(c, mover, from, to) then
      PartialJumpCaptures(c, mover, from, to);
      var tails := Jumps(PartialJump(c, mover, from, to), mover, to);
      if tails == [] then [[from, to]] else Extend([from, to], tails)
    else []
  }

  /** A partial jump removes at least one opponent piece. */
  lemma PartialJumpCaptures(c: Cells, mover: Color, from: Square, to: Square)
    requires JumpSegment(c, mover, from, to)
    ensures Count(PartialJump(c, mover, from, to), Opposite(mover)) < Count(c, Opposite(mover))
  {
    JumpGeometry(from, to);
    var opp := Opposite(mover);
    var j := JumpedIndex(from, to);
    var c1 := c[from := Empty];
    var c2 := c1[j := Empty];
    CountUpdate(c, from, Empty, opp);
    CountUpdate(c1, j, Empty, opp);
    CountUpdate(c2, to, mover, opp);
  }

  /** How one update changes a count. */
  lemma {:induction false} CountUpdate(s: seq<Piece>, i: nat, v: Piece, p: Piece)
    requires i < |s|
    ensures Count(s[i := v], p)
         == Count(s, p) - (if s[i] == p then 1 else 0) + (if v == p then 1 else 0)
  {
    var n := |s| - 1;
    if i < n {
      CountUpdate(s[..n], i, v, p);
      assert s[i := v][..n] == s[..n][i := v];
    } else {
      assert s[i := v][..n] == s[..n];
    }
  }

  // ---------------------------------------------------------------------
  // Simple moves

  /** The step table a piece on K uses: White's, Black's, or none for an empty square. */
  function Targets(p: Piece, k: Square): seq<Square>
  {
    match p
    case White => WhiteMoveTo[k]
    case Black => BlackMoveTo[k]
    case Empty => []
  }

  /**
   * The filter `getMoves(moves, k)` applies to a table entry I: not
   * blocked from K, and an empty destination on the same or a further row
   * for the side to move, which may not step from its last row.
   */
  predicate StepAllowed(c: Cells, mover: Color, bs: seq<Block>, k: Square, i: Square)
  {
    i !in BlocksOf(bs, k)
    && (if mover == White then k / SIDE != 4 && c[i] == Empty && i / SIDE >= k / SIDE
        else k / SIDE != 0 && c[i] == Empty && i / SIDE <= k / SIDE)
  }

  /** The simple moves from K to the allowed squares of TS, in the order of TS. */
  function StepsFrom(c: Cells, mover: Color, bs: seq<Block>, k: Square, ts: seq<Square>): (r: seq<Move>)
    ensures forall m :: m in r ==> |m| == 2 && From(m) == k
  {
    if ts == [] then []
    else
      var i := ts[|ts| - 1];
      StepsFrom(c, mover, bs, k, ts[..|ts| - 1]) + (if StepAllowed(c, mover, bs, k, i) then [[k, i]] else [])
  }

  /** `getMoves(moves, k)`: the simple moves of the piece on K, in table order. */
  function SimpleMovesFrom(c: Cells, mover: Color, bs: seq<Block>, k: Square): seq<Move>
  {
    StepsFrom(c, mover, bs, k, Targets(c[k], k))
  }

  /** The simple moves of MOVER's pieces on the squares below N, by ascending origin. */
  function NonJumpsUpTo(c: Cells, mover: Color, bs: seq<Block>, n: nat): (r: seq<Move>)
    requires n <= 25
    ensures forall m :: m in r ==> From(m) < n
  {
    if n == 0 then []
    else NonJumpsUpTo(c, mover, bs, n - 1) + (if c[n - 1] == mover then SimpleMovesFrom(c, mover, bs, n - 1) else [])
  }

  /** `getNonJumps()`: all simple moves, by ascending origin. */
  function NonJumps(c: Cells, mover: Color, bs: seq<Block>): seq<Move>
  {
    NonJumpsUpTo(c, mover, bs, 25)
  }

  /** The jump sequences of MOVER's pieces on the squares below N, by ascending origin. */
  function NonMovesUpTo(c: Cells, mover: Color, n: nat): (r: seq<Move>)
    requires n <= 25
    ensures forall m :: m in r ==> From(m) < n
  {
    if n == 0 then []
    else NonMovesUpTo(c, mover, n - 1) + (if c[n - 1] == mover then Jumps(c, mover, n - 1) else [])
  }

  /** `getNonMoves()`: all jump sequences, by ascending origin. */
  function NonMoves(c: Cells, mover: Color): seq<Move>
  {
    NonMovesUpTo(c, mover, 25)
  }

  /**
   * `getMoves()`: nothing once the game is over; otherwise only jumps when
   * a jump is possible, and only simple moves when none is.
   */
  function Moves(p: Position): seq<Move>
  {
    if p.gameOver then []
    else if JumpPossible(p.cells, p.whoseMove) then NonMoves(p.cells, p.whoseMove)
    else NonJumps(p.cells, p.whoseMove, p.blocks)
  }

  // ---------------------------------------------------------------------
  // Legality

  /**
   * `checkJumpRecursive`: every segment of the jump tail MOV is an
   * available single jump on the board as it stands (no segment is applied
   * before the next is checked).
   */
  function CheckJumpRecursive(c: Cells, mover: Color, mov: Option<Move>): bool
    decreases if mov.Some? then |mov.value| else 0
  {
    match mov
    case None => true
    case Some(m) => JumpSegment(c, mover, From(m), To(m)) && CheckJumpRecursive(c, mover, JumpTail(m))
  }

  /**
   * `checkJump(mov, allowPartial)`: the first segment is an available
   * jump and, when ALLOWPARTIAL, so is every segment of the tail.
   */
  function CheckJump(c: Cells, mover: Color, mov: Move, allowPartial: bool): bool
  {
    if JumpSegment(c, mover, From(mov), To(mov)) then
      if !allowPartial then true else CheckJumpRecursive(c, mover, JumpTail(mov))
    else false
  }

  /** The step table of the side to move contains FROM-TO. */
  predicate InStepTable(mover: Color, from: Square, to: Square)
  {
    if mover == White then to in WhiteMoveTo[from] else to in BlackMoveTo[from]
  }

  /** `legalSetupMove`: the test of `legalMove` without the jump and block rules. */
  function LegalSetupMove(p: Position, mov: Move): bool
  {
    var from, to := From(mov), To(mov);
    if p.cells[to] == Empty && p.cells[from] == p.whoseMove then
      if !IsJump(mov) then InStepTable(p.whoseMove, from, to)
      else CheckJump(p.cells, p.whoseMove, mov, JumpTail(mov).Some?)
    else false
  }

  /** `legalMove`. */
  function LegalMove(p: Position, mov: Move): bool
  {
    var from, to := From(mov), To(mov);
    if JumpPossible(p.cells, p.whoseMove) && !IsJump(mov) then false
    else if IsLateral(mov) && to in BlocksOf(p.blocks, from) then false
    else if p.cells[to] == Empty && p.cells[from] == p.whoseMove then
      if !IsJump(mov) then InStepTable(p.whoseMove, from, to)
      else CheckJump(p.cells, p.whoseMove, mov, JumpTail(mov).Some?)
    else false
  }

  // ---------------------------------------------------------------------
  // Making moves

  /**
   * `makeJumpTail`: for each further segment, MOVER onto its destination,
   * its origin and its jumped square emptied.
   */
  function MakeJumpTail(c: Cells, mover: Color, mov: Move): Cells
    decreases |mov|
  {
    var c1 := c[To(mov) := mover][From(mov) := Empty][JumpedIndex(From(mov), To(mov)) := Empty];
    match JumpTail(mov)
    case None => c1
    case Some(t) => MakeJumpTail(c1, mover, t)
  }

  /**
   * `makeMove`: the first segment moves the piece; a lateral segment
   * records a block (to, from); a jump clears the origin's blocks and
   * empties the jumped square, a step rekeys the origin's blocks; the tail
   * is played by `makeJumpTail`; the turn passes.
   */
  function MakeMove(p: Position, mov: Move): Position
  {
    var from, to := From(mov), To(mov);
    var c1 := p.cells[from := Empty][to := p.whoseMove];
    var bs1 := if IsLateral(mov) then p.blocks + [Block(to, from)] else p.blocks;
    var c2 := if IsJump(mov) then c1[JumpedIndex(from, to) := Empty] else c1;
    var bs2 := if IsJump(mov) then WithoutKey(bs1, from) else Rekey(bs1, from, to);
    var c3 := match JumpTail(mov) case None => c2 case Some(t) => MakeJumpTail(c2, p.whoseMove, t);
    p.(cells := c3, blocks := bs2, whoseMove := Opposite(p.whoseMove))
  }

  /**
   * `makeMoveAI`: as `makeMove` for the piece and the blocks, except that
   * the jumped square receives the opponent's colour, each further
   * segment is played the same way, and the turn does not pass.
   */
  function MakeMoveAI(p: Position, mov: Move): Position
    decreases |mov|
  {
    var from, to := From(mov), To(mov);
    var c1 := p.cells[from := Empty][to := p.whoseMove];
    var bs1 := if IsLateral(mov) then p.blocks + [Block(to, from)] else p.blocks;
    if !IsJump(mov) then
      p.(cells := c1, blocks := Rekey(bs1, from, to))
    else
      var p2 := p.(cells := c1[JumpedIndex(from, to) := Opposite(p.whoseMove)], blocks := bs1);
      match JumpTail(mov)
      case None => p2
      case Some(t) => MakeMoveAI(p2, t)
  }

  /**
   * `undoMoveAI`: the origin receives the opponent of the side now to
   * move, the destination is emptied, and for a jump the jumped square
   * receives the side to move and the tail is undone the same way.
   */
  function UndoMoveAI(p: Position, mov: Move): Position
    decreases |mov|
  {
    var from, to := From(mov), To(mov);
    var c1 := p.cells[from := Opposite(p.whoseMove)][to := Empty];
    if !IsJump(mov) then p.(cells := c1)
    else
      var p2 := p.(cells := c1[JumpedIndex(from, to) := p.whoseMove]);
      match JumpTail(mov)
      case None => p2
      case Some(t) => UndoMoveAI(p2, t)
  }

  // ---------------------------------------------------------------------
  // End of game

  /** `killed()`: the side to move has no piece on the board. */
  predicate Killed(p: Position)
  {
    forall k: Square :: p.cells[k] != p.whoseMove
  }

  /** `cantMove()`: no move is generated and no jump is possible. */
  predicate CantMove(p: Position)
  {
    Moves(p) == [] && !JumpPossible(p.cells, p.whoseMove)
  }

  // ---------------------------------------------------------------------
  // Setting up and rendering

  /** The standard starting layout that `clear` installs. */
  const INIT_LAYOUT: string := "wwwwwwwwwwbb-wwbbbbbbbbbb"

  /** The characters the `\s` class of a Java regular expression matches. */
  predicate IsWhitespace(ch: char)
  {
    ch == ' ' || ch == '\t' || ch == '\n' || ch as int == 11 || ch as int == 12 || ch == '\r'
  }

  /** `str.replaceAll("\\s", "")`. */
  function StripWhitespace(s: string): (r: string)
    ensures |r| <= |s|
    ensures forall i :: 0 <= i < |r| ==> !IsWhitespace(r[i])
  {
    if s == [] then []
    else StripWhitespace(s[..|s| - 1]) + (if IsWhitespace(s[|s| - 1]) then [] else [s[|s| - 1]])
  }

  /**
   * Stripping whitespace is a filter: it works on the two halves of a
   * string separately (here), and it drops a whitespace character and keeps
   * any other (`StripWhitespaceOne`).  So the other characters all survive,
   * in their order.
   */
  lemma {:induction false} StripWhitespaceAppend(a: string, b: string)
    ensures StripWhitespace(a + b) == StripWhitespace(a) + StripWhitespace(b)
    decreases |b|
  {
    var ab := a + b;
    if b == [] {
      assert ab == a;
    } else {
      var n := |b| - 1;
      StripWhitespaceAppend(a, b[..n]);
      assert ab[..|ab| - 1] == a + b[..n];
      assert ab[|ab| - 1] == b[n];
      var last := if IsWhitespace(b[n]) then [] else [b[n]];
      assert StripWhitespace(ab) == StripWhitespace(a + b[..n]) + last;
      assert StripWhitespace(b) == StripWhitespace(b[..n]) + last;
    }
  }

  /** One character is dropped when it is whitespace and kept otherwise. */
  lemma StripWhitespaceOne(ch: char)
    ensures StripWhitespace([ch]) == if IsWhitespace(ch) then [] else [ch]
  {
    assert [ch][..0] == [];
  }

  /** `str.matches("[bw-]{25}")`. */
  predicate IsLayout(s: string)
  {
    |s| == 25 && forall i :: 0 <= i < 25 ==> s[i] in "bw-"
  }

  /** The piece one layout character stands for (the `switch` of `setPieces`). */
  function PieceOf(ch: char): Piece
  {
    if ch == 'b' || ch == 'B' then Black
    else if ch == 'w' || ch == 'W' then White
    else Empty
  }

  /** The `switch` of `setPieces` reads each piece's one-letter name back as that piece. */
  lemma PieceOfShortName(p: Piece)
    ensures PieceOf(ShortName(p)[0]) == p
    ensures ShortName(p) == "b" <==> p == Black
    ensures ShortName(p) == "w" <==> p == White
  {
  }

  /** The cells a valid layout describes, square K from character K. */
  function LayoutCells(s: string): (c: Cells)
    requires IsLayout(s)
  {
    seq(25, k requires 0 <= k < 25 => PieceOf(s[k]))
  }

  /** The one-character glyph of a piece in the board's text form. */
  function Glyph(p: Piece): char
  {
    ShortName(p)[0]
  }

  /**
   * One row of `toString(false)`: a leading blank, then a blank and a
   * glyph for each of the first N columns of row R.
   */
  function RowText(c: Cells, r: nat, n: nat): (s: string)
    requires r < 5 && n <= 5
    ensures |s| == 1 + 2 * n
  {
    if n == 0 then " " else RowText(c, r, n - 1) + [' ', Glyph(c[r * SIDE + n - 1])]
  }

  /**
   * The rows above R of `toString(false)`, top row first, each followed by
   * a newline unless it is the bottom row.
   */
  function RowsAbove(c: Cells, r: int): string
    requires -1 <= r <= 4
    decreases 4 - r
  {
    if r == 4 then ""
    else RowsAbove(c, r + 1) + RowText(c, r + 1, 5) + (if r + 1 > 0 then "\n" else "")
  }

  /** `toString(false)`: the five rows, top row (row 5) first. */
  function Render(c: Cells): string
  {
    RowsAbove(c, -1)
  }
}
