/**
 * Concrete positions and moves from the repository's unit tests, stated
 * as lemmas about the model: the starting board's text, move shapes and
 * concatenation, and the jump sequences generated in a small position.
 */
module BoardExamples {
  import opened Wrappers
  import opened PieceColor
  import opened Squares
  import opened Tables
  import opened BoardRules
  import opened JumpChains
  import opened RulesFacts

  /** The text of the starting board in the unit tests. */
  const INIT_BOARD: string :=
    "  b b b b b" + "\n" + "  b b b b b" + "\n" + "  b b - w w" + "\n" + "  w w w w w" + "\n" + "  w w w w w"

  /** A full row of `toString(false)` spelled out glyph by glyph. */
  lemma FullRow(c: Cells, r: nat)
    requires r < 5
    ensures RowText(c, r, 5)
         == [' ', ' ', Glyph(c[r * SIDE]), ' ', Glyph(c[r * SIDE + 1]), ' ', Glyph(c[r * SIDE + 2]),
             ' ', Glyph(c[r * SIDE + 3]), ' ', Glyph(c[r * SIDE + 4])]
  {
    var k := r * SIDE;
    assert RowText(c, r, 1) == [' ', ' ', Glyph(c[k])];
    assert RowText(c, r, 2) == [' ', ' ', Glyph(c[k]), ' ', Glyph(c[k + 1])];
    assert RowText(c, r, 3) == [' ', ' ', Glyph(c[k]), ' ', Glyph(c[k + 1]), ' ', Glyph(c[k + 2])];
    assert RowText(c, r, 4)
        == [' ', ' ', Glyph(c[k]), ' ', Glyph(c[k + 1]), ' ', Glyph(c[k + 2]), ' ', Glyph(c[k + 3])];
  }

  /** The rows of `toString(false)`, top row first, joined by newlines. */
  lemma RenderRows(c: Cells)
    ensures Render(c) == RowText(c, 4, 5) + "\n" + RowText(c, 3, 5) + "\n" + RowText(c, 2, 5) + "\n"
                         + RowText(c, 1, 5) + "\n" + RowText(c, 0, 5)
  {
    assert RowsAbove(c, 3) == RowText(c, 4, 5) + "\n";
    assert RowsAbove(c, 2) == RowsAbove(c, 3) + RowText(c, 3, 5) + "\n";
    assert RowsAbove(c, 1) == RowsAbove(c, 2) + RowText(c, 2, 5) + "\n";
    assert RowsAbove(c, 0) == RowsAbove(c, 1) + RowText(c, 1, 5) + "\n";
    assert RowsAbove(c, -1) == RowsAbove(c, 0) + RowText(c, 0, 5);
  }

  /** The starting position's squares: White on rows 1 and 2, Black on rows 4 and 5, row 3 `bb-ww`. */
  const INIT_CELLS: Cells :=
    [White, White, White, White, White, White, White, White, White, White,
     Black, Black, Empty, White, White,
     Black, Black, Black, Black, Black, Black, Black, Black, Black, Black]

  /** `clear` installs these squares. */
  lemma InitialCells()
    ensures IsLayout(INIT_LAYOUT)
    ensures LayoutCells(INIT_LAYOUT) == INIT_CELLS
  {
    assert forall i :: 0 <= i < 25 ==> INIT_LAYOUT[i] in "bw-";
  }

  /** Rows 1 and 2 of the starting board hold White pieces only. */
  lemma InitialWhiteRow(c: Cells, r: nat)
    requires c == INIT_CELLS && r < 2
    ensures RowText(c, r, 5) == "  w w w w w"
  {
    var k := r * SIDE;
    assert c[k] == c[k + 1] == c[k + 2] == c[k + 3] == c[k + 4] == White;
    assert Glyph(White) == 'w';
    FullRow(c, r);
  }

  /** Row 3 of the starting board is `b b - w w`. */
  lemma InitialMiddleRow(c: Cells)
    requires c == INIT_CELLS
    ensures RowText(c, 2, 5) == "  b b - w w"
  {
    assert Glyph(White) == 'w' && Glyph(Black) == 'b' && Glyph(Empty) == '-';
    FullRow(c, 2);
  }

  /** Rows 4 and 5 of the starting board hold Black pieces only. */
  lemma InitialBlackRow(c: Cells, r: nat)
    requires c == INIT_CELLS && 3 <= r < 5
    ensures RowText(c, r, 5) == "  b b b b b"
  {
    var k := r * SIDE;
    assert c[k] == c[k + 1] == c[k + 2] == c[k + 3] == c[k + 4] == Black;
    assert Glyph(Black) == 'b';
    FullRow(c, r);
  }

  /** `new Board().toString()` is the starting board's text. */
  lemma InitialBoardText()
    ensures IsLayout(INIT_LAYOUT)
    ensures Render(LayoutCells(INIT_LAYOUT)) == INIT_BOARD
  {
    InitialCells();
    var c := INIT_CELLS;
    InitialWhiteRow(c, 0);
    InitialWhiteRow(c, 1);
    InitialMiddleRow(c);
    InitialBlackRow(c, 3);
    InitialBlackRow(c, 4);
    RenderRows(c);
  }

  /** `a3-b2` is a step and `a3-a5` a jump. */
  lemma MoveShapes()
    ensures !IsJump([Index('a', '3'), Index('b', '2')])
    ensures IsJump([Index('a', '3'), Index('a', '5')])
  {
  }

  /** `c1-a1` + `a1-a3` + `a3-c5` + `c5-c3`, grouped either way, is `c1-a1-a3-c5-c3`. */
  lemma ConcatenationExamples()
    ensures Concat(Concat(Concat([2, 0], [0, 10]), [10, 22]), [22, 12]) == [2, 0, 10, 22, 12]
    ensures Concat([2, 0], Concat([0, 10], Concat([10, 22], [22, 12]))) == [2, 0, 10, 22, 12]
  {
  }

  /** With no opponent piece on the board, no jump sequence starts anywhere. */
  lemma NoJumps(c: Cells, mover: Color, from: Square)
    requires forall k :: 0 <= k < 25 ==> c[k] != Opposite(mover)
    ensures Jumps(c, mover, from) == []
  {
    JumpsEmpty(c, mover, from);
  }

  /** The board with White on the squares W and Black on the squares B. */
  function Place(w: set<Square>, b: set<Square>): (c: Cells)
    ensures forall k :: 0 <= k < 25 ==> c[k] == if k in w then White else if k in b then Black else Empty
  {
    seq(25, k requires 0 <= k < 25 => if k in w then White else if k in b then Black else Empty)
  }

  /** One landing of `getJumps`: the N-th entry of `jumpTo[from]` adds its chains. */
  lemma JumpsUpToStep(c: Cells, mover: Color, from: Square, n: nat)
    requires 0 < n <= |JumpTo[from]|
    ensures JumpsUpTo(c, mover, from, n) == JumpsUpTo(c, mover, from, n - 1) + JumpsVia(c, mover, from, JumpTo[from][n - 1])
  {
  }

  /** A landing whose single jump is unavailable adds nothing. */
  lemma ViaClosed(c: Cells, mover: Color, from: Square, to: Square)
    requires !JumpSegment(c, mover, from, to)
    ensures JumpsVia(c, mover, from, to) == []
  {
  }

  /** A run of landings K..N-1 of `jumpTo[from]` whose single jumps are all unavailable adds nothing. */
  lemma {:induction false} ClosedRun(c: Cells, mover: Color, from: Square, k: nat, n: nat)
    requires k <= n <= |JumpTo[from]|
    requires forall i :: k <= i < n ==> !JumpSegment(c, mover, from, JumpTo[from][i])
    ensures JumpsUpTo(c, mover, from, n) == JumpsUpTo(c, mover, from, k)
    decreases n - k
  {
    if k < n {
      ClosedRun(c, mover, from, k, n - 1);
      JumpsUpToStep(c, mover, from, n);
      ViaClosed(c, mover, from, JumpTo[from][n - 1]);
    }
  }

  /** An available jump with no continuation adds the single jump. */
  lemma ViaLeaf(c: Cells, mover: Color, from: Square, to: Square)
    requires JumpSegment(c, mover, from, to)
    requires Jumps(PartialJump(c, mover, from, to), mover, to) == []
    ensures JumpsVia(c, mover, from, to) == [[from, to]]
  {
  }

  /** An available jump with the continuations T adds the jump followed by each. */
  lemma ViaTails(c: Cells, mover: Color, from: Square, to: Square, t: seq<Move>, r: seq<Move>)
    requires JumpSegment(c, mover, from, to)
    requires Jumps(PartialJump(c, mover, from, to), mover, to) == t && t != []
    requires |r| == |t| && forall j :: 0 <= j < |t| ==> From(t[j]) == to && r[j] == [from] + t[j]
    ensures JumpsVia(c, mover, from, to) == r
  {
    var e := Extend([from, to], t);
    forall j | 0 <= j < |t|
      ensures e[j] == r[j]
    {
      assert Concat([from, to], t[j]) == [from, to] + t[j][1..];
      assert t[j] == [to] + t[j][1..];
    }
  }

  /** `partialJump` on a placed board moves MOVER from FROM to TO and empties OVER. */
  lemma PlacedJump(w: set<Square>, b: set<Square>, from: Square, to: Square, w1: set<Square>, b1: set<Square>)
    requires from in w && from !in b && to != from
    requires JumpedIndex(from, to) !in w && JumpedIndex(from, to) != to
    requires w1 == w - {from} + {to} && b1 == b - {JumpedIndex(from, to)}
    ensures PartialJump(Place(w, b), White, from, to) == Place(w1, b1)
  {
    var c, c1 := PartialJump(Place(w, b), White, from, to), Place(w1, b1);
    forall k | 0 <= k < 25
      ensures c[k] == c1[k]
    {
    }
  }

  // The position of `testGetMoves2` is White on c1 (2), Black on b1 (1),
  // a2 (5) and b2 (6).  Each lemma below is one call of `getJumps` on a
  // board reached while extending c1's jumps.

  lemma FromA3AfterA1(c: Cells)
    requires c == Place({10}, {6})
    ensures Jumps(c, White, 10) == [[10, 2]]
  {
    assert JumpTo[10] == [0, 2, 12, 20, 22];
    assert JumpedIndex(10, 0) == 5 && JumpedIndex(10, 2) == 6 && JumpedIndex(10, 12) == 11;
    assert JumpedIndex(10, 20) == 15 && JumpedIndex(10, 22) == 16;
    var c1 := PartialJump(c, White, 10, 2);
    PlacedJump({10}, {6}, 10, 2, {2}, {});
    NoJumps(c1, White, 2);
    ViaClosed(c, White, 10, 0);
    ViaLeaf(c, White, 10, 2);
    ViaClosed(c, White, 10, 12);
    ViaClosed(c, White, 10, 20);
    ViaClosed(c, White, 10, 22);
    JumpsUpToStep(c, White, 10, 1);
    JumpsUpToStep(c, White, 10, 2);
    JumpsUpToStep(c, White, 10, 3);
    JumpsUpToStep(c, White, 10, 4);
    JumpsUpToStep(c, White, 10, 5);
  }

  lemma FromC3AfterA1(c: Cells)
    requires c == Place({12}, {5})
    ensures Jumps(c, White, 12) == []
  {
    assert JumpTo[12] == [0, 2, 4, 10, 14, 20, 22, 24];
    assert JumpedIndex(12, 0) == 6 && JumpedIndex(12, 2) == 7 && JumpedIndex(12, 4) == 8;
    assert JumpedIndex(12, 10) == 11 && JumpedIndex(12, 14) == 13 && JumpedIndex(12, 20) == 16;
    assert JumpedIndex(12, 22) == 17 && JumpedIndex(12, 24) == 18;
    JumpsEmpty(c, White, 12);
  }

  lemma A1ThenA3(c: Cells)
    requires c == Place({0}, {5, 6})
    ensures JumpsVia(c, White, 0, 10) == [[0, 10, 2]]
  {
    assert JumpedIndex(0, 10) == 5;
    var c1 := PartialJump(c, White, 0, 10);
    PlacedJump({0}, {5, 6}, 0, 10, {10}, {6});
    FromA3AfterA1(c1);
    ViaTails(c, White, 0, 10, [[10, 2]], [[0, 10, 2]]);
  }

  lemma A1ThenC3(c: Cells)
    requires c == Place({0}, {5, 6})
    ensures JumpsVia(c, White, 0, 12) == [[0, 12]]
  {
    assert JumpedIndex(0, 12) == 6;
    var c1 := PartialJump(c, White, 0, 12);
    PlacedJump({0}, {5, 6}, 0, 12, {12}, {5});
    FromC3AfterA1(c1);
    ViaLeaf(c, White, 0, 12);
  }

  lemma FromA1AfterC1(c: Cells)
    requires c == Place({0}, {5, 6})
    ensures Jumps(c, White, 0) == [[0, 10, 2], [0, 12]]
  {
    assert JumpTo[0] == [2, 10, 12];
    assert JumpedIndex(0, 2) == 1;
    ViaClosed(c, White, 0, 2);
    A1ThenA3(c);
    A1ThenC3(c);
    JumpsUpToStep(c, White, 0, 1);
    JumpsUpToStep(c, White, 0, 2);
    JumpsUpToStep(c, White, 0, 3);
  }

  lemma FromA1AfterA3(c: Cells)
    requires c == Place({0}, {1})
    ensures Jumps(c, White, 0) == [[0, 2]]
  {
    assert JumpTo[0] == [2, 10, 12];
    assert JumpedIndex(0, 2) == 1 && JumpedIndex(0, 10) == 5 && JumpedIndex(0, 12) == 6;
    var c1 := PartialJump(c, White, 0, 2);
    PlacedJump({0}, {1}, 0, 2, {2}, {});
    NoJumps(c1, White, 2);
    ViaLeaf(c, White, 0, 2);
    ViaClosed(c, White, 0, 10);
    ViaClosed(c, White, 0, 12);
    JumpsUpToStep(c, White, 0, 1);
    JumpsUpToStep(c, White, 0, 2);
    JumpsUpToStep(c, White, 0, 3);
  }

  lemma A3ThenA1(c: Cells)
    requires c == Place({10}, {1, 5})
    ensures JumpsVia(c, White, 10, 0) == [[10, 0, 2]]
  {
    assert JumpedIndex(10, 0) == 5;
    var c1 := PartialJump(c, White, 10, 0);
    PlacedJump({10}, {1, 5}, 10, 0, {0}, {1});
    FromA1AfterA3(c1);
    ViaTails(c, White, 10, 0, [[0, 2]], [[10, 0, 2]]);
  }

  lemma FromA3AfterC1(c: Cells)
    requires c == Place({10}, {1, 5})
    ensures Jumps(c, White, 10) == [[10, 0, 2]]
  {
    assert JumpTo[10] == [0, 2, 12, 20, 22];
    assert JumpedIndex(10, 2) == 6 && JumpedIndex(10, 12) == 11;
    assert JumpedIndex(10, 20) == 15 && JumpedIndex(10, 22) == 16;
    A3ThenA1(c);
    ViaClosed(c, White, 10, 2);
    ViaClosed(c, White, 10, 12);
    ViaClosed(c, White, 10, 20);
    ViaClosed(c, White, 10, 22);
    JumpsUpToStep(c, White, 10, 1);
    JumpsUpToStep(c, White, 10, 2);
    JumpsUpToStep(c, White, 10, 3);
    JumpsUpToStep(c, White, 10, 4);
    JumpsUpToStep(c, White, 10, 5);
  }

  lemma C1ThenA1(c: Cells)
    requires c == Place({2}, {1, 5, 6})
    ensures JumpsVia(c, White, 2, 0) == [[2, 0, 10, 2], [2, 0, 12]]
  {
    assert JumpedIndex(2, 0) == 1;
    var c1 := PartialJump(c, White, 2, 0);
    PlacedJump({2}, {1, 5, 6}, 2, 0, {0}, {5, 6});
    FromA1AfterC1(c1);
    ViaTails(c, White, 2, 0, [[0, 10, 2], [0, 12]], [[2, 0, 10, 2], [2, 0, 12]]);
  }

  lemma C1ThenA3(c: Cells)
    requires c == Place({2}, {1, 5, 6})
    ensures JumpsVia(c, White, 2, 10) == [[2, 10, 0, 2]]
  {
    assert JumpedIndex(2, 10) == 6;
    var c1 := PartialJump(c, White, 2, 10);
    PlacedJump({2}, {1, 5, 6}, 2, 10, {10}, {1, 5});
    FromA3AfterC1(c1);
    ViaTails(c, White, 2, 10, [[10, 0, 2]], [[2, 10, 0, 2]]);
  }

  /**
   * `testGetMoves2`: the jump sequences of the White piece on c1 are
   * c1-a1-a3-c1, c1-a1-c3 and c1-a3-a1-c1, in the order of `jumpTo[2]`.
   */
  lemma FromC1(c: Cells)
    requires c == Place({2}, {1, 5, 6})
    ensures Jumps(c, White, 2) == [[2, 0, 10, 2], [2, 0, 12], [2, 10, 0, 2]]
  {
    assert JumpTo[2] == [0, 4, 10, 12, 14];
    assert JumpedIndex(2, 12) == 7 && JumpedIndex(2, 14) == 8;
    FromC1Head(c);
    C1ThenA3(c);
    JumpsUpToStep(c, White, 2, 3);
    ClosedRun(c, White, 2, 3, 5);
  }

  /** The first two landings from c1, a1 and the closed c5, give the two chains through a1. */
  lemma FromC1Head(c: Cells)
    requires c == Place({2}, {1, 5, 6})
    ensures JumpsUpTo(c, White, 2, 2) == [[2, 0, 10, 2], [2, 0, 12]]
  {
    assert JumpTo[2] == [0, 4, 10, 12, 14];
    assert JumpedIndex(2, 4) == 3;
    C1ThenA1(c);
    JumpsUpToStep(c, White, 2, 1);
    ClosedRun(c, White, 2, 1, 2);
  }

  /** With MOVER on square K only, `getNonMoves()` is `getJumps` from K. */
  lemma {:induction false} SinglePieceNonMoves(c: Cells, mover: Color, k: Square, n: nat)
    requires n <= 25 && c[k] == mover
    requires forall j :: 0 <= j < 25 && j != k ==> c[j] != mover
    ensures NonMovesUpTo(c, mover, n) == if k < n then Jumps(c, mover, k) else []
  {
    if n > 0 {
      SinglePieceNonMoves(c, mover, k, n - 1);
    }
  }

  /** The layout string of `testGetMoves2`. */
  const LAYOUT2: string := "-bw--bb------------------"

  /** `setPieces` of that layout places White on c1 and Black on b1, a2 and b2. */
  lemma Layout2Cells()
    ensures IsLayout(LAYOUT2) && LayoutCells(LAYOUT2) == Place({2}, {1, 5, 6})
  {
    assert forall i :: 0 <= i < 25 ==> LAYOUT2[i] in "bw-";
    var c, d := LayoutCells(LAYOUT2), Place({2}, {1, 5, 6});
    forall k | 0 <= k < 25
      ensures c[k] == d[k]
    {
    }
  }

  /**
   * `testGetMoves2`: with White to move in that position, `getMoves()` is
   * c1-a1-a3-c1, c1-a1-c3 and c1-a3-a1-c1, and `legalMove` refuses the
   * two that return to c1.
   */
  lemma GetMoves2(p: Position)
    requires p.cells == Place({2}, {1, 5, 6}) && p.whoseMove == White && !p.gameOver
    ensures Moves(p) == [[2, 0, 10, 2], [2, 0, 12], [2, 10, 0, 2]]
    ensures !LegalMove(p, [2, 0, 10, 2]) && !LegalMove(p, [2, 10, 0, 2])
  {
    var c := p.cells;
    assert JumpedIndex(2, 0) == 1;
    assert JumpSegment(c, White, 2, 0);
    assert JumpPossible(c, White);
    FromC1(c);
    SinglePieceNonMoves(c, White, 2, 25);
    ReturningChainsIllegal(p, [2, 0, 10, 2]);
    ReturningChainsIllegal(p, [2, 10, 0, 2]);
  }


  // The position of `testGetMoves` is White on c1 (2), Black on b1 (1),
  // a2 (5), b2 (6), b4 (16) and c4 (17).  Each `Moves1From` lemma is one
  // call of `getJumps` on a board reached while extending c1's jumps, named
  // by the squares visited; each `Moves1Via` lemma is one landing of it.

  lemma Moves1FromC1A1A3C1(c: Cells)
    requires c == Place({2}, {16, 17})
    ensures Jumps(c, White, 2) == []
  {
    assert JumpTo[2] == [0, 4, 10, 12, 14];
    assert JumpedIndex(2, 0) == 1 && JumpedIndex(2, 4) == 3 && JumpedIndex(2, 10) == 6 && JumpedIndex(2, 12) == 7 && JumpedIndex(2, 14) == 8;
    JumpsEmpty(c, White, 2);
  }

  lemma Moves1ViaC1A1A3C1(c: Cells)
    requires c == Place({10}, {6, 16, 17})
    ensures JumpsVia(c, White, 10, 2) == [[10, 2]]
  {
    assert JumpedIndex(10, 2) == 6;
    var c1 := PartialJump(c, White, 10, 2);
    PlacedJump({10}, {6, 16, 17}, 10, 2, {2}, {16, 17});
    Moves1FromC1A1A3C1(c1);
    ViaLeaf(c, White, 10, 2);
  }

  lemma Moves1FromC1A1A3C5C3A1(c: Cells)
    requires c == Place({0}, {})
    ensures Jumps(c, White, 0) == []
  {
    assert JumpTo[0] == [2, 10, 12];
    assert JumpedIndex(0, 2) == 1 && JumpedIndex(0, 10) == 5 && JumpedIndex(0, 12) == 6;
    JumpsEmpty(c, White, 0);
  }

  lemma Moves1ViaC1A1A3C5C3A1(c: Cells)
    requires c == Place({12}, {6})
    ensures JumpsVia(c, White, 12, 0) == [[12, 0]]
  {
    assert JumpedIndex(12, 0) == 6;
    var c1 := PartialJump(c, White, 12, 0);
    PlacedJump({12}, {6}, 12, 0, {0}, {});
    Moves1FromC1A1A3C5C3A1(c1);
    ViaLeaf(c, White, 12, 0);
  }

  lemma Moves1FromC1A1A3C5C3(c: Cells)
    requires c == Place({12}, {6})
    ensures Jumps(c, White, 12) == [[12, 0]]
  {
    assert JumpTo[12] == [0, 2, 4, 10, 14, 20, 22, 24];
    assert JumpedIndex(12, 0) == 6 && JumpedIndex(12, 2) == 7 && JumpedIndex(12, 4) == 8 && JumpedIndex(12, 10) == 11 && JumpedIndex(12, 14) == 13 && JumpedIndex(12, 20) == 16 && JumpedIndex(12, 22) == 17 && JumpedIndex(12, 24) == 18;
    Moves1ViaC1A1A3C5C3A1(c);
    JumpsUpToStep(c, White, 12, 1);
    ClosedRun(c, White, 12, 1, 8);
  }

  lemma Moves1ViaC1A1A3C5C3(c: Cells)
    requires c == Place({22}, {6, 17})
    ensures JumpsVia(c, White, 22, 12) == [[22, 12, 0]]
  {
    assert JumpedIndex(22, 12) == 17;
    var c1 := PartialJump(c, White, 22, 12);
    PlacedJump({22}, {6, 17}, 22, 12, {12}, {6});
    Moves1FromC1A1A3C5C3(c1);
    ViaTails(c, White, 22, 12, [[12, 0]], [[22, 12, 0]]);
  }

  lemma Moves1FromC1A1A3C5(c: Cells)
    requires c == Place({22}, {6, 17})
    ensures Jumps(c, White, 22) == [[22, 12, 0]]
  {
    assert JumpTo[22] == [10, 12, 14, 20, 24];
    assert JumpedIndex(22, 10) == 16 && JumpedIndex(22, 12) == 17 && JumpedIndex(22, 14) == 18 && JumpedIndex(22, 20) == 21 && JumpedIndex(22, 24) == 23;
    ClosedRun(c, White, 22, 0, 1);
    Moves1ViaC1A1A3C5C3(c);
    JumpsUpToStep(c, White, 22, 2);
    ClosedRun(c, White, 22, 2, 5);
  }

  lemma Moves1ViaC1A1A3C5(c: Cells)
    requires c == Place({10}, {6, 16, 17})
    ensures JumpsVia(c, White, 10, 22) == [[10, 22, 12, 0]]
  {
    assert JumpedIndex(10, 22) == 16;
    var c1 := PartialJump(c, White, 10, 22);
    PlacedJump({10}, {6, 16, 17}, 10, 22, {22}, {6, 17});
    Moves1FromC1A1A3C5(c1);
    ViaTails(c, White, 10, 22, [[22, 12, 0]], [[10, 22, 12, 0]]);
  }

  lemma Moves1FromC1A1A3Head(c: Cells)
    requires c == Place({10}, {6, 16, 17})
    ensures JumpsUpTo(c, White, 10, 2) == [[10, 2]]
  {
    assert JumpTo[10] == [0, 2, 12, 20, 22];
    assert JumpedIndex(10, 0) == 5 && JumpedIndex(10, 2) == 6;
    ClosedRun(c, White, 10, 0, 1);
    Moves1ViaC1A1A3C1(c);
    JumpsUpToStep(c, White, 10, 2);
  }

  lemma Moves1FromC1A1A3(c: Cells)
    requires c == Place({10}, {6, 16, 17})
    ensures Jumps(c, White, 10) == [[10, 2], [10, 22, 12, 0]]
  {
    assert JumpTo[10] == [0, 2, 12, 20, 22];
    assert JumpedIndex(10, 12) == 11 && JumpedIndex(10, 20) == 15 && JumpedIndex(10, 22) == 16;
    Moves1FromC1A1A3Head(c);
    ClosedRun(c, White, 10, 2, 4);
    Moves1ViaC1A1A3C5(c);
    JumpsUpToStep(c, White, 10, 5);
  }

  lemma Moves1ViaC1A1A3(c: Cells)
    requires c == Place({0}, {5, 6, 16, 17})
    ensures JumpsVia(c, White, 0, 10) == [[0, 10, 2], [0, 10, 22, 12, 0]]
  {
    assert JumpedIndex(0, 10) == 5;
    var c1 := PartialJump(c, White, 0, 10);
    PlacedJump({0}, {5, 6, 16, 17}, 0, 10, {10}, {6, 16, 17});
    Moves1FromC1A1A3(c1);
    ViaTails(c, White, 0, 10, [[10, 2], [10, 22, 12, 0]], [[0, 10, 2], [0, 10, 22, 12, 0]]);
  }

  lemma Moves1FromC1A1C3A5(c: Cells)
    requires c == Place({20}, {5, 17})
    ensures Jumps(c, White, 20) == []
  {
    assert JumpTo[20] == [10, 12, 22];
    assert JumpedIndex(20, 10) == 15 && JumpedIndex(20, 12) == 16 && JumpedIndex(20, 22) == 21;
    JumpsEmpty(c, White, 20);
  }

  lemma Moves1ViaC1A1C3A5(c: Cells)
    requires c == Place({12}, {5, 16, 17})
    ensures JumpsVia(c, White, 12, 20) == [[12, 20]]
  {
    assert JumpedIndex(12, 20) == 16;
    var c1 := PartialJump(c, White, 12, 20);
    PlacedJump({12}, {5, 16, 17}, 12, 20, {20}, {5, 17});
    Moves1FromC1A1C3A5(c1);
    ViaLeaf(c, White, 12, 20);
  }

  lemma Moves1ViaC1A1C3C5A3A1(c: Cells)
    requires c == Place({10}, {5})
    ensures JumpsVia(c, White, 10, 0) == [[10, 0]]
  {
    assert JumpedIndex(10, 0) == 5;
    var c1 := PartialJump(c, White, 10, 0);
    PlacedJump({10}, {5}, 10, 0, {0}, {});
    Moves1FromC1A1A3C5C3A1(c1);  // the same position, reached by another path
    ViaLeaf(c, White, 10, 0);
  }

  lemma Moves1FromC1A1C3C5A3(c: Cells)
    requires c == Place({10}, {5})
    ensures Jumps(c, White, 10) == [[10, 0]]
  {
    assert JumpTo[10] == [0, 2, 12, 20, 22];
    assert JumpedIndex(10, 0) == 5 && JumpedIndex(10, 2) == 6 && JumpedIndex(10, 12) == 11 && JumpedIndex(10, 20) == 15 && JumpedIndex(10, 22) == 16;
    Moves1ViaC1A1C3C5A3A1(c);
    JumpsUpToStep(c, White, 10, 1);
    ClosedRun(c, White, 10, 1, 5);
  }

  lemma Moves1ViaC1A1C3C5A3(c: Cells)
    requires c == Place({22}, {5, 16})
    ensures JumpsVia(c, White, 22, 10) == [[22, 10, 0]]
  {
    assert JumpedIndex(22, 10) == 16;
    var c1 := PartialJump(c, White, 22, 10);
    PlacedJump({22}, {5, 16}, 22, 10, {10}, {5});
    Moves1FromC1A1C3C5A3(c1);
    ViaTails(c, White, 22, 10, [[10, 0]], [[22, 10, 0]]);
  }

  lemma Moves1FromC1A1C3C5(c: Cells)
    requires c == Place({22}, {5, 16})
    ensures Jumps(c, White, 22) == [[22, 10, 0]]
  {
    assert JumpTo[22] == [10, 12, 14, 20, 24];
    assert JumpedIndex(22, 10) == 16 && JumpedIndex(22, 12) == 17 && JumpedIndex(22, 14) == 18 && JumpedIndex(22, 20) == 21 && JumpedIndex(22, 24) == 23;
    Moves1ViaC1A1C3C5A3(c);
    JumpsUpToStep(c, White, 22, 1);
    ClosedRun(c, White, 22, 1, 5);
  }

  lemma Moves1ViaC1A1C3C5(c: Cells)
    requires c == Place({12}, {5, 16, 17})
    ensures JumpsVia(c, White, 12, 22) == [[12, 22, 10, 0]]
  {
    assert JumpedIndex(12, 22) == 17;
    var c1 := PartialJump(c, White, 12, 22);
    PlacedJump({12}, {5, 16, 17}, 12, 22, {22}, {5, 16});
    Moves1FromC1A1C3C5(c1);
    ViaTails(c, White, 12, 22, [[22, 10, 0]], [[12, 22, 10, 0]]);
  }

  lemma Moves1FromC1A1C3(c: Cells)
    requires c == Place({12}, {5, 16, 17})
    ensures Jumps(c, White, 12) == [[12, 20], [12, 22, 10, 0]]
  {
    assert JumpTo[12] == [0, 2, 4, 10, 14, 20, 22, 24];
    assert JumpedIndex(12, 0) == 6 && JumpedIndex(12, 2) == 7 && JumpedIndex(12, 4) == 8 && JumpedIndex(12, 10) == 11 && JumpedIndex(12, 14) == 13 && JumpedIndex(12, 20) == 16 && JumpedIndex(12, 22) == 17 && JumpedIndex(12, 24) == 18;
    ClosedRun(c, White, 12, 0, 5);
    Moves1ViaC1A1C3A5(c);
    JumpsUpToStep(c, White, 12, 6);
    Moves1ViaC1A1C3C5(c);
    JumpsUpToStep(c, White, 12, 7);
    ClosedRun(c, White, 12, 7, 8);
  }

  lemma Moves1ViaC1A1C3(c: Cells)
    requires c == Place({0}, {5, 6, 16, 17})
    ensures JumpsVia(c, White, 0, 12) == [[0, 12, 20], [0, 12, 22, 10, 0]]
  {
    assert JumpedIndex(0, 12) == 6;
    var c1 := PartialJump(c, White, 0, 12);
    PlacedJump({0}, {5, 6, 16, 17}, 0, 12, {12}, {5, 16, 17});
    Moves1FromC1A1C3(c1);
    ViaTails(c, White, 0, 12, [[12, 20], [12, 22, 10, 0]], [[0, 12, 20], [0, 12, 22, 10, 0]]);
  }

  lemma Moves1FromC1A1(c: Cells)
    requires c == Place({0}, {5, 6, 16, 17})
    ensures Jumps(c, White, 0) == [[0, 10, 2], [0, 10, 22, 12, 0], [0, 12, 20], [0, 12, 22, 10, 0]]
  {
    assert JumpTo[0] == [2, 10, 12];
    assert JumpedIndex(0, 2) == 1 && JumpedIndex(0, 10) == 5 && JumpedIndex(0, 12) == 6;
    ClosedRun(c, White, 0, 0, 1);
    Moves1ViaC1A1A3(c);
    JumpsUpToStep(c, White, 0, 2);
    Moves1ViaC1A1C3(c);
    JumpsUpToStep(c, White, 0, 3);
  }

  lemma Moves1ViaC1A1(c: Cells)
    requires c == Place({2}, {1, 5, 6, 16, 17})
    ensures JumpsVia(c, White, 2, 0) == [[2, 0, 10, 2], [2, 0, 10, 22, 12, 0], [2, 0, 12, 20], [2, 0, 12, 22, 10, 0]]
  {
    assert JumpedIndex(2, 0) == 1;
    var c1 := PartialJump(c, White, 2, 0);
    PlacedJump({2}, {1, 5, 6, 16, 17}, 2, 0, {0}, {5, 6, 16, 17});
    Moves1FromC1A1(c1);
    ViaTails(c, White, 2, 0, [[0, 10, 2], [0, 10, 22, 12, 0], [0, 12, 20], [0, 12, 22, 10, 0]], [[2, 0, 10, 2], [2, 0, 10, 22, 12, 0], [2, 0, 12, 20], [2, 0, 12, 22, 10, 0]]);
  }

  lemma Moves1ViaC1A3A1C1(c: Cells)
    requires c == Place({0}, {1, 16, 17})
    ensures JumpsVia(c, White, 0, 2) == [[0, 2]]
  {
    assert JumpedIndex(0, 2) == 1;
    var c1 := PartialJump(c, White, 0, 2);
    PlacedJump({0}, {1, 16, 17}, 0, 2, {2}, {16, 17});
    Moves1FromC1A1A3C1(c1);  // the same position, reached by another path
    ViaLeaf(c, White, 0, 2);
  }

  lemma Moves1FromC1A3A1(c: Cells)
    requires c == Place({0}, {1, 16, 17})
    ensures Jumps(c, White, 0) == [[0, 2]]
  {
    assert JumpTo[0] == [2, 10, 12];
    assert JumpedIndex(0, 2) == 1 && JumpedIndex(0, 10) == 5 && JumpedIndex(0, 12) == 6;
    Moves1ViaC1A3A1C1(c);
    JumpsUpToStep(c, White, 0, 1);
    ClosedRun(c, White, 0, 1, 3);
  }

  lemma Moves1ViaC1A3A1(c: Cells)
    requires c == Place({10}, {1, 5, 16, 17})
    ensures JumpsVia(c, White, 10, 0) == [[10, 0, 2]]
  {
    assert JumpedIndex(10, 0) == 5;
    var c1 := PartialJump(c, White, 10, 0);
    PlacedJump({10}, {1, 5, 16, 17}, 10, 0, {0}, {1, 16, 17});
    Moves1FromC1A3A1(c1);
    ViaTails(c, White, 10, 0, [[0, 2]], [[10, 0, 2]]);
  }

  lemma Moves1FromC1A3C5C3(c: Cells)
    requires c == Place({12}, {1, 5})
    ensures Jumps(c, White, 12) == []
  {
    assert JumpTo[12] == [0, 2, 4, 10, 14, 20, 22, 24];
    assert JumpedIndex(12, 0) == 6 && JumpedIndex(12, 2) == 7 && JumpedIndex(12, 4) == 8 && JumpedIndex(12, 10) == 11 && JumpedIndex(12, 14) == 13 && JumpedIndex(12, 20) == 16 && JumpedIndex(12, 22) == 17 && JumpedIndex(12, 24) == 18;
    JumpsEmpty(c, White, 12);
  }

  lemma Moves1ViaC1A3C5C3(c: Cells)
    requires c == Place({22}, {1, 5, 17})
    ensures JumpsVia(c, White, 22, 12) == [[22, 12]]
  {
    assert JumpedIndex(22, 12) == 17;
    var c1 := PartialJump(c, White, 22, 12);
    PlacedJump({22}, {1, 5, 17}, 22, 12, {12}, {1, 5});
    Moves1FromC1A3C5C3(c1);
    ViaLeaf(c, White, 22, 12);
  }

  lemma Moves1FromC1A3C5(c: Cells)
    requires c == Place({22}, {1, 5, 17})
    ensures Jumps(c, White, 22) == [[22, 12]]
  {
    assert JumpTo[22] == [10, 12, 14, 20, 24];
    assert JumpedIndex(22, 10) == 16 && JumpedIndex(22, 12) == 17 && JumpedIndex(22, 14) == 18 && JumpedIndex(22, 20) == 21 && JumpedIndex(22, 24) == 23;
    ClosedRun(c, White, 22, 0, 1);
    Moves1ViaC1A3C5C3(c);
    JumpsUpToStep(c, White, 22, 2);
    ClosedRun(c, White, 22, 2, 5);
  }

  lemma Moves1ViaC1A3C5(c: Cells)
    requires c == Place({10}, {1, 5, 16, 17})
    ensures JumpsVia(c, White, 10, 22) == [[10, 22, 12]]
  {
    assert JumpedIndex(10, 22) == 16;
    var c1 := PartialJump(c, White, 10, 22);
    PlacedJump({10}, {1, 5, 16, 17}, 10, 22, {22}, {1, 5, 17});
    Moves1FromC1A3C5(c1);
    ViaTails(c, White, 10, 22, [[22, 12]], [[10, 22, 12]]);
  }

  lemma Moves1FromC1A3(c: Cells)
    requires c == Place({10}, {1, 5, 16, 17})
    ensures Jumps(c, White, 10) == [[10, 0, 2], [10, 22, 12]]
  {
    assert JumpTo[10] == [0, 2, 12, 20, 22];
    assert JumpedIndex(10, 0) == 5 && JumpedIndex(10, 2) == 6 && JumpedIndex(10, 12) == 11 && JumpedIndex(10, 20) == 15 && JumpedIndex(10, 22) == 16;
    Moves1ViaC1A3A1(c);
    JumpsUpToStep(c, White, 10, 1);
    ClosedRun(c, White, 10, 1, 4);
    Moves1ViaC1A3C5(c);
    JumpsUpToStep(c, White, 10, 5);
  }

  lemma Moves1ViaC1A3(c: Cells)
    requires c == Place({2}, {1, 5, 6, 16, 17})
    ensures JumpsVia(c, White, 2, 10) == [[2, 10, 0, 2], [2, 10, 22, 12]]
  {
    assert JumpedIndex(2, 10) == 6;
    var c1 := PartialJump(c, White, 2, 10);
    PlacedJump({2}, {1, 5, 6, 16, 17}, 2, 10, {10}, {1, 5, 16, 17});
    Moves1FromC1A3(c1);
    ViaTails(c, White, 2, 10, [[10, 0, 2], [10, 22, 12]], [[2, 10, 0, 2], [2, 10, 22, 12]]);
  }

  /** The first two landings from c1, a1 and c5, give the four chains through a1. */
  lemma Moves1FromC1Head(c: Cells)
    requires c == Place({2}, {1, 5, 6, 16, 17})
    ensures JumpsUpTo(c, White, 2, 2) == [[2, 0, 10, 2], [2, 0, 10, 22, 12, 0], [2, 0, 12, 20], [2, 0, 12, 22, 10, 0]]
  {
    assert JumpTo[2] == [0, 4, 10, 12, 14];
    assert JumpedIndex(2, 4) == 3;
    Moves1ViaC1A1(c);
    JumpsUpToStep(c, White, 2, 1);
    ClosedRun(c, White, 2, 1, 2);
  }

  /** The last three landings from c1, c3 and then the closed c4 and c5, add the two chains through c3. */
  lemma Moves1FromC1Tail(c: Cells)
    requires c == Place({2}, {1, 5, 6, 16, 17})
    ensures JumpsUpTo(c, White, 2, 5) == JumpsUpTo(c, White, 2, 2) + [[2, 10, 0, 2], [2, 10, 22, 12]]
  {
    assert JumpTo[2] == [0, 4, 10, 12, 14];
    assert JumpedIndex(2, 12) == 7 && JumpedIndex(2, 14) == 8;
    Moves1ViaC1A3(c);
    JumpsUpToStep(c, White, 2, 3);
    ClosedRun(c, White, 2, 3, 5);
  }

  /**
   * `testGetMoves`: the jump sequences of the White piece on c1, in the
   * order of `jumpTo[2]`.
   */
  lemma Moves1FromC1(c: Cells)
    requires c == Place({2}, {1, 5, 6, 16, 17})
    ensures Jumps(c, White, 2) == [[2, 0, 10, 2], [2, 0, 10, 22, 12, 0], [2, 0, 12, 20], [2, 0, 12, 22, 10, 0],
                                   [2, 10, 0, 2], [2, 10, 22, 12]]
  {
    assert |JumpTo[2]| == 5;
    Moves1FromC1Head(c);
    Moves1FromC1Tail(c);
  }

  /** The layout string of `testGetMoves`. */
  const LAYOUT1: string := "-bw--bb---------bb-------"

  /** `setPieces` of that layout places White on c1 and Black on b1, a2, b2, b4 and c4. */
  lemma Layout1Cells()
    ensures IsLayout(LAYOUT1) && LayoutCells(LAYOUT1) == Place({2}, {1, 5, 6, 16, 17})
  {
    assert forall i :: 0 <= i < 25 ==> LAYOUT1[i] in "bw-";
    var c, d := LayoutCells(LAYOUT1), Place({2}, {1, 5, 6, 16, 17});
    forall k | 0 <= k < 25
      ensures c[k] == d[k]
    {
    }
  }

  /**
   * `testGetMoves`: with White to move in that position, `getMoves()` is
   * exactly the six expected chains, in the order `getJumps` finds them.
   */
  lemma GetMoves1(p: Position)
    requires p.cells == Place({2}, {1, 5, 6, 16, 17}) && p.whoseMove == White && !p.gameOver
    ensures Moves(p) == [[2, 0, 10, 2], [2, 0, 10, 22, 12, 0], [2, 0, 12, 20], [2, 0, 12, 22, 10, 0],
                         [2, 10, 0, 2], [2, 10, 22, 12]]
  {
    var c := p.cells;
    assert JumpedIndex(2, 0) == 1;
    assert JumpSegment(c, White, 2, 0);
    assert JumpPossible(c, White);
    Moves1FromC1(c);
    SinglePieceNonMoves(c, White, 2, 25);
  }

  // `testMoves`: the game GAME1 played from the starting position.

  /** `makeMoves(b, moves)`: each move played in turn with `makeMove`. */
  function Replay(p: Position, ms: seq<Move>): (q: Position)
    ensures |ms| % 2 == 0 ==> q.whoseMove == p.whoseMove
    ensures |ms| % 2 == 1 ==> q.whoseMove == Opposite(p.whoseMove)
    ensures q.gameOver == p.gameOver
    decreases |ms|
  {
    if ms == [] then p else Replay(MakeMove(p, ms[0]), ms[1..])
  }

  /** c2-c3, c4-c2, c1-c3, a3-c1, c3-a3, c5-c4, a3-c5-c3. */
  const GAME1: seq<Move> := [[7, 12], [17, 7], [2, 12], [10, 2], [12, 10], [22, 17], [10, 22, 12]]

  /** The squares after GAME1. */
  const GAME1_CELLS: Cells :=
    [White, White, Black, White, White, White, Empty, Empty, White, White,
     Empty, Empty, White, White, White,
     Black, Empty, Empty, Black, Black, Black, Black, Empty, Black, Black]

  /** The text of the board after GAME1 in the unit tests. */
  const GAME1_BOARD: string :=
    "  b b - b b" + "\n" + "  b - - b b" + "\n" + "  - - w w w" + "\n" + "  w - - w w" + "\n" + "  w w b w w"

  /** A step moves the piece and passes the turn. */
  lemma StepCells(p: Position, m: Move)
    requires |m| == 2 && !IsJump(m)
    ensures MakeMove(p, m).cells == p.cells[m[0] := Empty][m[1] := p.whoseMove]
    ensures MakeMove(p, m).whoseMove == Opposite(p.whoseMove)
  {
  }

  /** A single jump moves the piece, empties the jumped square and passes the turn. */
  lemma JumpCells(p: Position, m: Move)
    requires |m| == 2 && IsJump(m)
    ensures MakeMove(p, m).cells == p.cells[m[0] := Empty][m[1] := p.whoseMove][JumpedIndex(m[0], m[1]) := Empty]
    ensures MakeMove(p, m).whoseMove == Opposite(p.whoseMove)
  {
  }

  /** A double jump plays its second segment with `makeJumpTail`. */
  lemma DoubleJumpCells(p: Position, m: Move)
    requires |m| == 3 && IsJump(m)
    ensures MakeMove(p, m).cells
         == p.cells[m[0] := Empty][m[1] := p.whoseMove][JumpedIndex(m[0], m[1]) := Empty]
                   [m[2] := p.whoseMove][m[1] := Empty][JumpedIndex(m[1], m[2]) := Empty]
    ensures MakeMove(p, m).whoseMove == Opposite(p.whoseMove)
  {
    assert m[1..] == [m[1], m[2]];
    assert JumpTail([m[1], m[2]]).None?;
  }

  /** The squares after move 1 of GAME1. */
  const GAME1_AFTER_1: Cells :=
    [White, White, White, White, White, White, White, Empty, White, White, Black, Black, White,
     White, White, Black, Black, Black, Black, Black, Black, Black, Black, Black, Black]

  /** The squares after move 2 of GAME1. */
  const GAME1_AFTER_2: Cells :=
    [White, White, White, White, White, White, White, Black, White, White, Black, Black, Empty,
     White, White, Black, Black, Empty, Black, Black, Black, Black, Black, Black, Black]

  /** The squares after move 3 of GAME1. */
  const GAME1_AFTER_3: Cells :=
    [White, White, Empty, White, White, White, White, Empty, White, White, Black, Black, White,
     White, White, Black, Black, Empty, Black, Black, Black, Black, Black, Black, Black]

  /** The squares after move 4 of GAME1. */
  const GAME1_AFTER_4: Cells :=
    [White, White, Black, White, White, White, Empty, Empty, White, White, Empty, Black, White,
     White, White, Black, Black, Empty, Black, Black, Black, Black, Black, Black, Black]

  /** The squares after move 5 of GAME1. */
  const GAME1_AFTER_5: Cells :=
    [White, White, Black, White, White, White, Empty, Empty, White, White, White, Empty, Empty,
     White, White, Black, Black, Empty, Black, Black, Black, Black, Black, Black, Black]

  /** The squares after move 6 of GAME1. */
  const GAME1_AFTER_6: Cells :=
    [White, White, Black, White, White, White, Empty, Empty, White, White, White, Empty, Empty,
     White, White, Black, Black, Black, Black, Black, Black, Black, Empty, Black, Black]

  /** Move 1 of GAME1. */
  lemma Game1Move1(p: Position)
    requires p.cells == INIT_CELLS && p.whoseMove == White
    ensures MakeMove(p, [7, 12]).cells == GAME1_AFTER_1
  {
    StepCells(p, [7, 12]);
  }

  /** Move 2 of GAME1. */
  lemma Game1Move2(p: Position)
    requires p.cells == GAME1_AFTER_1 && p.whoseMove == Black
    ensures MakeMove(p, [17, 7]).cells == GAME1_AFTER_2
  {
    JumpCells(p, [17, 7]);
    assert JumpedIndex(17, 7) == 12;
  }

  /** Move 3 of GAME1. */
  lemma Game1Move3(p: Position)
    requires p.cells == GAME1_AFTER_2 && p.whoseMove == White
    ensures MakeMove(p, [2, 12]).cells == GAME1_AFTER_3
  {
    JumpCells(p, [2, 12]);
    assert JumpedIndex(2, 12) == 7;
  }

  /** Move 4 of GAME1. */
  lemma Game1Move4(p: Position)
    requires p.cells == GAME1_AFTER_3 && p.whoseMove == Black
    ensures MakeMove(p, [10, 2]).cells == GAME1_AFTER_4
  {
    JumpCells(p, [10, 2]);
    assert JumpedIndex(10, 2) == 6;
  }

  /** Move 5 of GAME1. */
  lemma Game1Move5(p: Position)
    requires p.cells == GAME1_AFTER_4 && p.whoseMove == White
    ensures MakeMove(p, [12, 10]).cells == GAME1_AFTER_5
  {
    JumpCells(p, [12, 10]);
    assert JumpedIndex(12, 10) == 11;
  }

  /** Move 6 of GAME1. */
  lemma Game1Move6(p: Position)
    requires p.cells == GAME1_AFTER_5 && p.whoseMove == Black
    ensures MakeMove(p, [22, 17]).cells == GAME1_AFTER_6
  {
    StepCells(p, [22, 17]);
  }

  /** Move 7 of GAME1. */
  lemma Game1Move7(p: Position)
    requires p.cells == GAME1_AFTER_6 && p.whoseMove == White
    ensures MakeMove(p, [10, 22, 12]).cells == GAME1_CELLS
  {
    DoubleJumpCells(p, [10, 22, 12]);
    assert JumpedIndex(10, 22) == 16 && JumpedIndex(22, 12) == 17;
  }

  /** Playing GAME1 is playing its seven moves in turn. */
  lemma Game1Unfold(p: Position)
    ensures Replay(p, GAME1)
         == MakeMove(MakeMove(MakeMove(MakeMove(MakeMove(MakeMove(MakeMove(p, GAME1[0]), GAME1[1]), GAME1[2]),
                                                         GAME1[3]), GAME1[4]), GAME1[5]), GAME1[6])
  {
    var q := MakeMove(MakeMove(MakeMove(MakeMove(MakeMove(MakeMove(p, GAME1[0]), GAME1[1]), GAME1[2]),
                                        GAME1[3]), GAME1[4]), GAME1[5]);
    assert Replay(q, GAME1[6..]) == MakeMove(q, GAME1[6]);
  }

  /** Playing GAME1 from the starting squares with White to move. */
  lemma Game1Cells(p: Position)
    requires p.cells == INIT_CELLS && p.whoseMove == White
    ensures Replay(p, GAME1).cells == GAME1_CELLS
  {
    var p1 := MakeMove(p, [7, 12]);
    Game1Move1(p);
    var p2 := MakeMove(p1, [17, 7]);
    Game1Move2(p1);
    var p3 := MakeMove(p2, [2, 12]);
    Game1Move3(p2);
    var p4 := MakeMove(p3, [10, 2]);
    Game1Move4(p3);
    var p5 := MakeMove(p4, [12, 10]);
    Game1Move5(p4);
    var p6 := MakeMove(p5, [22, 17]);
    Game1Move6(p5);
    Game1Move7(p6);
    Game1Unfold(p);
  }

  /** Row 1 of the board after GAME1. */
  lemma Game1Row1()
    ensures RowText(GAME1_CELLS, 0, 5) == "  w w b w w"
  {
    assert Glyph(White) == 'w' && Glyph(Black) == 'b' && Glyph(Empty) == '-';
    FullRow(GAME1_CELLS, 0);
  }

  /** Row 2 of the board after GAME1. */
  lemma Game1Row2()
    ensures RowText(GAME1_CELLS, 1, 5) == "  w - - w w"
  {
    assert Glyph(White) == 'w' && Glyph(Black) == 'b' && Glyph(Empty) == '-';
    FullRow(GAME1_CELLS, 1);
  }

  /** Row 3 of the board after GAME1. */
  lemma Game1Row3()
    ensures RowText(GAME1_CELLS, 2, 5) == "  - - w w w"
  {
    assert Glyph(White) == 'w' && Glyph(Black) == 'b' && Glyph(Empty) == '-';
    FullRow(GAME1_CELLS, 2);
  }

  /** Row 4 of the board after GAME1. */
  lemma Game1Row4()
    ensures RowText(GAME1_CELLS, 3, 5) == "  b - - b b"
  {
    assert Glyph(White) == 'w' && Glyph(Black) == 'b' && Glyph(Empty) == '-';
    FullRow(GAME1_CELLS, 3);
  }

  /** Row 5 of the board after GAME1. */
  lemma Game1Row5()
    ensures RowText(GAME1_CELLS, 4, 5) == "  b b - b b"
  {
    assert Glyph(White) == 'w' && Glyph(Black) == 'b' && Glyph(Empty) == '-';
    FullRow(GAME1_CELLS, 4);
  }

  /** `testMoves`: after GAME1 from the starting position the board reads GAME1_BOARD. */
  lemma Game1Board(p: Position)
    requires p.cells == INIT_CELLS && p.whoseMove == White
    ensures Render(Replay(p, GAME1).cells) == GAME1_BOARD
  {
    Game1Cells(p);
    Game1Row1();
    Game1Row2();
    Game1Row3();
    Game1Row4();
    Game1Row5();
    RenderRows(GAME1_CELLS);
  }
}
